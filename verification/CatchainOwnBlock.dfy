/** While no source is blamed, a fresh local block without redundant dependencies is delivered at once. */
module CatchainOwnBlock {
  import opened CatchainReceiver
  import opened CatchainInvariant
  import opened CatchainCreate
  import opened CatchainRuns
  import opened CatchainVectorTime
  import opened CatchainVerdict

  ghost predicate Unblamed(st: State) {
    forall s :: 0 <= s < |st.sources| ==> !st.sources[s].blamed
  }

  /** The node's own validation and `pre_deliver` accept the block, and no source gets blamed by it. */
  lemma OwnAccepted(st: State, m: Msg)
    requires Inv(st, {}) && Settled(st) && Unblamed(st) && Extends(st, m)
    requires forall x :: x in BodyIn(m).deps ==> x.Id? && !Reaches(st.body, m.prev.id, x)
    ensures var q := Accept(st, m);
            q.checks && Is(q.status, m.id, Delivered) && Unblamed(q) && q.log == st.log + [m.id]
  {
    hide Inv, Settled, Extends, Reaches, Accept;
    FreshAccepted(st, m);
  }
}
