/** What gets into the receiver: exactly the well-formed blocks with good signatures. */
module CatchainAdmission {
  import opened CatchainReceiver
  import opened CatchainInvariant
  import opened CatchainCreate
  import opened CatchainRuns

  /** The root is signed by nobody and belongs to source number `n`, one past the last. */
  function Signer(n: nat, b: BlockId): nat {
    if b.Root? then n else b.src
  }

  /** A reference is to the root, or to a block of an existing source that is known or whose signature is good. */
  ghost predicate Backed(n: nat, known: set<BlockId>, d: DepRef) {
    d.id.Root? || (d.id.height > 0 && d.id.src < n && (d.signed || d.id in known))
  }

  /** A signed block one above its `prev`, with few dependencies on as many other sources, all references backed. */
  ghost predicate Genuine(n: nat, maxDeps: nat, known: set<BlockId>, m: Msg) {
    && m.signed && m.id.Id? && m.id.height > 0 && m.id.src < n && m.id.data != Empty
    && (if m.id.height == 1 then m.prev.id.Root?
        else m.prev.id.Id? && m.prev.id.src == m.id.src && m.prev.id.height == m.id.height - 1)
    && |m.deps| <= maxDeps
    && (forall i :: 0 <= i < |m.deps| ==> Signer(n, m.deps[i].id) != m.id.src)
    && (forall i, j :: 0 <= i < j < |m.deps| ==> Signer(n, m.deps[i].id) != Signer(n, m.deps[j].id))
    && Backed(n, known, m.prev) && forall i :: 0 <= i < |m.deps| ==> Backed(n, known, m.deps[i])
  }

  lemma BackedIff(st: State, d: DepRef)
    ensures ValidRef(st, d) <==> Backed(|st.sources|, st.status.Keys, d)
  {}

  lemma ValidateIff(st: State, m: Msg)
    ensures Validate(st, m) <==> Genuine(|st.sources|, st.maxDeps, st.status.Keys, m)
  {
    hide ValidRef, Backed;
    var n := |st.sources|;
    BackedIff(st, m.prev);
    forall i | 0 <= i < |m.deps| ensures ValidRef(st, m.deps[i]) <==> Backed(n, st.status.Keys, m.deps[i]) {
      BackedIff(st, m.deps[i]);
    }
    if forall i :: 0 <= i < |m.deps| ==> Backed(n, st.status.Keys, m.deps[i]) {
      forall i | 0 <= i < |m.deps| && m.deps[i].id.Id? ensures m.deps[i].id.src < n {
        BackedSource(n, st.status.Keys, m.deps[i]);
      }
    }
  }

  lemma BackedSource(n: nat, known: set<BlockId>, d: DepRef)
    requires Backed(n, known, d)
    ensures d.id.Id? ==> d.id.src < n
  {}

  /** A block of an existing source is taken exactly if it is genuine and new; anything else leaves no trace. */
  lemma TakenIff(st: State, m: Msg)
    requires Inv(st, {}) && Settled(st) && (m.id.Id? ==> m.id.src < |st.sources|)
    ensures var r, genuine := Accept(st, m), Genuine(|st.sources|, st.maxDeps, st.status.Keys, m);
            && (m.id !in st.body && genuine ==> r.body == st.body[m.id := BodyIn(m)])
            && (m.id in st.body || !genuine ==> r == st)
  {
    NotReceived(st, m.id);
    AcceptKeeps(st, m);
    ValidateIff(st, m);
    hide Inv, Validate, Genuine, Written, CreateBlock;
    if Is(st.status, m.id, Ill) && m.id.Id? {
      IllAgain(st, m);
      NothingQueued(st);
    }
  }

  lemma NotReceived(st: State, b: BlockId)
    requires Inv(st, {})
    ensures b in st.body <==> StatusOf(st, b) != Stub && b != Root
    ensures StatusOf(st, Root) == Delivered
  {}

  lemma NothingQueued(st: State)
    requires Settled(st)
    ensures RunScheduler(st) == st
  {}

  /** The message that arrives last is taken exactly if it is genuine and new, and otherwise changes nothing at all. */
  lemma AdmittedIff(n: nat, maxDeps: nat, events: seq<Event>, m: Msg)
    requires Alive(n, maxDeps, events) && (m.id.Id? ==> m.id.src < n)
    ensures var st, r := Execute(n, maxDeps, events), Execute(n, maxDeps, events + [Receive(m)]);
            var genuine := Genuine(n, maxDeps, st.status.Keys, m);
            && (m.id !in st.body && genuine ==> r.body == st.body[m.id := Body(m.prev.id, Ids(m.deps))])
            && (m.id in st.body || !genuine ==> r == st)
  {
    hide Inv, Settled, Genuine, Accept;
    assert (events + [Receive(m)])[..|events|] == events;
    ExecuteKeeps(n, maxDeps, events);
    TakenIff(Execute(n, maxDeps, events), m);
  }

  /** Event `k` brought block `b`, and it was genuine when it arrived. */
  ghost predicate Brought(n: nat, maxDeps: nat, events: seq<Event>, b: BlockId, body: Body, k: nat) {
    && k < |events| && events[k].Receive?
    && events[k].m.id == b && body == Body(events[k].m.prev.id, Ids(events[k].m.deps))
    && Genuine(n, maxDeps, Execute(n, maxDeps, events[..k]).status.Keys, events[k].m)
  }

  /**
    In every run each block the receiver holds came in a message that was genuine when it arrived: signed,
    with at most `max_deps` dependencies on distinct other sources, and with every reference signed or known.
  */
  lemma {:induction false} OnlyGenuineBlocks(n: nat, maxDeps: nat, events: seq<Event>, b: BlockId)
    requires b in Execute(n, maxDeps, events).body
    ensures exists k: nat :: Brought(n, maxDeps, events, b, Execute(n, maxDeps, events).body[b], k)
  {
    hide Inv, Settled, Genuine, Accept, AcceptProof;
    if events != [] {
      var i := |events| - 1;
      var st, r := Execute(n, maxDeps, events[..i]), Execute(n, maxDeps, events);
      ExecuteKeeps(n, maxDeps, events[..i]);
      assert b in st.body ==> st.checks || r == st;
      if st.checks {
        StepBodies(st, events[i]);
      }
      if b in st.body {
        OnlyGenuineBlocks(n, maxDeps, events[..i], b);
        var k: nat :| Brought(n, maxDeps, events[..i], b, st.body[b], k);
        assert events[..i][..k] == events[..k] && events[..i][k] == events[k];
        assert Brought(n, maxDeps, events, b, r.body[b], k);
      } else {
        assert Brought(n, maxDeps, events, b, r.body[b], i);
      }
    }
  }

  lemma StepBodies(st: State, e: Event)
    requires Inv(st, {}) && Settled(st) && st.checks
    ensures forall c :: c in Step(st, e).body ==>
              if c in st.body then Step(st, e).body[c] == st.body[c]
              else e.Receive? && e.m.id == c && Step(st, e).body[c] == BodyIn(e.m) &&
                   Genuine(|st.sources|, st.maxDeps, st.status.Keys, e.m)
  {
    match e
    case Receive(m) =>
      hide Inv, Genuine, Accept;
      NotReceived(st, m.id);
      AcceptKeeps(st, m);
      ValidateIff(st, m);
    case Proof(_, _) => {}
  }
}
