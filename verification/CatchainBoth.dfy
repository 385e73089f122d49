/** Receiver and upper half together, with any forks and any blames. */
module CatchainBoth {
  import opened CatchainReceiver
  import opened CatchainInvariant
  import opened CatchainRuns
  import opened CatchainVectorTime
  import opened CatchainConfluence
  import opened CatchainUpper

  /** `seen` counts the `new_block` callbacks the upper half has taken. */
  datatype Both = Both(st: State, u: Upper, seen: nat)

  datatype BothEvent = Arrive(e: Event) | Take | Accuse(src: nat) | Choose(draws: seq<BlockId>)

  ghost function CallbackOf(st: State, b: BlockId): UpperEvent {
    NewBlock(b, BodyOf(st, b), ForkOf(st, b), VtOf(st, b))
  }

  ghost function Try(u: Upper, e: UpperEvent): Upper {
    if Possible(u, e) then UpperStep(u, e) else u
  }

  ghost function BothStep(s: Both, e: BothEvent): Both {
    match e
    case Arrive(ev) => s.(st := Step(s.st, ev))
    case Take =>
      if s.seen >= |s.st.log| then s
      else s.(u := Try(s.u, CallbackOf(s.st, s.st.log[s.seen])), seen := s.seen + 1)
    case Accuse(src) => s.(u := Try(s.u, Blamed(src)))
    case Choose(draws) => s.(u := Try(s.u, Process(draws)))
  }

  ghost function BothRun(n: nat, maxDeps: nat, me: nat, events: seq<BothEvent>): Both {
    if events == [] then Both(Init(n, maxDeps), InitUpper(me, maxDeps), 0)
    else BothStep(BothRun(n, maxDeps, me, events[..|events| - 1]), events[|events| - 1])
  }

  /** The upper half knows a prefix of the deliveries, with the receiver's own edges, forks and timestamps. */
  ghost predicate Mirrors(st: State, u: Upper, seen: nat) {
    && seen <= |st.log| && u.order == st.log[..seen] && UpperInv(u)
    && (forall b {:trigger Copied(st, u, b)} :: b in u.body ==> Copied(st, u, b))
  }

  ghost predicate Copied(st: State, u: Upper, b: BlockId) {
    && b in u.body && Is(st.status, b, Delivered) && b in st.body && u.body[b] == st.body[b]
    && ForkAt(u, b) == ForkOf(st, b) && VtAt(u, b) == VtOf(st, b)
  }

  lemma CopiedLater(st: State, r: State, u: Upper, b: BlockId)
    requires Later(st, r) && Copied(st, u, b)
    ensures Copied(r, u, b)
  {}

  lemma MirrorsLater(st: State, r: State, u: Upper, seen: nat)
    requires Mirrors(st, u, seen) && Later(st, r)
    ensures Mirrors(r, u, seen)
  {
    hide UpperInv, Copied;
    LogLater(st, r, seen);
    forall b | b in u.body ensures Copied(r, u, b) {
      CopiedLater(st, r, u, b);
    }
  }

  lemma LogLater(st: State, r: State, k: nat)
    requires Later(st, r) && k <= |st.log|
    ensures k <= |r.log| && r.log[..k] == st.log[..k]
  {}

  lemma MirrorsSame(st: State, u: Upper, r: Upper, seen: nat)
    requires Mirrors(st, u, seen) && UpperInv(r)
    requires r.order == u.order && r.body == u.body && r.fork == u.fork && r.vt == u.vt
    ensures Mirrors(st, r, seen)
  {
    hide UpperInv;
    forall b | b in r.body ensures Copied(st, r, b) {
      assert Copied(st, u, b);
    }
  }

  lemma {:induction false} DrawAllCopies(u: Upper, draws: seq<BlockId>)
    requires Arrived(u.body, u.order)
    ensures DrawAll(u, draws).fork == u.fork && DrawAll(u, draws).vt == u.vt
    decreases |draws|
  {
    hide SetProcessed;
    if draws != [] {
      DrawAllCopies(Draw(u, draws[0]), draws[1..]);
    }
  }

  lemma OwnStepKeeps(st: State, u: Upper, seen: nat, e: UpperEvent)
    requires Mirrors(st, u, seen) && !e.NewBlock? && Possible(u, e)
    ensures Mirrors(st, UpperStep(u, e), seen)
  {
    hide UpperInv, Copied, Arrived, Frontier;
    UpperStepKeeps(u, e);
    if e.Process? {
      DrawAllCopies(u.(batch := []), e.draws);
    }
    MirrorsSame(st, u, UpperStep(u, e), seen);
  }

  /** Every callback finds the parents of its block, and the block is new. */
  lemma CallbackPossible(st: State, u: Upper, seen: nat)
    requires Inv(st, {}) && Mirrors(st, u, seen) && seen < |st.log|
    ensures Possible(u, CallbackOf(st, st.log[seen])) && st.log[seen] in st.body && st.log[seen] !in u.body
    ensures Is(st.status, st.log[seen], Delivered)
  {
    hide UpperInv, Inv, Linear, Copied;
    InvArrived(u);
    LogOrder(st, seen);
    LogUnique(st, seen);
    var b := st.log[seen];
    assert forall c :: c in st.log[..seen] <==> c in u.body;
    assert BodyOf(st, b) == st.body[b];
  }

  lemma CallbackKeeps(st: State, u: Upper, seen: nat)
    requires Inv(st, {}) && Mirrors(st, u, seen) && seen < |st.log|
    ensures Possible(u, CallbackOf(st, st.log[seen]))
    ensures Mirrors(st, UpperStep(u, CallbackOf(st, st.log[seen])), seen + 1)
  {
    hide UpperInv, Inv, Acceptable, OnNewBlock, Copied;
    CallbackPossible(st, u, seen);
    var b := st.log[seen];
    var r := UpperStep(u, CallbackOf(st, b));
    UpperStepKeeps(u, CallbackOf(st, b));
    NewBlockCopies(u, b, BodyOf(st, b), ForkOf(st, b), VtOf(st, b));
    assert st.log[..seen + 1] == st.log[..seen] + [b];
    forall c | c in r.body ensures Copied(st, r, c) {
      OneCopied(st, u, r, b, c);
    }
  }

  lemma NewBlockCopies(u: Upper, b: BlockId, body: Body, fork: nat, vt: seq<nat>)
    requires Acceptable(u, b, body)
    ensures var r := OnNewBlock(u, b, body, fork, vt);
            r.order == u.order + [b] && r.body == u.body[b := body] && r.fork == u.fork[b := fork] && r.vt == u.vt[b := vt]
  {
    hide SendPreprocess, Arrived;
  }

  lemma OneCopied(st: State, u: Upper, r: Upper, b: BlockId, c: BlockId)
    requires b in st.body && Is(st.status, b, Delivered) && c in r.body && (c in u.body && c != b ==> Copied(st, u, c))
    requires r.body == u.body[b := BodyOf(st, b)] && r.fork == u.fork[b := ForkOf(st, b)] && r.vt == u.vt[b := VtOf(st, b)]
    ensures Copied(st, r, c)
  {}

  /** The copies of the timestamps answer ancestry, which is what `on_blame` relies on. */
  lemma MirrorsClocked(st: State, u: Upper, seen: nat)
    requires Inv(st, {}) && Mirrors(st, u, seen)
    ensures Clocked(u)
  {
    hide UpperInv, Inv, Reaches, IsDescendantOf;
    RootHasNoBody(st);
    UpperBody(u);
    forall c | c in u.body ensures c in st.body && st.body[c] == u.body[c] {
      assert Copied(st, u, c);
    }
    forall a, b | a in u.body && b in u.body ensures Descends(u, b, a) <==> Reaches(u.body, b, a) {
      assert Copied(st, u, a) && Copied(st, u, b);
      DescendantIffReaches(st, a, b);
      ReachesStable(u.body, st.body, u.body.Keys, b, a);
    }
  }

  lemma BothStepKeeps(s: Both, e: BothEvent)
    requires Inv(s.st, {}) && Settled(s.st) && Mirrors(s.st, s.u, s.seen)
    ensures var r := BothStep(s, e);
            r.st.checks ==> Inv(r.st, {}) && Settled(r.st) && Mirrors(r.st, r.u, r.seen)
  {
    hide Inv, Settled, Mirrors, Step, Later, Possible, UpperStep;
    match e
    case Arrive(ev) =>
      StepKeeps(s.st, ev);
      MirrorsLater(s.st, Step(s.st, ev), s.u, s.seen);
    case Take =>
      if s.seen < |s.st.log| {
        CallbackKeeps(s.st, s.u, s.seen);
      }
    case Accuse(src) =>
      if Possible(s.u, Blamed(src)) {
        OwnStepKeeps(s.st, s.u, s.seen, Blamed(src));
      }
    case Choose(draws) =>
      if Possible(s.u, Process(draws)) {
        OwnStepKeeps(s.st, s.u, s.seen, Process(draws));
      }
  }

  lemma {:induction false} BothKeep(n: nat, maxDeps: nat, me: nat, events: seq<BothEvent>)
    ensures var s := BothRun(n, maxDeps, me, events);
            s.st.checks ==> Inv(s.st, {}) && Settled(s.st) && Mirrors(s.st, s.u, s.seen)
  {
    hide Inv, Settled, BothStep, Mirrors;
    if events == [] {
      InitHolds(n, maxDeps);
      InitUpperHolds(me, maxDeps);
      InitMirrors(n, maxDeps, me);
    } else {
      var s := BothRun(n, maxDeps, me, events[..|events| - 1]);
      BothKeep(n, maxDeps, me, events[..|events| - 1]);
      if s.st.checks {
        BothStepKeeps(s, events[|events| - 1]);
      } else {
        StaysDead(s, events[|events| - 1]);
      }
    }
  }

  lemma InitMirrors(n: nat, maxDeps: nat, me: nat)
    requires UpperInv(InitUpper(me, maxDeps))
    ensures Mirrors(Init(n, maxDeps), InitUpper(me, maxDeps), 0)
  {
    hide UpperInv;
  }

  lemma StaysDead(s: Both, e: BothEvent)
    requires !s.st.checks
    ensures !BothStep(s, e).st.checks
  {
    hide Possible, UpperStep;
  }

  /**
    In every interleaving of the two halves, forks and blames included, until a CHECK fails: the next callback always finds
    the parents of its block, and the upper half's copies of the timestamps answer ancestry exactly.
  */
  lemma HalvesAgree(n: nat, maxDeps: nat, me: nat, events: seq<BothEvent>)
    requires BothRun(n, maxDeps, me, events).st.checks
    ensures var s := BothRun(n, maxDeps, me, events);
            && Clocked(s.u)
            && (s.seen < |s.st.log| ==> Possible(s.u, CallbackOf(s.st, s.st.log[s.seen])))
  {
    hide Inv, Settled, BothRun, Clocked, Possible, Mirrors;
    BothKeep(n, maxDeps, me, events);
    var s := BothRun(n, maxDeps, me, events);
    MirrorsClocked(s.st, s.u, s.seen);
    if s.seen < |s.st.log| {
      CallbackPossible(s.st, s.u, s.seen);
    }
  }
}
