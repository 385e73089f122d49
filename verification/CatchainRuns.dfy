/** Every run of the receiver keeps the invariant; what that means for a caller. */
module CatchainRuns {
  import opened CatchainReceiver
  import opened CatchainInvariant
  import opened CatchainCreate
  import opened CatchainDeliver

  /** Delivery and illness are final; callbacks are only ever appended; bodies, forks and timestamps never change. */
  ghost predicate Later(st: State, r: State) {
    && |r.sources| == |st.sources| && r.maxDeps == st.maxDeps
    && st.log <= r.log && st.ills <= r.ills && st.inDb <= r.inDb
    && (forall c :: c in st.body ==> c in r.body && r.body[c] == st.body[c])
    && (forall c :: Is(st.status, c, Delivered) ==> Is(r.status, c, Delivered))
    && (forall c :: Is(st.status, c, Ill) ==> Is(r.status, c, Ill))
    && (forall c :: Is(st.status, c, Delivered) ==> VtOf(r, c) == VtOf(st, c) && ForkOf(r, c) == ForkOf(st, c))
  }

  lemma LaterTrans(st: State, r: State, q: State)
    requires Later(st, r) && Later(r, q)
    ensures Later(st, q)
  {}

  lemma LaterSources(st: State, r: State)
    requires Later(st, r)
    ensures |r.sources| == |st.sources| && r.maxDeps == st.maxDeps && st.log <= r.log
    ensures forall c :: c in st.body ==> c in r.body && r.body[c] == st.body[c]
  {}

  lemma SickerLater(st: State, r: State)
    requires Sicker(st, r)
    ensures Later(st, r) && r.body == st.body && r.inDb == st.inDb
  {}

  lemma PlacedSources(st: State, r: State, b: BlockId)
    requires Placed(st, b) && |r.sources| == |st.sources|
    requires r == st.(sources := r.sources, custom := r.custom)
    ensures Placed(r, b)
  {}

  lemma CustomKeeps(st: State, x: set<BlockId>, custom: set<BlockId>)
    requires Inv(st, x)
    ensures Inv(st.(custom := custom), x)
  {
    hide Shape, Waiting, Counted, Illness, Ordered, Queue, ForkStatus, ForkTree, ForkOwners, Clocks, Books;
    QueueHolds(st, x);
    QueueSame(st, st.(custom := custom), x);
  }

  lemma QueueHolds(st: State, x: set<BlockId>)
    requires Inv(st, x)
    ensures Queue(st, x)
  {}

  lemma SickenKeeps(st: State, b: BlockId)
    requires Inv(st, {b}) && Is(st.status, b, Initialized)
    ensures Inv(SetIll(st, b), {}) && Sicker(st, SetIll(st, b)) && Is(SetIll(st, b).status, b, Ill)
  {
    hide Inv, Sicker;
    InvWaiters(st, {b});
    SetIllSicker(st, b);
    assert {} + {b} == {b};
    SetIllKeeps(st, {}, b);
  }

  lemma LaterSame(st: State, r: State)
    requires r.status == st.status && r.body == st.body && r.inDb == st.inDb && r.log == st.log && r.ills == st.ills
    requires |r.sources| == |st.sources| && r.maxDeps == st.maxDeps
    requires forall c :: Is(st.status, c, Delivered) ==> VtOf(r, c) == VtOf(st, c) && ForkOf(r, c) == ForkOf(st, c)
    ensures Later(st, r)
  {}

  lemma BlameLater(st: State, s: nat)
    ensures Later(st, Blame(st, s)) && Blame(st, s) == st.(sources := Blame(st, s).sources)
  {
    LaterSame(st, Blame(st, s));
  }

  lemma RejectKeeps(st: State, b: BlockId)
    requires Inv(st, {b}) && Is(st.status, b, Initialized) && b.Id?
    ensures Inv(Reject(st, b), {}) && Is(Reject(st, b).status, b, Ill)
    ensures Later(st, Reject(st, b)) && Reject(st, b).body == st.body && Reject(st, b).inDb == st.inDb
  {
    hide Inv, Sicker, Later, Judge, Blame;
    BlameKeeps(st, {b}, b.src);
    BlameLater(st, b.src);
    var st1 := if Judge(st, b) == MixesForks then Blame(st, b.src) else st;
    SickenKeeps(st1, b);
    SickerLater(st1, SetIll(st1, b));
    LaterSelf(st);
    LaterTrans(st, st1, SetIll(st1, b));
  }

  lemma LaterSelf(st: State)
    ensures Later(st, st)
  {}

  lemma AbsorbKeeps(st: State, b: BlockId)
    requires Inv(st, {b}) && Placed(st, b) && b.Id?
    ensures Inv(Absorb(st, b), {b}) && Placed(Absorb(st, b), b)
    ensures Later(st, Absorb(st, b)) && Absorb(st, b).body == st.body && Absorb(st, b).inDb == st.inDb
  {
    hide Inv, Placed, Blame, Prove;
    var r := Absorb(st, b);
    CustomKeeps(st, {b}, st.custom + {b});
    if b.data.ForkProof? && b.data.left.id.Id? {
      BlameKeeps(st, {b}, b.data.left.id.src);
    }
    PlacedSources(st, r, b);
    LaterSame(st, r);
  }

  lemma PlacedId(st: State, b: BlockId)
    requires Placed(st, b)
    ensures b.Id? && Is(st.status, b, Initialized)
  {}

  lemma PreDeliverKeeps(st: State, b: BlockId)
    requires Inv(st, {b}) && Placed(st, b) && b.Id?
    ensures var r := PreDeliver(st, b);
            && (r.checks <==> Judge(st, b) != NoSource)
            && (r.checks && Is(r.status, b, Ill) ==> Inv(r, {}))
            && (r.checks && !Is(r.status, b, Ill) ==> Inv(r, {b}) && Placed(r, b))
            && (!r.checks ==> r == st.(checks := false))
            && Later(st, r) && r.body == st.body && r.inDb == st.inDb
  {
    hide Inv, Placed, Later, Judge, Reject, Absorb;
    PlacedId(st, b);
    match Judge(st, b)
    case Fine =>
      AbsorbKeeps(st, b);
      PlacedId(Absorb(st, b), b);
      InvChecks(Absorb(st, b), {b});
    case NoSource => LaterSame(st, st.(checks := false));
    case _ =>
      RejectKeeps(st, b);
      InvChecks(Reject(st, b), {});
  }

  lemma ForkLater(st: State, b: BlockId)
    requires b.Id? && !Is(st.status, b, Delivered)
    ensures var r := InitializeFork(st, b);
            Later(st, r) && r.body == st.body && r.inDb == st.inDb
  {
    hide Stamp, Later;
    LaterSame(st, InitializeFork(st, b));
  }

  lemma ReleaseLater(st: State, b: BlockId)
    requires Is(st.status, b, Initialized) && Waiters(st) && NoDup(RevDepsOf(st, b))
    ensures Later(st, Release(st, b)) && Release(st, b).body == st.body && Release(st, b).inDb == st.inDb
  {
    IsUpdate(st.status, b, Delivered);
    forall c | Is(st.status, c, Delivered) ensures VtOf(Release(st, b), c) == VtOf(st, c) {
      MergeIntoAt(st.status[b := Delivered], st.vt, VtOf(st, b), RevDepsOf(st, b), c);
    }
    hide Woken, MergeInto, DecrementAll;
  }

  lemma DeliverLater(st: State, b: BlockId)
    requires b.Id? && Is(st.status, b, Initialized) && Waiters(st) && NoDup(RevDepsOf(st, b))
    ensures Later(st, Deliver(st, b)) && Deliver(st, b).body == st.body && Deliver(st, b).inDb == st.inDb
  {
    ReleaseLater(st, b);
    hide Release, Later;
    LaterSame(Release(st, b), Deliver(st, b));
    LaterTrans(st, Release(st, b), Deliver(st, b));
  }

  /** A run that fails no CHECK keeps the invariant; what is final stays final either way. */
  lemma RunKeeps(st: State, b: BlockId)
    requires Inv(st, {b}) && (Is(st.status, b, Initialized) ==> Ready(st, b))
    ensures Run(st, b).checks ==> Inv(Run(st, b), {})
    ensures !Run(st, b).checks ==>
              Is(st.status, b, Initialized) && b.Id? && Run(st, b) == InitializeFork(st, b).(checks := false) &&
              Judge(InitializeFork(st, b), b) == NoSource
    ensures Later(st, Run(st, b)) && Run(st, b).body == st.body && Run(st, b).inDb == st.inDb
  {
    hide Inv, Placed, Ready, Later, InitializeFork, PreDeliver, Judge, Deliver;
    InvChecks(st, {b});
    if b.Root? || StatusOf(st, b) != Initialized {
      Weaken(st, {b}, {});
      LaterSelf(st);
    } else {
      ReadyId(st, b);
      assert Check(st, PendingOf(st, b) == 0 && b in st.inDb) == st;
      var st1 := InitializeFork(st, b);
      InitializeForkKeeps(st, b);
      ForkLater(st, b);
      PreDeliverKeeps(st1, b);
      var st2 := PreDeliver(st1, b);
      LaterTrans(st, st1, st2);
      if st2.checks && Is(st2.status, b, Ill) {
        StillIll(st2, b);
      } else if st2.checks {
        DeliverKeeps(st2, b);
        InvChecks(Deliver(st2, b), {});
        InvWaiters(st2, {b});
        DeliverFacts(st2, b);
        PlacedId(st2, b);
        DeliverLater(st2, b);
        LaterTrans(st, st2, Deliver(st2, b));
      }
    }
  }

  lemma StillIll(st: State, b: BlockId)
    requires b.Id? && Is(st.status, b, Ill)
    ensures Deliver(st, b) == st
  {}

  lemma ReadyId(st: State, b: BlockId)
    requires Ready(st, b)
    ensures b.Id? && PendingOf(st, b) == 0 && b in st.inDb
  {}

  lemma RunSchedulerKeeps(st: State)
    requires Inv(st, {})
    ensures RunScheduler(st).checks ==> Inv(RunScheduler(st), {}) && RunScheduler(st).toRun == []
    ensures Later(st, RunScheduler(st)) && RunScheduler(st).body == st.body && RunScheduler(st).inDb == st.inDb
    decreases Live(st), |st.toRun|
  {
    hide Inv, Ready, Later, Run;
    LaterSelf(st);
    InvChecks(st, {});
    if st.toRun != [] {
      var b := st.toRun[0];
      var st1 := st.(toRun := st.toRun[1..]);
      PopKeeps(st);
      ReadySame(st, st1, b);
      LaterSame(st, st1);
      RunKeeps(st1, b);
      LaterTrans(st, st1, Run(st1, b));
      assert Live(st1) == Live(st);
      if Run(st1, b).checks {
        RunSchedulerKeeps(Run(st1, b));
        LaterTrans(st, Run(st1, b), RunScheduler(st));
      } else {
        Stopped(Run(st1, b));
      }
    }
  }

  lemma Stopped(st: State)
    requires !st.checks
    ensures RunScheduler(st) == st
  {}

  lemma ReadySame(st: State, r: State, b: BlockId)
    requires r == st.(toRun := r.toRun)
    ensures Ready(st, b) ==> Ready(r, b)
  {}

  // ----- events -----

  /** Nothing is queued and everything received is stored. */
  ghost predicate Settled(st: State) {
    st.toRun == [] && st.body.Keys <= st.inDb
  }

  lemma StubbedLater(st: State, r: State)
    requires Stubbed(st, r)
    ensures Later(st, r)
  {}

  lemma FilledLater(st: State, m: Msg)
    requires Inv(st, {}) && Fits(st, m)
    ensures Later(st, Filled(st, m))
  {
    hide Inv, Stubbed, Later;
    FilledStubs(st, m);
    var st1 := AddStubs(st, [m.prev.id] + Ids(m.deps));
    StubbedLater(st, st1);
    StubUntouched(st1, m.id);
    FillLater(st1, m.id, BodyIn(m));
    LaterTrans(st, st1, Filled(st, m));
  }

  lemma FillLater(st: State, b: BlockId, body: Body)
    requires Is(st.status, b, Stub) && b !in st.body
    ensures Later(st, Fill(st, b, body))
  {}

  lemma LinkLater(st: State, b: BlockId, ps: seq<BlockId>)
    requires b.Id? && !Is(st.status, b, Delivered)
    ensures var r := BlockReceived(LinkAll(st, b, ps), b);
            Later(st, r) && r.body == st.body && r.inDb == st.inDb
  {
    hide Later, BlockReceived;
    LaterSame(st, BlockReceived(LinkAll(st, b, ps), b));
  }

  lemma InitializeLater(st: State, m: Msg)
    requires Inv(st, {}) && Fits(st, m)
    ensures Later(st, Initialize(st, m))
    ensures Initialize(st, m).body == st.body[m.id := BodyIn(m)] && Initialize(st, m).inDb == st.inDb
  {
    hide Inv, Later, Sicker, BlockReceived, LinkAll, SetIll, Initialize, Filled, Waiters, Fits;
    var b, ps, st2 := m.id, ParentsOf(BodyIn(m)), Filled(st, m);
    FilledKeeps(st, m);
    FilledLater(st, m);
    InitializeCases(st, m);
    FitsParents(st, m);
    if AnyIll(st2, ps) {
      InvWaiters(st2, {b});
      SetIllSicker(st2, b);
      SickerLater(st2, SetIll(st2, b));
    } else {
      LinkLater(st2, b, ps);
    }
    LaterTrans(st, st2, Initialize(st, m));
  }

  lemma CreateKeeps(st: State, m: Msg)
    requires Inv(st, {}) && Validate(st, m) && (m.id in st.status ==> st.status[m.id] == Stub)
    ensures var r := Written(CreateBlock(st, m), m.id);
            Inv(r, {}) && Later(st, r) && r.body == st.body[m.id := BodyIn(m)] && r.inDb == st.inDb + {m.id}
  {
    hide Inv, Later, Initialize, Written, Stubbed, Fits;
    var st1 := AddStub(st, m.id);
    AddStubFits(st, m);
    StubbedLater(st, st1);
    StubbedSame(st, st1);
    InitializeKeeps(st1, m);
    InitializeLater(st1, m);
    var st2 := Initialize(st1, m);
    LaterTrans(st, st1, st2);
    FilledKeeps(st1, m);
    WrittenKeeps(st2, m.id);
    WrittenLater(st2, m.id);
    LaterTrans(st, st2, Written(st2, m.id));
  }

  lemma WrittenLater(st: State, b: BlockId)
    ensures Later(st, Written(st, b))
  {
    hide Written;
  }

  lemma IllAgain(st: State, m: Msg)
    requires Inv(st, {}) && Settled(st) && Is(st.status, m.id, Ill) && m.id.Id?
    ensures Written(CreateBlock(st, m), m.id) == st
  {}

  lemma AcceptKeeps(st: State, m: Msg)
    requires Inv(st, {}) && Settled(st)
    ensures Accept(st, m).checks ==> Inv(Accept(st, m), {}) && Settled(Accept(st, m))
    ensures Later(st, Accept(st, m))
    ensures var isNew := StatusOf(st, m.id) == Stub && Validate(st, m);
            Accept(st, m).body == if isNew then st.body[m.id := BodyIn(m)] else st.body
  {
    hide Inv, Later, Validate, Written, CreateBlock;
    LaterSelf(st);
    if !Hashable(|st.sources|, m) {
      LaterSame(st, st.(checks := false));
      NeverValid(st, m);
    } else if StatusOf(st, m.id) != Initialized && StatusOf(st, m.id) != Delivered && Validate(st, m) {
      if Is(st.status, m.id, Ill) {
        ValidId(st, m);
        IllAgain(st, m);
      } else {
        ValidId(st, m);
        var st1 := Written(CreateBlock(st, m), m.id);
        CreateKeeps(st, m);
        RunSchedulerKeeps(st1);
        LaterTrans(st, st1, RunScheduler(st1));
      }
    }
  }

  lemma NeverValid(st: State, m: Msg)
    requires !Hashable(|st.sources|, m)
    ensures !Validate(st, m)
  {}

  lemma ValidId(st: State, m: Msg)
    requires Validate(st, m)
    ensures m.id.Id?
  {}

  lemma StepKeeps(st: State, e: Event)
    requires Inv(st, {}) && Settled(st)
    ensures Step(st, e).checks ==> Inv(Step(st, e), {}) && Settled(Step(st, e))
    ensures Later(st, Step(st, e))
  {
    hide Inv, Later, Blame, Prove, Accept;
    InvChecks(st, {});
    match e
    case Receive(m) => AcceptKeeps(st, m);
    case Proof(l, r) =>
      LaterSelf(st);
      if ValidRef(st, l) && ValidRef(st, r) && IsFork(l.id, r.id) {
        BlameKeeps(st, {}, l.id.src);
        ProofLater(st, l.id.src);
      }
  }

  lemma ProofLater(st: State, s: nat)
    ensures var r := Blame(Prove(st, s), s); Later(st, r) && r == st.(sources := r.sources)
  {
    hide Blame, Prove, Later;
    LaterSame(st, Blame(Prove(st, s), s));
  }

  lemma InitHolds(n: nat, maxDeps: nat)
    ensures Inv(Init(n, maxDeps), {}) && Settled(Init(n, maxDeps))
  {
    hide Shape, Waiting, Counted, Illness, Ordered, Queue, ForkStatus, ForkTree, ForkOwners, Clocks, Books;
    InitGraph();
    InitClocks();
    InitSources(n);
    InitQueue(Init(n, maxDeps));
  }

  lemma InitGraph()
    ensures forall n: nat :: Shape(map[Root := Delivered], map[], n)
    ensures Waiting(map[Root := Delivered], map[], map[], {}) && Counted(map[Root := Delivered], map[], map[], {})
    ensures Illness(map[Root := Delivered], map[], [], {}) && Ordered(map[Root := Delivered], map[], [])
    ensures ForkStatus(map[Root := Delivered], map[], {}) && ForkTree(map[], map[], map[])
  {}

  lemma InitClocks()
    ensures Clocks(map[Root := Delivered], map[], map[], map[], {})
  {}

  lemma InitSources(n: nat)
    ensures Books(map[Root := Delivered], seq(n, _ => NEW_SOURCE)) && ForkOwners(map[], seq(n, _ => NEW_SOURCE), 0)
  {
    var sources := seq(n, _ => NEW_SOURCE);
    forall s | 0 <= s < |sources| ensures Book(map[Root := Delivered], sources[s], s) {}
  }

  lemma InitQueue(st: State)
    requires st.toRun == [] && st.pushed == [] && st.inDb == {}
    ensures Queue(st, {})
  {}

  /** A run in which no CHECK has failed. */
  ghost predicate Alive(n: nat, maxDeps: nat, events: seq<Event>) {
    Execute(n, maxDeps, events).checks
  }

  lemma {:induction false} ExecuteKeeps(n: nat, maxDeps: nat, events: seq<Event>)
    ensures Alive(n, maxDeps, events) ==> Inv(Execute(n, maxDeps, events), {}) && Settled(Execute(n, maxDeps, events))
    ensures |Execute(n, maxDeps, events).sources| == n && Execute(n, maxDeps, events).maxDeps == maxDeps
  {
    hide Inv, Settled, Accept, AcceptProof, Later;
    if events == [] {
      InitHolds(n, maxDeps);
    } else {
      var k := |events| - 1;
      var st := Execute(n, maxDeps, events[..k]);
      ExecuteKeeps(n, maxDeps, events[..k]);
      if st.checks {
        StepKeeps(st, events[k]);
        LaterSources(st, Step(st, events[k]));
      }
    }
  }

  lemma {:induction false} ExecuteLater(n: nat, maxDeps: nat, events: seq<Event>, k: nat)
    requires k <= |events|
    ensures Later(Execute(n, maxDeps, events[..k]), Execute(n, maxDeps, events))
    ensures Alive(n, maxDeps, events) ==> Alive(n, maxDeps, events[..k])
    decreases |events|
  {
    hide Inv, Settled, Accept, AcceptProof, Later;
    var j := |events| - 1;
    if k == |events| {
      assert events[..k] == events;
      LaterSelf(Execute(n, maxDeps, events));
    } else {
      assert events[..j][..k] == events[..k];
      ExecuteKeeps(n, maxDeps, events[..j]);
      ExecuteLater(n, maxDeps, events[..j], k);
      var st := Execute(n, maxDeps, events[..j]);
      LaterSelf(st);
      if st.checks {
        StepKeeps(st, events[j]);
      }
      LaterTrans(Execute(n, maxDeps, events[..k]), st, Execute(n, maxDeps, events));
    }
  }
}
