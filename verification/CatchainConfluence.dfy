/** Arrival order does not matter: every run over the same fork-free set of blocks ends the same way. */
module CatchainConfluence {
  import opened CatchainReceiver
  import opened CatchainInvariant
  import opened CatchainCreate
  import opened CatchainDeliver
  import opened CatchainRuns
  import opened CatchainVectorTime

  // ----- the blocks of a run -----

  /** Valid signed blocks, one per (source, height), none of them a fork proof or directly dependent on the root. */
  ghost predicate Pool(n: nat, maxDeps: nat, pool: map<BlockId, Msg>) {
    && (forall b :: b in pool ==>
          && pool[b].id == b && Validate(Init(n, maxDeps), pool[b]) && !b.data.ForkProof?
          && Root !in BodyIn(pool[b]).deps)
    && (forall a, b :: a in pool && b in pool && a.src == b.src && a.height == b.height ==> a == b)
  }

  ghost predicate Arrives(pool: map<BlockId, Msg>, e: Event) {
    e.Receive? && e.m.id in pool && pool[e.m.id] == e.m
  }

  ghost function Edges(pool: map<BlockId, Msg>): Bodies {
    map b | b in pool :: BodyIn(pool[b])
  }

  // ----- one fork per source -----

  ghost predicate Single(st: State) {
    forall s :: 0 <= s < |st.sources| ==> |st.sources[s].forks| <= 1
  }

  lemma SingleSame(st: State, r: State)
    requires Single(st) && |r.sources| == |st.sources|
    requires forall s :: 0 <= s < |st.sources| ==> r.sources[s].forks == st.sources[s].forks
    ensures Single(r)
  {}

  /** No other block of the same source has the same height. */
  ghost predicate Alone(body: Bodies, b: BlockId) {
    forall c :: c in body && c.Id? && b.Id? && c.src == b.src && c.height == b.height ==> c == b
  }

  /** A second fork would need a second block of the same source and height. */
  lemma NoSecondFork(st: State, b: BlockId)
    requires ForkOwners(st.fork, st.sources, st.totalForks) && Successors(st.fork, st.next)
    requires b in st.body && b !in st.fork && b.Id? && b.src < |st.sources|
    requires WellFormed(|st.sources|, b, st.body[b]) && st.fork.Keys <= st.body.Keys && Alone(st.body, b)
    ensures st.body[b].prev !in st.next
    ensures b.height == 1 ==> st.sources[b.src].forks == []
  {
    forall c | c in st.fork && c.Id? && c.src == b.src ensures c.height != b.height {
      assert c in st.body;
    }
  }

  lemma ForkFields(st: State, b: BlockId)
    requires b in st.body && b.Id? && b.src < |st.sources| && st.body[b].prev !in st.next
    ensures var r := InitializeFork(st, b);
            && r.fork == st.fork[b := NewForkOf(st, b)]
            && r.next == (if b.height == 1 then st.next else st.next[st.body[b].prev := b])
            && (forall s :: 0 <= s < |st.sources| ==>
                  r.sources[s].forks == st.sources[s].forks +
                    if s == b.src && b.height == 1 then [st.totalForks + 1] else [])
  {
    hide Stamp, At, BlameSource;
    AddForkForks(st.sources[b.src], st.totalForks + 1);
    hide AddFork;
  }

  lemma AddForkForks(src: Source, f: nat)
    ensures AddFork(src, f).forks == src.forks + [f]
  {}

  lemma SingleNewFork(st: State, b: BlockId)
    requires Inv(st, {b}) && Single(st) && b in st.body && b !in st.fork && b.Id? && b.src < |st.sources|
    requires WellFormed(|st.sources|, b, st.body[b]) && st.fork.Keys <= st.body.Keys && Alone(st.body, b)
    ensures Single(InitializeFork(st, b))
  {
    hide Inv, Alone, InitializeFork;
    InvOwners(st, {b});
    NoSecondFork(st, b);
    ForkFields(st, b);
  }

  // ----- verdicts -----

  /** Some direct dependency is already covered by the previous block's timestamp. */
  ghost predicate StaleDep(st: State, b: BlockId) {
    b in st.body && exists x :: x in st.body[b].deps && IsStale(st, VtOf(st, st.body[b].prev), x)
  }

  ghost predicate AllDelivered(st: State, b: BlockId) {
    b in st.body && forall p :: Parent(st.body[b], p) ==> Is(st.status, p, Delivered)
  }

  ghost predicate Judged(st: State) {
    && (forall b :: b in st.body && Is(st.status, b, Delivered) ==> !StaleDep(st, b))
    && (forall i {:trigger st.ills[i]} :: 0 <= i < |st.ills| ==>
          Caught(st.body, st.ills, i) || (AllDelivered(st, st.ills[i]) && StaleDep(st, st.ills[i])))
  }

  /** New deliveries are not stale, new illnesses are caught or stale. */
  ghost predicate JudgedStep(st: State, r: State) {
    && Later(st, r)
    && (forall b :: b in r.body && Is(r.status, b, Delivered) && !Is(st.status, b, Delivered) ==> !StaleDep(r, b))
    && (forall i {:trigger r.ills[i]} :: |st.ills| <= i < |r.ills| ==>
          Caught(r.body, r.ills, i) || (AllDelivered(r, r.ills[i]) && StaleDep(r, r.ills[i])))
  }

  lemma StaleFrozen(st: State, r: State, b: BlockId)
    requires Later(st, r) && AllDelivered(st, b)
    ensures AllDelivered(r, b) && (StaleDep(r, b) <==> StaleDep(st, b))
  {
    assert r.body[b] == st.body[b];
    var prev := st.body[b].prev;
    assert Parent(st.body[b], prev);
    forall x | x in st.body[b].deps
      ensures IsStale(r, VtOf(r, prev), x) <==> IsStale(st, VtOf(st, prev), x)
    {
      assert Parent(st.body[b], x) && Is(st.status, x, Delivered);
    }
  }

  lemma CaughtLater(st: State, r: State, i: nat)
    requires Later(st, r) && Caught(st.body, st.ills, i)
    ensures Caught(r.body, r.ills, i)
  {
    var j :| 0 <= j < i && Parent(st.body[st.ills[i]], st.ills[j]);
    assert r.ills[j] == st.ills[j] && r.ills[i] == st.ills[i];
  }

  lemma JudgedKeeps(st: State, r: State)
    requires Judged(st) && JudgedStep(st, r) && Closed(st.status, st.body)
    requires forall b :: b in r.body && Is(st.status, b, Delivered) ==> b in st.body
    ensures Judged(r)
  {
    forall b | b in r.body && Is(r.status, b, Delivered) ensures !StaleDep(r, b) {
      if Is(st.status, b, Delivered) {
        assert AllDelivered(st, b);
        StaleFrozen(st, r, b);
      }
    }
    forall i | 0 <= i < |r.ills|
      ensures Caught(r.body, r.ills, i) || (AllDelivered(r, r.ills[i]) && StaleDep(r, r.ills[i]))
    {
      if i < |st.ills| {
        assert r.ills[i] == st.ills[i];
        if Caught(st.body, st.ills, i) {
          CaughtLater(st, r, i);
        } else {
          StaleFrozen(st, r, st.ills[i]);
        }
      }
    }
  }

  lemma {:induction false} ScanDepsMeans(st: State, vt: seq<nat>, deps: seq<BlockId>)
    ensures ScanDeps(st, vt, deps) == Fine <==>
              forall x :: x in deps ==> x.Id? && !IsStale(st, vt, x) && !MixesFork(st, vt, x)
    ensures ScanDeps(st, vt, deps) == NoSource ==> Root in deps
    ensures ScanDeps(st, vt, deps) == Stale ==> exists x :: x in deps && IsStale(st, vt, x)
    ensures ScanDeps(st, vt, deps) == MixesForks ==> exists x :: x in deps && MixesFork(st, vt, x)
    ensures ScanDeps(st, vt, deps) != BadProof
  {
    hide IsStale, MixesFork;
    if deps != [] {
      ScanDepsMeans(st, vt, deps[1..]);
      assert deps[0] in deps && forall x :: x in deps[1..] ==> x in deps;
      assert forall x :: x in deps ==> x == deps[0] || x in deps[1..];
    }
  }

  /** With one fork per source, the only ground for rejecting a ready block is a stale dependency. */
  lemma VerdictIsStaleness(st: State, b: BlockId)
    requires ForkOwners(st.fork, st.sources, st.totalForks)
    requires Single(st) && b in st.body && b.Id? && !b.data.ForkProof?
    requires forall x :: x in st.body[b].deps ==> x in st.fork && x != Root
    ensures if StaleDep(st, b) then Judge(st, b) == Stale else Judge(st, b) == Fine
  {
    hide ScanDeps;
    var vt, deps := VtOf(st, st.body[b].prev), st.body[b].deps;
    ScanDepsMeans(st, vt, deps);
    forall x | x in deps ensures !MixesFork(st, vt, x) {
      assert st.fork[x] in st.sources[x.src].forks;
      assert forall f :: f in st.sources[x.src].forks ==> f == st.fork[x];
    }
    hide MixesFork, IsStale, ForkOwners, Single;
  }

  // ----- preservation -----

  ghost predicate Pooled(st: State, pool: map<BlockId, Msg>) {
    forall b :: b in st.body ==> b in pool && st.body[b] == BodyIn(pool[b])
  }

  ghost predicate Tidy(st: State, pool: map<BlockId, Msg>) {
    Inv(st, {}) && Single(st) && Judged(st) && Pooled(st, pool)
  }

  lemma ForksBlamed(st: State, r: State)
    requires Sicker(st, r)
    ensures forall s :: 0 <= s < |st.sources| ==> r.sources[s].forks == st.sources[s].forks
  {}

  /** A rejected block is stale, and every illness it spreads is caught. */
  lemma RejectJudged(st: State, b: BlockId)
    requires Inv(st, {b}) && Is(st.status, b, Initialized) && b.Id? && Single(st)
    requires AllDelivered(st, b) && StaleDep(st, b) && Judge(st, b) == Stale
    ensures JudgedStep(st, Reject(st, b)) && Single(Reject(st, b))
  {
    hide Inv, Judge, Single, StaleDep, Later;
    var r := Reject(st, b);
    InvWaiters(st, {b});
    SetIllSicker(st, b);
    SickerLater(st, r);
    StaleFrozen(st, r, b);
    ForksBlamed(st, r);
    SingleSame(st, r);
    forall i | |st.ills| <= i < |r.ills|
      ensures Caught(r.body, r.ills, i) || (AllDelivered(r, r.ills[i]) && StaleDep(r, r.ills[i]))
    {
      assert r.ills[i] in {b} || Caught(st.body, r.ills, i);
    }
  }

  lemma OneDelivered(st: State, r: State, b: BlockId)
    requires Later(st, r) && r.status == st.status[b := Delivered] && r.ills == st.ills && !StaleDep(r, b)
    ensures JudgedStep(st, r)
  {
    hide StaleDep, Later;
    IsUpdate(st.status, b, Delivered);
  }

  lemma DeliverJudged(st: State, b: BlockId)
    requires Inv(st, {b}) && Placed(st, b) && b.Id? && !StaleDep(st, b) && AllDelivered(st, b) && Single(st)
    requires !b.data.ForkProof?
    ensures var r := Deliver(Absorb(st, b), b); JudgedStep(st, r) && Single(r)
  {
    hide Inv, Placed, Single, StaleDep, AllDelivered, Later, Deliver, Absorb, JudgedStep, Waiters;
    var st1 := Absorb(st, b);
    AbsorbKeeps(st, b);
    DeliverKeeps(st1, b);
    InvWaiters(st1, {b});
    DeliverFacts(st1, b);
    PlacedId(st, b);
    PlacedId(st1, b);
    DeliverLater(st1, b);
    var r := Deliver(st1, b);
    LaterTrans(st, st1, r);
    StaleFrozen(st, r, b);
    DeliverSame(st, b);
    SingleSame(st, r);
    OneDelivered(st, r, b);
  }

  lemma DeliverSame(st: State, b: BlockId)
    requires b.Id? && Is(st.status, b, Initialized)
    ensures var r := Deliver(Absorb(st, b), b);
            && r.fork == st.fork && r.next == st.next && r.ills == st.ills && |r.sources| == |st.sources|
            && r.status == st.status[b := Delivered] && r.body == st.body
            && (forall s :: 0 <= s < |st.sources| ==> r.sources[s].forks == st.sources[s].forks)
  {
    hide Woken, MergeInto, DecrementAll, Advance, Absorb;
    AbsorbForks(st, b);
  }

  lemma AbsorbForks(st: State, b: BlockId)
    requires b.Id?
    ensures var r := Absorb(st, b);
            r == st.(sources := r.sources, custom := r.custom) && |r.sources| == |st.sources| &&
            forall s :: 0 <= s < |st.sources| ==> r.sources[s].forks == st.sources[s].forks
  {
    hide Blame, Prove;
    if b.data.ForkProof? && b.data.left.id.Id? {
      BlameForks(st, b.data.left.id.src);
      assert Absorb(st, b) == Blame(Prove(st, b.data.left.id.src), b.data.left.id.src);
    } else {
      assert Absorb(st, b).sources == st.sources;
    }
  }

  lemma BlameForks(st: State, t: nat)
    ensures var r := Blame(Prove(st, t), t);
            |r.sources| == |st.sources| && forall s :: 0 <= s < |st.sources| ==> r.sources[s].forks == st.sources[s].forks
  {
    hide BlameSource;
    if t < |st.sources| {
      var src := st.sources[t].(proven := true);
      assert BlameSource(src).forks == src.forks by { BlameKeepsForks(src); }
      assert Blame(Prove(st, t), t).sources == st.sources[t := BlameSource(src)];
    }
  }

  lemma BlameKeepsForks(src: Source)
    ensures BlameSource(src).forks == src.forks
  {}

  /** A run of a ready block places it and then delivers or rejects it on the verdict. */
  lemma RunVerdict(st: State, b: BlockId)
    requires Inv(st, {b}) && Ready(st, b) && b.Id?
    ensures var st1 := InitializeFork(st, b);
            && Inv(st1, {b}) && Placed(st1, b) && AllDelivered(st1, b) && Later(st, st1)
            && (Judge(st1, b) == Fine ==> Run(st, b) == Deliver(Absorb(st1, b), b))
            && (Judge(st1, b) == NoSource ==> Run(st, b) == st1.(checks := false))
            && (Judge(st1, b) != Fine && Judge(st1, b) != NoSource ==> Run(st, b) == Reject(st1, b))
  {
    hide Inv, Placed, Later, AllDelivered, StaleDep, InitializeFork, Deliver, Absorb, Reject, Judge, Ready;
    ReadyFacts(st, b);
    InvChecks(st, {b});
    assert Check(st, PendingOf(st, b) == 0 && b in st.inDb) == st;
    var st1 := InitializeFork(st, b);
    InitializeForkKeeps(st, b);
    PlacedId(st1, b);
    ForkLater(st, b);
    StaleFrozen(st, st1, b);
    PreDeliverKeeps(st1, b);
    if Judge(st1, b) != Fine && Judge(st1, b) != NoSource {
      RejectKeeps(st1, b);
      StillIll(Reject(st1, b), b);
    }
  }

  /** With one fork per source it rejects exactly when the block is stale. */
  lemma RunCases(st: State, b: BlockId)
    requires Inv(st, {b}) && Ready(st, b) && Single(st) && Alone(st.body, b) && b.Id? && !b.data.ForkProof?
    requires b in st.body && Root !in st.body[b].deps
    ensures var st1 := InitializeFork(st, b);
            && Inv(st1, {b}) && Placed(st1, b) && Single(st1) && AllDelivered(st1, b) && Judge(st1, b) != NoSource
            && (if StaleDep(st1, b) then Judge(st1, b) == Stale && Run(st, b) == Reject(st1, b)
                else Run(st, b) == Deliver(Absorb(st1, b), b))
  {
    hide Inv, Placed, Later, Single, StaleDep, AllDelivered, InitializeFork, Deliver, Absorb, Reject, Judge, Ready, Alone, Run;
    ReadyFacts(st, b);
    var st1 := InitializeFork(st, b);
    RunVerdict(st, b);
    SingleNewFork(st, b);
    InvOwners(st1, {b});
    PlacedDeps(st1, b);
    VerdictIsStaleness(st1, b);
  }

  lemma RunJudged(st: State, b: BlockId, pool: map<BlockId, Msg>, n: nat, maxDeps: nat)
    requires Inv(st, {b}) && Ready(st, b) && Single(st) && Pool(n, maxDeps, pool) && Pooled(st, pool)
    ensures JudgedStep(st, Run(st, b)) && Single(Run(st, b)) && Run(st, b).checks
  {
    hide Inv, Placed, Later, Single, StaleDep, AllDelivered, JudgedStep, InitializeFork, Deliver, Absorb, Reject, Judge, Run, Ready, Pool, Alone;
    ReadyFacts(st, b);
    PoolId(pool, n, maxDeps, st, b);
    var st1 := InitializeFork(st, b);
    RunCases(st, b);
    RunKeeps(st, b);
    PlacedId(st1, b);
    ForkLater(st, b);
    if StaleDep(st1, b) {
      RejectJudged(st1, b);
      JudgedStepTrans(st, st1, Reject(st1, b));
    } else {
      DeliverJudged(st1, b);
      JudgedStepTrans(st, st1, Deliver(Absorb(st1, b), b));
    }
  }

  lemma ReadyFacts(st: State, b: BlockId)
    requires Inv(st, {b}) && Ready(st, b)
    ensures b.Id? && b in st.body && b !in st.fork && b.src < |st.sources| && b.height > 0
    ensures AllDelivered(st, b) && Is(st.status, b, Initialized) && PendingOf(st, b) == 0 && b in st.inDb
    ensures WellFormed(|st.sources|, b, st.body[b]) && st.fork.Keys <= st.body.Keys
  {}

  lemma PlacedDeps(st: State, b: BlockId)
    requires Inv(st, {b}) && Placed(st, b)
    ensures b in st.body && forall x :: x in st.body[b].deps && x != Root ==> x in st.fork
  {
    forall x | x in st.body[b].deps && x != Root ensures x in st.fork {
      assert Parent(st.body[b], x);
    }
  }

  lemma InvOwners(st: State, x: set<BlockId>)
    requires Inv(st, x)
    ensures ForkOwners(st.fork, st.sources, st.totalForks) && Successors(st.fork, st.next) && Closed(st.status, st.body)
    ensures forall b :: b in st.status && st.status[b] == Delivered && b != Root ==> b in st.body
  {}

  lemma PoolId(pool: map<BlockId, Msg>, n: nat, maxDeps: nat, st: State, b: BlockId)
    requires Pool(n, maxDeps, pool) && Pooled(st, pool) && b in st.body
    ensures b.Id? && !b.data.ForkProof? && Alone(st.body, b) && Root !in st.body[b].deps
  {}

  lemma JudgedStepTrans(st: State, r: State, q: State)
    requires Later(st, r) && r.status == st.status && r.ills == st.ills && r.body == st.body && JudgedStep(r, q)
    ensures JudgedStep(st, q)
  {
    hide Later, StaleDep, AllDelivered;
    LaterTrans(st, r, q);
  }

  lemma {:induction false} SchedulerTidy(st: State, pool: map<BlockId, Msg>, n: nat, maxDeps: nat)
    requires Tidy(st, pool) && Pool(n, maxDeps, pool)
    ensures Tidy(RunScheduler(st), pool)
    decreases Live(st), |st.toRun|
  {
    hide Inv, Single, Judged, JudgedStep, Later, Run, Ready, Pool;
    if st.toRun != [] {
      var b := st.toRun[0];
      var st1 := st.(toRun := st.toRun[1..]);
      PopKeeps(st);
      ReadySame(st, st1, b);
      RunKeeps(st1, b);
      SameJudged(st, st1);
      if Is(st.status, b, Initialized) {
        RunJudged(st1, b, pool, n, maxDeps);
        InvOwners(st1, {b});
        JudgedKeeps(st1, Run(st1, b));
      } else {
        NothingToRun(st1, b);
      }
      assert Live(st1) == Live(st);
      SchedulerTidy(Run(st1, b), pool, n, maxDeps);
    }
  }

  lemma NothingToRun(st: State, b: BlockId)
    requires !Is(st.status, b, Initialized)
    ensures Run(st, b) == st
  {}

  lemma SameJudged(st: State, r: State)
    requires Judged(st) && Single(st)
    requires r == st.(toRun := r.toRun)
    ensures Judged(r) && Single(r)
  {
    forall b ensures StaleDep(r, b) == StaleDep(st, b) && AllDelivered(r, b) == AllDelivered(st, b) {
      StaleSame(st, r, b);
    }
  }

  lemma StaleSame(st: State, r: State, b: BlockId)
    requires r.body == st.body && r.status == st.status && r.vt == st.vt && r.fork == st.fork
    ensures StaleDep(r, b) == StaleDep(st, b) && AllDelivered(r, b) == AllDelivered(st, b)
  {
    if b in st.body {
      assert forall x :: IsStale(r, VtOf(r, st.body[b].prev), x) == IsStale(st, VtOf(st, st.body[b].prev), x);
    }
  }

  // ----- creation delivers nothing and every illness it causes is caught -----

  ghost predicate SameForks(st: State, r: State) {
    && r.fork == st.fork && r.next == st.next && |r.sources| == |st.sources|
    && forall s :: 0 <= s < |st.sources| ==> r.sources[s].forks == st.sources[s].forks
  }

  ghost predicate Quiet(st: State, r: State) {
    && SameForks(st, r)
    && (forall c :: Is(r.status, c, Delivered) ==> Is(st.status, c, Delivered))
    && st.ills <= r.ills && Contagion(r.body, r.ills, |st.ills|, {})
  }

  lemma {:induction false} AddStubsForks(st: State, bs: seq<BlockId>)
    ensures SameForks(st, AddStubs(st, bs))
    decreases |bs|
  {
    if bs != [] {
      AddStubForks(st, bs[0]);
      AddStubsForks(AddStub(st, bs[0]), bs[1..]);
    }
  }

  lemma AddStubForks(st: State, b: BlockId)
    ensures SameForks(st, AddStub(st, b)) && AddStub(st, b).ills == st.ills
  {
    hide Register;
    if b !in st.status && b.Id? && b.src < |st.sources| {
      RegisterForks(st.sources[b.src], b);
      assert AddStub(st, b).sources == st.sources[b.src := Register(st.sources[b.src], b)];
    } else {
      assert AddStub(st, b) == st;
    }
  }

  lemma RegisterForks(src: Source, b: BlockId)
    ensures Register(src, b).forks == src.forks
  {}

  lemma LinkForks(st: State, b: BlockId, ps: seq<BlockId>)
    requires b.Id?
    ensures Quiet(st, BlockReceived(LinkAll(st, b, ps), b))
  {
    hide Advance, MergeAll, AwaitAll, CountWaiting;
  }

  lemma QuietAfter(st: State, r: State, q: State)
    requires SameForks(st, r) && r.ills == st.ills && Quiet(r, q)
    requires forall c :: Is(r.status, c, Delivered) ==> Is(st.status, c, Delivered)
    ensures Quiet(st, q)
  {}

  lemma StubbedDelivered(st: State, r: State)
    requires Stubbed(st, r)
    ensures forall c :: Is(r.status, c, Delivered) ==> Is(st.status, c, Delivered)
  {}

  lemma IllParent(st: State, x: set<BlockId>, b: BlockId, ps: seq<BlockId>)
    requires Inv(st, x) && AnyIll(st, ps) && b in st.body && forall p :: p in ps ==> Parent(st.body[b], p)
    ensures exists p :: p in st.ills && Parent(st.body[b], p)
  {
    var p :| p in ps && StatusOf(st, p) == Ill;
    assert p in st.ills;
  }

  lemma SickenQuiet(st: State, b: BlockId)
    requires Waiters(st) && Is(st.status, b, Initialized) && b in st.body
    requires exists p :: p in st.ills && Parent(st.body[b], p)
    ensures Quiet(st, SetIll(st, b))
  {
    var r := SetIll(st, b);
    SetIllSicker(st, b);
    ForksBlamed(st, r);
    forall i | |st.ills| <= i < |r.ills| ensures Caught(r.body, r.ills, i) {
      assert r.ills[i] in {b} || Caught(st.body, r.ills, i);
      CaughtEarlier(st, r, b, i);
    }
  }

  lemma FilledQuiet(st: State, m: Msg)
    requires Inv(st, {}) && Fits(st, m)
    ensures var st2 := Filled(st, m);
            SameForks(st, st2) && st2.ills == st.ills &&
            forall c :: Is(st2.status, c, Delivered) ==> Is(st.status, c, Delivered)
  {
    hide Inv, Stubbed;
    var ps := [m.prev.id] + Ids(m.deps);
    var st1 := AddStubs(st, ps);
    FilledStubs(st, m);
    StubbedDelivered(st, st1);
    StubbedSame(st, st1);
    AddStubsForks(st, ps);
    IsUpdate(st1.status, m.id, Initialized);
  }

  lemma InitializeQuiet(st: State, m: Msg)
    requires Inv(st, {}) && Fits(st, m)
    ensures Quiet(st, Initialize(st, m))
  {
    hide Inv, BlockReceived, LinkAll, SetIll, Waiters, Quiet, Initialize, Filled, Fits, SameForks;
    var b, ps, st2 := m.id, ParentsOf(BodyIn(m)), Filled(st, m);
    FilledKeeps(st, m);
    FilledQuiet(st, m);
    InitializeCases(st, m);
    FitsParents(st, m);
    if AnyIll(st2, ps) {
      InvWaiters(st2, {b});
      IllParent(st2, {b}, b, ps);
      SickenQuiet(st2, b);
    } else {
      LinkForks(st2, b, ps);
    }
    QuietAfter(st, st2, Initialize(st, m));
  }

  lemma CreateQuiet(st: State, m: Msg)
    requires Inv(st, {}) && Validate(st, m) && (m.id in st.status ==> st.status[m.id] == Stub)
    ensures Quiet(st, Written(CreateBlock(st, m), m.id))
  {
    hide Inv, Initialize, Written, Stubbed, Fits, Quiet, SameForks;
    var st1 := AddStub(st, m.id);
    AddStubFits(st, m);
    StubbedDelivered(st, st1);
    StubbedSame(st, st1);
    AddStubForks(st, m.id);
    InitializeQuiet(st1, m);
    var st2 := Initialize(st1, m);
    QuietAfter(st, st1, st2);
    WrittenQuiet(st, st2, m.id);
  }

  lemma WrittenQuiet(st: State, r: State, b: BlockId)
    requires Quiet(st, r)
    ensures Quiet(st, Written(r, b))
  {
    hide Written;
  }

  lemma QuietJudged(st: State, r: State)
    requires Quiet(st, r) && Later(st, r)
    ensures JudgedStep(st, r)
  {
    hide Later, StaleDep, AllDelivered;
    forall i | |st.ills| <= i < |r.ills| ensures Caught(r.body, r.ills, i) {
      assert r.ills[i] in {} || Caught(r.body, r.ills, i);
    }
  }

  lemma QuietSingle(st: State, r: State)
    requires Single(st) && Quiet(st, r)
    ensures Single(r)
  {
    SingleSame(st, r);
  }

  lemma RootHasNoBody(st: State)
    requires Inv(st, {})
    ensures Root !in st.body && forall b :: b in st.body <==> b != Root && b in st.status && st.status[b] != Stub
  {}

  lemma CreateTidy(st: State, m: Msg, pool: map<BlockId, Msg>)
    requires Tidy(st, pool) && Validate(st, m) && (m.id in st.status ==> st.status[m.id] == Stub)
    requires m.id in pool && pool[m.id] == m
    ensures Tidy(Written(CreateBlock(st, m), m.id), pool)
  {
    hide Inv, Later, Single, Judged, JudgedStep, Quiet, Written, CreateBlock, Validate;
    ValidId(st, m);
    var r := Written(CreateBlock(st, m), m.id);
    CreateKeeps(st, m);
    CreateQuiet(st, m);
    QuietJudged(st, r);
    QuietSingle(st, r);
    InvOwners(st, {});
    RootHasNoBody(r);
    JudgedKeeps(st, r);
  }

  lemma PoolValid(n: nat, maxDeps: nat, pool: map<BlockId, Msg>, st: State, b: BlockId)
    requires Pool(n, maxDeps, pool) && b in pool && |st.sources| == n && st.maxDeps == maxDeps && Is(st.status, Root, Delivered)
    ensures Validate(st, pool[b]) && b != Root && pool[b].id == b
  {
    var m := pool[b];
    assert Validate(Init(n, maxDeps), m);
    forall i | 0 <= i < |m.deps| ensures ValidRef(st, m.deps[i]) {
      assert ValidRef(Init(n, maxDeps), m.deps[i]);
    }
  }

  lemma AcceptTidy(n: nat, maxDeps: nat, pool: map<BlockId, Msg>, st: State, m: Msg)
    requires Pool(n, maxDeps, pool) && Tidy(st, pool) && Settled(st) && m.id in pool && pool[m.id] == m
    requires |st.sources| == n && st.maxDeps == maxDeps
    ensures Tidy(Accept(st, m), pool) && m.id in Accept(st, m).body
    ensures Later(st, Accept(st, m)) && Settled(Accept(st, m))
  {
    hide Inv, Later, Single, Judged, Written, CreateBlock, Validate, Pool;
    InvChecks(st, {});
    PoolValid(n, maxDeps, pool, st, m.id);
    AcceptKeeps(st, m);
    RootHasNoBody(st);
    if Is(st.status, m.id, Ill) {
      ValidId(st, m);
      IllAgain(st, m);
    } else if StatusOf(st, m.id) == Stub {
      CreateTidy(st, m, pool);
      SchedulerTidy(Written(CreateBlock(st, m), m.id), pool, n, maxDeps);
      InvChecks(Accept(st, m), {});
    }
  }

  lemma {:induction false} ExecuteTidy(n: nat, maxDeps: nat, pool: map<BlockId, Msg>, events: seq<Event>)
    requires Pool(n, maxDeps, pool) && forall e :: e in events ==> Arrives(pool, e)
    ensures var st := Execute(n, maxDeps, events);
            && Tidy(st, pool) && Settled(st) && |st.sources| == n && st.maxDeps == maxDeps
            && (forall m :: Receive(m) in events ==> m.id in st.body)
  {
    hide Inv, Single, Judged, Accept, Pool, Settled, Tidy, Later;
    if events == [] {
      InitTidy(n, maxDeps, pool);
    } else {
      var k := |events| - 1;
      var st := Execute(n, maxDeps, events[..k]);
      ExecuteTidy(n, maxDeps, pool, events[..k]);
      assert events[k] in events;
      AcceptTidy(n, maxDeps, pool, st, events[k].m);
      TidyPooled(st, pool);
      InvChecks(st, {});
      LaterBodies(st, Execute(n, maxDeps, events));
      forall m | Receive(m) in events ensures m.id in Execute(n, maxDeps, events).body {
        assert Receive(m) in events[..k] || Receive(m) == events[k];
      }
    }
  }

  lemma LaterBodies(st: State, r: State)
    requires Later(st, r)
    ensures st.body.Keys <= r.body.Keys && |r.sources| == |st.sources| && r.maxDeps == st.maxDeps
  {}

  lemma InitTidy(n: nat, maxDeps: nat, pool: map<BlockId, Msg>)
    ensures Tidy(Init(n, maxDeps), pool) && Settled(Init(n, maxDeps))
  {
    hide Inv;
    InitHolds(n, maxDeps);
  }

  // ----- the outcome, without reference to any run -----

  /** Some direct dependency of `b` is already in the causal past of its previous block. */
  ghost predicate Redundant(edges: Bodies, b: BlockId) {
    b in edges && exists x :: x in edges[b].deps && Reaches(edges, edges[b].prev, x)
  }

  /** `s` contains every block whose parents are all in `s` and whose dependencies are not redundant. */
  ghost predicate ClosedUnderDelivery(edges: Bodies, s: set<BlockId>) {
    forall b :: b in edges && (forall p :: Parent(edges[b], p) ==> p == Root || p in s) && !Redundant(edges, b) ==> b in s
  }

  /** `s` contains every redundant block with parents in `d`, and every child of a member. */
  ghost predicate ClosedUnderIllness(edges: Bodies, d: set<BlockId>, s: set<BlockId>) {
    && (forall b :: b in edges && (forall p :: Parent(edges[b], p) ==> p == Root || p in d) && Redundant(edges, b) ==> b in s)
    && (forall b, p {:trigger Parent(edges[b], p)} :: b in edges && Parent(edges[b], p) && p in s ==> b in s)
  }

  ghost function DeliveredBlocks(st: State): set<BlockId> {
    set b | b in st.log
  }

  ghost function IllBlocks(st: State): set<BlockId> {
    set b | b in st.ills
  }

  lemma RootReachesNothing(body: Bodies, x: BlockId)
    requires Root !in body && x != Root
    ensures !Reaches(body, Root, x)
  {
    if Reaches(body, Root, x) {
      var p := ReachesFirst(body, Root, x);
    }
  }

  lemma StaleIffRedundant(st: State, b: BlockId)
    requires Inv(st, {}) && AllDelivered(st, b) && b in st.body && Root !in st.body[b].deps
    ensures StaleDep(st, b) <==> Redundant(st.body, b)
  {
    BodyFacts(st, {}, b);
    RootHasNoBody(st);
    RootClock(st);
    hide Inv;
    var prev := st.body[b].prev;
    assert Parent(st.body[b], prev);
    forall x | x in st.body[b].deps
      ensures IsStale(st, VtOf(st, prev), x) <==> Reaches(st.body, prev, x)
    {
      assert Parent(st.body[b], x) && x != Root;
      if prev == Root {
        RootReachesNothing(st.body, x);
      } else {
        DescendantIffReaches(st, x, prev);
      }
    }
  }

  lemma RootClock(st: State)
    requires Inv(st, {})
    ensures VtOf(st, Root) == []
  {}

  /** The scheduler forgets nobody. */
  lemma NobodyForgotten(st: State, b: BlockId)
    requires Inv(st, {}) && Settled(st) && AllDelivered(st, b)
    ensures Is(st.status, b, Delivered) || Is(st.status, b, Ill)
  {
    assert Undelivered(st.status, st.body[b]) == {};
  }

  ghost predicate Known(body: Bodies, d: seq<BlockId>, b: BlockId) {
    b in body && forall p :: Parent(body[b], p) ==> p == Root || p in d
  }

  /** What a finished run looks like from outside: its callbacks and its ill blocks, in order. */
  ghost predicate Outcome(body: Bodies, log: seq<BlockId>, ills: seq<BlockId>) {
    && (forall i {:trigger log[i]} :: 0 <= i < |log| ==> Known(body, log[..i], log[i]) && !Redundant(body, log[i]))
    && (forall i {:trigger ills[i]} :: 0 <= i < |ills| ==>
          Caught(body, ills, i) || (Known(body, log, ills[i]) && Redundant(body, ills[i])))
    && (forall b :: Known(body, log, b) ==> b in log || b in ills)
    && (forall b, p {:trigger Parent(body[b], p)} :: b in body && Parent(body[b], p) && p in ills ==> b in ills)
    && (forall b :: b in ills ==> b !in log && b != Root)
  }

  lemma TidyPooled(st: State, pool: map<BlockId, Msg>)
    requires Tidy(st, pool)
    ensures Pooled(st, pool) && Inv(st, {}) && Judged(st)
  {}

  lemma LogMeans(st: State)
    requires Inv(st, {})
    ensures forall b :: b in st.log <==> b != Root && Is(st.status, b, Delivered)
    ensures forall b :: b in st.ills <==> Is(st.status, b, Ill)
    ensures forall b, p {:trigger Parent(st.body[b], p)} :: b in st.body && Parent(st.body[b], p) ==>
              (Is(st.status, b, Delivered) ==> Is(st.status, p, Delivered)) &&
              (Is(st.status, b, Initialized) ==> !Is(st.status, p, Ill))
    ensures Is(st.status, Root, Delivered)
  {}

  lemma LogOrder(st: State, i: nat)
    requires Inv(st, {}) && i < |st.log|
    ensures Known(st.body, st.log[..i], st.log[i]) && AllDelivered(st, st.log[i]) && Is(st.status, st.log[i], Delivered)
  {
    assert st.log[i] in st.log;
  }

  lemma LogUnique(st: State, i: nat)
    requires Inv(st, {}) && i < |st.log|
    ensures st.log[i] !in st.log[..i] && st.log[i].Id?
  {
    hide Clocks, Queue, Waiting, Counted, Illness, ForkTree, ForkOwners, ForkStatus, Books;
    assert st.log[i] in st.log;
  }

  lemma KnownIffDelivered(st: State, b: BlockId)
    requires Inv(st, {})
    ensures Known(st.body, st.log, b) <==> AllDelivered(st, b)
  {
    LogMeans(st);
    hide Inv;
  }

  lemma OutcomeOfRun(st: State)
    requires Inv(st, {}) && Settled(st) && Judged(st) && forall b :: b in st.body ==> Root !in st.body[b].deps
    ensures Outcome(st.body, st.log, st.ills)
  {
    hide Inv, Settled, StaleDep, AllDelivered, Redundant, Known, Caught;
    LogMeans(st);
    RootHasNoBody(st);
    forall i | 0 <= i < |st.log| ensures Known(st.body, st.log[..i], st.log[i]) && !Redundant(st.body, st.log[i]) {
      LogOrder(st, i);
      AllDeliveredBody(st, st.log[i]);
      StaleIffRedundant(st, st.log[i]);
    }
    forall i | 0 <= i < |st.ills|
      ensures Caught(st.body, st.ills, i) || (Known(st.body, st.log, st.ills[i]) && Redundant(st.body, st.ills[i]))
    {
      KnownIffDelivered(st, st.ills[i]);
      if AllDelivered(st, st.ills[i]) {
        AllDeliveredBody(st, st.ills[i]);
        StaleIffRedundant(st, st.ills[i]);
      }
    }
    forall b | Known(st.body, st.log, b) ensures b in st.log || b in st.ills {
      KnownIffDelivered(st, b);
      NobodyForgotten(st, b);
      AllDeliveredBody(st, b);
    }
  }

  lemma AllDeliveredBody(st: State, b: BlockId)
    requires AllDelivered(st, b)
    ensures b in st.body
  {}

  lemma NoRootInPool(n: nat, maxDeps: nat, pool: map<BlockId, Msg>)
    requires Pool(n, maxDeps, pool)
    ensures forall b :: b in Edges(pool) ==> Root !in Edges(pool)[b].deps
  {}

  lemma RunOutcome(n: nat, maxDeps: nat, pool: map<BlockId, Msg>, events: seq<Event>)
    requires Pool(n, maxDeps, pool) && (forall e :: e in events ==> Arrives(pool, e))
    requires forall b :: b in pool ==> Receive(pool[b]) in events
    ensures var st := Execute(n, maxDeps, events); Outcome(Edges(pool), st.log, st.ills)
  {
    hide Tidy, Settled, Inv, Judged, Outcome, Execute;
    ExecuteTidy(n, maxDeps, pool, events);
    var st := Execute(n, maxDeps, events);
    TidyPooled(st, pool);
    assert st.body == Edges(pool);
    NoRootInPool(n, maxDeps, pool);
    OutcomeOfRun(st);
  }

  lemma DeliveryCloses(body: Bodies, log: seq<BlockId>, ills: seq<BlockId>)
    requires Outcome(body, log, ills)
    ensures ClosedUnderDelivery(body, (set b | b in log))
  {
    var d := set b | b in log;
    forall b | b in body && (forall p :: Parent(body[b], p) ==> p == Root || p in d) && !Redundant(body, b)
      ensures b in log
    {
      assert Known(body, log, b);
      if b in ills {
        var i :| 0 <= i < |ills| && ills[i] == b;
        KnownNotCaught(body, log, ills, i);
      }
    }
  }

  lemma KnownNotCaught(body: Bodies, log: seq<BlockId>, ills: seq<BlockId>, i: nat)
    requires Outcome(body, log, ills) && i < |ills| && Known(body, log, ills[i])
    ensures !Caught(body, ills, i)
  {
    forall j | 0 <= j < i ensures !Parent(body[ills[i]], ills[j]) {
      assert ills[j] in ills;
    }
  }

  lemma {:induction false} DeliveryLeast(body: Bodies, log: seq<BlockId>, ills: seq<BlockId>, s: set<BlockId>, i: nat)
    requires Outcome(body, log, ills) && ClosedUnderDelivery(body, s) && i <= |log|
    ensures forall b :: b in log[..i] ==> b in s
  {
    if i > 0 {
      DeliveryLeast(body, log, ills, s, i - 1);
      assert Known(body, log[..i - 1], log[i - 1]) && !Redundant(body, log[i - 1]);
      assert log[..i] == log[..i - 1] + [log[i - 1]];
    }
  }

  lemma IllnessCloses(body: Bodies, log: seq<BlockId>, ills: seq<BlockId>)
    requires Outcome(body, log, ills)
    ensures ClosedUnderIllness(body, (set b | b in log), (set b | b in ills))
  {
    var d := set b | b in log;
    forall b | b in body && (forall p :: Parent(body[b], p) ==> p == Root || p in d) && Redundant(body, b)
      ensures b in ills
    {
      assert Known(body, log, b);
      forall i | 0 <= i < |log| ensures log[i] != b {}
    }
  }

  lemma IllSource(body: Bodies, log: seq<BlockId>, ills: seq<BlockId>, i: nat)
    requires Outcome(body, log, ills) && i < |ills|
    ensures ills[i] in body
    ensures (exists j :: 0 <= j < i && Parent(body[ills[i]], ills[j])) || (Known(body, log, ills[i]) && Redundant(body, ills[i]))
  {
    hide Known, Redundant;
    assert Caught(body, ills, i) || (Known(body, log, ills[i]) && Redundant(body, ills[i]));
    if !Caught(body, ills, i) {
      KnownBody(body, log, ills[i]);
    }
  }

  lemma KnownBody(body: Bodies, d: seq<BlockId>, b: BlockId)
    requires Known(body, d, b)
    ensures b in body && forall p :: Parent(body[b], p) ==> p == Root || p in d
  {}

  lemma {:induction false} IllnessLeast(body: Bodies, log: seq<BlockId>, ills: seq<BlockId>, s: set<BlockId>, i: nat)
    requires Outcome(body, log, ills) && ClosedUnderIllness(body, (set b | b in log), s) && i <= |ills|
    ensures forall b :: b in ills[..i] ==> b in s
  {
    hide Outcome, Known, Redundant;
    if i > 0 {
      IllnessLeast(body, log, ills, s, i - 1);
      var b := ills[i - 1];
      IllSource(body, log, ills, i - 1);
      if j :| 0 <= j < i - 1 && Parent(body[b], ills[j]) {
        assert ills[..i - 1][j] == ills[j];
      } else {
        KnownBody(body, log, b);
      }
      assert ills[..i] == ills[..i - 1] + [b];
    }
  }

  /** The delivered set is the least set closed under the delivery rule. */
  lemma DeliveredIsLeast(n: nat, maxDeps: nat, pool: map<BlockId, Msg>, events: seq<Event>, s: set<BlockId>)
    requires Pool(n, maxDeps, pool) && (forall e :: e in events ==> Arrives(pool, e))
    requires forall b :: b in pool ==> Receive(pool[b]) in events
    ensures var d := DeliveredBlocks(Execute(n, maxDeps, events));
            ClosedUnderDelivery(Edges(pool), d) && (ClosedUnderDelivery(Edges(pool), s) ==> d <= s)
  {
    hide Outcome, Execute, Pool, ClosedUnderDelivery;
    RunOutcome(n, maxDeps, pool, events);
    var st := Execute(n, maxDeps, events);
    DeliveryCloses(Edges(pool), st.log, st.ills);
    if ClosedUnderDelivery(Edges(pool), s) {
      DeliveryLeast(Edges(pool), st.log, st.ills, s, |st.log|);
      assert st.log[..|st.log|] == st.log;
    }
  }

  /** The ill set is the least set closed under the illness rule. */
  lemma IllIsLeast(n: nat, maxDeps: nat, pool: map<BlockId, Msg>, events: seq<Event>, s: set<BlockId>)
    requires Pool(n, maxDeps, pool) && (forall e :: e in events ==> Arrives(pool, e))
    requires forall b :: b in pool ==> Receive(pool[b]) in events
    ensures var st := Execute(n, maxDeps, events);
            var d, i := DeliveredBlocks(st), IllBlocks(st);
            ClosedUnderIllness(Edges(pool), d, i) && (ClosedUnderIllness(Edges(pool), d, s) ==> i <= s)
  {
    hide Outcome, Execute, Pool, ClosedUnderIllness;
    RunOutcome(n, maxDeps, pool, events);
    var st := Execute(n, maxDeps, events);
    IllnessCloses(Edges(pool), st.log, st.ills);
    if ClosedUnderIllness(Edges(pool), DeliveredBlocks(st), s) {
      IllnessLeast(Edges(pool), st.log, st.ills, s, |st.ills|);
      assert st.ills[..|st.ills|] == st.ills;
    }
  }

  /** Two runs over the same blocks, in any order and with any repeats, deliver and reject the same blocks. */
  lemma Confluence(n: nat, maxDeps: nat, pool: map<BlockId, Msg>, events: seq<Event>, events': seq<Event>)
    requires Pool(n, maxDeps, pool)
    requires forall e :: e in events || e in events' ==> Arrives(pool, e)
    requires forall b :: b in pool ==> Receive(pool[b]) in events && Receive(pool[b]) in events'
    ensures DeliveredBlocks(Execute(n, maxDeps, events)) == DeliveredBlocks(Execute(n, maxDeps, events'))
    ensures IllBlocks(Execute(n, maxDeps, events)) == IllBlocks(Execute(n, maxDeps, events'))
  {
    hide Execute, Pool, ClosedUnderDelivery, ClosedUnderIllness;
    var st, st' := Execute(n, maxDeps, events), Execute(n, maxDeps, events');
    DeliveredIsLeast(n, maxDeps, pool, events, DeliveredBlocks(st'));
    DeliveredIsLeast(n, maxDeps, pool, events', DeliveredBlocks(st));
    IllIsLeast(n, maxDeps, pool, events, IllBlocks(st'));
    IllIsLeast(n, maxDeps, pool, events', IllBlocks(st));
  }
}
