/**
  What the receiver does with a block whose parents are all delivered, whatever forks and blames there
  are: the verdict in terms of the DAG.
*/
module CatchainVerdict {
  import opened CatchainReceiver
  import opened CatchainInvariant
  import opened CatchainCreate
  import opened CatchainDeliver
  import opened CatchainRuns
  import opened CatchainVectorTime
  import opened CatchainConfluence

  /** A valid block that is not received yet and whose parents are all delivered. */
  ghost predicate Arriving(st: State, m: Msg) {
    && m.id.Id? && Validate(st, m) && StatusOf(st, m.id) == Stub
    && (forall p :: Parent(BodyIn(m), p) ==> Is(st.status, p, Delivered))
  }

  /** The dependency is not in the past of `prev`, and `prev` knows no other fork of its source if that is blamed. */
  ghost predicate Clean(st: State, prev: BlockId, x: BlockId) {
    x.Id? && !Reaches(st.body, prev, x) && !MixesFork(st, VtOf(st, prev), x)
  }

  ghost predicate Admissible(st: State, m: Msg) {
    forall x :: x in BodyIn(m).deps ==> Clean(st, m.prev.id, x)
  }

  /** A reference to a block of an existing source that is signed, or to a block known already. */
  ghost predicate Vouched(st: State, d: DepRef) {
    d.id.Id? && d.id.height > 0 && d.id.src < |st.sources| && (d.signed || d.id in st.status)
  }

  /** Two different blocks of one source at one height, both vouched for. */
  ghost predicate RealFork(st: State, l: DepRef, r: DepRef) {
    && Vouched(st, l) && Vouched(st, r)
    && l.id.src == r.id.src && l.id.height == r.id.height && l.id.data != r.id.data
  }

  /** A fork proof in the payload of `b`, if there is one, is right. */
  ghost predicate Truthful(st: State, b: BlockId) {
    b.Id? && b.data.ForkProof? ==> RealFork(st, b.data.left, b.data.right)
  }

  /** A dependency on the root, which has no source object, comes before anything that would be rejected. */
  ghost predicate Exposes(st: State, m: Msg) {
    exists i :: 0 <= i < |BodyIn(m).deps| && BodyIn(m).deps[i].Root? &&
                forall j :: 0 <= j < i ==> Clean(st, m.prev.id, BodyIn(m).deps[j])
  }

  // ----- the fork test in terms of the DAG -----

  /** `prev` has a block of another fork of the source of `x` in its past. */
  ghost predicate SeesOtherFork(st: State, prev: BlockId, x: BlockId) {
    exists a :: a in st.log && a.Id? && x.Id? && a.src == x.src && ForkOf(st, a) != ForkOf(st, x) && Reaches(st.body, prev, a)
  }

  lemma LogPlace(st: State, a: BlockId)
    requires Inv(st, {}) && a in st.log
    ensures a.Id? && a.height > 0 && a.src < |st.sources| && a in st.fork && st.fork[a] in st.sources[a.src].forks
    ensures Is(st.status, a, Delivered) && ForkOf(st, a) == st.fork[a]
  {
    hide Clocks, Queue, Waiting, Counted, Illness, Books, ForkTree;
  }

  /** A fork that the timestamp of `prev` covers has a block in its past. */
  lemma CoveredBlock(st: State, prev: BlockId, f: nat) returns (a: BlockId)
    requires Inv(st, {}) && prev in st.log && V(st.vt, prev, f) > 0
    ensures a in st.log && ForkOf(st, a) == f && Reaches(st.body, prev, a)
  {
    a := SeenBlock(st, prev, f);
    hide Inv, Reaches;
    LogPlace(st, a);
    LogPlace(st, prev);
    DescendantIffReaches(st, a, prev);
  }

  lemma SeenBlock(st: State, prev: BlockId, f: nat) returns (a: BlockId)
    requires Inv(st, {}) && prev in st.log && V(st.vt, prev, f) > 0
    ensures a in st.log && ForkOf(st, a) == f && a.Height() == V(st.vt, prev, f)
  {
    hide Queue, Waiting, Counted, Illness, Books, ForkTree, ForkOwners;
    assert Is(st.status, prev, Delivered);
    assert Seen(st.status, st.fork, f, V(st.vt, prev, f));
    a :| a in st.fork && Is(st.status, a, Delivered) && st.fork[a] == f && a.Height() == V(st.vt, prev, f);
    assert a != Root;
  }

  lemma OneOwner(st: State, a: BlockId, s: nat, f: nat)
    requires Inv(st, {}) && a in st.log && s < |st.sources| && f in st.sources[s].forks && ForkOf(st, a) == f
    ensures a.Id? && a.src == s
  {
    hide Inv;
    LogPlace(st, a);
    InvOwners(st, {});
  }

  /** The scan for another fork is a question about the past of `prev`. */
  lemma MixesForkIff(st: State, prev: BlockId, x: BlockId)
    requires Inv(st, {}) && prev in st.log && x in st.log
    ensures MixesFork(st, VtOf(st, prev), x) <==>
              x.Id? && x.src < |st.sources| && st.sources[x.src].blamed && SeesOtherFork(st, prev, x)
  {
    hide Inv, Reaches, IsDescendantOf;
    LogPlace(st, x);
    LogPlace(st, prev);
    if MixesFork(st, VtOf(st, prev), x) {
      var f :| f in st.sources[x.src].forks && f != ForkOf(st, x) && At(VtOf(st, prev), f) > 0;
      assert V(st.vt, prev, f) == At(VtOf(st, prev), f);
      var a := CoveredBlock(st, prev, f);
      OneOwner(st, a, x.src, f);
    }
    if a :| a in st.log && a.Id? && a.src == x.src && ForkOf(st, a) != ForkOf(st, x) && Reaches(st.body, prev, a) {
      LogPlace(st, a);
      DescendantIffReaches(st, a, prev);
      CoversMeans(VtOf(st, prev), ForkOf(st, a), a.Height());
    }
  }

  lemma CoversMeans(vt: seq<nat>, f: nat, h: nat)
    requires IsDescendantOf(vt, f, h)
    ensures h <= At(vt, f)
  {}

  // ----- creation leaves the rest of the receiver alone -----

  /** Only source `s` may differ, and not in its forks. */
  ghost predicate OtherSources(st: State, r: State, s: nat) {
    && |r.sources| == |st.sources|
    && (forall t :: 0 <= t < |st.sources| && t != s ==> r.sources[t] == st.sources[t])
    && (forall t :: 0 <= t < |st.sources| ==> r.sources[t].forks == st.sources[t].forks)
  }

  lemma {:induction false} KnownStubs(st: State, bs: seq<BlockId>)
    requires forall b :: b in bs ==> b in st.status
    ensures AddStubs(st, bs) == st
    decreases |bs|
  {
    if bs != [] {
      assert bs[0] in bs;
      KnownStubs(st, bs[1..]);
    }
  }

  lemma StubSources(st: State, b: BlockId)
    requires b.Id? && b.src < |st.sources| && StatusOf(st, b) == Stub
    ensures var r := AddStub(st, b);
            && OtherSources(st, r, b.src) && r.status == st.status[b := Stub] && r.toRun == st.toRun && r.log == st.log
  {
    RegisterForks(st.sources[b.src], b);
    hide Register;
    if b in st.status {
      assert AddStub(st, b) == st && st.status[b := Stub] == st.status;
    } else {
      assert AddStub(st, b).sources == st.sources[b.src := Register(st.sources[b.src], b)];
    }
  }

  lemma FilledFacts(st: State, m: Msg)
    requires forall p :: p in ParentsOf(BodyIn(m)) ==> p in st.status
    ensures var r := Filled(st, m);
            && r == st.(status := st.status[m.id := Initialized], body := st.body[m.id := BodyIn(m)])
  {
    assert ParentsOf(BodyIn(m)) == [m.prev.id] + Ids(m.deps);
    KnownStubs(st, ParentsOf(BodyIn(m)));
  }

  lemma LinkedFacts(st: State, b: BlockId, ps: seq<BlockId>)
    requires b.Id?
    ensures var r := Written(BlockReceived(LinkAll(st, b, ps), b), b);
            && (r.toRun == st.toRun || r.toRun == st.toRun + [b]) && r.log == st.log && r.status == st.status
            && OtherSources(st, r, b.src) && SameBlame(st, r)
  {
    hide BlockReceived, MergeAll, AwaitAll, CountWaiting, SameBlame;
    var st1 := LinkAll(st, b, ps);
    WalkFacts(st1, b);
    BlameVia(st, st1, BlockReceived(st1, b));
    BlameEnd(st, BlockReceived(st1, b), Written(BlockReceived(st1, b), b));
  }

  lemma BlameEnd(st: State, r: State, q: State)
    requires SameBlame(st, r) && q.sources == r.sources
    ensures SameBlame(st, q)
  {}

  /** The state in which the scheduler looks at the block. */
  lemma Created(st: State, m: Msg)
    requires Inv(st, {}) && Settled(st) && Arriving(st, m)
    ensures var r := Written(CreateBlock(st, m), m.id);
            && Inv(r, {}) && Later(st, r) && r.toRun == [m.id] && r.log == st.log && OtherSources(st, r, m.id.src)
            && r.status == st.status[m.id := Initialized] && r.body == st.body[m.id := BodyIn(m)]
            && SameBlame(AddStub(st, m.id), r)
  {
    hide Inv, Later, Validate, Written, CreateBlock, SameBlame, OtherSources;
    var b, r := m.id, Written(CreateBlock(st, m), m.id);
    CreatedFields(st, m);
    ValidSource(st, m);
    CreateKeeps(st, m);
    IsUpdate(st.status, b, Initialized);
    assert AllDelivered(r, b);
    Scheduled(r, b);
  }

  lemma CreatedFields(st: State, m: Msg)
    requires Inv(st, {}) && Settled(st) && Arriving(st, m)
    ensures var r := Written(CreateBlock(st, m), m.id);
            && (r.toRun == [] || r.toRun == [m.id]) && r.log == st.log && OtherSources(st, r, m.id.src)
            && r.status == st.status[m.id := Initialized] && SameBlame(AddStub(st, m.id), r)
  {
    hide Inv, Later, Validate, Fits, Filled, Written, BlockReceived, LinkAll, Initialize, SetIll, SameBlame;
    var b, st1 := m.id, AddStub(st, m.id);
    ValidSource(st, m);
    AddStubFits(st, m);
    StubSources(st, b);
    var ps := ParentsOf(BodyIn(m));
    FitsParents(st1, m);
    FilledFacts(st1, m);
    InitializeCases(st1, m);
    assert !AnyIll(Filled(st1, m), ps);
    LinkedFacts(Filled(st1, m), b, ps);
    BlameVia(st1, Filled(st1, m), Written(CreateBlock(st, m), b));
  }

  lemma ValidSource(st: State, m: Msg)
    requires Validate(st, m)
    ensures m.id.Id? && m.id.src < |st.sources| && m.id.height > 0 && Hashable(|st.sources|, m)
  {}

  lemma Scheduled(st: State, b: BlockId)
    requires Inv(st, {}) && AllDelivered(st, b) && Is(st.status, b, Initialized) && b in st.inDb
    requires st.toRun == [] || st.toRun == [b]
    ensures st.toRun == [b]
  {
    assert Undelivered(st.status, st.body[b]) == {};
    assert b in st.toRun;
  }

  // ----- the verdict -----

  lemma JudgeIff(st: State, b: BlockId)
    requires b in st.body && b.Id?
    ensures Judge(st, b) == Fine <==>
              Truthful(st, b) && forall x :: x in st.body[b].deps ==> Passes(st, VtOf(st, st.body[b].prev), x)
    ensures Judge(st, b) == NoSource <==> MeetsRoot(st, VtOf(st, st.body[b].prev), st.body[b].deps)
  {
    hide ScanDeps, IsStale, MixesFork;
    ScanDepsMeans(st, VtOf(st, st.body[b].prev), st.body[b].deps);
    ScanDepsRoot(st, VtOf(st, st.body[b].prev), st.body[b].deps);
  }

  ghost predicate Passes(st: State, vt: seq<nat>, x: BlockId) {
    x.Id? && !IsStale(st, vt, x) && !MixesFork(st, vt, x)
  }

  /** The scan gets as far as a dependency on the root. */
  ghost predicate MeetsRoot(st: State, vt: seq<nat>, deps: seq<BlockId>) {
    exists i :: 0 <= i < |deps| && deps[i].Root? && forall j :: 0 <= j < i ==> Passes(st, vt, deps[j])
  }

  lemma {:induction false} ScanDepsRoot(st: State, vt: seq<nat>, deps: seq<BlockId>)
    ensures ScanDeps(st, vt, deps) == NoSource <==> MeetsRoot(st, vt, deps)
  {
    hide IsStale, MixesFork;
    if deps != [] {
      ScanDepsRoot(st, vt, deps[1..]);
      if i :| 0 <= i < |deps| && deps[i].Root? && forall j :: 0 <= j < i ==> Passes(st, vt, deps[j]) {
        if i > 0 {
          assert Passes(st, vt, deps[0]) && deps[1..][i - 1] == deps[i];
          assert forall j :: 0 <= j < i - 1 ==> deps[1..][j] == deps[j + 1];
        }
      }
      if !deps[0].Root? && MeetsRoot(st, vt, deps[1..]) && Passes(st, vt, deps[0]) {
        var i :| 0 <= i < |deps[1..]| && deps[1..][i].Root? && forall j :: 0 <= j < i ==> Passes(st, vt, deps[1..][j]);
        assert deps[i + 1].Root?;
        forall j | 0 <= j < i + 1 ensures Passes(st, vt, deps[j]) {
          assert j > 0 ==> deps[j] == deps[1..][j - 1];
        }
      }
      if deps[0].Root? {
        assert MeetsRoot(st, vt, deps);
      }
    }
  }

  /** A delivered dependency is stale exactly when `prev` reaches it. */
  lemma StaleIff(st: State, prev: BlockId, x: BlockId)
    requires Inv(st, {}) && Is(st.status, prev, Delivered) && Is(st.status, x, Delivered) && x != Root
    ensures IsStale(st, VtOf(st, prev), x) <==> Reaches(st.body, prev, x)
  {
    RootHasNoBody(st);
    RootClock(st);
    hide Inv;
    if prev == Root {
      RootReachesNothing(st.body, x);
    } else {
      DescendantIffReaches(st, x, prev);
    }
  }

  /** The tests on a dependency give the same answers after the block was created and placed. */
  lemma SameTests(st: State, f: State, prev: BlockId, x: BlockId)
    requires Later(st, f) && Is(st.status, prev, Delivered) && Is(st.status, x, Delivered)
    requires x.Id? && (x.src < |st.sources| ==> f.sources[x.src].blamed == st.sources[x.src].blamed &&
                                                f.sources[x.src].forks == st.sources[x.src].forks)
    ensures IsStale(f, VtOf(f, prev), x) == IsStale(st, VtOf(st, prev), x)
    ensures MixesFork(f, VtOf(f, prev), x) == MixesFork(st, VtOf(st, prev), x)
  {}

  lemma SamePasses(st: State, f: State, prev: BlockId, x: BlockId)
    requires Inv(st, {}) && Later(st, f) && Is(st.status, prev, Delivered) && Is(st.status, x, Delivered)
    requires x.Id? && x.src < |st.sources| ==>
               x.src < |f.sources| && f.sources[x.src].blamed == st.sources[x.src].blamed &&
               f.sources[x.src].forks == st.sources[x.src].forks
    ensures Passes(f, VtOf(f, prev), x) == Clean(st, prev, x)
  {
    hide Inv, Later, IsStale, MixesFork, Reaches, ForkOf, VtOf;
    LaterSources(st, f);
    if x.Id? {
      SameTests(st, f, prev, x);
      StaleIff(st, prev, x);
    }
  }

  lemma ForkSources(st: State, b: BlockId)
    requires b.Id? && b.src < |st.sources|
    ensures var r := InitializeFork(st, b);
            |r.sources| == |st.sources| && forall t :: 0 <= t < |st.sources| && t != b.src ==> r.sources[t] == st.sources[t]
  {
    hide Stamp, At, AddFork;
  }

  /** Judged after creation and placing, the verdict is `Admissible` of the state before. */
  lemma VerdictIff(st: State, m: Msg, r: State)
    requires Inv(st, {}) && Arriving(st, m) && Later(st, r) && OtherSources(st, r, m.id.src)
    requires Inv(r, {m.id}) && Ready(r, m.id) && r.body == st.body[m.id := BodyIn(m)]
    requires r.status == st.status[m.id := Initialized]
    ensures Judge(InitializeFork(r, m.id), m.id) == Fine <==> Admissible(st, m) && Truthful(st, m.id)
    ensures Judge(InitializeFork(r, m.id), m.id) == NoSource <==> Exposes(st, m)
  {
    hide Inv, Ready, Later, Validate, Judge, InitializeFork, Passes, Clean, MeetsRoot, Exposes, ForkOf, VtOf;
    var b, f := m.id, InitializeFork(r, m.id);
    ValidSource(st, m);
    ReadyFacts(r, b);
    RunVerdict(r, b);
    LaterTrans(st, r, f);
    LaterSources(st, f);
    LaterSources(r, f);
    ForkSources(r, b);
    JudgeIff(f, b);
    assert f.body[b] == BodyIn(m);
    BodyDeps(st, m);
    var prev := m.prev.id;
    assert Parent(BodyIn(m), prev);
    forall x | x in BodyIn(m).deps ensures Passes(f, VtOf(f, prev), x) == Clean(st, prev, x) {
      assert Parent(BodyIn(m), x);
      SamePasses(st, f, prev, x);
    }
    SameRoots(st, f, m);
    SameTruth(st, f, b);
  }

  /** How deep fork proofs are nested in a payload. */
  ghost function Nesting(b: BlockId): nat {
    if b.Id? && b.data.ForkProof? then 1 + Nesting(b.data.left.id) + Nesting(b.data.right.id) else 0
  }

  /** A payload does not name its own block, so receiving the block vouches for nothing in it. */
  lemma SameTruth(st: State, f: State, b: BlockId)
    requires f.status == st.status[b := Initialized] && |f.sources| == |st.sources|
    ensures Truthful(f, b) == Truthful(st, b)
  {
    if b.Id? && b.data.ForkProof? {
      assert Nesting(b.data.left.id) < Nesting(b) && Nesting(b.data.right.id) < Nesting(b);
    }
  }

  lemma SameRoots(st: State, f: State, m: Msg)
    requires forall x :: x in BodyIn(m).deps ==> Passes(f, VtOf(f, m.prev.id), x) == Clean(st, m.prev.id, x)
    ensures MeetsRoot(f, VtOf(f, m.prev.id), BodyIn(m).deps) <==> Exposes(st, m)
  {
    hide Passes, Clean;
    assert forall j :: 0 <= j < |BodyIn(m).deps| ==> BodyIn(m).deps[j] in BodyIn(m).deps;
  }

  lemma BodyDeps(st: State, m: Msg)
    requires Validate(st, m)
    ensures forall x :: x in BodyIn(m).deps && x.Id? ==> x.src != m.id.src
  {
    hide Validate;
    ValidBody(st, m);
  }

  /**
    The receiver's verdict on a block with delivered parents, forks and blames included: it is delivered
    if no dependency is in the causal past of `prev`, `prev` has not seen another fork of a blamed
    dependency's source, and a fork proof in its payload is right; a direct dependency on the root ends the program unless something before it is
    rejected; otherwise the block is ill.
  */
  lemma AcceptedIff(st: State, m: Msg)
    requires Inv(st, {}) && Settled(st) && Arriving(st, m)
    ensures Is(Accept(st, m).status, m.id, Delivered) <==> Admissible(st, m) && Truthful(st, m.id)
    ensures Exposes(st, m) ==> !Accept(st, m).checks && Is(Accept(st, m).status, m.id, Initialized)
    ensures Is(Accept(st, m).status, m.id, Ill) <==> !(Admissible(st, m) && Truthful(st, m.id)) && !Exposes(st, m)
  {
    hide Inv, Later, Ready, Validate, Admissible, Truthful, Exposes, CreateBlock, Written, RunScheduler, InitializeFork, Judge, Placed,
         AllDelivered, Absorb, Deliver, Reject, Run, Settled, OtherSources, SameBlame;
    var b, r := m.id, Written(CreateBlock(st, m), m.id);
    Created(st, m);
    var r1 := r.(toRun := []);
    Popped(r, b);
    LaterVia(st, r, r1);
    VerdictIff(st, m, r1);
    RunVerdict(r1, b);
    RunKeeps(r1, b);
    var f, q := InitializeFork(r1, b), Run(r1, b);
    PlacedId(f, b);
    InvChecks(r, {});
    OneRound(r, b);
    ValidSource(st, m);
    assert Accept(st, m) == RunScheduler(q);
    if Judge(f, b) == NoSource {
      Stopped(q);
    } else {
      if Judge(f, b) == Fine {
        DeliverSame(f, b);
        IsUpdate(f.status, b, Delivered);
      } else {
        RejectKeeps(f, b);
      }
      RunSchedulerKeeps(q);
      LaterVerdict(q, RunScheduler(q), b);
    }
  }

  lemma LaterVerdict(st: State, r: State, b: BlockId)
    requires Later(st, r)
    ensures Is(st.status, b, Delivered) ==> Is(r.status, b, Delivered)
    ensures Is(st.status, b, Ill) ==> Is(r.status, b, Ill)
  {}

  lemma LaterVia(st: State, r: State, r1: State)
    requires Later(st, r) && r1 == r.(toRun := [])
    ensures Later(st, r1)
    ensures forall s :: OtherSources(st, r, s) ==> OtherSources(st, r1, s)
  {}

  lemma Popped(r: State, b: BlockId)
    requires Inv(r, {}) && r.toRun == [b] && Is(r.status, b, Initialized)
    ensures var r1 := r.(toRun := []); Inv(r1, {b}) && Ready(r1, b)
  {
    hide Inv, Ready;
    PopKeeps(r);
    assert r.(toRun := r.toRun[1..]) == r.(toRun := []);
    ReadySame(r, r.(toRun := []), b);
  }

  lemma OneRound(r: State, b: BlockId)
    requires r.toRun == [b] && r.checks
    ensures RunScheduler(r) == RunScheduler(Run(r.(toRun := []), b))
  {
    assert r.(toRun := r.toRun[1..]) == r.(toRun := []);
  }

  // ----- nothing else happens when nobody waits for the block -----

  /** Moreover no block of the same source and height is known, and the payload proves no fork. */
  ghost predicate Extends(st: State, m: Msg) {
    && Arriving(st, m) && !m.id.data.ForkProof?
    && (forall c :: c in st.status && c.Id? && c.src == m.id.src ==> c.height != m.id.height)
  }

  ghost predicate SameBlame(st: State, r: State) {
    |r.sources| == |st.sources| && forall s :: 0 <= s < |st.sources| ==> r.sources[s].blamed == st.sources[s].blamed
  }

  lemma BlameVia(st: State, r: State, q: State)
    requires r.sources == st.sources && SameBlame(r, q)
    ensures SameBlame(st, q)
  {}

  lemma BlameTrans(st: State, r: State, q: State)
    requires SameBlame(st, r) && SameBlame(r, q)
    ensures SameBlame(st, q)
  {}

  lemma StubBlame(st: State, m: Msg)
    requires Inv(st, {}) && Extends(st, m)
    ensures SameBlame(st, AddStub(st, m.id))
  {
    hide Clocks, Queue, Waiting, Counted, Illness, Ordered, ForkTree, ForkOwners, ForkStatus;
    assert m.id.src < |st.sources|;
    assert Book(st.status, st.sources[m.id.src], m.id.src);
  }

  lemma ForkBlame(st: State, b: BlockId)
    requires b.Id? && b in st.body && st.body[b].prev !in st.next
    requires b.src < |st.sources| && (b.height == 1 ==> st.sources[b.src].forks == [])
    ensures var r := InitializeFork(st, b);
            SameBlame(st, r) && r.toRun == st.toRun && r.log == st.log && r.status == st.status && RevDepsOf(r, b) == RevDepsOf(st, b)
  {
    hide Stamp, At;
  }

  /** What delivering a block that nobody waits for leaves behind. */
  lemma DeliverAlone(st: State, b: BlockId)
    requires b.Id? && !b.data.ForkProof? && Is(st.status, b, Initialized) && RevDepsOf(st, b) == []
    ensures var r := Deliver(Absorb(st, b), b);
            r.toRun == st.toRun && r.log == st.log + [b] && Is(r.status, b, Delivered) && SameBlame(st, r)
  {
    hide Absorb, Release, BlockDelivered, SameBlame;
    AbsorbPlain(st, b);
    var st1 := Absorb(st, b);
    ReleaseAlone(st1, b);
    WalkFacts(Release(st1, b), b);
    BlameVia(st, Release(st1, b), Deliver(st1, b));
  }

  lemma AbsorbPlain(st: State, b: BlockId)
    requires b.Id? && !b.data.ForkProof?
    ensures var r := Absorb(st, b);
            && r.sources == st.sources && r.toRun == st.toRun && r.log == st.log && r.status == st.status
            && RevDepsOf(r, b) == RevDepsOf(st, b)
  {}

  lemma ReleaseAlone(st: State, b: BlockId)
    requires RevDepsOf(st, b) == []
    ensures var r := Release(st, b);
            && r.sources == st.sources && r.toRun == st.toRun && r.log == st.log + [b] && Is(r.status, b, Delivered)
  {
    hide MergeInto, DecrementAll;
  }

  /** The walks over a source's heights change only its two height fields. */
  lemma WalkFacts(st: State, b: BlockId)
    requires b.Id?
    ensures SameBlame(st, BlockDelivered(st, b)) && SameBlame(st, BlockReceived(st, b))
    ensures OtherSources(st, BlockReceived(st, b), b.src)
  {
    hide Advance;
    if b.src < |st.sources| && !st.sources[b.src].blamed {
      var d, r := BlockDelivered(st, b), BlockReceived(st, b);
      var src := st.sources[b.src];
      assert d.sources == st.sources[b.src := src.(delivered := d.sources[b.src].delivered)];
      assert r.sources == st.sources[b.src := src.(received := r.sources[b.src].received)];
    }
  }

  lemma NobodyWaits(st: State, r: State, b: BlockId)
    requires Inv(st, {}) && b !in st.status && Inv(r, {}) && b in r.body && r.body == st.body[b := r.body[b]]
    ensures RevDepsOf(r, b) == []
  {
    hide Clocks, Queue, Counted, Illness, Ordered, ForkTree, ForkOwners, ForkStatus, Books, Touched;
    DistinctParents(|r.sources|, b, r.body[b]);
    assert forall c :: c in r.body ==> !Parent(r.body[c], b);
    assert b in r.revDeps ==> forall c :: c !in r.revDeps[b];
    NoMembers(RevDepsOf(r, b));
  }

  lemma NoMembers(s: seq<BlockId>)
    ensures (forall c :: c !in s) ==> s == []
  {
    assert s != [] ==> s[0] in s;
  }

  lemma ExtendsAlone(st: State, m: Msg)
    requires Inv(st, {}) && Extends(st, m)
    ensures Alone(st.body[m.id := BodyIn(m)], m.id) && m.id !in st.status
  {
    hide Validate;
    RootHasNoBody(st);
  }

  /** Nothing but the new block is delivered, and no source gets blamed by it. */
  lemma FreshAccepted(st: State, m: Msg)
    requires Inv(st, {}) && Settled(st) && Extends(st, m) && Admissible(st, m)
    ensures var q := Accept(st, m);
            q.checks && Is(q.status, m.id, Delivered) && SameBlame(st, q) && q.log == st.log + [m.id]
  {
    hide Inv, Later, Ready, Validate, Admissible, Exposes, CreateBlock, Written, RunScheduler, InitializeFork, Judge, Placed,
         AllDelivered, Absorb, Deliver, Reject, Run, Settled, OtherSources, SameBlame, Alone;
    var b, r := m.id, Written(CreateBlock(st, m), m.id);
    Created(st, m);
    StubBlame(st, m);
    BlameTrans(st, AddStub(st, b), r);
    ExtendsAlone(st, m);
    NobodyWaits(st, r, b);
    var r1 := r.(toRun := []);
    Popped(r, b);
    LaterVia(st, r, r1);
    VerdictIff(st, m, r1);
    RunVerdict(r1, b);
    RunKeeps(r1, b);
    ReadyFacts(r1, b);
    InvOwners(r1, {b});
    NoSecondFork(r1, b);
    ForkBlame(r1, b);
    var f := InitializeFork(r1, b);
    DeliverAlone(f, b);
    BlameSteps(st, r, r1, f, Deliver(Absorb(f, b), b));
    InvChecks(r, {});
    OneRound(r, b);
    Drained(Run(r1, b));
    ValidSource(st, m);
  }

  lemma BlameSteps(st: State, r: State, r1: State, f: State, q: State)
    requires SameBlame(st, r) && r1.sources == r.sources && SameBlame(r1, f) && SameBlame(f, q)
    ensures SameBlame(st, q)
  {}

  lemma Drained(st: State)
    requires st.toRun == []
    ensures RunScheduler(st) == st
  {}
}
