/** What holds in every run of the receiver, in the terms of its caller. */
module CatchainTheorems {
  import opened CatchainReceiver
  import opened CatchainInvariant
  import opened CatchainCreate
  import opened CatchainDeliver
  import opened CatchainRuns
  import opened CatchainVectorTime
  import opened CatchainConfluence
  import opened CatchainVerdict

  lemma RunHolds(n: nat, maxDeps: nat, events: seq<Event>)
    requires Alive(n, maxDeps, events)
    ensures var st := Execute(n, maxDeps, events); Inv(st, {}) && Settled(st) && |st.sources| == n
  {
    hide Inv, Settled;
    ExecuteKeeps(n, maxDeps, events);
  }

  /**
    A received block with delivered parents waits to be run, and the scan of its dependencies gets as far
    as one on the root, whose source object is null.
  */
  ghost predicate Stuck(st: State, b: BlockId) {
    && b in st.body && Is(st.status, b, Initialized) && AllDelivered(st, b)
    && MeetsRoot(st, VtOf(st, st.body[b].prev), st.body[b].deps)
  }

  lemma RunStuck(st: State, b: BlockId)
    requires Inv(st, {b}) && (Is(st.status, b, Initialized) ==> Ready(st, b)) && !Run(st, b).checks
    ensures Stuck(Run(st, b), b)
  {
    hide Inv, Ready, InitializeFork, Judge, AllDelivered, Run, Placed, Later;
    RunKeeps(st, b);
    RunVerdict(st, b);
    var f := InitializeFork(st, b);
    PlacedId(f, b);
    AllDeliveredBody(f, b);
    JudgeRoot(f, b);
    SameStuck(f, f.(checks := false), b);
  }

  lemma JudgeRoot(st: State, b: BlockId)
    requires b in st.body && b.Id? && Judge(st, b) == NoSource
    ensures MeetsRoot(st, VtOf(st, st.body[b].prev), st.body[b].deps)
  {
    hide ScanDeps;
    ScanDepsRoot(st, VtOf(st, st.body[b].prev), st.body[b].deps);
  }

  lemma SameStuck(st: State, r: State, b: BlockId)
    requires r == st.(checks := false) && Stuck(st, b)
    ensures Stuck(r, b)
  {
    assert forall x :: Passes(r, VtOf(r, st.body[b].prev), x) == Passes(st, VtOf(st, st.body[b].prev), x);
  }

  lemma {:induction false} SchedulerStuck(st: State)
    requires Inv(st, {}) && !RunScheduler(st).checks
    ensures exists b :: Stuck(RunScheduler(st), b)
    decreases Live(st), |st.toRun|
  {
    hide Inv, Ready, Later, Run, Stuck;
    InvChecks(st, {});
    var b := st.toRun[0];
    var st1 := st.(toRun := st.toRun[1..]);
    PopKeeps(st);
    ReadySame(st, st1, b);
    RunKeeps(st1, b);
    assert Live(st1) == Live(st);
    if Run(st1, b).checks {
      SchedulerStuck(Run(st1, b));
    } else {
      RunStuck(st1, b);
      Stopped(Run(st1, b));
    }
  }

  /** A CHECK fails in a step only for want of a source: that of the block, or that of a dependency. */
  lemma StepStuck(st: State, e: Event)
    requires Inv(st, {}) && Settled(st) && !Step(st, e).checks
    ensures e.Receive? && (!Hashable(|st.sources|, e.m) || exists b :: Stuck(Step(st, e), b))
  {
    hide Inv, Validate, Written, CreateBlock, RunScheduler, Stuck, Hashable, Settled, Later;
    InvChecks(st, {});
    StepKeeps(st, e);
    if e.Receive? && Hashable(|st.sources|, e.m) {
      var m := e.m;
      ValidId(st, m);
      if Is(st.status, m.id, Ill) {
        IllAgain(st, m);
      } else {
        CreateKeeps(st, m);
      }
      SchedulerStuck(Written(CreateBlock(st, m), m.id));
    }
  }

  lemma NotStuck(st: State, b: BlockId)
    requires Inv(st, {}) && Settled(st)
    ensures !Stuck(st, b)
  {
    hide Inv, Settled, AllDelivered;
    if AllDelivered(st, b) {
      NobodyForgotten(st, b);
    }
  }

  /**
    Exactly when a run fails a CHECK: some received block names a source that does not exist, or some
    received block has only delivered parents and a direct dependency on the root that the scan reaches.
  */
  lemma {:induction false} ChecksHoldIff(n: nat, maxDeps: nat, events: seq<Event>)
    ensures Execute(n, maxDeps, events).checks <==>
              (forall m :: Receive(m) in events ==> Hashable(n, m)) && forall b :: !Stuck(Execute(n, maxDeps, events), b)
  {
    hide Accept, AcceptProof, Inv, Hashable, Stuck, Settled;
    ExecuteKeeps(n, maxDeps, events);
    var st := Execute(n, maxDeps, events);
    if st.checks {
      forall b ensures !Stuck(st, b) {
        NotStuck(st, b);
      }
    }
    if events != [] {
      var k := |events| - 1;
      var before := Execute(n, maxDeps, events[..k]);
      ChecksHoldIff(n, maxDeps, events[..k]);
      ExecuteKeeps(n, maxDeps, events[..k]);
      assert events == events[..k] + [events[k]];
      assert forall m :: Receive(m) in events <==> Receive(m) in events[..k] || Receive(m) == events[k];
      if before.checks && !st.checks {
        StepStuck(before, events[k]);
      }
      if before.checks && events[k].Receive? {
        Unhashable(before, events[k].m);
      }
    }
  }

  lemma Unhashable(st: State, m: Msg)
    ensures !Hashable(|st.sources|, m) ==> !Accept(st, m).checks
  {}

  /** For example a block of source 7 where there are two. */
  lemma UnknownSourceFailsCheck()
    ensures var m := Msg(Id(7, 1, Custom(0)), DepRef(Root, true), [], true);
            !Execute(2, 1, [Receive(m)]).checks
  {
    var m := Msg(Id(7, 1, Custom(0)), DepRef(Root, true), [], true);
    assert [Receive(m)][..0] == [];
    assert Execute(2, 1, []) == Init(2, 1);
    Unhashable(Init(2, 1), m);
  }

  /** Or a first block that depends on the root, which validation lets through. */
  lemma RootDependencyFailsCheck()
    ensures var m := Msg(Id(0, 1, Custom(0)), DepRef(Root, true), [DepRef(Root, true)], true);
            Validate(Init(2, 1), m) && !Execute(2, 1, [Receive(m)]).checks
  {
    hide Inv, Settled, Arriving, Exposes, Accept, Validate;
    var m := Msg(Id(0, 1, Custom(0)), DepRef(Root, true), [DepRef(Root, true)], true);
    var st := Init(2, 1);
    assert [Receive(m)][..0] == [];
    assert Execute(2, 1, []) == st;
    InitHolds(2, 1);
    RootArriving(m);
    AcceptedIff(st, m);
  }

  lemma RootArriving(m: Msg)
    requires m == Msg(Id(0, 1, Custom(0)), DepRef(Root, true), [DepRef(Root, true)], true)
    ensures Validate(Init(2, 1), m) && Arriving(Init(2, 1), m) && Exposes(Init(2, 1), m)
  {
    hide Reaches;
    assert BodyIn(m).deps == [Root];
    assert BodyIn(m).deps[0].Root?;
  }

  /**
    The scheduler is exact: no CHECK fails, `pending_deps_` counts the undelivered parents, nothing is
    queued twice over the whole run, the queue is drained, and no healthy received block with all
    parents delivered is left behind.
  */
  lemma SchedulerIsExact(n: nat, maxDeps: nat, events: seq<Event>)
    requires Alive(n, maxDeps, events)
    ensures var st := Execute(n, maxDeps, events);
            && st.checks && st.toRun == [] && NoDup(st.pushed)
            && (forall b :: b in st.body && Is(st.status, b, Initialized) ==>
                  PendingOf(st, b) == |Undelivered(st.status, st.body[b])| > 0)
            && (forall b :: AllDelivered(st, b) ==> Is(st.status, b, Delivered) || Is(st.status, b, Ill))
  {
    var st := Execute(n, maxDeps, events);
    RunHolds(n, maxDeps, events);
    hide Execute;
    forall b | AllDelivered(st, b) ensures Is(st.status, b, Delivered) || Is(st.status, b, Ill) {
      NobodyForgotten(st, b);
    }
    forall b | b in st.body && Is(st.status, b, Initialized)
      ensures PendingOf(st, b) == |Undelivered(st.status, st.body[b])| > 0
    {
      assert b in st.inDb && b !in st.toRun;
    }
  }

  /** Delivery respects causal order and lists every delivered block exactly once. */
  lemma DeliveryIsCausal(n: nat, maxDeps: nat, events: seq<Event>)
    requires Alive(n, maxDeps, events)
    ensures var st := Execute(n, maxDeps, events);
            && NoDup(st.log) && (forall b :: b in st.log <==> b != Root && Is(st.status, b, Delivered))
            && (forall i :: 0 <= i < |st.log| ==> Known(st.body, st.log[..i], st.log[i]))
  {
    var st := Execute(n, maxDeps, events);
    RunHolds(n, maxDeps, events);
    LogMeans(st);
    hide Execute;
    forall i | 0 <= i < |st.log| ensures Known(st.body, st.log[..i], st.log[i]) {
      LogOrder(st, i);
    }
  }

  /** Illness is closed over children, and final: no delivered block ever becomes ill. */
  lemma IllnessIsClosedAndSafe(n: nat, maxDeps: nat, events: seq<Event>, k: nat)
    requires Alive(n, maxDeps, events) && k <= |events|
    ensures var st := Execute(n, maxDeps, events);
            forall b, p {:trigger Parent(st.body[b], p)} :: b in st.body && Parent(st.body[b], p) && Is(st.status, p, Ill) ==>
              Is(st.status, b, Ill)
    ensures var early, st := Execute(n, maxDeps, events[..k]), Execute(n, maxDeps, events);
            && (forall b :: Is(early.status, b, Delivered) ==> Is(st.status, b, Delivered))
            && (forall b :: Is(early.status, b, Ill) ==> Is(st.status, b, Ill))
  {
    var st := Execute(n, maxDeps, events);
    RunHolds(n, maxDeps, events);
    LogMeans(st);
    RootHasNoBody(st);
    ExecuteLater(n, maxDeps, events, k);
    hide Execute, Inv;
  }

  /** A delivered block keeps its fork id and its timestamp, so the copies handed to the application stay right. */
  lemma TimestampsAreFinal(n: nat, maxDeps: nat, events: seq<Event>, k: nat, b: BlockId)
    requires Alive(n, maxDeps, events) && k <= |events| && Is(Execute(n, maxDeps, events[..k]).status, b, Delivered)
    ensures var early, st := Execute(n, maxDeps, events[..k]), Execute(n, maxDeps, events);
            VtOf(st, b) == VtOf(early, b) && ForkOf(st, b) == ForkOf(early, b)
  {
    ExecuteLater(n, maxDeps, events, k);
    hide Execute;
  }

  /**
    Fork structure: a fork id belongs to one source, (fork, height) names at most one block, inside a
    fork heights are contiguous along `prev`, and a source with more than one fork is blamed.
  */
  lemma ForkStructure(n: nat, maxDeps: nat, events: seq<Event>, a: BlockId, b: BlockId)
    requires Alive(n, maxDeps, events)
    requires var st := Execute(n, maxDeps, events);
             a in st.fork && b in st.fork && st.fork[a] == st.fork[b]
    ensures var st := Execute(n, maxDeps, events);
            && a.Id? && b.Id? && a.src == b.src < n && b in st.body
            && (a.height == b.height ==> a == b)
            && (a.height < b.height ==>
                  var prev := st.body[b].prev;
                  prev in st.fork && st.fork[prev] == st.fork[b] && prev.Height() + 1 == b.height)
    ensures var st := Execute(n, maxDeps, events);
            forall s :: 0 <= s < |st.sources| && |st.sources[s].forks| > 1 ==> st.sources[s].blamed
  {
    hide Execute, Inv;
    RunHolds(n, maxDeps, events);
    ForkFacts(Execute(n, maxDeps, events), a, b);
  }

  lemma ForkFacts(st: State, a: BlockId, b: BlockId)
    requires Inv(st, {}) && a in st.fork && b in st.fork && st.fork[a] == st.fork[b]
    ensures a.Id? && b.Id? && a.src == b.src < |st.sources| && b in st.body && (a.height == b.height ==> a == b)
    ensures a.height < b.height ==>
              var prev := st.body[b].prev;
              prev in st.fork && st.fork[prev] == st.fork[b] && prev.Height() + 1 == b.height
    ensures forall s :: 0 <= s < |st.sources| && |st.sources[s].forks| > 1 ==> st.sources[s].blamed
  {
    hide Shape, ForkTree, ForkOwners, ForkStatus, Clocks, Queue, Waiting, Counted, Illness, Ordered, Books;
    ForkOwner(st.fork, st.sources, st.totalForks, a, b);
    ForkChain(st.body, st.fork, st.next, a, b);
    BodyShape(st.status, st.body, |st.sources|, b);
  }

  lemma ForkOwner(fork: map<BlockId, nat>, sources: seq<Source>, total: nat, a: BlockId, b: BlockId)
    requires ForkOwners(fork, sources, total) && a in fork && b in fork && fork[a] == fork[b]
    ensures a.Id? && b.Id? && a.src == b.src < |sources|
    ensures forall s :: 0 <= s < |sources| && |sources[s].forks| > 1 ==> sources[s].blamed
  {}

  lemma ForkChain(body: Bodies, fork: map<BlockId, nat>, next: map<BlockId, BlockId>, a: BlockId, b: BlockId)
    requires ForkTree(body, fork, next) && a in fork && b in fork && fork[a] == fork[b]
    ensures b in body && (a.Height() == b.Height() ==> a == b)
    ensures a.Height() < b.Height() ==> body[b].prev in fork && fork[body[b].prev] == fork[b]
  {}

  lemma BodyShape(status: Statuses, body: Bodies, n: nat, b: BlockId)
    requires Shape(status, body, n) && b in body
    ensures WellFormed(n, b, body[b])
  {}

  /**
    Delivered heights are exact contiguous prefixes: while a source is not blamed, every height up to
    its delivered height is registered to a block of its own, and a known block of it is delivered
    exactly when its height is at most the delivered height.  A blamed source has delivered height 0.
  */
  lemma DeliveredHeightsAreExact(n: nat, maxDeps: nat, events: seq<Event>, s: nat)
    requires Alive(n, maxDeps, events) && s < n
    ensures var st := Execute(n, maxDeps, events);
            |st.sources| == n && HeightsExact(st, s)
  {
    hide Execute, Inv, HeightsExact;
    RunHolds(n, maxDeps, events);
    BookHeights(Execute(n, maxDeps, events), s);
  }

  ghost predicate HeightsExact(st: State, s: nat)
    requires s < |st.sources|
  {
    var src := st.sources[s];
    && (src.blamed ==> src.delivered == 0)
    && (!src.blamed ==>
          && (forall h :: 1 <= h <= src.delivered ==> h in src.blocks)
          && (forall h :: h in src.blocks ==> src.blocks[h].Id? && src.blocks[h].src == s && src.blocks[h].height == h)
          && (forall b :: b in st.status && b.Id? && b.src == s ==>
                b.height in src.blocks && src.blocks[b.height] == b &&
                (Is(st.status, b, Delivered) <==> b.height <= src.delivered)))
  }

  lemma BookHeights(st: State, s: nat)
    requires Inv(st, {}) && s < |st.sources|
    ensures HeightsExact(st, s)
  {
    hide Clocks, Queue, Waiting, Counted, Illness, Ordered, ForkTree, ForkOwners, ForkStatus;
    assert Book(st.status, st.sources[s], s);
  }

  /**
    A reference to a new block blames a source that was not blamed before exactly when another block of
    the same source and height is known; the fork is proven then, and no other source changes.
  */
  lemma SecondBlockBlames(st: State, b: BlockId)
    requires Inv(st, {}) && b.Id? && b !in st.status && b.src < |st.sources| && !st.sources[b.src].blamed
    ensures var r := AddStub(st, b);
            && |r.sources| == |st.sources|
            && (r.sources[b.src].blamed <==> exists c :: c in st.status && c.Id? && c.src == b.src && c.height == b.height)
            && r.sources[b.src].proven == r.sources[b.src].blamed
            && (forall t :: 0 <= t < |st.sources| && t != b.src ==> r.sources[t] == st.sources[t])
  {
    hide Clocks, Queue, Waiting, Counted, Illness, Ordered, ForkTree, ForkOwners, ForkStatus;
    assert Book(st.status, st.sources[b.src], b.src);
    if b.height in st.sources[b.src].blocks {
      assert st.sources[b.src].blocks[b.height] in st.status;
    }
  }

  lemma BookFacts(st: State, s: nat, h: nat)
    requires Inv(st, {}) && s < |st.sources| && 1 <= h <= st.sources[s].delivered
    ensures var src := st.sources[s];
            && !src.blamed && h in src.blocks
            && src.blocks[h].Id? && src.blocks[h].src == s && src.blocks[h].height == h
            && Is(st.status, src.blocks[h], Delivered)
            && (forall b: BlockId :: b.Id? && b.src == s && Is(st.status, b, Delivered) ==> b.height <= src.delivered)
  {
    hide Clocks, Queue, Waiting, Counted, Illness, Ordered, ForkTree, ForkOwners, ForkStatus;
    assert Book(st.status, st.sources[s], s);
  }

  /** Delivered blocks form no cycle, although block ids do not cover dependencies. */
  lemma DeliveredIsAcyclic(n: nat, maxDeps: nat, events: seq<Event>, a: BlockId, b: BlockId)
    requires Alive(n, maxDeps, events)
    requires var st := Execute(n, maxDeps, events);
             a in st.log && b in st.log && Reaches(st.body, b, a) && Reaches(st.body, a, b)
    ensures a == b
  {
    var st := Execute(n, maxDeps, events);
    RunHolds(n, maxDeps, events);
    InvDag(st);
    hide Execute, Inv;
    var i :| 0 <= i < |st.log| && st.log[i] == a;
    var j :| 0 <= j < |st.log| && st.log[j] == b;
    ReachedEarlier(st, i, b, j);
    ReachedEarlier(st, j, a, i);
  }

  lemma {:induction false} ReachedEarlier(st: State, i: nat, a: BlockId, j: nat)
    requires Dag(st) && i < |st.log| && j < |st.log| && st.log[j] == a && Reaches(st.body, st.log[i], a)
    ensures j <= i
    decreases i
  {
    var b := st.log[i];
    if a != b {
      var p := ReachesFirst(st.body, b, a);
      assert p != Root by {
        assert Root !in st.log;
        if p == Root {
          RootReachesNothing(st.body, a);
        }
      }
      var k := InLog(st.log, i, p);
      ReachedEarlier(st, k, a, j);
    }
  }
}
