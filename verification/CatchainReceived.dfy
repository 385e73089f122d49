/** `received_height_` of a source is exact in every run, and so are the checks that read it. */
module CatchainReceived {
  import opened CatchainReceiver
  import opened CatchainInvariant
  import opened CatchainCreate
  import opened CatchainDeliver
  import opened CatchainRuns

  /** Source `s` has registered a block of height `h`, and that block is more than a reference. */
  ghost predicate Has(st: State, s: nat, h: nat)
    requires s < |st.sources|
  {
    h in st.sources[s].blocks && StatusOf(st, st.sources[s].blocks[h]) != Stub
  }

  /** The received height of source `s` is the length of its gapless prefix of received blocks. */
  ghost predicate Prefix(st: State, s: nat)
    requires s < |st.sources|
  {
    && (forall h :: 1 <= h <= st.sources[s].received ==> Has(st, s, h))
    && !Has(st, s, st.sources[s].received + 1)
  }

  ghost predicate Gapless(st: State) {
    forall s :: 0 <= s < |st.sources| && !st.sources[s].blamed ==> Prefix(st, s)
  }

  /** Nothing was received from source `s` in between. */
  ghost predicate SteadyAt(st: State, r: State, s: nat)
    requires s < |st.sources| == |r.sources|
  {
    && !st.sources[s].blamed && r.sources[s].received == st.sources[s].received
    && forall h {:trigger Has(r, s, h)} {:trigger Has(st, s, h)} :: Has(r, s, h) <==> Has(st, s, h)
  }

  ghost predicate Steady(st: State, r: State) {
    && |r.sources| == |st.sources|
    && forall s :: 0 <= s < |r.sources| && !r.sources[s].blamed ==> SteadyAt(st, r, s)
  }

  lemma SteadyTrans(st: State, r: State, q: State)
    requires Steady(st, r) && Steady(r, q)
    ensures Steady(st, q)
  {
    hide Has;
    forall s | 0 <= s < |q.sources| && !q.sources[s].blamed ensures SteadyAt(st, q, s) {
      assert SteadyAt(r, q, s) && SteadyAt(st, r, s);
    }
  }

  lemma SteadyGapless(st: State, r: State)
    requires Steady(st, r) && Gapless(st)
    ensures Gapless(r)
  {
    hide Has;
    forall s | 0 <= s < |r.sources| && !r.sources[s].blamed ensures Prefix(r, s) {
      assert SteadyAt(st, r, s) && Prefix(st, s);
    }
  }

  /** Sources that keep their heights and blocks or are blamed, and references that stay references. */
  lemma SteadySame(st: State, r: State)
    requires |r.sources| == |st.sources|
    requires forall c :: StatusOf(r, c) == Stub <==> StatusOf(st, c) == Stub
    requires forall s :: 0 <= s < |r.sources| && !r.sources[s].blamed ==>
               !st.sources[s].blamed && r.sources[s].received == st.sources[s].received &&
               r.sources[s].blocks == st.sources[s].blocks
    ensures Steady(st, r)
  {}

  lemma SteadyUpdate(st: State, r: State, s: nat)
    requires s < |st.sources| && r.status == st.status && |r.sources| == |st.sources|
    requires r.sources == st.sources[s := r.sources[s]]
    requires r.sources[s].blamed ||
             (!st.sources[s].blamed && r.sources[s].received == st.sources[s].received &&
              r.sources[s].blocks == st.sources[s].blocks)
    ensures Steady(st, r)
  {
    hide Steady, Has;
    forall t | 0 <= t < |r.sources| && t != s ensures r.sources[t] == st.sources[t] {}
    SteadySame(st, r);
  }

  lemma AddStubSteady(st: State, b: BlockId)
    ensures Steady(st, AddStub(st, b))
  {
    var r := AddStub(st, b);
    forall s, h | 0 <= s < |r.sources| && !r.sources[s].blamed ensures Has(r, s, h) <==> Has(st, s, h) {}
  }

  lemma AddStubsSteady(st: State, bs: seq<BlockId>)
    ensures Steady(st, AddStubs(st, bs))
    decreases |bs|
  {
    hide AddStub, Steady;
    if bs == [] {
      SteadySelf(st);
    } else {
      AddStubSteady(st, bs[0]);
      AddStubsSteady(AddStub(st, bs[0]), bs[1..]);
      SteadyTrans(st, AddStub(st, bs[0]), AddStubs(st, bs));
    }
  }

  lemma SteadySelf(st: State)
    ensures Steady(st, st)
  {}

  lemma SickerSteady(st: State, r: State)
    requires Sicker(st, r)
    ensures Steady(st, r)
  {
    forall c ensures StatusOf(r, c) == Stub <==> StatusOf(st, c) == Stub {
      assert c in r.status <==> c in st.status;
    }
    SteadySame(st, r);
  }

  lemma BlamedSteady(st: State, r: State, s: nat)
    requires s < |st.sources| == |r.sources| && r.status == st.status && r.sources[s].blamed
    requires forall t :: 0 <= t < |st.sources| && t != s ==> r.sources[t] == st.sources[t]
    ensures Steady(st, r)
  {
    hide Steady, Has;
    assert r.sources == st.sources[s := r.sources[s]];
    SteadyUpdate(st, r, s);
  }

  lemma BlameSteady(st: State, s: nat)
    ensures Steady(st, Blame(st, s)) && Steady(st, Blame(Prove(st, s), s))
  {
    hide Steady, Has;
    SteadySelf(st);
    if s < |st.sources| {
      BlamedSteady(st, Blame(st, s), s);
      BlamedSteady(st, Blame(Prove(st, s), s), s);
    }
  }

  lemma ForkSteady(st: State, b: BlockId)
    requires b.Id?
    ensures Steady(st, InitializeFork(st, b))
  {
    hide Stamp, Steady, Has;
    var r := InitializeFork(st, b);
    if r.sources == st.sources {
      SteadySame(st, r);
    } else {
      SteadyUpdate(st, r, b.src);
    }
  }

  lemma RejectSteady(st: State, b: BlockId)
    requires Inv(st, {b}) && Is(st.status, b, Initialized) && b.Id?
    ensures Steady(st, Reject(st, b))
  {
    hide Inv, Sicker, Judge, Blame, Steady;
    BlameKeeps(st, {b}, b.src);
    BlameSteady(st, b.src);
    SteadySelf(st);
    var st1 := if Judge(st, b) == MixesForks then Blame(st, b.src) else st;
    InvWaiters(st1, {b});
    SetIllSicker(st1, b);
    SickerSteady(st1, SetIll(st1, b));
    SteadyTrans(st, st1, SetIll(st1, b));
  }

  lemma AbsorbSteady(st: State, b: BlockId)
    requires b.Id?
    ensures Steady(st, Absorb(st, b))
  {
    hide Steady, Has, Blame, Prove;
    SteadySame(st, st.(custom := st.custom + {b}));
    SteadySelf(st);
    if b.data.ForkProof? && b.data.left.id.Id? {
      BlameSteady(st, b.data.left.id.src);
    }
  }

  lemma StopSteady(st: State)
    ensures Steady(st, st.(checks := false))
  {
    SteadySame(st, st.(checks := false));
  }

  lemma PreDeliverSteady(st: State, b: BlockId)
    requires Inv(st, {b}) && Is(st.status, b, Initialized) && b.Id?
    ensures Steady(st, PreDeliver(st, b))
  {
    hide Inv, Judge, Reject, Absorb, Steady;
    match Judge(st, b)
    case Fine => AbsorbSteady(st, b);
    case NoSource => StopSteady(st);
    case _ => RejectSteady(st, b);
  }

  lemma DeliverSteady(st: State, b: BlockId)
    requires b.Id? && Is(st.status, b, Initialized)
    ensures Steady(st, Deliver(st, b))
  {
    hide Woken, MergeInto, DecrementAll, Advance, Steady, Has;
    SteadySame(st, Deliver(st, b));
  }

  lemma RunSteady(st: State, b: BlockId)
    requires Inv(st, {b}) && (Is(st.status, b, Initialized) ==> Ready(st, b))
    ensures Steady(st, Run(st, b))
  {
    hide Inv, Placed, Ready, Steady, InitializeFork, PreDeliver, Judge, Deliver;
    InvChecks(st, {b});
    SteadySelf(st);
    if b.Id? && StatusOf(st, b) == Initialized {
      ReadyId(st, b);
      assert Check(st, PendingOf(st, b) == 0 && b in st.inDb) == st;
      var st1 := InitializeFork(st, b);
      var st2 := PreDeliver(st1, b);
      InitializeForkKeeps(st, b);
      PlacedId(st1, b);
      PreDeliverKeeps(st1, b);
      ForkSteady(st, b);
      PreDeliverSteady(st1, b);
      SteadyTrans(st, st1, st2);
      if st2.checks {
        if Is(st2.status, b, Ill) {
          StillIll(st2, b);
        } else {
          PlacedId(st2, b);
          DeliverSteady(st2, b);
          SteadyTrans(st, st2, Deliver(st2, b));
        }
      }
    }
  }

  lemma {:induction false} RunSchedulerSteady(st: State)
    requires Inv(st, {})
    ensures Steady(st, RunScheduler(st))
    decreases Live(st), |st.toRun|
  {
    hide Inv, Ready, Steady, Later, Run;
    InvChecks(st, {});
    SteadySelf(st);
    if st.toRun != [] {
      var b := st.toRun[0];
      var st1 := st.(toRun := st.toRun[1..]);
      PopKeeps(st);
      ReadySame(st, st1, b);
      SteadyQueue(st, st1);
      RunSteady(st1, b);
      SteadyTrans(st, st1, Run(st1, b));
      assert Live(st1) == Live(st);
      RunKeeps(st1, b);
      if Run(st1, b).checks {
        RunSchedulerSteady(Run(st1, b));
        SteadyTrans(st, Run(st1, b), RunScheduler(st));
      } else {
        Stopped(Run(st1, b));
      }
    }
  }

  lemma SteadyQueue(st: State, r: State)
    requires r.status == st.status && r.sources == st.sources
    ensures Steady(st, r)
  {
    SteadySame(st, r);
  }

  // ----- a received block -----

  /** The blocks the walk over `blocks_` passes. */
  predicate Passed(status: Status, delivered: bool) {
    status == Delivered || (!delivered && status == Initialized)
  }

  /** A walk from `from` ends at `h`: it passed everything up to `h`, and what comes next is missing or not to be passed. */
  ghost predicate WalkEnds(st: State, src: Source, from: nat, h: nat, delivered: bool) {
    && from <= h
    && (forall k :: from < k <= h ==> k in src.blocks && Passed(StatusOf(st, src.blocks[k]), delivered))
    && (h + 1 in src.blocks ==> !Passed(StatusOf(st, src.blocks[h + 1]), delivered))
  }

  lemma {:induction false} AdvanceEnds(st: State, src: Source, from: nat, delivered: bool)
    ensures WalkEnds(st, src, from, Advance(st, src, from, delivered), delivered)
    decreases src.blocks.Keys - set k | k in src.blocks.Keys && k <= from
  {
    if from + 1 in src.blocks && Passed(StatusOf(st, src.blocks[from + 1]), delivered) {
      assert from + 1 in src.blocks.Keys - set k | k in src.blocks.Keys && k <= from;
      AdvanceEnds(st, src, from + 1, delivered);
    }
  }

  /** Block `b` was only referenced in `st` and is received in `r`. */
  ghost predicate Filling(st: State, r: State, b: BlockId) {
    && b.Id? && b.height > 0 && b.src < |st.sources| && Is(st.status, b, Stub)
    && Books(st.status, st.sources)
    && r.status == st.status[b := Initialized] && r.sources == st.sources
  }

  /** One more block is received, and no other. */
  lemma FillHas(st: State, r: State, b: BlockId, s: nat)
    requires Filling(st, r, b) && s < |st.sources|
    ensures b.Id? && r.sources == st.sources
    ensures forall h {:trigger Has(r, s, h)} {:trigger Has(st, s, h)} ::
              s != b.src || h != b.height ==> (Has(r, s, h) <==> Has(st, s, h))
    ensures s == b.src && !st.sources[s].blamed ==> Has(r, s, b.height)
    ensures forall h :: !st.sources[s].blamed && h in st.sources[s].blocks ==> StatusOf(r, st.sources[s].blocks[h]) != Ill
  {
    assert Book(st.status, st.sources[s], s);
  }

  /** `block_received` takes the prefix up to the next gap. */
  lemma ReceivedPrefix(st: State, r: State, b: BlockId)
    requires Gapless(st) && Filling(st, r, b) && !st.sources[b.src].blamed
    ensures Prefix(BlockReceived(r, b), b.src)
  {
    FillHas(st, r, b, b.src);
    hide Advance, Filling, Book, Books;
    assert Prefix(st, b.src);
    forall k | 1 <= k <= st.sources[b.src].received ensures Has(r, b.src, k) {
      assert Has(st, b.src, k);
    }
    WalkPrefix(r, b);
  }

  /** Among blocks none of which is ill, the walk stops at the first that is missing or only referenced. */
  lemma WalkStops(st: State, s: nat, h: nat)
    requires s < |st.sources|
    requires forall k :: k in st.sources[s].blocks ==> StatusOf(st, st.sources[s].blocks[k]) != Ill
    ensures var r := Advance(st, st.sources[s], h, false);
            h <= r && (forall k :: h < k <= r ==> Has(st, s, k)) && !Has(st, s, r + 1)
  {
    hide Advance;
    AdvanceEnds(st, st.sources[s], h, false);
  }

  /** Where the walk starts that a block of height `height` sets off when the height reached so far is `h`. */
  function Start(h: nat, height: nat): nat {
    if h + 1 == height then height else h
  }

  lemma ReceivedWalk(r: State, b: BlockId)
    requires b.Id? && b.src < |r.sources| && !r.sources[b.src].blamed
    ensures var q, src := BlockReceived(r, b), r.sources[b.src];
            && q.status == r.status && |q.sources| == |r.sources|
            && q.sources[b.src] == src.(received := Advance(r, src, Start(src.received, b.height), false))
  {
    hide Advance;
  }

  lemma WalkPrefix(r: State, b: BlockId)
    requires b.Id? && b.src < |r.sources| && !r.sources[b.src].blamed
    requires forall k :: 1 <= k <= r.sources[b.src].received || k == b.height > 0 ==> Has(r, b.src, k)
    requires forall h :: h in r.sources[b.src].blocks ==> StatusOf(r, r.sources[b.src].blocks[h]) != Ill
    ensures Prefix(BlockReceived(r, b), b.src)
  {
    hide Advance, Has, BlockReceived, Prefix;
    ReceivedWalk(r, b);
    WalkStops(r, b.src, Start(r.sources[b.src].received, b.height));
    PrefixTo(r, BlockReceived(r, b), b.src);
  }

  lemma PrefixTo(r: State, q: State, s: nat)
    requires s < |r.sources| && r.status == q.status && |q.sources| == |r.sources|
    requires q.sources[s] == r.sources[s].(received := q.sources[s].received)
    requires forall h :: 1 <= h <= q.sources[s].received ==> Has(r, s, h)
    requires !Has(r, s, q.sources[s].received + 1)
    ensures Prefix(q, s)
  {
    assert forall h :: Has(q, s, h) <==> Has(r, s, h);
  }

  lemma ReceivedGapless(st: State, r: State, b: BlockId)
    requires Gapless(st) && Filling(st, r, b)
    ensures Gapless(BlockReceived(r, b))
  {
    hide Prefix;
    var q := BlockReceived(r, b);
    forall s | 0 <= s < |q.sources| && !q.sources[s].blamed ensures Prefix(q, s) {
      if s == b.src {
        ReceivedPrefix(st, r, b);
      } else {
        FillHas(st, r, b, s);
        assert Prefix(st, s) && q.sources[s] == st.sources[s];
        assert forall h {:trigger Has(q, s, h)} :: Has(q, s, h) <==> Has(r, s, h);
        PrefixSame(st, q, s);
      }
    }
  }

  lemma PrefixSame(st: State, q: State, s: nat)
    requires s < |st.sources| == |q.sources| && Prefix(st, s) && q.sources[s].received == st.sources[s].received
    requires forall h {:trigger Has(q, s, h)} :: Has(q, s, h) <==> Has(st, s, h)
    ensures Prefix(q, s)
  {}

  /** A block that is ill from the start gets its source blamed, so its height does not matter. */
  lemma IllGapless(st: State, r: State, q: State, b: BlockId)
    requires Gapless(st) && Filling(st, r, b) && Steady(r, q) && q.sources[b.src].blamed
    ensures Gapless(q)
  {
    hide Prefix, Has;
    forall s | 0 <= s < |q.sources| && !q.sources[s].blamed ensures Prefix(q, s) {
      FillHas(st, r, b, s);
      assert SteadyAt(r, q, s) && Prefix(st, s);
      PrefixSame(st, q, s);
    }
  }

  lemma IllBlames(st: State, b: BlockId)
    requires Inv(st, {}) && Is(st.status, b, Ill) && b.Id?
    ensures b.src < |st.sources| && st.sources[b.src].blamed
  {
    assert Book(st.status, st.sources[b.src], b.src);
  }

  lemma InvBooks(st: State, b: BlockId)
    requires Inv(st, {}) && Is(st.status, b, Stub)
    ensures Books(st.status, st.sources) && (b.Id? ==> b.height > 0 && b.src < |st.sources|)
  {}

  lemma InitializeGapless(st: State, m: Msg)
    requires Inv(st, {}) && Fits(st, m) && Gapless(st)
    ensures Gapless(Initialize(st, m))
  {
    hide Inv, Initialize, SetIll, BlockReceived, Fits, Gapless, Steady, Sicker, Books, Stubbed, LinkAll;
    var b, ps, st2 := m.id, ParentsOf(BodyIn(m)), Filled(st, m);
    var st1 := AddStubs(st, [m.prev.id] + Ids(m.deps));
    AddStubsSteady(st, [m.prev.id] + Ids(m.deps));
    SteadyGapless(st, st1);
    FilledStubs(st, m);
    FilledKeeps(st, m);
    FitsParents(st, m);
    InvBooks(st1, b);
    InitializeCases(st, m);
    if AnyIll(st2, ps) {
      InvWaiters(st2, {b});
      SetIllSicker(st2, b);
      SickerSteady(st2, SetIll(st2, b));
      InitializeKeeps(st, m);
      IllBlames(SetIll(st2, b), b);
      IllGapless(st1, st2, SetIll(st2, b), b);
    } else {
      LinkStatus(st2, b, ps);
      ReceivedGapless(st1, LinkAll(st2, b, ps), b);
    }
  }

  lemma LinkStatus(st: State, b: BlockId, ps: seq<BlockId>)
    ensures LinkAll(st, b, ps).status == st.status && LinkAll(st, b, ps).sources == st.sources
  {}

  // ----- events -----

  lemma WrittenGapless(st: State, b: BlockId)
    requires Gapless(st)
    ensures Gapless(Written(st, b))
  {
    hide Gapless;
    SteadyQueue(st, Written(st, b));
    SteadyGapless(st, Written(st, b));
  }

  lemma AcceptGapless(st: State, m: Msg)
    requires Inv(st, {}) && Settled(st) && Gapless(st)
    ensures Gapless(Accept(st, m))
  {
    hide Inv, Gapless, Validate, Written, Initialize, AddStub, RunScheduler, Fits, Steady, Later, Stubbed;
    if !Hashable(|st.sources|, m) {
      StopSteady(st);
      SteadyGapless(st, st.(checks := false));
    } else if StatusOf(st, m.id) != Initialized && StatusOf(st, m.id) != Delivered && Validate(st, m) {
      ValidId(st, m);
      if Is(st.status, m.id, Ill) {
        IllAgain(st, m);
        InvQueueEmpty(st);
      } else {
        var st1 := AddStub(st, m.id);
        AddStubFits(st, m);
        AddStubSteady(st, m.id);
        SteadyGapless(st, st1);
        InitializeGapless(st1, m);
        var st2 := Written(CreateBlock(st, m), m.id);
        WrittenGapless(CreateBlock(st, m), m.id);
        CreateKeeps(st, m);
        RunSchedulerSteady(st2);
        SteadyGapless(st2, RunScheduler(st2));
      }
    }
  }

  lemma InvQueueEmpty(st: State)
    requires Settled(st)
    ensures RunScheduler(st) == st
  {}

  lemma StepGapless(st: State, e: Event)
    requires Inv(st, {}) && Settled(st) && Gapless(st)
    ensures Gapless(Step(st, e))
  {
    hide Inv, Settled, Gapless, Accept, Blame, Prove, Steady;
    match e
    case Receive(m) => AcceptGapless(st, m);
    case Proof(l, r) =>
      if ValidRef(st, l) && ValidRef(st, r) && IsFork(l.id, r.id) {
        BlameSteady(st, l.id.src);
        SteadyGapless(st, Blame(Prove(st, l.id.src), l.id.src));
      }
  }

  lemma {:induction false} ExecuteGapless(n: nat, maxDeps: nat, events: seq<Event>)
    ensures Gapless(Execute(n, maxDeps, events))
  {
    hide Inv, Settled, Step;
    if events != [] {
      var k := |events| - 1;
      var st := Execute(n, maxDeps, events[..k]);
      ExecuteGapless(n, maxDeps, events[..k]);
      ExecuteKeeps(n, maxDeps, events[..k]);
      if st.checks {
        StepGapless(st, events[k]);
      } else {
        Halted(st, events[k]);
      }
    }
  }

  lemma Halted(st: State, e: Event)
    requires !st.checks
    ensures Step(st, e) == st
  {}

  /** What `synchronize_with`, `has_unreceived` and `unsafe_start_up_check_completed` read from source `s`. */
  ghost predicate ReceivedExact(st: State, s: nat)
    requires s < |st.sources|
  {
    var src := st.sources[s];
    && src.delivered <= src.received
    && (forall h :: 1 <= h <= src.received ==>
          h in src.blocks && Is(st.status, src.blocks[h], if h <= src.delivered then Delivered else Initialized))
    && (src.received + 1 in src.blocks ==> Is(st.status, src.blocks[src.received + 1], Stub))
  }

  /**
    In every run the received height of an unblamed source counts the blocks it has sent without a gap: they
    are all registered, those up to the delivered height are delivered and the others wait, and the next one
    is unknown or only referenced.
  */
  lemma ReceivedHeightsAreExact(n: nat, maxDeps: nat, events: seq<Event>, s: nat)
    requires Alive(n, maxDeps, events) && s < n
    ensures var st := Execute(n, maxDeps, events);
            |st.sources| == n && (!st.sources[s].blamed ==> ReceivedExact(st, s))
  {
    hide Execute, Inv, Settled, ReceivedExact, Gapless;
    var st := Execute(n, maxDeps, events);
    ExecuteKeeps(n, maxDeps, events);
    ExecuteGapless(n, maxDeps, events);
    if !st.sources[s].blamed {
      PrefixExact(st, s);
    }
  }

  lemma DeliveredHas(st: State, s: nat)
    requires s < |st.sources| && Book(st.status, st.sources[s], s) && !st.sources[s].blamed
    ensures forall h {:trigger Has(st, s, h)} :: 1 <= h <= st.sources[s].delivered ==> Has(st, s, h)
  {}

  lemma PrefixExact(st: State, s: nat)
    requires Inv(st, {}) && Gapless(st) && s < |st.sources| && !st.sources[s].blamed
    ensures ReceivedExact(st, s)
  {
    var src := st.sources[s];
    assert Book(st.status, src, s) && Prefix(st, s);
    hide Inv;
    DeliveredHas(st, s);
    if src.received < src.delivered {
      assert false;
    }
    forall h | 1 <= h <= src.received
      ensures h in src.blocks && Is(st.status, src.blocks[h], if h <= src.delivered then Delivered else Initialized)
    {
      assert Has(st, s, h);
      assert src.blocks[h] in st.status && st.status[src.blocks[h]] != Ill;
    }
  }

  /**
    The checks of the synchronisation hold: when something received is undelivered, the block above the
    delivered height is registered and waits, and the highest registered block is no lower than the
    received height.
  */
  lemma SynchronisationChecksHold(n: nat, maxDeps: nat, events: seq<Event>, s: nat)
    requires Alive(n, maxDeps, events) && s < n
    requires var st := Execute(n, maxDeps, events); s < |st.sources| ==> !st.sources[s].blamed
    ensures var st := Execute(n, maxDeps, events);
            |st.sources| == n &&
            var src := st.sources[s];
            && (src.delivered < src.received ==>
                  src.delivered + 1 in src.blocks && Is(st.status, src.blocks[src.delivered + 1], Initialized))
            && (src.blocks != map[] ==> exists h :: h in src.blocks && h >= src.received)
            && (src.delivered > 0 ==>
                  src.delivered in src.blocks && Is(st.status, src.blocks[src.delivered], Delivered))
  {
    var st := Execute(n, maxDeps, events);
    hide Execute;
    ReceivedHeightsAreExact(n, maxDeps, events, s);
    var src := st.sources[s];
    if src.blocks != map[] {
      if src.received == 0 {
        var h :| h in src.blocks;
        assert h >= src.received;
      } else {
        assert src.received in src.blocks;
      }
    }
  }
}
