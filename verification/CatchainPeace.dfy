/** Runs in which no source gets blamed: the node's own blocks are always acceptable. */
module CatchainPeace {
  import opened CatchainReceiver
  import opened CatchainInvariant
  import opened CatchainCreate
  import opened CatchainRuns
  import opened CatchainVectorTime
  import opened CatchainConfluence
  import opened CatchainVerdict
  import opened CatchainOwnBlock
  import opened CatchainUpper
  import opened CatchainBoth
  import opened CatchainNode

  // ----- which blocks an event can bring up -----

  ghost function Named(m: Msg): set<BlockId> {
    {m.id} + Members(ParentsOf(BodyIn(m)))
  }

  lemma {:induction false} SetIllKeys(st: State, b: BlockId)
    ensures SetIll(st, b).status.Keys == st.status.Keys
    decreases Healthy(st), 0
  {
    if b in st.status && st.status[b] != Ill {
      assert Healthy(MarkIll(st, b)) == Healthy(st) - {b};
      SetIllAllKeys(MarkIll(st, b), RevDepsOf(st, b));
    }
  }

  lemma {:induction false} SetIllAllKeys(st: State, bs: seq<BlockId>)
    ensures SetIllAll(st, bs).status.Keys == st.status.Keys
    decreases Healthy(st), |bs|
  {
    if bs != [] {
      SetIllKeys(st, bs[0]);
      SetIllAllKeys(SetIll(st, bs[0]), bs[1..]);
    }
  }

  lemma PreDeliverStatusKeys(st: State, b: BlockId)
    requires b.Id?
    ensures PreDeliver(st, b).status.Keys == st.status.Keys
  {
    hide SetIll, Judge, Absorb, Blame;
    SetIllKeys(if Judge(st, b) == MixesForks then Blame(st, b.src) else st, b);
  }

  lemma DeliverStatusKeys(st: State, b: BlockId)
    requires b.Id? && b in st.status
    ensures Deliver(st, b).status.Keys == st.status.Keys
  {
    hide Woken, MergeInto, DecrementAll, BlockDelivered;
  }

  lemma RunStatusKeys(st: State, b: BlockId)
    ensures Run(st, b).status.Keys == st.status.Keys
  {
    hide InitializeFork, PreDeliver, Deliver;
    if !(b.Root? || StatusOf(st, b) != Initialized) {
      var st1 := InitializeFork(Check(st, PendingOf(st, b) == 0 && b in st.inDb), b);
      PreDeliverStatusKeys(st1, b);
      DeliverStatusKeys(PreDeliver(st1, b), b);
    }
  }

  lemma {:induction false} SchedulerStatusKeys(st: State)
    ensures RunScheduler(st).status.Keys == st.status.Keys
    decreases Live(st), |st.toRun|
  {
    hide Run;
    if st.toRun != [] {
      var st1 := st.(toRun := st.toRun[1..]);
      assert Live(st1) == Live(st);
      RunStatusKeys(st1, st.toRun[0]);
      SchedulerStatusKeys(Run(st1, st.toRun[0]));
    }
  }

  lemma {:induction false} AddStubsKeys(st: State, bs: seq<BlockId>)
    ensures AddStubs(st, bs).status.Keys <= st.status.Keys + Members(bs)
    decreases |bs|
  {
    if bs != [] {
      AddStubsKeys(AddStub(st, bs[0]), bs[1..]);
      assert bs == [bs[0]] + bs[1..];
    }
  }

  lemma AcceptStatusKeys(st: State, m: Msg)
    ensures Accept(st, m).status.Keys <= st.status.Keys + Named(m)
  {
    hide RunScheduler, CreateBlock, Written, Validate, Named;
    if Hashable(|st.sources|, m) && StatusOf(st, m.id) != Initialized && StatusOf(st, m.id) != Delivered && Validate(st, m) {
      ValidId(st, m);
      CreateStatusKeys(st, m);
      WrittenStatus(CreateBlock(st, m), m.id);
      SchedulerStatusKeys(Written(CreateBlock(st, m), m.id));
    }
  }

  lemma WrittenStatus(st: State, b: BlockId)
    ensures Written(st, b).status == st.status
  {
    hide Written;
  }

  lemma CreateStatusKeys(st: State, m: Msg)
    requires m.id.Id?
    ensures CreateBlock(st, m).status.Keys <= st.status.Keys + Named(m)
  {
    hide SetIll, BlockReceived, AddStubs, MergeAll, CountWaiting, AwaitAll, Live, Healthy, AnyIll;
    var st1 := AddStub(st, m.id);
    if StatusOf(st1, m.id) == Stub {
      var ps := [m.prev.id] + Ids(m.deps);
      assert ps == ParentsOf(BodyIn(m));
      AddStubsKeys(st1, ps);
      var st2 := AddStubs(st1, ps);
      SetIllKeys(st2.(status := st2.status[m.id := Initialized], body := st2.body[m.id := Body(m.prev.id, Ids(m.deps))]), m.id);
    }
  }

  // ----- peaceful runs -----

  /** Nobody else signs for this node, and its blocks are published only once they are delivered. */
  ghost predicate Unforged(node: Node, e: Event) {
    e.Receive? ==> forall b :: b in Named(e.m) && b.Id? && b.src == node.me && b != e.m.id ==> b in node.st.status
  }

  /** The application supplies real payloads; the network brings nothing that gets a source blamed. */
  ghost predicate Calm(node: Node, e: NodeEvent) {
    match e
    case Network(ev, proofs) =>
      proofs == [] && Step(node.st, ev).checks && Unforged(node, ev) && Unblamed(Step(node.st, ev)) &&
      (ev.Receive? && ev.m.id.Id? && ev.m.id.src == node.me ==> ev.m.id in node.st.status)
    case Callback => true
    case BlameCallback(_) => false
    case Wake(_) => true
    case ProcessedBlock(payload, _, _) => payload != Empty && !payload.ForkProof?
    case Mail => true
    case Continue(_, proofs) => proofs == []
  }

  ghost predicate Peaceful(n: nat, maxDeps: nat, me: nat, events: seq<NodeEvent>) {
    events == [] ||
    (Peaceful(n, maxDeps, me, events[..|events| - 1]) &&
     Calm(NodeRun(n, maxDeps, me, events[..|events| - 1]), events[|events| - 1]))
  }

  // ----- the invariant of peaceful runs -----

  /** The receiver between events, and the local blocks in it. */
  ghost predicate Receiving(me: nat, st: State, made: seq<Msg>) {
    && Inv(st, {}) && Settled(st) && Unblamed(st) && me < |st.sources|
    && (forall c :: c in st.status && c.Id? && c.src == me ==> exists i :: 0 <= i < |made| && made[i].id == c)
    && (forall i {:trigger made[i]} :: 0 <= i < |made| ==>
          Is(st.status, made[i].id, Delivered) && made[i].id in st.body && st.body[made[i].id] == BodyIn(made[i]))
  }

  /** The upper half mirrors a prefix of the deliveries, nobody is blamed, and the frontier is exact. */
  ghost predicate Following(me: nat, st: State, u: Upper, seen: nat) {
    && Mirrors(st, u, seen) && u.me == me && u.maxDeps == st.maxDeps
    && u.blamed == {} && u.top == Tips(u)
  }

  lemma FollowingMeans(me: nat, st: State, u: Upper, seen: nat)
    requires Following(me, st, u, seen)
    ensures UpperInv(u) && seen <= |st.log| && u.order == st.log[..seen]
    ensures forall b :: b in u.body ==> b in st.body && u.body[b] == st.body[b]
  {
    hide UpperInv, Tips;
    forall b | b in u.body ensures b in st.body && u.body[b] == st.body[b] {
      assert Copied(st, u, b);
    }
  }

  ghost function DepsOf(rs: seq<Request>): seq<seq<BlockId>> {
    seq(|rs|, i requires 0 <= i < |rs| => rs[i].deps)
  }

  /** The dependencies of all local blocks so far, made or not, oldest first. */
  ghost function Batches(node: Node): seq<seq<BlockId>> {
    DepsOf(node.asked + node.mail) + if node.processing then [node.u.batch] else []
  }

  ghost predicate Sound(me: nat, maxDeps: nat, processed: set<BlockId>, deps: seq<BlockId>) {
    && |deps| <= maxDeps
    && (forall x :: x in deps ==> x.Id? && x.src != me && x in processed)
    && (forall i, j :: 0 <= i < j < |deps| ==> deps[i].src != deps[j].src)
  }

  /** No dependency is in the past of an earlier one. */
  ghost predicate Apart(body: Bodies, batches: seq<seq<BlockId>>) {
    forall i, k, x, y {:trigger y in batches[i], x in batches[k]} :: 0 <= i < k < |batches| && y in batches[i] && x in batches[k] ==> !Reaches(body, y, x)
  }

  ghost predicate Choosing(node: Node) {
    && (forall i :: 0 <= i < |Batches(node)| ==> Sound(node.me, node.st.maxDeps, node.u.processed, Batches(node)[i]))
    && Apart(node.u.body, Batches(node))
    && (forall r :: r in node.asked + node.mail ==> r.payload != Empty && !r.payload.ForkProof?)
  }

  ghost predicate PeaceInv(node: Node) {
    && node.alive && LocalInv(node)
    && Receiving(node.me, node.st, node.made)
    && Following(node.me, node.st, node.u, node.seen)
    && Choosing(node)
  }

  // ----- the network -----

  lemma StepStatusKeys(st: State, e: Event)
    ensures Step(st, e).status.Keys <= st.status.Keys + if e.Receive? then Named(e.m) else {}
  {
    hide Accept, Blame, Prove, Named;
    if e.Receive? {
      AcceptStatusKeys(st, e.m);
    }
  }

  lemma LaterMade(st: State, r: State, m: Msg)
    requires Later(st, r) && Is(st.status, m.id, Delivered) && m.id in st.body && st.body[m.id] == BodyIn(m)
    ensures Is(r.status, m.id, Delivered) && m.id in r.body && r.body[m.id] == BodyIn(m)
  {}

  lemma NetworkReceiving(node: Node, e: Event)
    requires Receiving(node.me, node.st, node.made) && Calm(node, Network(e, []))
    ensures Receiving(node.me, Step(node.st, e), node.made) && Later(node.st, Step(node.st, e))
  {
    hide Inv, Later, Step, Named, Settled, Unblamed;
    var st, r := node.st, Step(node.st, e);
    StepKeeps(st, e);
    LaterSources(st, r);
    StepStatusKeys(st, e);
    forall c | c in r.status && c.Id? && c.src == node.me ensures exists i :: 0 <= i < |node.made| && node.made[i].id == c {
      assert c in st.status;
    }
    forall i | 0 <= i < |node.made|
      ensures Is(r.status, node.made[i].id, Delivered) && node.made[i].id in r.body && r.body[node.made[i].id] == BodyIn(node.made[i])
    {
      LaterMade(st, r, node.made[i]);
    }
  }

  lemma FollowingLater(me: nat, st: State, r: State, u: Upper, seen: nat)
    requires Following(me, st, u, seen) && Later(st, r)
    ensures Following(me, r, u, seen)
  {
    hide Later, Mirrors, Tips;
    LaterSources(st, r);
    MirrorsLater(st, r, u, seen);
  }

  // ----- callbacks -----

  lemma NewBlockFields(u: Upper, b: BlockId, body: Body, fork: nat, vt: seq<nat>)
    requires Acceptable(u, b, body)
    ensures var r := OnNewBlock(u, b, body, fork, vt);
            && r.body == u.body[b := body] && r.order == u.order + [b] && r.processed == u.processed
            && r.me == u.me && r.maxDeps == u.maxDeps && r.batch == u.batch
  {
    hide SendPreprocess;
  }

  lemma ApartGrow(body: Bodies, body': Bodies, s: set<BlockId>, batches: seq<seq<BlockId>>)
    requires Apart(body, batches) && Upward(body, s) && s <= body.Keys && Root !in body'
    requires forall b :: b in body ==> b in body' && body'[b] == body[b]
    requires forall i, y {:trigger y in batches[i]} :: 0 <= i < |batches| && y in batches[i] ==> y in s
    ensures Apart(body', batches)
  {
    hide Reaches;
    forall i, k, x, y | 0 <= i < k < |batches| && y in batches[i] && x in batches[k] ensures !Reaches(body', y, x) {
      ReachesStable(body, body', s, y, x);
    }
  }

  lemma FollowingGrows(me: nat, st: State, u: Upper, seen: nat)
    requires Inv(st, {}) && Following(me, st, u, seen) && seen < |st.log|
    ensures var b := st.log[seen];
            var e := CallbackOf(st, b);
            && b in st.body && Possible(u, e) && Following(me, st, UpperStep(u, e), seen + 1)
            && UpperStep(u, e).body == u.body[b := st.body[b]] && b !in u.body
            && UpperStep(u, e).processed == u.processed && UpperStep(u, e).batch == u.batch
  {
    hide Inv, Mirrors, Tips, UpperInv, Acceptable, OnNewBlock;
    var b := st.log[seen];
    CallbackPossible(st, u, seen);
    CatchainBoth.CallbackKeeps(st, u, seen);
    FollowingMeans(me, st, u, seen);
    var e := CallbackOf(st, b);
    StepTips(u, e);
    NewBlockFields(u, b, BodyOf(st, b), ForkOf(st, b), VtOf(st, b));
  }

  lemma ChoosingGrows(node: Node, r: Node, b: BlockId, body: Body)
    requires PeaceInv(node) && b !in node.u.body && b != Root
    requires r == node.(u := r.u, seen := r.seen) && r.u.body == node.u.body[b := body]
    requires r.u.processed == node.u.processed && r.u.batch == node.u.batch
    ensures Choosing(r)
  {
    hide LocalInv, Receiving, UpperInv, Tips, Apart, Sound;
    assert Batches(r) == Batches(node);
    BatchesIn(node);
    UpperBody(node.u);
    ApartGrow(node.u.body, r.u.body, node.u.body.Keys, Batches(node));
  }

  lemma CallbackKeeps(node: Node)
    requires PeaceInv(node)
    ensures PeaceInv(TakeCallback(node)) && TakeCallback(node).st == node.st
  {
    hide LocalInv, Receiving, Following, Choosing, Possible, UpperStep, Inv, Settled, Unblamed, Find;
    if node.seen < |node.st.log| {
      var st := node.st;
      var b := st.log[node.seen];
      ReceivingInv(node.me, st, node.made);
      LogUnique(st, node.seen);
      FollowingGrows(node.me, st, node.u, node.seen);
      var r := TakeCallback(node);
      StaysLocal(node, r);
      ChoosingGrows(node, r, b, st.body[b]);
    }
  }

  lemma ReceivingInv(me: nat, st: State, made: seq<Msg>)
    requires Receiving(me, st, made)
    ensures Inv(st, {}) && Settled(st) && Unblamed(st) && me < |st.sources| && st.checks
  {}

  lemma BatchesIn(node: Node)
    requires PeaceInv(node)
    ensures forall i, y {:trigger y in Batches(node)[i]} :: 0 <= i < |Batches(node)| && y in Batches(node)[i] ==>
              y in node.u.processed && y in node.u.body
  {
    hide LocalInv, Receiving, Inv, UpperInv, Tips, Batches, Apart;
    UpperBody(node.u);
    forall i, y | 0 <= i < |Batches(node)| && y in Batches(node)[i] ensures y in node.u.processed {
      assert Sound(node.me, node.st.maxDeps, node.u.processed, Batches(node)[i]);
    }
  }

  // ----- choosing dependencies -----

  /** Blocks of a source have one block per height and extend each other. */
  ghost predicate Threaded(body: Bodies) {
    && (forall a, b :: a in body && b in body && a.Id? && b.Id? && a.src == b.src && a.height == b.height ==> a == b)
    && (forall b :: b in body ==> Steps(b, body[b].prev))
  }

  ghost predicate Steps(b: BlockId, prev: BlockId) {
    && b.Id? && b.height > 0
    && (b.height > 1 ==> prev.Id? && prev.src == b.src && prev.height + 1 == b.height)
  }

  lemma UnblamedThreaded(st: State, body: Bodies)
    requires Inv(st, {}) && Unblamed(st) && forall b :: b in body ==> b in st.body && body[b] == st.body[b]
    ensures Threaded(body)
  {
    hide Inv;
    forall b | b in body ensures Steps(b, body[b].prev) {
      OneStep(st, b);
    }
    forall a, b | a in body && b in body && a.Id? && b.Id? && a.src == b.src && a.height == b.height ensures a == b {
      OnePerHeight(st, a, b);
    }
  }

  lemma OneStep(st: State, b: BlockId)
    requires Inv(st, {}) && b in st.body
    ensures Steps(b, st.body[b].prev)
  {
    hide Clocks, Queue, Waiting, Counted, Illness, Ordered, ForkTree, ForkOwners, ForkStatus, Books;
    assert WellFormed(|st.sources|, b, st.body[b]);
  }

  lemma OnePerHeight(st: State, a: BlockId, b: BlockId)
    requires Inv(st, {}) && Unblamed(st) && a in st.body && b in st.body && a.Id? && b.Id?
    requires a.src == b.src && a.height == b.height
    ensures a == b
  {
    hide Clocks, Queue, Waiting, Counted, Illness, Ordered, ForkTree, ForkOwners, ForkStatus;
    assert b.src < |st.sources|;
    assert Book(st.status, st.sources[b.src], b.src);
  }

  /** An older block of a source has a child. */
  lemma {:induction false} OlderHasChild(body: Bodies, order: seq<BlockId>, a: BlockId, b: BlockId)
    requires Arrived(body, order) && Threaded(body) && a in body && b in body && a.src == b.src && a.height < b.height
    ensures HasChild(body, a)
    decreases b.height
  {
    hide Linear;
    var p := body[b].prev;
    assert Parent(body[b], p);
    ParentKnown(body, order, b, p);
    if p.height > a.height {
      OlderHasChild(body, order, a, p);
    }
  }

  lemma TipsDistinct(u: Upper, a: BlockId, b: BlockId)
    requires UpperInv(u) && Threaded(u.body) && a in Tips(u) && b in Tips(u) && a != b
    ensures a.src != b.src
  {
    hide Linear, HasChild;
    if a.src == b.src {
      if a.height < b.height {
        OlderHasChild(u.body, u.order, a, b);
      } else {
        OlderHasChild(u.body, u.order, b, a);
      }
    }
  }

  lemma {:induction false} DrawnBatch(u: Upper, draws: seq<BlockId>)
    requires UpperInv(u) && Drawable(u, draws) && u.blamed == {}
    ensures var r := DrawAll(u, draws);
            && r.batch == u.batch + draws && u.processed <= r.processed && r.blamed == {}
            && NoDup(draws) && (forall d :: d in draws ==> d in u.top && d in r.processed)
    decreases |draws|
  {
    hide UpperInv, SetProcessed;
    InvArrived(u);
    if draws != [] {
      var v := Draw(u, draws[0]);
      DrawKeeps(u, draws[0]);
      DrawMarks(u, draws[0]);
      InvArrived(v);
      DrawnBatch(v, draws[1..]);
      assert u.batch + [draws[0]] + draws[1..] == u.batch + draws;
      forall d | d in draws ensures d in u.top && d in DrawAll(u, draws).processed {
        assert d == draws[0] || d in draws[1..];
      }
    }
  }

  lemma DrawMarks(u: Upper, b: BlockId)
    requires UpperInv(u) && b in u.top && u.blamed == {}
    ensures var r := Draw(u, b); u.processed <= r.processed && b in r.processed
  {
    UpperBody(u);
    hide UpperInv, Past;
    SetProcessedIs(u.body, u.order, u.processed, b);
    SelfInPast(u.body, b);
  }

  lemma SoundGrow(me: nat, maxDeps: nat, processed: set<BlockId>, processed': set<BlockId>, deps: seq<BlockId>)
    requires Sound(me, maxDeps, processed, deps) && processed <= processed'
    ensures Sound(me, maxDeps, processed', deps)
  {}

  lemma SoundDraws(u: Upper, draws: seq<BlockId>, processed: set<BlockId>)
    requires UpperInv(u) && Threaded(u.body) && u.top == Tips(u) && NoDup(draws) && |draws| <= u.maxDeps
    requires forall d :: d in draws ==> d in u.top && d in processed
    ensures Sound(u.me, u.maxDeps, processed, draws)
  {
    hide UpperInv, Threaded, HasChild;
    forall i | 0 <= i < |draws| ensures draws[i].Id? && draws[i].src != u.me {
      assert draws[i] in draws;
    }
    forall i, j | 0 <= i < j < |draws| ensures draws[i].src != draws[j].src {
      assert draws[i] in draws && draws[j] in draws;
      TipsDistinct(u, draws[i], draws[j]);
    }
  }

  /** New draws are unprocessed, everything chosen before is processed, and processed blocks keep their pasts. */
  lemma ApartDraws(u: Upper, batches: seq<seq<BlockId>>, draws: seq<BlockId>)
    requires UpperInv(u) && Apart(u.body, batches) && (forall d :: d in draws ==> d in Tips(u))
    requires forall i, y {:trigger y in batches[i]} :: 0 <= i < |batches| && y in batches[i] ==> y in u.processed
    ensures Apart(u.body, batches + [draws])
  {
    hide UpperInv, Reaches, HasChild;
    UpperBody(u);
    var all := batches + [draws];
    forall i, k, x, y | 0 <= i < k < |all| && y in all[i] && x in all[k] ensures !Reaches(u.body, y, x) {
      assert all[i] == batches[i];
      if k < |batches| {
        assert all[k] == batches[k];
      } else if Reaches(u.body, y, x) {
        UpwardReaches(u.body, u.order, u.processed, y, x);
      }
    }
  }

  lemma DrawAllFields(u: Upper, draws: seq<BlockId>)
    requires Arrived(u.body, u.order)
    ensures var r := DrawAll(u, draws); r.body == u.body && r.order == u.order && r.me == u.me && r.maxDeps == u.maxDeps
  {
    DrawAllConstants(u, draws);
  }

  /** `send_process` chooses dependencies the node's next block may have. */
  lemma DrawingKeeps(u: Upper, draws: seq<BlockId>, batches: seq<seq<BlockId>>)
    requires UpperInv(u) && Threaded(u.body) && u.blamed == {} && u.top == Tips(u) && Drawable(u.(batch := []), draws)
    requires Apart(u.body, batches)
    requires forall i :: 0 <= i < |batches| ==> Sound(u.me, u.maxDeps, u.processed, batches[i])
    ensures var r := DrawAll(u.(batch := []), draws);
            && UpperInv(r) && r.blamed == {} && r.top == Tips(r) && r.body == u.body && r.order == u.order
            && r.me == u.me && r.maxDeps == u.maxDeps
            && Apart(u.body, batches + [r.batch])
            && (forall i :: 0 <= i < |batches| + 1 ==> Sound(u.me, u.maxDeps, r.processed, (batches + [r.batch])[i]))
  {
    hide UpperInv, Threaded, Drawable, DrawAll, Tips, Apart, Sound;
    var v := u.(batch := []);
    EmptyBatch(u);
    InvArrived(v);
    assert Tips(v) == Tips(u) by { SameTips(u); }
    var r := DrawAll(v, draws);
    DrawAllKeeps(v, draws);
    DrawAllTips(v, draws);
    DrawnBatch(v, draws);
    DrawAllFields(v, draws);
    assert [] + draws == draws;
    BatchBound(r);
    SoundDraws(v, draws, r.processed);
    forall i, y | 0 <= i < |batches| && y in batches[i] ensures y in u.processed {
      SoundIn(u.me, u.maxDeps, u.processed, batches[i], y);
    }
    ApartDraws(u, batches, draws);
    forall i | 0 <= i < |batches| ensures Sound(u.me, u.maxDeps, r.processed, batches[i]) {
      SoundGrow(u.me, u.maxDeps, u.processed, r.processed, batches[i]);
    }
  }

  lemma SoundIn(me: nat, maxDeps: nat, processed: set<BlockId>, deps: seq<BlockId>, y: BlockId)
    requires Sound(me, maxDeps, processed, deps) && y in deps
    ensures y in processed && y.Id? && y.src != me
  {}

  lemma SameTips(u: Upper)
    ensures Tips(u.(batch := [])) == Tips(u)
  {}

  lemma BatchBound(u: Upper)
    requires UpperInv(u)
    ensures |u.batch| <= u.maxDeps
  {}

  lemma StartProcessKeeps(node: Node, draws: seq<BlockId>)
    requires PeaceInv(node) && !node.processing
    ensures PeaceInv(StartProcess(node, draws)) && StartProcess(node, draws).st == node.st
  {
    hide LocalInv, Receiving, Inv, Mirrors, UpperInv, Tips, Apart, Sound, Drawable, DrawAll, Threaded, DepsOf;
    if Possible(node.u, Process(draws)) {
      var r := StartProcess(node, draws);
      ReceivingInv(node.me, node.st, node.made);
      FollowingMeans(node.me, node.st, node.u, node.seen);
      OwnStepKeeps(node.st, node.u, node.seen, Process(draws));
      UnblamedThreaded(node.st, node.u.body);
      DrawingKeeps(node.u, draws, Batches(node));
      StaysLocal(node, r);
      assert Batches(r) == Batches(node) + [r.u.batch];
    }
  }

  lemma ProcessedKeeps(node: Node, payload: Payload, again: bool, draws: seq<BlockId>)
    requires PeaceInv(node) && payload != Empty && !payload.ForkProof?
    ensures PeaceInv(Processed(node, payload, again, draws)) && Processed(node, payload, again, draws).st == node.st
  {
    hide LocalInv, Receiving, Following, Apart, Sound, StartProcess;
    if node.processing {
      var q := Request(payload, node.u.batch);
      var r := node.(mail := node.mail + [q], processing := false);
      StaysLocal(node, r);
      assert node.asked + (node.mail + [q]) == node.asked + node.mail + [q];
      assert Batches(r) == Batches(node);
      StartProcessKeeps(r, draws);
    }
  }

  // ----- making local blocks -----

  /** The request that became local block `k`. */
  lemma RequestOf(node: Node, k: nat)
    requires PeaceInv(node) && k < |node.asked|
    ensures k < |Batches(node)| && Batches(node)[k] == node.asked[k].deps
    ensures node.asked[k].payload != Empty && !node.asked[k].payload.ForkProof?
    ensures Sound(node.me, node.st.maxDeps, node.u.processed, node.asked[k].deps)
  {
    hide LocalInv, Receiving, Following, Apart, Sound;
    assert (node.asked + node.mail)[k] == node.asked[k];
    assert node.asked[k] in node.asked + node.mail;
    assert Sound(node.me, node.st.maxDeps, node.u.processed, Batches(node)[k]);
  }

  /** Chosen dependencies are delivered blocks of other sources. */
  lemma ChosenDelivered(node: Node, deps: seq<BlockId>)
    requires PeaceInv(node) && Sound(node.me, node.st.maxDeps, node.u.processed, deps)
    ensures forall x :: x in deps ==>
              x.Id? && x.src != node.me && x in node.u.body && x in node.st.body && Is(node.st.status, x, Delivered)
  {
    hide LocalInv, Receiving, Inv, Mirrors, UpperInv, Tips, Choosing;
    FollowingMeans(node.me, node.st, node.u, node.seen);
    UpperBody(node.u);
    ReceivingInv(node.me, node.st, node.made);
    LogMeans(node.st);
    forall x | x in deps ensures x in node.u.body && x in node.st.body && Is(node.st.status, x, Delivered) {
      SoundIn(node.me, node.st.maxDeps, node.u.processed, deps, x);
      InOrder(node.u, x);
      assert x in node.st.log;
    }
  }

  lemma InOrder(u: Upper, x: BlockId)
    requires Arrived(u.body, u.order) && x in u.body
    ensures x in u.order
  {}

  lemma StartBlockAlive(node: Node, r: Request)
    requires Receiving(node.me, node.st, node.made) && node.alive
    requires forall x :: x in r.deps ==> x.Id? && x.src != node.me && Is(node.st.status, x, Delivered)
    ensures var q := StartBlock(node, r);
            q == node.(sending := true, flights := node.flights + [Flight(LocalBlock(node.me, node.last, r), 0)])
  {
    hide Receiving, Inv, LocalBlock;
    ReceivingInv(node.me, node.st, node.made);
  }

  lemma ChoosingSame(node: Node, r: Node)
    requires Choosing(node) && r.asked + r.mail == node.asked + node.mail && r.u == node.u && r.me == node.me
    requires r.st.maxDeps == node.st.maxDeps && r.processing == node.processing
    ensures Choosing(r)
  {
    assert Batches(r) == Batches(node);
  }

  lemma MailKeeps(node: Node)
    requires PeaceInv(node) && node.mail != []
    ensures var r := AddBlock(node.(mail := node.mail[1..]), node.mail[0]); PeaceInv(r) && r.st == node.st
  {
    hide LocalInv, Receiving, Following, Choosing, StartBlock, Sound, LocalBlock;
    var r := node.mail[0];
    var node1 := node.(mail := node.mail[1..]);
    StaysLocal(node, node1);
    AddBlockKeeps(node1, r);
    MailSound(node);
    ChosenDelivered(node, r.deps);
    StartBlockAlive(node1.(asked := node1.asked + [r]), r);
    assert node.asked + [r] + node.mail[1..] == node.asked + node.mail;
    ChoosingSame(node, AddBlock(node1, r));
  }

  lemma MailSound(node: Node)
    requires PeaceInv(node) && node.mail != []
    ensures Sound(node.me, node.st.maxDeps, node.u.processed, node.mail[0].deps)
  {
    hide LocalInv, Receiving, Following, Apart, Sound;
    var k := |node.asked|;
    assert (node.asked + node.mail)[k] == node.mail[0];
    assert Batches(node)[k] == node.mail[0].deps;
  }

  /** The block in flight is the next of the chain and carries the next request. */
  lemma FlightFacts(node: Node, i: nat)
    requires PeaceInv(node) && i < |node.flights|
    ensures var m, k := node.flights[i].msg, |node.made|;
            && i == 0 && |node.flights| == 1 && k < |node.asked| && AskedBy(m) == node.asked[k]
            && m.id.Id? && m.id.src == node.me && m.id.height == k + 1 && m.signed && m.prev.id == node.last == LastOf(node.made)
            && node.asked == AskedByAll(node.made + [m]) + node.pending
            && Chain(node.me, node.made) && (forall j :: 0 <= j < k ==> node.asked[j] == AskedBy(node.made[j]))
  {
    hide Receiving, Following, Choosing, AskedBy, Chain, Line, LastOf;
    FlightSending(node);
    NextInLine(node.me, node.made, node.flights, node.pending, node.asked, i);
  }

  lemma FlightSending(node: Node)
    requires LocalInv(node) && node.flights != []
    ensures node.sending
  {}

  /** Validation accepts the block in flight. */
  lemma OwnValid(node: Node, i: nat)
    requires PeaceInv(node) && i < |node.flights|
    ensures Extends(node.st, node.flights[i].msg)
  {
    hide Inv, Following, Choosing, LocalInv, Chain;
    var m, k, st := node.flights[i].msg, |node.made|, node.st;
    FlightFacts(node, i);
    RequestOf(node, k);
    ChosenDelivered(node, node.asked[k].deps);
    ReceivingInv(node.me, st, node.made);
    LastDelivered(node);
    var deps := node.asked[k].deps;
    assert deps == Ids(m.deps);
    forall j | 0 <= j < |m.deps| ensures m.deps[j].id.Id? && m.deps[j].id in deps && ValidRef(st, m.deps[j]) {
      assert m.deps[j].id == deps[j];
      DeliveredPlace(st, deps[j]);
    }
    forall a, b | 0 <= a < b < |m.deps| ensures m.deps[a].id.src != m.deps[b].id.src {
      assert m.deps[a].id == deps[a] && m.deps[b].id == deps[b];
    }
    forall c | c in st.status && c.Id? && c.src == node.me ensures c.height != m.id.height {
      MadeHeights(node, c);
    }
    ChainLast(node);
    DeliveredPlace(st, m.prev.id);
  }

  lemma DeliveredPlace(st: State, b: BlockId)
    requires Inv(st, {}) && Is(st.status, b, Delivered)
    ensures b == Root || (b.height > 0 && b.src < |st.sources|)
  {}

  lemma MadeHeights(node: Node, c: BlockId)
    requires PeaceInv(node) && c in node.st.status && c.Id? && c.src == node.me
    ensures c.height <= |node.made|
  {
    hide Inv, Following, Choosing;
    var all := node.made + Launched(node.flights);
    var i :| 0 <= i < |node.made| && node.made[i].id == c;
    assert all[i] == node.made[i];
  }

  lemma LastDelivered(node: Node)
    requires PeaceInv(node)
    ensures Is(node.st.status, node.last, Delivered)
  {
    hide Inv, Following, Choosing, Line;
    ReceivingInv(node.me, node.st, node.made);
    InvChecks(node.st, {});
    if node.made != [] {
      assert node.made[|node.made| - 1].id == node.last;
    }
  }

  lemma ChainLast(node: Node)
    requires PeaceInv(node)
    ensures if node.made == [] then node.last == Root
            else node.last.Id? && node.last.src == node.me && node.last.height == |node.made|
  {
    hide Inv, Following, Choosing, Receiving;
    var all := node.made + Launched(node.flights);
    if node.made != [] {
      assert all[|node.made| - 1] == node.made[|node.made| - 1];
    }
  }

  // ----- the past of a local block -----

  /** Whatever foreign block a local block knows, it knows through the dependencies of local blocks. */
  lemma {:induction false} LocalPast(me: nat, body: Bodies, made: seq<Msg>, j: nat, x: BlockId)
    requires Chain(me, made) && Root !in body && j < |made| && x.Id? && x.src != me
    requires forall i {:trigger made[i]} :: 0 <= i < |made| ==> made[i].id in body && body[made[i].id] == BodyIn(made[i])
    requires Reaches(body, made[j].id, x)
    ensures exists i, y :: 0 <= i <= j && y in Ids(made[i].deps) && Reaches(body, y, x)
    decreases j
  {
    hide Reaches;
    var m := made[j];
    var p := ReachesFirst(body, m.id, x);
    if p == m.prev.id {
      if j == 0 {
        RootReachesNothing(body, x);
      } else {
        LocalPast(me, body, made, j - 1, x);
      }
    } else {
      assert p in Ids(m.deps);
    }
  }

  /** No dependency of the block in flight is in the past of its predecessor. */
  lemma OwnFresh(node: Node, i: nat, x: BlockId)
    requires PeaceInv(node) && i < |node.flights| && x in BodyIn(node.flights[i].msg).deps
    ensures x.Id? && !Reaches(node.st.body, node.last, x)
  {
    hide Inv, LocalInv, Reaches, Receiving, Following, Choosing, Sound, Chain;
    var k, body := |node.made|, node.st.body;
    FlightFacts(node, i);
    RequestOf(node, k);
    SoundIn(node.me, node.st.maxDeps, node.u.processed, node.asked[k].deps, x);
    ReceivingInv(node.me, node.st, node.made);
    RootHasNoBody(node.st);
    if Reaches(body, node.last, x) {
      if k == 0 {
        RootReachesNothing(body, x);
      } else {
        MadeBodies(node);
        LocalPast(node.me, body, node.made, k - 1, x);
        var j, y :| 0 <= j <= k - 1 && y in Ids(node.made[j].deps) && Reaches(body, y, x);
        assert node.asked[j].deps == Ids(node.made[j].deps);
        RequestOf(node, j);
        SoundIn(node.me, node.st.maxDeps, node.u.processed, node.asked[j].deps, y);
        SeenPast(node, y, x);
        ChoosingApart(node, j, k, y, x);
      }
    }
  }

  lemma MadeBodies(node: Node)
    requires PeaceInv(node)
    ensures forall i {:trigger node.made[i]} :: 0 <= i < |node.made| ==>
              node.made[i].id in node.st.body && node.st.body[node.made[i].id] == BodyIn(node.made[i])
  {
    hide Inv, LocalInv, Following, Choosing;
  }

  lemma SeenPast(node: Node, y: BlockId, x: BlockId)
    requires PeaceInv(node) && y in node.u.processed
    ensures Reaches(node.st.body, y, x) <==> Reaches(node.u.body, y, x)
  {
    hide Inv, LocalInv, Reaches, Mirrors, UpperInv, Choosing, Tips, Upward;
    FollowingMeans(node.me, node.st, node.u, node.seen);
    UpperBody(node.u);
    ReceivingInv(node.me, node.st, node.made);
    RootHasNoBody(node.st);
    ReachesStable(node.u.body, node.st.body, node.u.body.Keys, y, x);
  }

  lemma ChoosingApart(node: Node, j: nat, k: nat, y: BlockId, x: BlockId)
    requires PeaceInv(node) && j < k < |Batches(node)| && y in Batches(node)[j] && x in Batches(node)[k]
    ensures !Reaches(node.u.body, y, x)
  {
    hide Inv, LocalInv, Reaches, Receiving, Following, Batches;
  }

  // ----- finishing a local block -----

  lemma OwnNamed(node: Node, i: nat)
    requires PeaceInv(node) && i < |node.flights|
    ensures var m := node.flights[i].msg; Named(m) <= node.st.status.Keys + {m.id}
  {
    hide PeaceInv, Validate;
    OwnValid(node, i);
    var m := node.flights[i].msg;
    forall p | p in ParentsOf(BodyIn(m)) ensures p in node.st.status {
      assert Parent(BodyIn(m), p);
    }
  }

  /** What `add_block_cont_3` makes of the receiver. */
  lemma OwnStored(node: Node, i: nat)
    requires PeaceInv(node) && i < |node.flights|
    ensures var m := node.flights[i].msg;
            && m.id.Id? && Later(node.st, Store(node.st, m)) && Is(Store(node.st, m).status, m.id, Delivered)
            && Receiving(node.me, Store(node.st, m), node.made + [m])
  {
    hide PeaceInv, Inv, Validate, Reaches, Later, Written, CreateBlock, RunScheduler, Settled, Unblamed, Named;
    var m, st := node.flights[i].msg, node.st;
    OwnValid(node, i);
    OwnUnknown(st, m);
    FlightFacts(node, i);
    PeaceReceiving(node);
    ReceivingInv(node.me, st, node.made);
    forall x | x in BodyIn(m).deps ensures x.Id? && !Reaches(st.body, m.prev.id, x) {
      OwnFresh(node, i, x);
    }
    OwnAccepted(st, m);
    AcceptKeeps(st, m);
    AcceptStatusKeys(st, m);
    OwnNamed(node, i);
    var r := Accept(st, m);
    assert r == Store(st, m);
    LaterSources(st, r);
    ReceivingGrows(node.me, st, node.made, r, m);
  }

  lemma OwnUnknown(st: State, m: Msg)
    requires Extends(st, m)
    ensures m.id !in st.status && Validate(st, m) && m.id.Id?
  {
    hide Validate;
  }

  lemma PeaceReceiving(node: Node)
    requires PeaceInv(node)
    ensures Receiving(node.me, node.st, node.made) && Following(node.me, node.st, node.u, node.seen) && Choosing(node)
    ensures LocalInv(node) && node.alive
  {}

  lemma ReceivingGrows(me: nat, st: State, made: seq<Msg>, r: State, m: Msg)
    requires Receiving(me, st, made) && Later(st, r) && Inv(r, {}) && Settled(r) && Unblamed(r)
    requires r.status.Keys <= st.status.Keys + {m.id}
    requires Is(r.status, m.id, Delivered) && m.id in r.body && r.body[m.id] == BodyIn(m)
    ensures Receiving(me, r, made + [m])
  {
    hide Inv, Later, Settled, Unblamed;
    var made' := made + [m];
    LaterSources(st, r);
    forall c | c in r.status && c.Id? && c.src == me ensures exists i :: 0 <= i < |made'| && made'[i].id == c {
      if c == m.id {
        assert made'[|made|].id == c;
      } else {
        var i :| 0 <= i < |made| && made[i].id == c;
        assert made'[i].id == c;
      }
    }
    forall i | 0 <= i < |made'|
      ensures Is(r.status, made'[i].id, Delivered) && made'[i].id in r.body && r.body[made'[i].id] == BodyIn(made'[i])
    {
      if i < |made| {
        assert made'[i] == made[i];
        LaterMade(st, r, made[i]);
      }
    }
  }

  /** The next request in line, if any, may start. */
  lemma NextReady(node: Node, i: nat)
    requires PeaceInv(node) && i < |node.flights| && node.pending != []
    ensures forall x :: x in node.pending[0].deps ==> x.Id? && x.src != node.me && Is(node.st.status, x, Delivered)
  {
    hide PeaceInv, AskedBy;
    FlightFacts(node, i);
    var k := |node.made| + 1;
    assert node.asked[k] == node.pending[0];
    RequestOf(node, k);
    ChosenDelivered(node, node.asked[k].deps);
  }

  lemma FinishFields(node: Node, m: Msg)
    requires m.id.Id? && node.alive && Is(Store(node.st, m).status, m.id, Delivered)
    requires Receiving(node.me, Store(node.st, m), node.made + [m])
    requires node.pending != [] ==>
      forall x :: x in node.pending[0].deps ==> x.Id? && x.src != node.me && Is(Store(node.st, m).status, x, Delivered)
    ensures var r := Finish(node, m, []);
            && r.alive && r.me == node.me && r.st == Store(node.st, m) && r.u == node.u && r.seen == node.seen
            && r.processing == node.processing && r.mail == node.mail && r.asked == node.asked && r.made == node.made + [m]
  {
    hide Receiving, Inv, Store, StartBlock, LocalBlock;
    ReceivingInv(node.me, Store(node.st, m), node.made + [m]);
    var node0 := node.(st := Store(node.st, m), last := m.id, made := node.made + [m]);
    if node.pending != [] {
      StartBlockAlive(node0.(sending := false, pending := node0.pending[1..]), node0.pending[0]);
    }
  }

  lemma PeaceContinue(node: Node, i: nat)
    requires PeaceInv(node)
    ensures PeaceInv(ContinueFlight(node, i, [])) && ContinueFlight(node, i, []).st.maxDeps == node.st.maxDeps
  {
    hide LocalInv, Receiving, Following, Choosing, Finish, Store, Validate, Later;
    ContinueKeeps(node, i, []);
    if i < |node.flights| {
      var m := node.flights[i].msg;
      OwnValid(node, i);
      if node.flights[i].stage >= 2 {
        OwnStored(node, i);
        FlightAlone(node, i);
        if node.pending != [] {
          NextReady(node, i);
          DeliveredLater(node.st, Store(node.st, m));
        }
        FinishFields(node.(flights := []), m);
        FollowingLater(node.me, node.st, Store(node.st, m), node.u, node.seen);
        LaterSources(node.st, Store(node.st, m));
      }
      ChoosingSame(node, ContinueFlight(node, i, []));
    }
  }

  lemma DeliveredLater(st: State, r: State)
    requires Later(st, r)
    ensures forall x :: Is(st.status, x, Delivered) ==> Is(r.status, x, Delivered)
  {}

  lemma FlightAlone(node: Node, i: nat)
    requires LocalInv(node) && i < |node.flights|
    ensures node.flights[..i] + node.flights[i + 1..] == []
  {}

  // ----- whole runs -----

  lemma PeaceNetwork(node: Node, e: Event)
    requires PeaceInv(node) && Calm(node, Network(e, []))
    ensures PeaceInv(AbsorbEvent(node, e, [])) && AbsorbEvent(node, e, []).st.maxDeps == node.st.maxDeps
  {
    hide LocalInv, Inv, Following, Choosing, Step, Validate, Later, Unforged, Settled, Unblamed;
    if e.Receive? && e.m.id.Id? && e.m.id.src == node.me {
      assert e.m.id in node.st.status;
      var i :| 0 <= i < |node.made| && node.made[i].id == e.m.id;
      assert Is(node.st.status, node.made[i].id, Delivered);
    }
    var r := node.(st := Step(node.st, e));
    NetworkReceiving(node, e);
    ReceivingInv(node.me, r.st, node.made);
    LaterSources(node.st, r.st);
    FollowingLater(node.me, node.st, r.st, node.u, node.seen);
    StaysLocal(node, r);
    ChoosingSame(node, r);
  }

  lemma PeaceStep(node: Node, e: NodeEvent)
    requires PeaceInv(node) && Calm(node, e)
    ensures PeaceInv(NodeStep(node, e)) && NodeStep(node, e).st.maxDeps == node.st.maxDeps
  {
    hide PeaceInv, AbsorbEvent, TakeCallback, StartProcess, Processed, AddBlock, ContinueFlight, LocalInv, Receiving,
         Following, Choosing, Unblamed, Unforged, Step;
    PeaceReceiving(node);
    match e
    case Network(ev, proofs) => PeaceNetwork(node, ev);
    case Callback => CallbackKeeps(node);
    case BlameCallback(s) => {}
    case Wake(draws) =>
      if !node.processing {
        StartProcessKeeps(node, draws);
      }
    case ProcessedBlock(payload, again, draws) => ProcessedKeeps(node, payload, again, draws);
    case Mail =>
      if node.mail != [] {
        MailKeeps(node);
      }
    case Continue(i, proofs) => PeaceContinue(node, i);
  }

  lemma InitPeace(n: nat, maxDeps: nat, me: nat)
    requires me < n
    ensures PeaceInv(InitNode(n, maxDeps, me))
  {
    InitHolds(n, maxDeps);
    InitUpperHolds(me, maxDeps);
    NoTips(me, maxDeps);
    hide Inv, UpperInv;
  }

  lemma {:induction false} PeaceHolds(n: nat, maxDeps: nat, me: nat, events: seq<NodeEvent>)
    requires me < n && Peaceful(n, maxDeps, me, events)
    ensures PeaceInv(NodeRun(n, maxDeps, me, events)) && NodeRun(n, maxDeps, me, events).st.maxDeps == maxDeps
  {
    hide PeaceInv, Calm, NodeStep;
    if events == [] {
      InitPeace(n, maxDeps, me);
    } else {
      PeaceHolds(n, maxDeps, me, events[..|events| - 1]);
      PeaceStep(NodeRun(n, maxDeps, me, events[..|events| - 1]), events[|events| - 1]);
    }
  }

  /**
    Own blocks are always acceptable: in every peaceful run no CHECK fails, the frontier is exactly the
    unprocessed foreign blocks without children, no source is blamed by a local block, every local
    block made is delivered at the receiver, and the block in flight passes validation and has no
    dependency in its predecessor's causal past.
  */
  lemma OwnBlocksAreAcceptable(n: nat, maxDeps: nat, me: nat, events: seq<NodeEvent>)
    requires me < n && Peaceful(n, maxDeps, me, events)
    ensures var node := NodeRun(n, maxDeps, me, events);
            && node.alive && Unblamed(node.st) && node.u.top == Tips(node.u)
            && (forall i {:trigger node.made[i]} :: 0 <= i < |node.made| ==> Is(node.st.status, node.made[i].id, Delivered))
            && (forall f :: f in node.flights ==> Validate(node.st, f.msg))
            && (forall f, x :: f in node.flights && x in Ids(f.msg.deps) ==> !Reaches(node.st.body, f.msg.prev.id, x))
  {
    var node := NodeRun(n, maxDeps, me, events);
    hide NodeRun, Peaceful, PeaceInv, Validate, Reaches, LocalInv, Inv, Choosing, UpperInv, Tips, Settled, Unblamed;
    PeaceHolds(n, maxDeps, me, events);
    PeaceReceiving(node);
    forall f | f in node.flights
      ensures Validate(node.st, f.msg) && forall x :: x in Ids(f.msg.deps) ==> !Reaches(node.st.body, f.msg.prev.id, x)
    {
      var i :| 0 <= i < |node.flights| && node.flights[i] == f;
      OwnValid(node, i);
      OwnUnknown(node.st, f.msg);
      FlightFacts(node, i);
      forall x | x in Ids(f.msg.deps) ensures !Reaches(node.st.body, f.msg.prev.id, x) {
        OwnFresh(node, i, x);
      }
    }
  }

  /**
    The dependencies chosen for successive local blocks, made or not: at most `max_deps`, from distinct
    foreign sources, and none in the causal past of an earlier choice.
  */
  lemma ChoicesAreSound(n: nat, maxDeps: nat, me: nat, events: seq<NodeEvent>)
    requires me < n && Peaceful(n, maxDeps, me, events)
    ensures var node := NodeRun(n, maxDeps, me, events);
            && (forall i :: 0 <= i < |Batches(node)| ==> Sound(me, maxDeps, node.u.processed, Batches(node)[i]))
            && Apart(node.u.body, Batches(node))
  {
    var node := NodeRun(n, maxDeps, me, events);
    PeaceHolds(n, maxDeps, me, events);
    LocalRun(n, maxDeps, me, events);
    hide NodeRun, Peaceful, LocalInv, Receiving, UpperInv, Tips, Batches, Sound, Apart;
  }
}
