/**
  With a blame the node's own block can be rejected: a run of the whole node that ends in the failed
  CHECK after `run_scheduler` in `add_block_cont_3`.
*/
module CatchainCrash {
  import opened CatchainReceiver
  import opened CatchainInvariant
  import opened CatchainCreate
  import opened CatchainRuns
  import opened CatchainVectorTime
  import opened CatchainConfluence
  import opened CatchainVerdict
  import opened CatchainUpper
  import opened CatchainBoth
  import opened CatchainNode
  import CatchainPeace

  // ----- the first block of a source -----

  function FirstBlock(src: nat, data: Payload, deps: seq<BlockId>): Msg {
    Msg(Id(src, 1, data), DepRef(Root, true), Refs(deps), true)
  }

  ghost predicate Plain(data: Payload) {
    data != Empty && !data.ForkProof?
  }

  lemma FirstBody(src: nat, data: Payload, deps: seq<BlockId>)
    ensures BodyIn(FirstBlock(src, data, deps)) == Body(Root, deps)
  {
    assert Ids(Refs(deps)) == deps;
  }

  /** It is acceptable whenever its dependencies are delivered: nothing is in the past of the root. */
  lemma FirstAdmissible(st: State, src: nat, data: Payload, deps: seq<BlockId>)
    requires Inv(st, {}) && src < |st.sources| && Plain(data) && |deps| <= st.maxDeps && |deps| <= 1
    requires forall x :: x in deps ==> x in st.log && x.Id? && x.src != src
    requires forall c :: c in st.status && c.Id? ==> c.src != src
    ensures var m := FirstBlock(src, data, deps); Extends(st, m) && Admissible(st, m) && Hashable(|st.sources|, m)
  {
    hide Inv, Reaches, ForkOf, Find;
    var m := FirstBlock(src, data, deps);
    FirstBody(src, data, deps);
    LogMeans(st);
    RootHasNoBody(st);
    RootClock(st);
    InvChecks(st, {});
    forall x | x in deps ensures x.height > 0 && x.src < |st.sources| && x != Root {
      LogPlace(st, x);
    }
    NotYet(st, m.id);
    forall i | 0 <= i < |m.deps| ensures ValidRef(st, m.deps[i]) && m.deps[i].id.Id? && m.deps[i].id.height > 0 && m.deps[i].id.src != src {
      assert m.deps[i].id == deps[i] && deps[i] in deps;
    }
    forall x | x in deps ensures !Reaches(st.body, Root, x) && !MixesFork(st, VtOf(st, Root), x) {
      RootReachesNothing(st.body, x);
    }
  }

  lemma NotYet(st: State, b: BlockId)
    ensures b !in st.status ==> StatusOf(st, b) == Stub
  {}

  /** The receiver takes it: it is delivered, and nothing else changes that the example looks at. */
  lemma FirstAccepted(st: State, src: nat, data: Payload, deps: seq<BlockId>)
    requires Inv(st, {}) && Settled(st) && src < |st.sources| && Plain(data) && |deps| <= st.maxDeps && |deps| <= 1
    requires forall x :: x in deps ==> x in st.log && x.Id? && x.src != src
    requires forall c :: c in st.status && c.Id? ==> c.src != src
    ensures var m := FirstBlock(src, data, deps);
            var q := Accept(st, m);
            && m.id.Id? && Inv(q, {}) && Settled(q) && Later(st, q) && SameBlame(st, q) && q.log == st.log + [m.id]
            && q.body == st.body[m.id := Body(Root, deps)] && q.status.Keys <= st.status.Keys + {m.id}
            && Is(q.status, m.id, Delivered) && q == Store(st, m) && Validate(st, m)
  {
    hide Inv, Settled, Later, SameBlame, Admissible, Validate, RunScheduler, Written, CreateBlock;
    var m := FirstBlock(src, data, deps);
    FirstAdmissible(st, src, data, deps);
    FirstBody(src, data, deps);
    FreshAccepted(st, m);
    AcceptKeeps(st, m);
    CatchainPeace.AcceptStatusKeys(st, m);
    LogMeans(st);
    assert CatchainPeace.Named(m) <= st.status.Keys + {m.id};
  }

  // ----- the state of the example -----

  const B := Id(1, 1, Custom(0))
  const C := Id(2, 1, Custom(0))
  const D := Id(3, 1, Custom(0))
  const L1 := Id(0, 1, Custom(1))
  const L2 := Id(0, 2, Custom(2))

  /** The receiver half: four sources, one dependency per block, and we are not blamed. */
  ghost predicate Holds(st: State, log: seq<BlockId>, body: Bodies) {
    && Inv(st, {}) && Settled(st) && |st.sources| == 4 && st.maxDeps == 1 && !st.sources[0].blamed
    && st.log == log && st.body == body && (forall c :: c in st.status && c.Id? ==> c in log)
  }

  /** The upper half: source 2 is blamed. */
  ghost predicate Tops(st: State, u: Upper, seen: nat, top: set<BlockId>, batch: seq<BlockId>) {
    Mirrors(st, u, seen) && u.me == 0 && u.maxDeps == 1 && u.blamed == {2} && u.top == top && u.batch == batch
  }

  /** The making of local blocks. */
  ghost predicate Makes(node: Node, processing: bool, mail: seq<Request>, flights: seq<Flight>, last: BlockId) {
    && node.alive && node.me == 0 && node.processing == processing && node.mail == mail && node.pending == []
    && node.flights == flights && node.sending == (flights != []) && node.last == last
  }

  lemma HoldsFirst(st: State, log: seq<BlockId>, body: Bodies, src: nat, data: Payload, deps: seq<BlockId>)
    requires Holds(st, log, body) && src < 4 && Plain(data) && |deps| <= 1
    requires forall x :: x in deps ==> x in log && x.Id? && x.src != src
    requires forall c :: c in log ==> c.Id? && c.src != src
    ensures var m := FirstBlock(src, data, deps);
            && Holds(Accept(st, m), log + [m.id], body[m.id := Body(Root, deps)])
            && Later(st, Accept(st, m)) && Accept(st, m) == Store(st, m) && Validate(st, m) && Is(Accept(st, m).status, m.id, Delivered)
            && StatusOf(st, m.id) == Stub && Accept(st, m).checks
  {
    hide Inv, Settled, Later, Validate, Accept, Store;
    FirstAccepted(st, src, data, deps);
    var m := FirstBlock(src, data, deps);
    InvChecks(Accept(st, m), {});
    LaterSources(st, Accept(st, m));
  }

  lemma Snoc(es: seq<NodeEvent>, e: NodeEvent)
    ensures NodeRun(4, 1, 0, es + [e]) == NodeStep(NodeRun(4, 1, 0, es), e)
  {
    hide NodeStep;
    assert (es + [e])[..|es|] == es;
  }

  // ----- the events -----

  /** Another node's first block arrives and is delivered. */
  lemma BlockArrives(node: Node, log: seq<BlockId>, body: Bodies, seen: nat, top: set<BlockId>,
                     src: nat, data: Payload, deps: seq<BlockId>)
    requires Holds(node.st, log, body) && Tops(node.st, node.u, seen, top, []) && Makes(node, false, [], [], Root)
    requires 0 < src < 4 && Plain(data) && |deps| <= 1
    requires forall x :: x in deps ==> x in log && x.Id? && x.src != src
    requires forall c :: c in log ==> c.Id? && c.src != src
    ensures var m := FirstBlock(src, data, deps);
            var r := NodeStep(node, Network(Receive(m), []));
            && Holds(r.st, log + [m.id], body[m.id := Body(Root, deps)]) && Tops(r.st, r.u, seen, top, [])
            && Makes(r, false, [], [], Root) && r.seen == node.seen
  {
    hide Holds, Mirrors, Later, Validate, Accept, Store;
    HoldsFirst(node.st, log, body, src, data, deps);
    HoldsChecks(node.st, log, body);
    var m := FirstBlock(src, data, deps);
    MirrorsLater(node.st, Accept(node.st, m), node.u, seen);
  }

  lemma HoldsChecks(st: State, log: seq<BlockId>, body: Bodies)
    requires Holds(st, log, body)
    ensures st.checks && Inv(st, {}) && Settled(st) && st.log == log && st.body == body && !st.sources[0].blamed
    ensures forall x :: x in log ==> Is(st.status, x, Delivered)
  {
    LogMeans(st);
  }

  /** The upper half takes the callback of a block of source 1, 2 or 3. */
  lemma BlockTaken(node: Node, log: seq<BlockId>, body: Bodies, top: set<BlockId>, top': set<BlockId>, b: BlockId)
    requires Holds(node.st, log, body) && node.seen < |log| && Tops(node.st, node.u, node.seen, top, [])
    requires Makes(node, false, [], [], Root) && log[node.seen] == b && b.Id? && b.src != 0 && b in body && body[b].prev == Root
    requires Root !in top && top' == if b.src == 2 then top else top - (set d | d in body[b].deps) + {b}
    ensures var r := NodeStep(node, Callback);
            && r.st == node.st && Tops(r.st, r.u, node.seen + 1, top', []) && Makes(r, false, [], [], Root) && r.seen == node.seen + 1
  {
    hide Holds, Mirrors, Inv, OnNewBlock, Acceptable;
    HoldsChecks(node.st, log, body);
    CallbackPossible(node.st, node.u, node.seen);
    CatchainBoth.CallbackKeeps(node.st, node.u, node.seen);
    NewBlockTop(node.u, b, BodyOf(node.st, b), ForkOf(node.st, b), VtOf(node.st, b));
  }

  lemma NewBlockTop(u: Upper, b: BlockId, body: Body, fork: nat, vt: seq<nat>)
    requires CatchainUpper.Acceptable(u, b, body) && body.prev == Root && Root !in u.top && b.Id?
    ensures var r := OnNewBlock(u, b, body, fork, vt);
            && r.me == u.me && r.maxDeps == u.maxDeps && r.blamed == u.blamed && r.batch == u.batch
            && r.top == if b.src in u.blamed then u.top
                        else u.top - (set d | d in body.deps) + if b.src == u.me then {} else {b}
  {
    hide SendPreprocess, Arrived;
  }

  /** One block is drawn: the budget is one. */
  lemma OneDraw(st: State, u: Upper, seen: nat, top: set<BlockId>, batch: seq<BlockId>, b: BlockId)
    requires Tops(st, u, seen, top, batch) && b in top && b.Id? && b.src != 2
    ensures Possible(u, Process([b])) && Tops(st, UpperStep(u, Process([b])), seen, top - {b}, [b])
  {
    hide Mirrors, SetProcessed, Arrived;
    MirrorsArrived(st, u, seen);
    var v := u.(batch := []);
    var r := Draw(v, b);
    assert [b][0] == b && [b][1..] == [];
    assert Drawable(r, []) && DrawAll(r, []) == r;
    assert Drawable(v, [b]) && DrawAll(v, [b]) == r;
    OwnStepKeeps(st, u, seen, Process([b]));
  }

  lemma MirrorsArrived(st: State, u: Upper, seen: nat)
    requires Mirrors(st, u, seen)
    ensures Arrived(u.body, u.order) && UpperInv(u)
  {}

  /** `add_block` with nothing in flight: the block asks for its signature. */
  lemma MailTaken(node: Node, log: seq<BlockId>, body: Bodies, q: Request, rest: seq<Request>, last: BlockId)
    requires Holds(node.st, log, body) && Makes(node, false, [q] + rest, [], last)
    requires forall d :: d in q.deps ==> d in log && d.Id? && d.src != 0
    ensures var r := NodeStep(node, Mail);
            && r.st == node.st && r.u == node.u && r.seen == node.seen
            && Makes(r, false, rest, [Flight(LocalBlock(0, last, q), 0)], last)
  {
    hide Holds, LocalBlock, Inv;
    HoldsChecks(node.st, log, body);
    assert node.mail[0] == q && node.mail[1..] == rest;
    assert [] + [Flight(LocalBlock(0, last, q), 0)] == [Flight(LocalBlock(0, last, q), 0)];
  }

  /** The signature and the two writes come back. */
  lemma FlightAdvances(node: Node, m: Msg, k: nat, mail: seq<Request>, last: BlockId)
    requires Makes(node, false, mail, [Flight(m, k)], last) && k < 2 && (k == 0 ==> Validate(node.st, m))
    ensures var r := NodeStep(node, Continue(0, []));
            && r.st == node.st && r.u == node.u && r.seen == node.seen && Makes(r, false, mail, [Flight(m, k + 1)], last)
  {
    hide Validate;
    assert [Flight(m, k)][0 := Flight(m, k + 1)] == [Flight(m, k + 1)];
  }

  /** Our first block is stored and delivered. */
  lemma FirstMade(node: Node, log: seq<BlockId>, body: Bodies, data: Payload, deps: seq<BlockId>, mail: seq<Request>)
    requires Holds(node.st, log, body) && Plain(data) && |deps| <= 1
    requires forall x :: x in deps ==> x in log && x.Id? && x.src != 0
    requires forall c :: c in log ==> c.Id? && c.src != 0
    requires var m := FirstBlock(0, data, deps); Makes(node, false, mail, [Flight(m, 2)], Root)
    ensures var m := FirstBlock(0, data, deps);
            var r := NodeStep(node, Continue(0, []));
            && Holds(r.st, log + [m.id], body[m.id := Body(Root, deps)]) && Makes(r, false, mail, [], m.id)
  {
    hide Holds, Validate, Accept, Store, Later;
    var m := FirstBlock(0, data, deps);
    HoldsFirst(node.st, log, body, 0, data, deps);
    assert node.flights[..0] + node.flights[1..] == [];
  }

  /** The second one is rejected if its dependency is in the past of the first, and that is a failed CHECK. */
  lemma SecondDies(node: Node, log: seq<BlockId>, body: Bodies)
    requires Holds(node.st, log, body) && L1 in log && B in log && Reaches(body, L1, B)
    requires forall c :: c in log && c.src == 0 ==> c == L1
    requires var m := LocalBlock(0, L1, Request(Custom(2), [B])); Makes(node, false, [], [Flight(m, 2)], L1)
    ensures var r := NodeStep(node, Continue(0, [])); !r.alive && Is(r.st.status, L2, Ill)
  {
    hide Holds, Validate, Accept, Written, CreateBlock, RunScheduler, Reaches, Inv, Settled;
    var m, st := LocalBlock(0, L1, Request(Custom(2), [B])), node.st;
    SecondArriving(st, log, body);
    HoldsChecks(st, log, body);
    assert B in BodyIn(m).deps;
    assert !Admissible(st, m);
    AcceptedIff(st, m);
    assert Accept(st, m) == Store(st, m) by { StoreIsAccept(st, m); }
    assert node.flights[..0] + node.flights[1..] == [];
  }

  lemma StoreIsAccept(st: State, m: Msg)
    requires Arriving(st, m)
    ensures Accept(st, m) == Store(st, m)
  {
    hide Written, CreateBlock, RunScheduler;
  }

  lemma SecondArriving(st: State, log: seq<BlockId>, body: Bodies)
    requires Holds(st, log, body) && L1 in log && B in log && forall c :: c in log && c.src == 0 ==> c == L1
    ensures var m := LocalBlock(0, L1, Request(Custom(2), [B]));
            Arriving(st, m) && m.prev.id == L1 && BodyIn(m) == Body(L1, [B]) && Validate(st, m)
  {
    hide Inv, Holds, Validate;
    HoldsChecks(st, log, body);
    HoldsShape(st, log, body);
    var m := LocalBlock(0, L1, Request(Custom(2), [B]));
    assert Refs([B]) == [DepRef(B, true)];
    assert m == Msg(L2, DepRef(L1, true), [DepRef(B, true)], true);
    assert Ids(m.deps) == [B];
    assert L2 !in st.status;
    SecondValid(st);
  }

  lemma HoldsShape(st: State, log: seq<BlockId>, body: Bodies)
    requires Holds(st, log, body)
    ensures |st.sources| == 4 && st.maxDeps == 1 && forall c :: c in st.status && c.Id? ==> c in log
  {}

  lemma SecondValid(st: State)
    requires |st.sources| == 4 && st.maxDeps == 1
    ensures var m := Msg(L2, DepRef(L1, true), [DepRef(B, true)], true); Validate(st, m)
  {}

  // ----- the run -----

  /** A proof that source 2 forked at height 9. */
  const FORK := Proof(DepRef(Id(2, 9, Custom(0)), true), DepRef(Id(2, 9, Custom(1)), true))

  lemma ForkProven()
    ensures var st := Step(Init(4, 1), FORK); Holds(st, [], map[]) && st.checks
  {
    hide Inv, Step, Later, Settled;
    InitHolds(4, 1);
    ProofFields();
    StepKeeps(Init(4, 1), FORK);
  }

  lemma ProofFields()
    ensures var st := Step(Init(4, 1), FORK);
            && st.checks && |st.sources| == 4 && st.maxDeps == 1 && !st.sources[0].blamed && st.log == [] && st.body == map[]
            && (forall c :: c in st.status ==> c == Root)
  {
    hide Accept;
    var st := Init(4, 1);
    assert Step(st, FORK) == AcceptProof(st, FORK.left, FORK.right);
  }

  lemma SecondBlamed(st: State)
    requires Holds(st, [], map[])
    ensures var u := OnBlame(InitUpper(0, 1), 2); Tops(st, u, 0, {}, []) && Possible(InitUpper(0, 1), Blamed(2))
  {
    var u := InitUpper(0, 1);
    InitUpperHolds(0, 1);
    hide Holds, UpperInv;
    InvArrived(u);
    HoldsChecks(st, [], map[]);
    assert Mirrors(st, u, 0);
    OwnStepKeeps(st, u, 0, Blamed(2));
  }

  lemma Blamed2()
    ensures var node := NodeRun(4, 1, 0, [Network(FORK, []), BlameCallback(2)]);
            Holds(node.st, [], map[]) && Tops(node.st, node.u, 0, {}, []) && Makes(node, false, [], [], Root) && node.seen == 0
  {
    hide Holds, Tops, Step, Validate, OnBlame, Possible, UpperStep;
    ForkProven();
    SecondBlamed(Step(Init(4, 1), FORK));
    var node0 := InitNode(4, 1, 0);
    assert NodeRun(4, 1, 0, []) == node0;
    var node1 := NodeStep(node0, Network(FORK, []));
    assert node1 == node0.(st := Step(Init(4, 1), FORK));
    Snoc([], Network(FORK, []));
    Snoc([Network(FORK, [])], BlameCallback(2));
    assert [] + [Network(FORK, [])] == [Network(FORK, [])];
    assert [Network(FORK, [])] + [BlameCallback(2)] == [Network(FORK, []), BlameCallback(2)];
    BlamedStep(InitUpper(0, 1));
  }

  lemma BlamedStep(u: Upper)
    requires Possible(u, Blamed(2))
    ensures UpperStep(u, Blamed(2)) == OnBlame(u, 2)
  {}

  /** Another node's first block arrives and is taken by the upper half. */
  lemma Pair(node: Node, log: seq<BlockId>, body: Bodies, top: set<BlockId>, top': set<BlockId>, b: BlockId, deps: seq<BlockId>)
    requires Holds(node.st, log, body) && Tops(node.st, node.u, |log|, top, []) && Makes(node, false, [], [], Root) && node.seen == |log|
    requires b.Id? && b.height == 1 && 0 < b.src < 4 && Plain(b.data) && |deps| <= 1 && Root !in top
    requires forall x :: x in deps ==> x in log && x.Id? && x.src != b.src
    requires forall c :: c in log ==> c.Id? && c.src != b.src
    requires top' == if b.src == 2 then top else top - (set d | d in deps) + {b}
    ensures var r := NodeStep(NodeStep(node, Network(Receive(FirstBlock(b.src, b.data, deps)), [])), Callback);
            && Holds(r.st, log + [b], body[b := Body(Root, deps)]) && Tops(r.st, r.u, |log| + 1, top', [])
            && Makes(r, false, [], [], Root) && r.seen == |log| + 1
  {
    hide Holds, Tops, Makes, NodeStep;
    BlockArrives(node, log, body, |log|, top, b.src, b.data, deps);
    var node1 := NodeStep(node, Network(Receive(FirstBlock(b.src, b.data, deps)), []));
    assert FirstBlock(b.src, b.data, deps).id == b;
    BlockTaken(node1, log + [b], body[b := Body(Root, deps)], top, top', b);
  }

  /** The edges of the example. */
  const EDGES: Bodies := map[B := Body(Root, []), C := Body(Root, [B]), D := Body(Root, [C])]

  lemma ThreeBlocks(node: Node)
    requires Holds(node.st, [], map[]) && Tops(node.st, node.u, 0, {}, []) && Makes(node, false, [], [], Root) && node.seen == 0
    ensures var r := Steps(node, ARRIVALS);
            Holds(r.st, [B, C, D], EDGES) && Tops(r.st, r.u, 3, {B, D}, []) && Makes(r, false, [], [], Root)
  {
    hide Holds, Tops, Makes, NodeStep;
    var n1 := NodeStep(NodeStep(node, Network(Receive(FirstBlock(1, Custom(0), [])), [])), Callback);
    Pair(node, [], map[], {}, {B}, B, []);
    assert [] + [B] == [B];
    var n2 := NodeStep(NodeStep(n1, Network(Receive(FirstBlock(2, Custom(0), [B])), [])), Callback);
    Pair(n1, [B], map[B := Body(Root, [])], {B}, {B}, C, [B]);
    assert [B] + [C] == [B, C];
    var n3 := NodeStep(NodeStep(n2, Network(Receive(FirstBlock(3, Custom(0), [C])), [])), Callback);
    Pair(n2, [B, C], map[B := Body(Root, []), C := Body(Root, [B])], {B}, {B, D}, D, [C]);
    assert [B, C] + [D] == [B, C, D];
    SixSteps(node, ARRIVALS);
  }

  /** Two local blocks are asked for: the first is to depend on `D`, the second on `B`. */
  lemma TwoChoices(node: Node)
    requires Holds(node.st, [B, C, D], EDGES) && Tops(node.st, node.u, 3, {B, D}, []) && Makes(node, false, [], [], Root)
    ensures var r := Steps(node, CHOICES);
            Holds(r.st, [B, C, D], EDGES) && Makes(r, false, [Request(Custom(1), [D]), Request(Custom(2), [B])], [], Root)
  {
    hide Holds, Mirrors, Possible, UpperStep;
    OneDraw(node.st, node.u, 3, {B, D}, [], D);
    var n1 := NodeStep(node, Wake([D]));
    OneDraw(n1.st, n1.u, 3, {B, D} - {D}, [D], B);
    var n2 := NodeStep(n1, ProcessedBlock(Custom(1), true, [B]));
    var n3 := NodeStep(n2, ProcessedBlock(Custom(2), false, []));
    ThreeSteps(node, CHOICES);
  }

  lemma FirstOwnBlock(node: Node)
    requires Holds(node.st, [B, C, D], EDGES)
    requires Makes(node, false, [Request(Custom(1), [D]), Request(Custom(2), [B])], [], Root)
    ensures var r := Steps(node, MAKING);
            Holds(r.st, [B, C, D, L1], EDGES[L1 := Body(Root, [D])]) && Makes(r, false, [Request(Custom(2), [B])], [], L1)
  {
    hide Holds, Makes, NodeStep, LocalBlock, FirstBlock, Accept, Store, Later, Validate, Steps;
    var q1, rest, m := Request(Custom(1), [D]), [Request(Custom(2), [B])], FirstBlock(0, Custom(1), [D]);
    assert [q1] + rest == [Request(Custom(1), [D]), Request(Custom(2), [B])];
    LocalFirst(q1);
    MailTaken(node, [B, C, D], EDGES, q1, rest, Root);
    HoldsFirst(node.st, [B, C, D], EDGES, 0, Custom(1), [D]);
    var n1 := NodeStep(node, Mail);
    FlightAdvances(n1, m, 0, rest, Root);
    var n2 := NodeStep(n1, Continue(0, []));
    FlightAdvances(n2, m, 1, rest, Root);
    var n3 := NodeStep(n2, Continue(0, []));
    FirstMade(n3, [B, C, D], EDGES, Custom(1), [D], rest);
    assert [B, C, D] + [L1] == [B, C, D, L1];
    FirstId(0, Custom(1), [D]);
    FourSteps(node, MAKING);
  }

  lemma SecondId(q: Request)
    requires q.payload == Custom(2)
    ensures LocalBlock(0, L1, q).id == L2
  {}

  lemma FirstId(src: nat, data: Payload, deps: seq<BlockId>)
    ensures FirstBlock(src, data, deps).id == Id(src, 1, data)
  {}

  lemma LocalFirst(q: Request)
    ensures LocalBlock(0, Root, q) == FirstBlock(0, q.payload, q.deps)
  {}

  /** The node lives, its second block is valid and waits for the last write, and its dependency is in the past of the first. */
  ghost predicate InFlight(node: Node) {
    var m := LocalBlock(0, L1, Request(Custom(2), [B]));
    node.alive && node.flights == [Flight(m, 2)] && m.id == L2 && Validate(node.st, m) && Reaches(node.st.body, L1, B)
  }

  /** The second local block passes validation, and its dependency is in the past of the first. */
  lemma SecondOwnBlock(node: Node)
    requires Holds(node.st, [B, C, D, L1], EDGES[L1 := Body(Root, [D])])
    requires Makes(node, false, [Request(Custom(2), [B])], [], L1)
    ensures InFlight(Steps(node, MAKING[..3]))
    ensures !Steps(node, MAKING).alive && Is(Steps(node, MAKING).st.status, L2, Ill)
  {
    hide Holds, NodeStep, LocalBlock, Reaches, Validate, Inv, Settled, Steps;
    var log, body, q := [B, C, D, L1], EDGES[L1 := Body(Root, [D])], Request(Custom(2), [B]);
    var m := LocalBlock(0, L1, q);
    ReachesSelf(body, B);
    ReachesStep(body, C, B, B);
    ReachesStep(body, D, C, B);
    ReachesStep(body, L1, D, B);
    assert [q] + [] == [q];
    MailTaken(node, log, body, q, [], L1);
    SecondArriving(node.st, log, body);
    HoldsChecks(node.st, log, body);
    SecondId(q);
    var n1 := NodeStep(node, Mail);
    FlightAdvances(n1, m, 0, [], L1);
    var n2 := NodeStep(n1, Continue(0, []));
    FlightAdvances(n2, m, 1, [], L1);
    var n3 := NodeStep(n2, Continue(0, []));
    SecondDies(n3, log, body);
    FourSteps(node, MAKING);
    ThreeSteps(node, MAKING[..3]);
  }

  // ----- putting the run together -----

  const BLAME: seq<NodeEvent> := [Network(FORK, []), BlameCallback(2)]
  const ARRIVALS: seq<NodeEvent> :=
    [Network(Receive(FirstBlock(1, Custom(0), [])), []), Callback, Network(Receive(FirstBlock(2, Custom(0), [B])), []), Callback,
     Network(Receive(FirstBlock(3, Custom(0), [C])), []), Callback]
  const CHOICES: seq<NodeEvent> := [Wake([D]), ProcessedBlock(Custom(1), true, [B]), ProcessedBlock(Custom(2), false, [])]
  const MAKING: seq<NodeEvent> := [Mail, Continue(0, []), Continue(0, []), Continue(0, [])]

  ghost function Steps(node: Node, es: seq<NodeEvent>): Node
    decreases |es|
  {
    if es == [] then node else Steps(NodeStep(node, es[0]), es[1..])
  }

  lemma {:induction false} RunSplit(es: seq<NodeEvent>, fs: seq<NodeEvent>)
    ensures NodeRun(4, 1, 0, es + fs) == Steps(NodeRun(4, 1, 0, es), fs)
    decreases |fs|
  {
    hide NodeStep, NodeRun;
    if fs == [] {
      assert es + fs == es;
    } else {
      assert es + fs == (es + [fs[0]]) + fs[1..];
      Snoc(es, fs[0]);
      RunSplit(es + [fs[0]], fs[1..]);
    }
  }

  lemma ThreeSteps(node: Node, es: seq<NodeEvent>)
    requires |es| == 3
    ensures Steps(node, es) == NodeStep(NodeStep(NodeStep(node, es[0]), es[1]), es[2])
  {
    hide NodeStep;
    var n1 := NodeStep(node, es[0]);
    var n2 := NodeStep(n1, es[1]);
    assert es[1..][0] == es[1] && es[1..][1..] == es[2..];
    assert es[2..][0] == es[2] && es[2..][1..] == [];
    assert Steps(n1, es[1..]) == Steps(n2, es[2..]);
    assert Steps(n2, es[2..]) == Steps(NodeStep(n2, es[2]), []);
  }

  lemma FourSteps(node: Node, es: seq<NodeEvent>)
    requires |es| == 4
    ensures Steps(node, es) == NodeStep(NodeStep(NodeStep(NodeStep(node, es[0]), es[1]), es[2]), es[3])
  {
    hide NodeStep;
    ThreeSteps(NodeStep(node, es[0]), es[1..]);
  }

  lemma SixSteps(node: Node, es: seq<NodeEvent>)
    requires |es| == 6
    ensures Steps(node, es) ==
            NodeStep(NodeStep(NodeStep(NodeStep(NodeStep(NodeStep(node, es[0]), es[1]), es[2]), es[3]), es[4]), es[5])
  {
    hide NodeStep;
    assert es[1..][0] == es[1] && es[1..][1..] == es[2..];
    FourSteps(NodeStep(NodeStep(node, es[0]), es[1]), es[2..]);
  }

  /**
    Source 2 is proven to fork.  Its block `C` links `B` and `D`, which the upper half does not relate,
    because blocks of a blamed source do not take their dependencies off the frontier.  So it gives `D`
    to the first local block and `B` to the second.  The second passes validation, but `B` is in the
    past of the first: the receiver makes the block ill and the node dies.
  */
  lemma BlamedRunDies()
    ensures var es := BLAME + ARRIVALS + CHOICES + MAKING + MAKING;
            && InFlight(NodeRun(4, 1, 0, es[..|es| - 1]))
            && !NodeRun(4, 1, 0, es).alive && Is(NodeRun(4, 1, 0, es).st.status, L2, Ill)
  {
    hide NodeRun, NodeStep, Steps, Holds, Tops, Makes, InFlight;
    Blamed2();
    var n0 := NodeRun(4, 1, 0, BLAME);
    RunSplit(BLAME, ARRIVALS);
    ThreeBlocks(n0);
    RunSplit(BLAME + ARRIVALS, CHOICES);
    TwoChoices(Steps(n0, ARRIVALS));
    RunSplit(BLAME + ARRIVALS + CHOICES, MAKING);
    FirstOwnBlock(Steps(Steps(n0, ARRIVALS), CHOICES));
    var es := BLAME + ARRIVALS + CHOICES + MAKING;
    RunSplit(es, MAKING);
    RunSplit(es, MAKING[..3]);
    SecondOwnBlock(NodeRun(4, 1, 0, es));
    assert (es + MAKING)[..|es + MAKING| - 1] == es + MAKING[..3];
  }
}
