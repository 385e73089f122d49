/**
  A whole node: receiver, upper half, and the asynchronous making of local blocks.  Continuations that
  wait for a signature or for the database, actor mail and application callbacks are events that may
  happen in any order.  A failed CHECK or a FATAL log line clears `alive`; a dead node does nothing.
*/
module CatchainNode {
  import opened CatchainReceiver
  import opened CatchainUpper

  /** The arguments of `add_block`. */
  datatype Request = Request(payload: Payload, deps: seq<BlockId>)

  /** A local block on its way: 0 waits for the signature, 1 for its data, 2 for its id to be stored. */
  datatype Flight = Flight(msg: Msg, stage: nat)

  /**
    `seen` counts the `new_block` callbacks the upper half has taken, `mail` holds `add_block` calls on
    their way down, `pending` is `pending_blocks_`, `sending` is `active_send_`, `last` is
    `last_sent_block_` and `processing` is `active_process_`.  `asked` and `made` are histories: all
    calls of `add_block` and all local blocks created, in order.
  */
  datatype Node = Node(me: nat, st: State, u: Upper, seen: nat, processing: bool, mail: seq<Request>,
                       pending: seq<Request>, flights: seq<Flight>, sending: bool, last: BlockId,
                       asked: seq<Request>, made: seq<Msg>, alive: bool)

  function InitNode(n: nat, maxDeps: nat, me: nat): Node {
    Node(me, Init(n, maxDeps), InitUpper(me, maxDeps), 0, false, [], [], [], false, Root, [], [], true)
  }

  datatype NodeEvent =
    | Network(e: Event, prepared: seq<Payload>)
    | Callback
    | BlameCallback(src: nat)
    | Wake(draws: seq<BlockId>)
    | ProcessedBlock(payload: Payload, again: bool, draws: seq<BlockId>)
    | Mail
    | Continue(i: nat, prepared: seq<Payload>)

  // ----- local blocks -----

  function Refs(deps: seq<BlockId>): seq<DepRef> {
    seq(|deps|, i requires 0 <= i < |deps| => DepRef(deps[i], true))
  }

  function LocalBlock(me: nat, last: BlockId, r: Request): Msg {
    Msg(Id(me, last.Height() + 1, r.payload), DepRef(last, true), Refs(r.deps), true)
  }

  predicate LocalBlamed(node: Node) {
    node.me < |node.st.sources| && node.st.sources[node.me].blamed
  }

  /** The part of `add_block` after the queue: CHECKs, then a signature is asked for. */
  function StartBlock(node: Node, r: Request): Node {
    if LocalBlamed(node) || exists d :: d in r.deps && (d !in node.st.status || (d.Id? && d.src == node.me))
    then node.(alive := false, sending := true)
    else node.(sending := true, flights := node.flights + [Flight(LocalBlock(node.me, node.last, r), 0)])
  }

  function AddBlock(node: Node, r: Request): Node {
    var node' := node.(asked := node.asked + [r]);
    if node.sending then node'.(pending := node.pending + [r]) else StartBlock(node', r)
  }

  /** `add_prepared_event` for every fork proof found during a step. */
  function AddPrepared(node: Node, proofs: seq<Payload>): Node
    decreases |proofs|
  {
    if proofs == [] || !node.alive then node else AddPrepared(AddBlock(node, Request(proofs[0], [])), proofs[1..])
  }

  function Store(st: State, m: Msg): State
    requires m.id.Id?
  {
    RunScheduler(Written(CreateBlock(st, m), m.id))
  }

  /** `add_block_cont_3`: create, store and run the block, then start the next one that waits. */
  function Finish(node: Node, m: Msg, proofs: seq<Payload>): Node
    requires m.id.Id?
  {
    var node1 := AddPrepared(node.(st := Store(node.st, m), last := m.id, made := node.made + [m]), proofs);
    if !node1.alive || !node1.st.checks || StatusOf(node1.st, m.id) != Delivered then node1.(alive := false)
    else if node1.pending == [] then node1.(sending := false)
    else StartBlock(node1.(sending := false, pending := node1.pending[1..]), node1.pending[0])
  }

  function ContinueFlight(node: Node, i: nat, proofs: seq<Payload>): Node {
    if i >= |node.flights| then node
    else
      var f, rest := node.flights[i], node.flights[..i] + node.flights[i + 1..];
      if f.stage == 0 && !Validate(node.st, f.msg) then node.(alive := false)
      else if f.stage < 2 then node.(flights := node.flights[i := Flight(f.msg, f.stage + 1)])
      else if f.msg.id.Root? then node
      else Finish(node.(flights := rest), f.msg, proofs)
  }

  // ----- the other events -----

  /**
    A received block or proof; a failed CHECK of the receiver and an unknown block of our own end the
    program.  A fork proof found on the way asks for a block of ours before its source is blamed, and
    nothing is blamed earlier in the step, so the request is judged in the state before.
  */
  function AbsorbEvent(node: Node, e: Event, proofs: seq<Payload>): Node {
    if !Step(node.st, e).checks then node.(alive := false)
    else if e.Receive? && e.m.id.Id? && e.m.id.src == node.me && StatusOf(node.st, e.m.id) != Initialized &&
       StatusOf(node.st, e.m.id) != Delivered && Validate(node.st, e.m)
    then node.(alive := false)
    else AddPrepared(node, proofs).(st := Step(node.st, e))
  }

  ghost function UpperDo(node: Node, e: UpperEvent): Node {
    if Possible(node.u, e) then node.(u := UpperStep(node.u, e)) else node
  }

  ghost function TakeCallback(node: Node): Node {
    if node.seen >= |node.st.log| then node
    else
      var b := node.st.log[node.seen];
      UpperDo(node, NewBlock(b, BodyOf(node.st, b), ForkOf(node.st, b), VtOf(node.st, b))).(seen := node.seen + 1)
  }

  ghost function StartProcess(node: Node, draws: seq<BlockId>): Node {
    if Possible(node.u, Process(draws)) then UpperDo(node, Process(draws)).(processing := true) else node
  }

  /** `processed_block`: send the local block down; go on while the frontier is not empty. */
  ghost function Processed(node: Node, payload: Payload, again: bool, draws: seq<BlockId>): Node {
    if !node.processing then node
    else
      var node' := node.(mail := node.mail + [Request(payload, node.u.batch)], processing := false);
      if again || node.u.top != {} then StartProcess(node', draws) else node'
  }

  ghost function NodeStep(node: Node, e: NodeEvent): Node {
    if !node.alive then node
    else
      match e
      case Network(e, proofs) => AbsorbEvent(node, e, proofs)
      case Callback => TakeCallback(node)
      case BlameCallback(s) => UpperDo(node, Blamed(s))
      case Wake(draws) => if node.processing then node else StartProcess(node, draws)
      case ProcessedBlock(payload, again, draws) => Processed(node, payload, again, draws)
      case Mail => if node.mail == [] then node else AddBlock(node.(mail := node.mail[1..]), node.mail[0])
      case Continue(i, proofs) => ContinueFlight(node, i, proofs)
  }

  ghost function NodeRun(n: nat, maxDeps: nat, me: nat, events: seq<NodeEvent>): Node {
    if events == [] then InitNode(n, maxDeps, me)
    else NodeStep(NodeRun(n, maxDeps, me, events[..|events| - 1]), events[|events| - 1])
  }

  /** A block on the wire that names no source ends the program. */
  lemma UnknownSourceKills(node: Node, m: Msg, proofs: seq<Payload>)
    requires node.st.checks && !Hashable(|node.st.sources|, m)
    ensures !NodeStep(node, Network(Receive(m), proofs)).alive
  {}

  // ----- no self-fork -----

  ghost function AskedBy(m: Msg): Request {
    Request(if m.id.Id? then m.id.data else Empty, Ids(m.deps))
  }

  ghost function AskedByAll(ms: seq<Msg>): seq<Request> {
    seq(|ms|, i requires 0 <= i < |ms| => AskedBy(ms[i]))
  }

  ghost function Launched(flights: seq<Flight>): seq<Msg> {
    seq(|flights|, i requires 0 <= i < |flights| => flights[i].msg)
  }

  /** Local blocks of heights 1, 2, 3, ..., each extending the one before. */
  ghost predicate Chain(me: nat, ms: seq<Msg>) {
    forall i {:trigger ms[i]} :: 0 <= i < |ms| ==>
      && ms[i].id.Id? && ms[i].id.src == me && ms[i].id.height == i + 1 && ms[i].signed
      && ms[i].prev.id == if i == 0 then Root else ms[i - 1].id
  }

  ghost function LastOf(made: seq<Msg>): BlockId {
    if made == [] then Root else made[|made| - 1].id
  }

  ghost predicate Line(me: nat, made: seq<Msg>, flights: seq<Flight>, pending: seq<Request>, asked: seq<Request>,
                       sending: bool, alive: bool)
  {
    && |flights| <= 1 && (flights != [] ==> sending)
    && (alive && sending ==> flights != [])
    && (alive && !sending ==> pending == [])
    && Chain(me, made + Launched(flights))
    && (alive ==> asked == AskedByAll(made + Launched(flights)) + pending)
  }

  ghost predicate LocalInv(node: Node) {
    && Line(node.me, node.made, node.flights, node.pending, node.asked, node.sending, node.alive)
    && node.last == LastOf(node.made)
  }

  lemma NoneLaunched(made: seq<Msg>)
    ensures made + Launched([]) == made
  {}

  /** A block may start when nothing is in flight and only `r` is unaccounted for. */
  lemma LineStart(me: nat, made: seq<Msg>, pending: seq<Request>, asked: seq<Request>, r: Request)
    requires Chain(me, made) && asked == AskedByAll(made) + [r] + pending
    ensures Line(me, made, [Flight(LocalBlock(me, LastOf(made), r), 0)], pending, asked, true, true)
    ensures Line(me, made, [], pending, asked, true, false)
  {
    var m := LocalBlock(me, LastOf(made), r);
    assert Ids(Refs(r.deps)) == r.deps;
    NoneLaunched(made);
    assert Launched([Flight(m, 0)]) == [m];
    assert AskedByAll(made + [m]) == AskedByAll(made) + [r];
    ChainExtends(me, made, r);
  }

  lemma ChainExtends(me: nat, made: seq<Msg>, r: Request)
    requires Chain(me, made)
    ensures Chain(me, made + [LocalBlock(me, LastOf(made), r)])
  {
    var ms := made + [LocalBlock(me, LastOf(made), r)];
    forall i | 0 <= i < |ms|
      ensures ms[i].id.Id? && ms[i].id.src == me && ms[i].id.height == i + 1 && ms[i].signed &&
              ms[i].prev.id == if i == 0 then Root else ms[i - 1].id
    {
      if i < |made| {
        assert ms[i] == made[i] && (i > 0 ==> ms[i - 1] == made[i - 1]);
      } else if i > 0 {
        assert ms[i - 1] == made[i - 1];
      }
    }
  }

  lemma LineQueue(me: nat, made: seq<Msg>, flights: seq<Flight>, pending: seq<Request>, asked: seq<Request>, r: Request)
    requires Line(me, made, flights, pending, asked, true, true)
    ensures Line(me, made, flights, pending + [r], asked + [r], true, true)
  {
    assert AskedByAll(made + Launched(flights)) + pending + [r] == AskedByAll(made + Launched(flights)) + (pending + [r]);
  }

  lemma StartBlockKeeps(node: Node, r: Request)
    requires node.flights == [] && node.alive && node.last == LastOf(node.made) && Chain(node.me, node.made)
    requires node.asked == AskedByAll(node.made) + [r] + node.pending
    ensures LocalInv(StartBlock(node, r)) && StartBlock(node, r).made == node.made
  {
    hide Chain, Line, AskedByAll, LastOf, LocalBlock, LocalBlamed;
    LineStart(node.me, node.made, node.pending, node.asked, r);
    assert [] + [Flight(LocalBlock(node.me, node.last, r), 0)] == [Flight(LocalBlock(node.me, node.last, r), 0)];
  }

  lemma LineIdle(me: nat, made: seq<Msg>, flights: seq<Flight>, pending: seq<Request>, asked: seq<Request>, r: Request)
    requires Line(me, made, flights, pending, asked, false, true)
    ensures flights == [] && pending == [] && Chain(me, made) && asked + [r] == AskedByAll(made) + [r] + []
  {
    NoneLaunched(made);
  }

  lemma AddBlockKeeps(node: Node, r: Request)
    requires LocalInv(node) && node.alive
    ensures LocalInv(AddBlock(node, r)) && AddBlock(node, r).made == node.made
  {
    hide Chain, Line, AskedByAll, StartBlock;
    if node.sending {
      LineQueue(node.me, node.made, node.flights, node.pending, node.asked, r);
    } else {
      LineIdle(node.me, node.made, node.flights, node.pending, node.asked, r);
      StartBlockKeeps(node.(asked := node.asked + [r]), r);
    }
  }

  lemma {:induction false} AddPreparedKeeps(node: Node, proofs: seq<Payload>)
    requires LocalInv(node)
    ensures LocalInv(AddPrepared(node, proofs)) && AddPrepared(node, proofs).made == node.made
    decreases |proofs|
  {
    hide LocalInv, AddBlock;
    if proofs != [] && node.alive {
      AddBlockKeeps(node, Request(proofs[0], []));
      AddPreparedKeeps(AddBlock(node, Request(proofs[0], [])), proofs[1..]);
    }
  }

  /** While a block is being made, proofs only queue up. */
  lemma {:induction false} PreparedQueue(node: Node, proofs: seq<Payload>)
    requires node.sending
    ensures var r := AddPrepared(node, proofs);
            exists more :: r == node.(pending := node.pending + more, asked := node.asked + more)
    decreases |proofs|
  {
    if proofs == [] || !node.alive {
      assert node.pending + [] == node.pending && node.asked + [] == node.asked;
    } else {
      var q := Request(proofs[0], []);
      var next := AddBlock(node, q);
      PreparedQueue(next, proofs[1..]);
      var r := AddPrepared(next, proofs[1..]);
      var more :| r == next.(pending := next.pending + more, asked := next.asked + more);
      assert node.pending + ([q] + more) == next.pending + more && node.asked + ([q] + more) == next.asked + more;
    }
  }

  lemma LineEnd(me: nat, made: seq<Msg>, pending: seq<Request>, asked: seq<Request>)
    requires Chain(me, made) && asked == AskedByAll(made) + pending
    ensures Line(me, made, [], pending, asked, true, false)
    ensures pending == [] ==> Line(me, made, [], pending, asked, false, true)
    ensures pending != [] ==> asked == AskedByAll(made) + [pending[0]] + pending[1..]
  {
    NoneLaunched(made);
  }

  lemma FinishKeeps(node: Node, m: Msg, proofs: seq<Payload>)
    requires node.flights == [] && node.sending && node.alive && m.id.Id?
    requires Chain(node.me, node.made + [m]) && node.asked == AskedByAll(node.made + [m]) + node.pending
    ensures LocalInv(Finish(node, m, proofs))
    ensures Finish(node, m, proofs).made == node.made + [m]
  {
    hide Chain, Line, AskedByAll, StartBlock, Store;
    var node0 := node.(st := Store(node.st, m), last := m.id, made := node.made + [m]);
    PreparedQueue(node0, proofs);
    var node1 := AddPrepared(node0, proofs);
    var more :| node1 == node0.(pending := node0.pending + more, asked := node0.asked + more);
    assert node1.asked == AskedByAll(node1.made) + node1.pending;
    LineEnd(node1.me, node1.made, node1.pending, node1.asked);
    if node1.st.checks && StatusOf(node1.st, m.id) == Delivered && node1.pending != [] {
      StartBlockKeeps(node1.(sending := false, pending := node1.pending[1..]), node1.pending[0]);
    }
  }

  lemma LineFlight(me: nat, made: seq<Msg>, flights: seq<Flight>, pending: seq<Request>, asked: seq<Request>,
                   sending: bool, i: nat)
    requires Line(me, made, flights, pending, asked, sending, true) && i < |flights|
    ensures var f := flights[i];
            && sending && flights[..i] + flights[i + 1..] == [] && f.msg.id.Id? && Chain(me, made + [f.msg])
            && asked == AskedByAll(made + [f.msg]) + pending
            && Line(me, made, flights[i := Flight(f.msg, f.stage + 1)], pending, asked, true, true)
            && Line(me, made, flights, pending, asked, true, false)
  {
    var f := flights[0];
    assert Launched(flights) == [f.msg] == Launched([Flight(f.msg, f.stage + 1)]);
    assert flights[i := Flight(f.msg, f.stage + 1)] == [Flight(f.msg, f.stage + 1)];
    assert (made + [f.msg])[|made|] == f.msg;
  }

  /** The block in flight is the next of the chain and carries the next request. */
  lemma NextInLine(me: nat, made: seq<Msg>, flights: seq<Flight>, pending: seq<Request>, asked: seq<Request>, i: nat)
    requires Line(me, made, flights, pending, asked, true, true) && i < |flights|
    ensures var m, k := flights[i].msg, |made|;
            && i == 0 && |flights| == 1 && k < |asked| && AskedBy(m) == asked[k]
            && m.id.Id? && m.id.src == me && m.id.height == k + 1 && m.signed && m.prev.id == LastOf(made)
            && asked == AskedByAll(made + [m]) + pending
            && Chain(me, made) && (forall j :: 0 <= j < k ==> asked[j] == AskedBy(made[j]))
  {
    hide AskedBy;
    var m, k := flights[0].msg, |made|;
    assert Launched(flights) == [m];
    var all := made + [m];
    assert all[k] == m && (k > 0 ==> all[k - 1] == made[k - 1]);
    forall j | 0 <= j < k ensures all[j] == made[j] {}
    assert AskedByAll(all)[k] == AskedBy(m);
  }

  lemma ContinueKeeps(node: Node, i: nat, proofs: seq<Payload>)
    requires LocalInv(node) && node.alive
    ensures LocalInv(ContinueFlight(node, i, proofs)) && node.made <= ContinueFlight(node, i, proofs).made
  {
    hide Finish, Validate, Chain, Line, AskedByAll;
    if i < |node.flights| {
      LineFlight(node.me, node.made, node.flights, node.pending, node.asked, node.sending, i);
      var f := node.flights[i];
      if f.stage >= 2 {
        FinishKeeps(node.(flights := []), f.msg, proofs);
      }
    }
  }

  lemma NodeStepLocal(node: Node, e: NodeEvent)
    requires LocalInv(node)
    ensures LocalInv(NodeStep(node, e)) && node.made <= NodeStep(node, e).made
  {
    hide LocalInv, Step, Validate, Possible, UpperStep, AddBlock, ContinueFlight, AddPrepared;
    if node.alive {
      match e
      case Network(ev, proofs) =>
        StaysLocal(node, AbsorbDead(node));
        AddPreparedKeeps(node, proofs);
        StaysLocal(AddPrepared(node, proofs), AddPrepared(node, proofs).(st := Step(node.st, ev)));
      case Callback => StaysLocal(node, TakeCallback(node));
      case BlameCallback(s) => StaysLocal(node, UpperDo(node, Blamed(s)));
      case Wake(draws) => StaysLocal(node, StartProcess(node, draws));
      case ProcessedBlock(payload, again, draws) => StaysLocal(node, Processed(node, payload, again, draws));
      case Mail =>
        if node.mail != [] {
          StaysLocal(node, node.(mail := node.mail[1..]));
          AddBlockKeeps(node.(mail := node.mail[1..]), node.mail[0]);
        }
      case Continue(i, proofs) => ContinueKeeps(node, i, proofs);
    }
  }

  ghost function AbsorbDead(node: Node): Node {
    node.(alive := false)
  }

  lemma StaysLocal(node: Node, r: Node)
    requires LocalInv(node) && (node.alive || !r.alive)
    requires r == node.(st := r.st, u := r.u, seen := r.seen, processing := r.processing, mail := r.mail, alive := r.alive)
    ensures LocalInv(r)
  {}

  /**
    No self-fork: under every interleaving at most one local block is in flight, payloads become blocks
    in the order of the calls with none lost, and the local blocks have heights 1, 2, 3, ..., each
    extending the one before.
  */
  lemma {:induction false} NoSelfFork(n: nat, maxDeps: nat, me: nat, events: seq<NodeEvent>)
    ensures var node := NodeRun(n, maxDeps, me, events);
            && |node.flights| <= 1
            && Chain(me, node.made + Launched(node.flights))
            && (node.alive ==> node.asked == AskedByAll(node.made + Launched(node.flights)) + node.pending)
  {
    LocalRun(n, maxDeps, me, events);
    hide NodeRun, Chain, AskedByAll, Launched;
  }

  lemma {:induction false} LocalRun(n: nat, maxDeps: nat, me: nat, events: seq<NodeEvent>)
    ensures LocalInv(NodeRun(n, maxDeps, me, events)) && NodeRun(n, maxDeps, me, events).me == me
  {
    hide NodeStep;
    if events == [] {
    } else {
      var node := NodeRun(n, maxDeps, me, events[..|events| - 1]);
      LocalRun(n, maxDeps, me, events[..|events| - 1]);
      NodeStepLocal(node, events[|events| - 1]);
      NodeStepMe(node, events[|events| - 1]);
    }
  }

  lemma NodeStepMe(node: Node, e: NodeEvent)
    ensures NodeStep(node, e).me == node.me
  {
    hide Step, Validate, Possible, UpperStep, Store;
    if e.Network? {
      PreparedMe(node, e.prepared);
    }
    if e.Continue? && e.i < |node.flights| && node.flights[e.i].msg.id.Id? {
      var f := node.flights[e.i];
      var rest := node.(flights := node.flights[..e.i] + node.flights[e.i + 1..]);
      PreparedMe(rest.(st := Store(node.st, f.msg), last := f.msg.id, made := node.made + [f.msg]), e.prepared);
    }
  }

  lemma {:induction false} PreparedMe(node: Node, proofs: seq<Payload>)
    ensures AddPrepared(node, proofs).me == node.me
    decreases |proofs|
  {
    if proofs != [] && node.alive {
      PreparedMe(AddBlock(node, Request(proofs[0], [])), proofs[1..]);
    }
  }
}
