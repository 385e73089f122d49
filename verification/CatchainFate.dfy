/** When a node dies, and what its receiver is like as long as it lives: under every interleaving, forks and blames included. */
module CatchainFate {
  import opened CatchainReceiver
  import opened CatchainInvariant
  import opened CatchainCreate
  import opened CatchainRuns
  import opened CatchainAdmission
  import opened CatchainEvidence
  import opened CatchainUpper
  import opened CatchainNode

  ghost predicate IsMade(made: seq<Msg>, b: BlockId) {
    exists i :: 0 <= i < |made| && made[i].id == b
  }

  /** The blocks in the name of this node that the receiver holds are those the node made, and all are delivered. */
  ghost predicate OwnMade(me: nat, st: State, made: seq<Msg>) {
    && (forall b :: b in st.body && b.Id? && b.src == me <==> IsMade(made, b))
    && (forall i :: 0 <= i < |made| ==> Is(st.status, made[i].id, Delivered))
  }

  /** Blocks in flight that passed validation are still valid. */
  ghost predicate StillValid(st: State, flights: seq<Flight>) {
    forall f :: f in flights && f.stage >= 1 ==> Validate(st, f.msg)
  }

  ghost predicate Upright(n: nat, maxDeps: nat, st: State) {
    Inv(st, {}) && Settled(st) && |st.sources| == n && st.maxDeps == maxDeps
  }

  ghost predicate Living(n: nat, maxDeps: nat, node: Node) {
    node.alive ==> Upright(n, maxDeps, node.st) && OwnMade(node.me, node.st, node.made) && StillValid(node.st, node.flights)
  }

  lemma ValidLater(st: State, r: State, m: Msg)
    requires Validate(st, m) && |r.sources| == |st.sources| && r.maxDeps == st.maxDeps && st.status.Keys <= r.status.Keys
    ensures Validate(r, m)
  {
    hide Genuine;
    ValidateIff(st, m);
    ValidateIff(r, m);
    GenuineLater(|st.sources|, st.maxDeps, st.status.Keys, r.status.Keys, m);
  }

  lemma GenuineLater(n: nat, maxDeps: nat, known: set<BlockId>, more: set<BlockId>, m: Msg)
    requires Genuine(n, maxDeps, known, m) && known <= more
    ensures Genuine(n, maxDeps, more, m)
  {}

  /** Asking for blocks touches neither the receiver nor the blocks already in flight. */
  lemma AddBlockFields(node: Node, r: Request)
    ensures var q := AddBlock(node, r);
            && q.st == node.st && q.made == node.made && q.me == node.me && q.mail == node.mail
            && (forall f :: f in q.flights ==> f in node.flights || f.stage == 0)
            && (node.alive ==> (!q.alive <==> !node.sending && Refused(node.st, node.me, r)) && q.sending)
            && q.pending == node.pending + if node.sending then [r] else []
  {}

  lemma {:induction false} AddPreparedFields(node: Node, proofs: seq<Payload>)
    ensures var q := AddPrepared(node, proofs);
            && q.st == node.st && q.made == node.made && q.me == node.me
            && (forall f :: f in q.flights ==> f in node.flights || f.stage == 0)
            && (node.alive ==> (!q.alive <==> proofs != [] && !node.sending && Refused(node.st, node.me, Request(proofs[0], []))))
            && (node.sending && node.alive ==> q.pending == node.pending + Asking(proofs))
            && (node.sending ==> q.sending)
    decreases |proofs|
  {
    hide AddBlock, Refused;
    if proofs != [] && node.alive {
      var r := Request(proofs[0], []);
      AddBlockFields(node, r);
      AddPreparedFields(AddBlock(node, r), proofs[1..]);
      assert node.pending + Asking(proofs) == node.pending + [r] + Asking(proofs[1..]);
    } else {
      assert node.pending + [] == node.pending;
    }
  }

  /** The blocks asked for when fork proofs are found. */
  ghost function Asking(proofs: seq<Payload>): seq<Request> {
    seq(|proofs|, i requires 0 <= i < |proofs| => Request(proofs[i], []))
  }

  /** `add_block` fails a CHECK: this node is blamed, or a dependency is unknown or its own. */
  ghost predicate Refused(st: State, me: nat, r: Request) {
    || (me < |st.sources| && st.sources[me].blamed)
    || exists d :: d in r.deps && (d !in st.status || (d.Id? && d.src == me))
  }

  lemma StepGrows(st: State, e: Event)
    requires Inv(st, {}) && Settled(st)
    ensures Grown(st, Step(st, e))
  {
    hide Inv, Settled, Accept, AcceptProof, Payloads, Accused;
    InvChecks(st, {});
    match e
    case Receive(m) => AcceptFair(st, m);
    case Proof(l, r) =>
      ProofIff(st, l, r);
  }

  // ----- a block or proof from the network -----

  /** A block in the name of this node that it did not make, and that would pass validation. */
  ghost predicate Impostor(n: nat, maxDeps: nat, node: Node, e: Event) {
    && e.Receive? && e.m.id.Id? && e.m.id.src == node.me && e.m.id !in node.st.body
    && Genuine(n, maxDeps, node.st.status.Keys, e.m)
  }

  lemma ImpostorIff(n: nat, maxDeps: nat, node: Node, e: Event)
    requires Living(n, maxDeps, node) && node.alive && e.Receive? && e.m.id.Id? && e.m.id.src == node.me
    ensures Impostor(n, maxDeps, node, e) <==>
              StatusOf(node.st, e.m.id) != Initialized && StatusOf(node.st, e.m.id) != Delivered && Validate(node.st, e.m)
  {
    NotReceived(node.st, e.m.id);
    ValidateIff(node.st, e.m);
    hide Validate, Genuine, Inv, Settled;
  }

  lemma SameOwn(st: State, r: State, me: nat, made: seq<Msg>)
    requires OwnMade(me, st, made) && Later(st, r)
    requires forall c :: c in r.body && c !in st.body ==> c.Id? ==> c.src != me
    ensures OwnMade(me, r, made)
  {}

  lemma NetworkLives(n: nat, maxDeps: nat, node: Node, e: Event, proofs: seq<Payload>)
    requires Living(n, maxDeps, node) && node.alive
    ensures Living(n, maxDeps, AbsorbEvent(node, e, proofs))
    ensures !AbsorbEvent(node, e, proofs).alive <==>
              || !Step(node.st, e).checks || Impostor(n, maxDeps, node, e)
              || (proofs != [] && !node.sending && Refused(node.st, node.me, Request(proofs[0], [])))
  {
    hide Inv, Settled, Validate, Genuine, Step, AddPrepared, Later, Refused, OwnMade, Grown, StillValid;
    var r := Step(node.st, e);
    AddPreparedFields(node, proofs);
    StepKeeps(node.st, e);
    LaterSources(node.st, r);
    if e.Receive? && e.m.id.Id? && e.m.id.src == node.me {
      ImpostorIff(n, maxDeps, node, e);
    }
    var q := AbsorbEvent(node, e, proofs);
    if q.alive {
      OwnStays(n, maxDeps, node, e);
      StepGrows(node.st, e);
      FlightsValid(node.st, r, node.flights, q.flights);
    }
  }

  lemma OwnStays(n: nat, maxDeps: nat, node: Node, e: Event)
    requires Living(n, maxDeps, node) && node.alive && !Impostor(n, maxDeps, node, e)
    ensures OwnMade(node.me, Step(node.st, e), node.made)
  {
    hide Inv, Settled, Genuine, Step, Later, OwnMade;
    InvChecks(node.st, {});
    StepKeeps(node.st, e);
    StepBodies(node.st, e);
    GenuineId(n, maxDeps, node.st.status.Keys, e);
    SameOwn(node.st, Step(node.st, e), node.me, node.made);
  }

  lemma GenuineId(n: nat, maxDeps: nat, known: set<BlockId>, e: Event)
    ensures e.Receive? && Genuine(n, maxDeps, known, e.m) ==> e.m.id.Id?
  {}

  lemma FlightsValid(st: State, r: State, flights: seq<Flight>, flights': seq<Flight>)
    requires StillValid(st, flights) && Grown(st, r) && r.maxDeps == st.maxDeps
    requires forall f :: f in flights' ==> f in flights || f.stage == 0
    ensures StillValid(r, flights')
  {
    hide Validate;
    forall f | f in flights' && f.stage >= 1 ensures Validate(r, f.msg) {
      ValidLater(st, r, f.msg);
    }
  }

  // ----- a local block -----

  /** The next local block is unknown or only referenced. */
  lemma NextUnknown(n: nat, maxDeps: nat, node: Node, i: nat)
    requires LocalInv(node) && Living(n, maxDeps, node) && node.alive && i < |node.flights|
    ensures var m := node.flights[i].msg;
            m.id.Id? && m.id.src == node.me && m.id !in node.st.body && StatusOf(node.st, m.id) == Stub
  {
    var m := node.flights[i].msg;
    NextInLine(node.me, node.made, node.flights, node.pending, node.asked, i);
    hide Line, Inv, Settled, StillValid;
    assert forall j :: 0 <= j < |node.made| ==> node.made[j].id != m.id;
    NotReceived(node.st, m.id);
  }

  lemma StoreKeeps(n: nat, maxDeps: nat, st: State, m: Msg)
    requires Upright(n, maxDeps, st) && Validate(st, m) && StatusOf(st, m.id) == Stub && m.id.Id?
    ensures var r := Store(st, m);
            && r.body == st.body[m.id := BodyIn(m)] && Later(st, r) && Grown(st, r)
            && (r.checks ==> Upright(n, maxDeps, r))
  {
    hide Inv, Validate, Written, CreateBlock, Later, Grown;
    AcceptKeeps(st, m);
    StoreIsAccept(st, m);
    LaterSources(st, Store(st, m));
    AcceptGrows(st, m);
  }

  lemma StoreIsAccept(st: State, m: Msg)
    requires Validate(st, m) && StatusOf(st, m.id) == Stub && m.id.Id?
    ensures Store(st, m) == Accept(st, m)
  {
    hide RunScheduler, Written, CreateBlock;
  }

  lemma AcceptGrows(st: State, m: Msg)
    requires Inv(st, {}) && Settled(st)
    ensures Grown(st, Accept(st, m))
  {
    hide Inv, Settled, Accept, Payloads, Accused, Grown;
    AcceptFair(st, m);
  }

  /** What is asked for when a local block is done: what waited, then what fork proofs were found. */
  ghost function NextRequest(node: Node, proofs: seq<Payload>): seq<Request> {
    node.pending + Asking(proofs)
  }

  /** Storing local block `m` kills the node. */
  ghost predicate FinishFails(node: Node, m: Msg, proofs: seq<Payload>)
    requires m.id.Id?
  {
    var st, next := Store(node.st, m), NextRequest(node, proofs);
    !st.checks || !Is(st.status, m.id, Delivered) || (next != [] && Refused(st, node.me, next[0]))
  }

  lemma FinishFields(node: Node, m: Msg, proofs: seq<Payload>)
    requires node.alive && node.sending && m.id.Id?
    ensures var q, st := Finish(node, m, proofs), Store(node.st, m);
            && q.st == st && q.made == node.made + [m] && q.me == node.me
            && (!q.alive <==> FinishFails(node, m, proofs))
            && (forall f :: f in q.flights ==> f in node.flights || f.stage == 0)
  {
    hide Store, AddPrepared, Refused;
    var node0 := node.(st := Store(node.st, m), last := m.id, made := node.made + [m]);
    AddPreparedFields(node0, proofs);
    var node1 := AddPrepared(node0, proofs);
    if node1.pending != [] {
      StartFields(node1.(sending := false, pending := node1.pending[1..]), node1.pending[0]);
    }
  }

  lemma StartFields(node: Node, r: Request)
    requires node.alive
    ensures var q := StartBlock(node, r);
            && q.st == node.st && q.made == node.made && q.me == node.me && (!q.alive <==> Refused(node.st, node.me, r))
            && (forall f :: f in q.flights ==> f in node.flights || f.stage == 0)
  {}

  lemma FinishLives(n: nat, maxDeps: nat, node: Node, i: nat, proofs: seq<Payload>)
    requires LocalInv(node) && Living(n, maxDeps, node) && node.alive && i < |node.flights| && node.flights[i].stage >= 2
    ensures node.flights[i].msg.id.Id?
    ensures Living(n, maxDeps, ContinueFlight(node, i, proofs))
    ensures !ContinueFlight(node, i, proofs).alive <==> FinishFails(node, node.flights[i].msg, proofs)
  {
    var m, rest := node.flights[i].msg, node.flights[..i] + node.flights[i + 1..];
    assert node.flights[i] in node.flights;
    NextUnknown(n, maxDeps, node, i);
    LineFlight(node.me, node.made, node.flights, node.pending, node.asked, node.sending, i);
    hide Inv, Settled, Validate, Line, Refused, Grown, Later, Store, Finish, AddPrepared;
    var node0 := node.(flights := rest);
    FinishFields(node0, m, proofs);
    StoreKeeps(n, maxDeps, node.st, m);
    var q := Finish(node0, m, proofs);
    assert NextRequest(node0, proofs) == NextRequest(node, proofs);
    if q.alive {
      OwnMore(node.st, q.st, node.me, node.made, m);
      FlightsValid(node.st, q.st, node.flights, q.flights);
    }
  }

  lemma OwnMore(st: State, r: State, me: nat, made: seq<Msg>, m: Msg)
    requires OwnMade(me, st, made) && Later(st, r) && m.id.Id? && m.id.src == me
    requires r.body == st.body[m.id := BodyIn(m)] && Is(r.status, m.id, Delivered)
    ensures OwnMade(me, r, made + [m])
  {
    var more := made + [m];
    forall b ensures IsMade(more, b) <==> b == m.id || IsMade(made, b) {
      if i :| 0 <= i < |made| && made[i].id == b {
        assert more[i].id == b;
      }
      if b == m.id {
        assert more[|made|].id == b;
      }
    }
  }

  // ----- every event -----

  /** The event kills the node. */
  ghost predicate Fatal(n: nat, maxDeps: nat, node: Node, e: NodeEvent) {
    match e
    case Network(ev, proofs) =>
      || !Step(node.st, ev).checks || Impostor(n, maxDeps, node, ev)
      || (proofs != [] && !node.sending && Refused(node.st, node.me, Request(proofs[0], [])))
    case Mail => node.mail != [] && !node.sending && Refused(node.st, node.me, node.mail[0])
    case Continue(i, proofs) =>
      i < |node.flights| &&
      var f := node.flights[i];
      if f.stage == 0 then !Genuine(n, maxDeps, node.st.status.Keys, f.msg)
      else f.stage >= 2 && f.msg.id.Id? && FinishFails(node, f.msg, proofs)
    case _ => false
  }

  lemma ContinueLives(n: nat, maxDeps: nat, node: Node, i: nat, proofs: seq<Payload>)
    requires LocalInv(node) && Living(n, maxDeps, node) && node.alive
    ensures Living(n, maxDeps, ContinueFlight(node, i, proofs))
    ensures !ContinueFlight(node, i, proofs).alive <==> Fatal(n, maxDeps, node, Continue(i, proofs))
  {
    hide Inv, Settled, Validate, Genuine, Finish, FinishFails, LocalInv, OwnMade, Refused;
    if i < |node.flights| {
      var f := node.flights[i];
      ValidateIff(node.st, f.msg);
      if f.stage >= 2 {
        FinishLives(n, maxDeps, node, i, proofs);
      }
    }
  }

  lemma MailLives(n: nat, maxDeps: nat, node: Node)
    requires Living(n, maxDeps, node) && node.alive && node.mail != []
    ensures var q := AddBlock(node.(mail := node.mail[1..]), node.mail[0]);
            Living(n, maxDeps, q) && (!q.alive <==> Fatal(n, maxDeps, node, Mail))
  {
    hide Inv, Settled, Validate, Refused, AddBlock;
    AddBlockFields(node.(mail := node.mail[1..]), node.mail[0]);
  }

  lemma StepLives(n: nat, maxDeps: nat, node: Node, e: NodeEvent)
    requires LocalInv(node) && Living(n, maxDeps, node) && node.alive
    ensures Living(n, maxDeps, NodeStep(node, e)) && (!NodeStep(node, e).alive <==> Fatal(n, maxDeps, node, e))
  {
    hide LocalInv, Step, Validate, Possible, UpperStep, AddBlock, ContinueFlight, AddPrepared, AbsorbEvent, Upright, OwnMade,
         StillValid, Genuine, Refused, FinishFails;
    match e
    case Network(ev, proofs) => NetworkLives(n, maxDeps, node, ev, proofs);
    case Mail =>
      if node.mail != [] {
        MailLives(n, maxDeps, node);
      }
    case Continue(i, proofs) => ContinueLives(n, maxDeps, node, i, proofs);
    case _ => {}
  }

  lemma {:induction false} NodeLives(n: nat, maxDeps: nat, me: nat, events: seq<NodeEvent>)
    ensures Living(n, maxDeps, NodeRun(n, maxDeps, me, events))
  {
    hide NodeStep, LocalInv;
    if events == [] {
      hide Inv;
      InitHolds(n, maxDeps);
    } else {
      hide Living;
      var before, e := events[..|events| - 1], events[|events| - 1];
      NodeLives(n, maxDeps, me, before);
      LocalRun(n, maxDeps, me, before);
      var node := NodeRun(n, maxDeps, me, before);
      if node.alive {
        StepLives(n, maxDeps, node, e);
      } else {
        StaysDead(node, e);
        DeadLives(n, maxDeps, node);
      }
    }
  }

  lemma StaysDead(node: Node, e: NodeEvent)
    requires !node.alive
    ensures NodeStep(node, e) == node
  {}

  lemma DeadLives(n: nat, maxDeps: nat, node: Node)
    requires !node.alive
    ensures Living(n, maxDeps, node)
  {}

  /** When a live node dies: exactly on the events listed in `Fatal`, whatever has happened before. */
  lemma DiesIff(n: nat, maxDeps: nat, me: nat, events: seq<NodeEvent>, e: NodeEvent)
    requires NodeRun(n, maxDeps, me, events).alive
    ensures NodeRun(n, maxDeps, me, events + [e]).alive <==> !Fatal(n, maxDeps, NodeRun(n, maxDeps, me, events), e)
  {
    hide NodeStep, LocalInv, Fatal, Living;
    NodeLives(n, maxDeps, me, events);
    LocalRun(n, maxDeps, me, events);
    assert (events + [e])[..|events|] == events;
    StepLives(n, maxDeps, NodeRun(n, maxDeps, me, events), e);
  }

  /**
    As long as a node lives, under every interleaving, forks and blames included: its receiver keeps its
    invariant with an empty queue, every local block made is delivered, and the receiver holds no other
    block in this node's name.
  */
  lemma LivingNode(n: nat, maxDeps: nat, me: nat, events: seq<NodeEvent>)
    requires NodeRun(n, maxDeps, me, events).alive
    ensures var node := NodeRun(n, maxDeps, me, events);
            && Inv(node.st, {}) && Settled(node.st)
            && (forall i :: 0 <= i < |node.made| ==> Is(node.st.status, node.made[i].id, Delivered))
            && (forall b :: b in node.st.body && b.Id? && b.src == me <==> IsMade(node.made, b))
  {
    hide NodeRun, Inv, Settled;
    NodeLives(n, maxDeps, me, events);
    LocalRun(n, maxDeps, me, events);
  }
}
