/**
  The CatChain receiver as a transition system over values.

  A block hash covers incarnation, source, height and payload hash; hashes are injective here, so a
  block is named by exactly those fields.  A reference to a block is its name and every field of the
  block objects is a map keyed by name (`status.Keys` is the key set of `blocks_`).  Each `CHECK` of
  the code is recorded in `State.checks` instead of aborting, so that "no CHECK ever fails" is a
  theorem about runs.
*/
module CatchainReceiver {

  /** What a payload deserializes to; `Custom` is anything that is not a catchain inner message. */
  datatype Payload = Empty | Custom(tag: nat) | Nop | BadBlock | ForkProof(left: DepRef, right: DepRef)

  datatype BlockId = Root | Id(src: nat, height: nat, data: Payload) {
    function Height(): nat { if Root? then 0 else height }
  }

  /** A reference to another block, with the verdict of checking the signature it carries. */
  datatype DepRef = DepRef(id: BlockId, signed: bool)

  datatype Msg = Msg(id: BlockId, prev: DepRef, deps: seq<DepRef>, signed: bool)

  datatype Status = Stub | Ill | Initialized | Delivered

  datatype Body = Body(prev: BlockId, deps: seq<BlockId>)

  predicate Parent(body: Body, p: BlockId) {
    p == body.prev || p in body.deps
  }

  datatype Source = Source(blamed: bool, forks: seq<nat>, blocks: map<nat, BlockId>,
                           delivered: nat, received: nat, proven: bool)

  /**
    `pushed` is everything ever appended to `to_run_`, `log` the `new_block` callbacks in order and
    `ills` the blocks in the order they became ill.
  */
  datatype State = State(maxDeps: nat, status: map<BlockId, Status>, body: map<BlockId, Body>,
                         fork: map<BlockId, nat>, next: map<BlockId, BlockId>, vt: map<BlockId, seq<nat>>,
                         revDeps: map<BlockId, seq<BlockId>>, pending: map<BlockId, nat>,
                         inDb: set<BlockId>, custom: set<BlockId>, sources: seq<Source>, totalForks: nat,
                         toRun: seq<BlockId>, pushed: seq<BlockId>, log: seq<BlockId>, ills: seq<BlockId>,
                         checks: bool)

  const NEW_SOURCE := Source(false, [], map[], 0, 0, false)
  const UINT32 := 0x1_0000_0000

  function Init(n: nat, maxDeps: nat): State {
    State(maxDeps, map[Root := Delivered], map[], map[], map[], map[], map[], map[], {}, {},
          seq(n, _ => NEW_SOURCE), 0, [], [], [], [], true)
  }

  /** A field that was never assigned has its default value. */
  function Find<V>(m: map<BlockId, V>, b: BlockId, default: V): V {
    if b in m then m[b] else default
  }

  function StatusOf(st: State, b: BlockId): Status { Find(st.status, b, Stub) }
  function ForkOf(st: State, b: BlockId): nat { Find(st.fork, b, 0) }
  function VtOf(st: State, b: BlockId): seq<nat> { Find(st.vt, b, []) }
  function RevDepsOf(st: State, b: BlockId): seq<BlockId> { Find(st.revDeps, b, []) }
  function PendingOf(st: State, b: BlockId): nat { Find(st.pending, b, 0) }
  function BodyOf(st: State, b: BlockId): Body { Find(st.body, b, Body(Root, [])) }

  function Check(st: State, ok: bool): State {
    st.(checks := st.checks && ok)
  }

  ghost function Live(st: State): set<BlockId> {
    set b | b in st.status && st.status[b] == Initialized
  }

  ghost function Healthy(st: State): set<BlockId> {
    set b | b in st.status && st.status[b] != Ill
  }

  // ----- vector timestamps -----

  function At(v: seq<nat>, i: nat): nat {
    if i < |v| then v[i] else 0
  }

  function Max(a: nat, b: nat): nat {
    if a < b then b else a
  }

  function Join(a: seq<nat>, d: seq<nat>): (r: seq<nat>)
    ensures forall i: nat :: At(r, i) == Max(At(a, i), At(d, i))
  {
    seq(Max(|a|, |d|), i requires i >= 0 => Max(At(a, i), At(d, i)))
  }

  function Stamp(v: seq<nat>, f: nat, h: nat): (r: seq<nat>)
    ensures forall i: nat :: At(r, i) == if i == f then h else At(v, i)
  {
    seq(Max(|v|, f + 1), i requires i >= 0 => if i == f then h else At(v, i))
  }

  // ----- sources -----

  function SetSource(st: State, s: nat, src: Source): State
    requires s < |st.sources|
  {
    st.(sources := st.sources[s := src])
  }

  function BlameSource(src: Source): Source {
    if src.blamed then src else src.(blamed := true, blocks := map[], delivered := 0)
  }

  function Blame(st: State, s: nat): (r: State)
    ensures r == st.(sources := r.sources) && |r.sources| == |st.sources|
  {
    if s < |st.sources| then SetSource(st, s, BlameSource(st.sources[s])) else st
  }

  function Prove(st: State, s: nat): (r: State)
    ensures r == st.(sources := r.sources) && |r.sources| == |st.sources|
  {
    if s < |st.sources| then SetSource(st, s, st.sources[s].(proven := true)) else st
  }

  /** `CatChainReceiverSourceImpl::add_fork`: the second fork of a source blames it. */
  function AddFork(src: Source, f: nat): Source {
    var src' := if |src.forks| > 0 then BlameSource(src) else src;
    src'.(forks := src'.forks + [f])
  }

  /** `CatChainReceiverSourceImpl::on_new_block` for a block object that was just allocated. */
  function Register(src: Source, b: BlockId): Source {
    if src.proven then src
    else if b.Height() in src.blocks then BlameSource(src.(proven := true))
    else src.(blocks := src.blocks[b.Height() := b])
  }

  /** The `while (true)` walk of `block_received` and `block_delivered` over `blocks_`. */
  function Advance(st: State, src: Source, h: nat, delivered: bool): (r: nat)
    decreases src.blocks.Keys - set k | k in src.blocks.Keys && k <= h
  {
    if h + 1 !in src.blocks then h
    else
      var status := StatusOf(st, src.blocks[h + 1]);
      if (if delivered then status == Delivered else status == Initialized || status == Delivered) then
        assert h + 1 in src.blocks.Keys - set k | k in src.blocks.Keys && k <= h;
        Advance(st, src, h + 1, delivered)
      else h
  }

  function BlockReceived(st: State, b: BlockId): (r: State)
    requires b.Id?
    ensures r == st.(sources := r.sources) && |r.sources| == |st.sources|
  {
    if b.src >= |st.sources| || st.sources[b.src].blamed then st else
    var src := st.sources[b.src];
    var h := if src.received + 1 == b.height then b.height else src.received;
    SetSource(st, b.src, src.(received := Advance(st, src, h, false)))
  }

  function BlockDelivered(st: State, b: BlockId): (r: State)
    requires b.Id?
    ensures r == st.(sources := r.sources) && |r.sources| == |st.sources|
  {
    if b.src >= |st.sources| || st.sources[b.src].blamed then st else
    var src := st.sources[b.src];
    var h := if src.delivered + 1 == b.height then b.height else src.delivered;
    SetSource(st, b.src, src.(delivered := Advance(st, src, h, true)))
  }

  // ----- validation -----

  predicate ValidRef(st: State, d: DepRef) {
    match d.id
    case Root => true
    case Id(src, height, _) => height > 0 && src < |st.sources| && (d.id in st.status || d.signed)
  }

  predicate DistinctSources(own: nat, deps: seq<DepRef>) {
    && (forall i :: 0 <= i < |deps| && deps[i].id.Id? ==> deps[i].id.src != own)
    && (forall i, j :: 0 <= i < j < |deps| && deps[i].id.Id? && deps[j].id.Id? ==> deps[i].id.src != deps[j].id.src)
    && (forall i, j :: 0 <= i < j < |deps| && deps[i].id.Root? ==> !deps[j].id.Root?)
  }

  predicate Validate(st: State, m: Msg) {
    && m.id.Id? && m.id.height > 0 && m.id.src < |st.sources|
    && |m.deps| <= st.maxDeps
    && (if m.id.height > 1 then m.prev.id.Id? && m.prev.id.src == m.id.src else m.prev.id.Root?)
    && m.prev.id.Height() + 1 == m.id.height
    && DistinctSources(m.id.src, m.deps)
    && ValidRef(st, m.prev)
    && (forall i :: 0 <= i < |m.deps| ==> ValidRef(st, m.deps[i]))
    && m.id.data != Empty
    && m.signed
  }

  // ----- block life cycle -----

  function Schedule(st: State, b: BlockId): State {
    st.(toRun := st.toRun + [b], pushed := st.pushed + [b])
  }

  function MarkIll(st: State, b: BlockId): State {
    (if b.Id? then Blame(st, b.src) else st).(status := st.status[b := Ill], ills := st.ills + [b])
  }

  function SetIll(st: State, b: BlockId): (r: State)
    ensures Healthy(r) <= Healthy(st) && Live(r) <= Live(st)
    ensures r.toRun == st.toRun
    decreases Healthy(st), 0
  {
    if b !in st.status || st.status[b] == Ill then st
    else
      assert Healthy(MarkIll(st, b)) == Healthy(st) - {b};
      SetIllAll(MarkIll(st, b), RevDepsOf(st, b))
  }

  function SetIllAll(st: State, bs: seq<BlockId>): (r: State)
    ensures Healthy(r) <= Healthy(st) && Live(r) <= Live(st)
    ensures r.toRun == st.toRun
    decreases Healthy(st), |bs|
  {
    if bs == [] then st else SetIllAll(SetIll(st, bs[0]), bs[1..])
  }

  predicate StartsFork(st: State, b: BlockId) {
    b.Height() == 1 || BodyOf(st, b).prev in st.next
  }

  function NewForkOf(st: State, b: BlockId): nat {
    if StartsFork(st, b) then st.totalForks + 1 else ForkOf(st, BodyOf(st, b).prev)
  }

  function InitializeFork(st: State, b: BlockId): (r: State)
    requires b.Id?
    ensures r == st.(fork := r.fork, vt := r.vt, next := r.next, sources := r.sources, totalForks := r.totalForks,
                     checks := r.checks)
    ensures |r.sources| == |st.sources|
  {
    var f := NewForkOf(st, b);
    var ok := StatusOf(st, b) == Initialized && ForkOf(st, b) == 0 && At(VtOf(st, b), f) < b.height;
    var vt := st.vt[b := Stamp(VtOf(st, b), f, b.height)];
    if !StartsFork(st, b) || b.src >= |st.sources| then
      st.(fork := st.fork[b := f], vt := vt, next := st.next[BodyOf(st, b).prev := b], checks := st.checks && ok)
    else
      var src := AddFork(st.sources[b.src], f);
      st.(fork := st.fork[b := f], vt := vt, sources := st.sources[b.src := src], totalForks := f,
          checks := st.checks && ok && f > 0 && (|src.forks| > 1 ==> src.blamed))
  }

  /** `NoSource` is the dereference of the null source object of the root. */
  datatype Verdict = Fine | Stale | MixesForks | BadProof | NoSource

  /** Has the previous block seen this dependency already? */
  predicate IsStale(st: State, prevVt: seq<nat>, x: BlockId) {
    ForkOf(st, x) < |prevVt| && x.Height() <= prevVt[ForkOf(st, x)]
  }

  /** Has the previous block seen another fork of the same blamed source? */
  predicate MixesFork(st: State, prevVt: seq<nat>, x: BlockId) {
    && x.Id? && x.src < |st.sources| && st.sources[x.src].blamed
    && exists f :: f in st.sources[x.src].forks && f != ForkOf(st, x) && At(prevVt, f) > 0
  }

  /**
    The scan over `block_deps_` in `pre_deliver`; the first offending dependency decides.  The root has no
    source object, and the forks of the source are fetched before anything is tested.
  */
  function ScanDeps(st: State, prevVt: seq<nat>, deps: seq<BlockId>): Verdict {
    if deps == [] then Fine
    else if deps[0].Root? then NoSource
    else if IsStale(st, prevVt, deps[0]) then Stale
    else if MixesFork(st, prevVt, deps[0]) then MixesForks
    else ScanDeps(st, prevVt, deps[1..])
  }

  predicate IsFork(l: BlockId, r: BlockId) {
    l.Id? && r.Id? && l.height == r.height && l.src == r.src && l.data != r.data
  }

  /** The verdict of `pre_deliver`: dependencies first, then a fork proof in the payload. */
  function Judge(st: State, b: BlockId): Verdict {
    var verdict := ScanDeps(st, VtOf(st, BodyOf(st, b).prev), BodyOf(st, b).deps);
    if verdict == Fine && b.Id? && b.data.ForkProof? &&
       !(ValidRef(st, b.data.left) && ValidRef(st, b.data.right) && IsFork(b.data.left.id, b.data.right.id))
    then BadProof else verdict
  }

  function Reject(st: State, b: BlockId): (r: State)
    requires b.Id?
    ensures Live(r) <= Live(st) && r.toRun == st.toRun
  {
    SetIll(if Judge(st, b) == MixesForks then Blame(st, b.src) else st, b)
  }

  /** What an accepted payload does: a fork proof blames its subject, other payloads go to the application. */
  function Absorb(st: State, b: BlockId): (r: State)
    requires b.Id?
    ensures r == st.(sources := r.sources, custom := r.custom) && |r.sources| == |st.sources|
  {
    match b.data
    case Nop => st
    case BadBlock => st
    case ForkProof(l, _) => if l.id.Id? then Blame(Prove(st, l.id.src), l.id.src) else st
    case _ => st.(custom := st.custom + {b})
  }

  function PreDeliver(st: State, b: BlockId): (r: State)
    requires b.Id?
    ensures Live(r) <= Live(st) && r.toRun == st.toRun
  {
    if StatusOf(st, b) == Ill then st
    else
      match Judge(st, b)
      case Fine => Absorb(st, b)
      case NoSource => st.(checks := false)
      case _ => Reject(st, b)
  }

  function Decrement(n: nat): nat {
    if n == 0 then UINT32 - 1 else n - 1
  }

  /** `dep_delivered`, once per waiting block: merge the timestamp `v` of the delivered block. */
  function MergeInto(status: map<BlockId, Status>, vt: map<BlockId, seq<nat>>, v: seq<nat>, bs: seq<BlockId>)
    : map<BlockId, seq<nat>>
    decreases |bs|
  {
    if bs == [] then vt
    else if Find(status, bs[0], Stub) == Ill then MergeInto(status, vt, v, bs[1..])
    else MergeInto(status, vt[bs[0] := Join(Find(vt, bs[0], []), v)], v, bs[1..])
  }

  function DecrementAll(status: map<BlockId, Status>, pending: map<BlockId, nat>, bs: seq<BlockId>): map<BlockId, nat>
    decreases |bs|
  {
    if bs == [] then pending
    else if Find(status, bs[0], Stub) == Ill then DecrementAll(status, pending, bs[1..])
    else DecrementAll(status, pending[bs[0] := Decrement(Find(pending, bs[0], 0))], bs[1..])
  }

  /** The blocks that become ready while `pending_deps_` is decremented along `bs`. */
  function Woken(status: map<BlockId, Status>, pending: map<BlockId, nat>, inDb: set<BlockId>, bs: seq<BlockId>)
    : seq<BlockId>
    decreases |bs|
  {
    if bs == [] then []
    else if Find(status, bs[0], Stub) == Ill then Woken(status, pending, inDb, bs[1..])
    else
      var left := Decrement(Find(pending, bs[0], 0));
      (if left == 0 && bs[0] in inDb then [bs[0]] else []) +
      Woken(status, pending[bs[0] := left], inDb, bs[1..])
  }

  function Release(st: State, b: BlockId): State {
    var status, bs := st.status[b := Delivered], RevDepsOf(st, b);
    var woken := Woken(status, st.pending, st.inDb, bs);
    Check(st, StatusOf(st, b) == Initialized && PendingOf(st, b) == 0 && b in st.inDb)
      .(status := status, log := st.log + [b],
        vt := MergeInto(status, st.vt, VtOf(st, b), bs),
        pending := DecrementAll(status, st.pending, bs),
        toRun := st.toRun + woken, pushed := st.pushed + woken,
        revDeps := st.revDeps[b := []])
  }

  function Deliver(st: State, b: BlockId): (r: State)
    requires b.Id?
    ensures Live(r) <= Live(st) - {b}
  {
    if StatusOf(st, b) == Ill then st else BlockDelivered(Release(st, b), b)
  }

  function Run(st: State, b: BlockId): (r: State)
    ensures Live(r) <= Live(st)
    ensures r.toRun == st.toRun || Live(r) < Live(st)
  {
    if b.Root? || StatusOf(st, b) != Initialized then st
    else
      assert b in Live(st);
      var st1 := PreDeliver(InitializeFork(Check(st, PendingOf(st, b) == 0 && b in st.inDb), b), b);
      if st1.checks then Deliver(st1, b) else st1
  }

  /**
    `run_scheduler`; it terminates because every run retires an initialized block or shortens the queue.
    A failed CHECK ends the program in the middle of it.
  */
  function RunScheduler(st: State): State
    decreases Live(st), |st.toRun|
  {
    if st.toRun == [] || !st.checks then st
    else RunScheduler(Run(st.(toRun := st.toRun[1..]), st.toRun[0]))
  }

  function Written(st: State, b: BlockId): (r: State)
    ensures r == st.(inDb := st.inDb + {b}, toRun := r.toRun, pushed := r.pushed)
  {
    if b in st.inDb then st
    else
      var st1 := st.(inDb := st.inDb + {b});
      if PendingOf(st, b) == 0 then Schedule(st1, b) else st1
  }

  // ----- creation -----

  function AddStub(st: State, b: BlockId): State {
    if b in st.status || b.Root? || b.src >= |st.sources| then st
    else
      var src := st.sources[b.src];
      st.(status := st.status[b := Stub],
          sources := st.sources[b.src := Register(src, b)],
          checks := st.checks && (!src.proven && b.height in src.blocks ==> src.blocks[b.height] != b))
  }

  function AddStubs(st: State, bs: seq<BlockId>): State
    decreases |bs|
  {
    if bs == [] then st else AddStubs(AddStub(st, bs[0]), bs[1..])
  }

  /** `update_deps` for every delivered parent. */
  function MergeAll(status: map<BlockId, Status>, vt: map<BlockId, seq<nat>>, v: seq<nat>, ps: seq<BlockId>): seq<nat>
    decreases |ps|
  {
    if ps == [] then v
    else if Find(status, ps[0], Stub) == Delivered then MergeAll(status, vt, Join(v, Find(vt, ps[0], [])), ps[1..])
    else MergeAll(status, vt, v, ps[1..])
  }

  /** The value `pending_deps` reaches: the parents that are not delivered. */
  function CountWaiting(status: map<BlockId, Status>, ps: seq<BlockId>): nat {
    if ps == [] then 0
    else (if Find(status, ps[0], Stub) == Delivered then 0 else 1) + CountWaiting(status, ps[1..])
  }

  /** `add_rev_dep(b)` on every parent that is not delivered. */
  function AwaitAll(status: map<BlockId, Status>, rev: map<BlockId, seq<BlockId>>, b: BlockId, ps: seq<BlockId>)
    : map<BlockId, seq<BlockId>>
    decreases |ps|
  {
    if ps == [] then rev
    else if Find(status, ps[0], Stub) == Delivered then AwaitAll(status, rev, b, ps[1..])
    else AwaitAll(status, rev[ps[0] := Find(rev, ps[0], []) + [b]], b, ps[1..])
  }

  function LinkAll(st: State, b: BlockId, ps: seq<BlockId>): State {
    st.(vt := st.vt[b := MergeAll(st.status, st.vt, VtOf(st, b), ps)],
        pending := st.pending[b := CountWaiting(st.status, ps)],
        revDeps := AwaitAll(st.status, st.revDeps, b, ps))
  }

  function Ids(deps: seq<DepRef>): (r: seq<BlockId>)
    ensures |r| == |deps| && forall i :: 0 <= i < |r| ==> r[i] == deps[i].id
  {
    seq(|deps|, i requires 0 <= i < |deps| => deps[i].id)
  }

  predicate AnyIll(st: State, ps: seq<BlockId>) {
    exists p :: p in ps && StatusOf(st, p) == Ill
  }

  function Initialize(st: State, m: Msg): State
    requires m.id.Id?
  {
    if StatusOf(st, m.id) != Stub then st
    else
      var ps := [m.prev.id] + Ids(m.deps);
      var st1 := AddStubs(st, ps);
      var st2 := st1.(status := st1.status[m.id := Initialized],
                      body := st1.body[m.id := Body(m.prev.id, Ids(m.deps))]);
      if AnyIll(st2, ps) then SetIll(st2, m.id)
      else
        var st3 := LinkAll(st2, m.id, ps);
        BlockReceived(if PendingOf(st3, m.id) == 0 && m.id in st3.inDb then Schedule(st3, m.id) else st3, m.id)
  }

  function CreateBlock(st: State, m: Msg): State
    requires m.id.Id?
  {
    Initialize(AddStub(st, m.id), m)
  }

  // ----- events -----

  /** Hashing a block looks up its source, and that lookup is a CHECK. */
  predicate Hashable(n: nat, m: Msg) {
    m.id.Id? ==> m.id.src < n
  }

  /**
    `receive_block`: hash, then validate, then create, store, run.  The hash is taken first, so a block
    that names no source fails a CHECK before validation could refuse it.
  */
  function Accept(st: State, m: Msg): State {
    var status := StatusOf(st, m.id);
    if !Hashable(|st.sources|, m) then st.(checks := false)
    else if status == Initialized || status == Delivered || !Validate(st, m) then st
    else RunScheduler(Written(CreateBlock(st, m), m.id))
  }

  /** `got_fork_proof`. */
  function AcceptProof(st: State, l: DepRef, r: DepRef): State {
    if !ValidRef(st, l) || !ValidRef(st, r) || !IsFork(l.id, r.id) then st
    else Blame(Prove(st, l.id.src), l.id.src)
  }

  datatype Event = Receive(m: Msg) | Proof(left: DepRef, right: DepRef)

  /** A failed CHECK ends the program: nothing happens after it. */
  function Step(st: State, e: Event): State {
    if !st.checks then st
    else
      match e
      case Receive(m) => Accept(st, m)
      case Proof(l, r) => AcceptProof(st, l, r)
  }

  function Execute(n: nat, maxDeps: nat, events: seq<Event>): State {
    if events == [] then Init(n, maxDeps)
    else Step(Execute(n, maxDeps, events[..|events| - 1]), events[|events| - 1])
  }
}
