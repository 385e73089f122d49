/** Creating and linking blocks keeps the receiver invariant. */
module CatchainCreate {
  import opened CatchainReceiver
  import opened CatchainInvariant

  // ----- sources -----

  lemma BlameBooks(status: Statuses, sources: seq<Source>, s: nat, proven: bool)
    requires Books(status, sources) && s < |sources|
    ensures Books(status, sources[s := BlameSource(sources[s].(proven := proven || sources[s].proven))])
  {
    var sources' := sources[s := BlameSource(sources[s].(proven := proven || sources[s].proven))];
    forall t | 0 <= t < |sources'| ensures Book(status, sources'[t], t) {
      assert Book(status, sources[t], t);
    }
  }

  lemma SourcesKeep(st: State, x: set<BlockId>, sources: seq<Source>, total: nat)
    requires Inv(st, x) && |sources| == |st.sources|
    requires ForkOwners(st.fork, sources, total) && Books(st.status, sources)
    ensures Inv(st.(sources := sources, totalForks := total), x)
  {
    hide Shape, Waiting, Counted, Illness, Ordered, ForkStatus, ForkTree, ForkOwners, Clocks, Books;
  }

  lemma ProveOwners(fork: map<BlockId, nat>, sources: seq<Source>, total: nat, s: nat)
    requires ForkOwners(fork, sources, total) && s < |sources|
    ensures ForkOwners(fork, sources[s := BlameSource(sources[s].(proven := true))], total)
  {}

  lemma BlameKeeps(st: State, x: set<BlockId>, s: nat)
    requires Inv(st, x)
    ensures Inv(Blame(st, s), x) && Inv(Blame(Prove(st, s), s), x)
  {
    hide Shape, Waiting, Counted, Illness, Ordered, Queue, ForkStatus, ForkTree, ForkOwners, Clocks, Books;
    if s < |st.sources| {
      var src := st.sources[s];
      assert src.(proven := false || src.proven) == src;
      BlameBooks(st.status, st.sources, s, true);
      BlameBooks(st.status, st.sources, s, false);
      BlameOwners(st.fork, st.sources, st.totalForks, s);
      ProveOwners(st.fork, st.sources, st.totalForks, s);
      SourcesKeep(st, x, st.sources[s := BlameSource(src)], st.totalForks);
      SourcesKeep(st, x, st.sources[s := BlameSource(src.(proven := true))], st.totalForks);
      assert Blame(Prove(st, s), s).sources == st.sources[s := BlameSource(src.(proven := true))];
    }
  }

  // ----- stubs -----

  lemma StubIs(status: Statuses, b: BlockId)
    requires b !in status
    ensures forall c, t :: t != Stub ==> (Is(status[b := Stub], c, t) <==> Is(status, c, t))
  {
    IsUpdate(status, b, Stub);
  }

  lemma StubShape(status: Statuses, body: Bodies, n: nat, b: BlockId)
    requires Shape(status, body, n) && b !in status && b.Id? && b.height > 0 && b.src < n
    ensures Shape(status[b := Stub], body, n)
  {}

  lemma StubWaiting(status: Statuses, body: Bodies, rev: map<BlockId, seq<BlockId>>, x: set<BlockId>, b: BlockId)
    requires Waiting(status, body, rev, x) && b !in status
    ensures Waiting(status[b := Stub], body, rev, x)
  {
    StubIs(status, b);
  }

  lemma StubCounted(status: Statuses, body: Bodies, pending: map<BlockId, nat>, x: set<BlockId>, b: BlockId)
    requires Counted(status, body, pending, x) && b !in status
    ensures Counted(status[b := Stub], body, pending, x)
  {
    StubIs(status, b);
    forall c | c in body && Is(status[b := Stub], c, Initialized) && c !in x
      ensures Find(pending, c, 0) == |Undelivered(status[b := Stub], body[c])|
    {
      assert Undelivered(status[b := Stub], body[c]) == Undelivered(status, body[c]);
    }
  }

  lemma StubIllness(status: Statuses, body: Bodies, ills: seq<BlockId>, log: seq<BlockId>,
                    fork: map<BlockId, nat>, x: set<BlockId>, b: BlockId)
    requires Illness(status, body, ills, x) && Ordered(status, body, log) && ForkStatus(status, fork, x) && b !in status
    ensures Illness(status[b := Stub], body, ills, x) && Ordered(status[b := Stub], body, log)
    ensures ForkStatus(status[b := Stub], fork, x)
  {
    StubIs(status, b);
  }

  lemma StubQueue(st: State, x: set<BlockId>, b: BlockId)
    requires Queue(st, x) && b !in st.status
    ensures Queue(st.(status := st.status[b := Stub]), x)
  {
    StubIs(st.status, b);
  }

  lemma StubClocks(status: Statuses, body: Bodies, fork: map<BlockId, nat>, vt: Stamps, x: set<BlockId>, b: BlockId)
    requires Clocks(status, body, fork, vt, x) && b !in status
    ensures Clocks(status[b := Stub], body, fork, vt, x)
  {
    StubIs(status, b);
  }

  lemma StubBooks(status: Statuses, sources: seq<Source>, b: BlockId)
    requires Books(status, sources) && b !in status && b.Id? && b.height > 0 && b.src < |sources|
    ensures Books(status[b := Stub], sources[b.src := Register(sources[b.src], b)])
    ensures b.height in sources[b.src].blocks ==> sources[b.src].blocks[b.height] != b
  {
    var sources' := sources[b.src := Register(sources[b.src], b)];
    forall s | 0 <= s < |sources'| ensures Book(status[b := Stub], sources'[s], s) {
      assert Book(status, sources[s], s);
    }
    assert Book(status, sources[b.src], b.src);
  }

  lemma StubOwners(fork: map<BlockId, nat>, sources: seq<Source>, total: nat, b: BlockId)
    requires ForkOwners(fork, sources, total) && b.Id? && b.src < |sources|
    ensures ForkOwners(fork, sources[b.src := Register(sources[b.src], b)], total)
  {}

  lemma AddStubKeeps(st: State, x: set<BlockId>, b: BlockId)
    requires Inv(st, x) && (b.Root? || (b.height > 0 && b.src < |st.sources|))
    ensures Inv(AddStub(st, b), x)
  {
    hide Shape, Waiting, Counted, Illness, Ordered, ForkStatus, ForkTree, ForkOwners, Clocks, Books;
    if b !in st.status && b.Id? {
      StubShape(st.status, st.body, |st.sources|, b);
      StubWaiting(st.status, st.body, st.revDeps, x, b);
      StubCounted(st.status, st.body, st.pending, x, b);
      StubIllness(st.status, st.body, st.ills, st.log, st.fork, x, b);
      StubQueue(st, x, b);
      StubClocks(st.status, st.body, st.fork, st.vt, x, b);
      StubBooks(st.status, st.sources, b);
      StubOwners(st.fork, st.sources, st.totalForks, b);
    }
  }

  /** Adding stubs only adds unknown blocks and updates sources. */
  ghost predicate Stubbed(st: State, r: State) {
    && r == st.(status := r.status, sources := r.sources)
    && |r.sources| == |st.sources|
    && (forall b :: b in st.status ==> b in r.status && r.status[b] == st.status[b])
    && (forall b :: b in r.status && b !in st.status ==> r.status[b] == Stub)
  }

  lemma AddStubsStubbed(st: State, bs: seq<BlockId>)
    requires AddStubs(st, bs).checks == st.checks == true
    ensures Stubbed(st, AddStubs(st, bs))
    ensures forall b :: b in bs && b.Id? && b.src < |st.sources| ==> b in AddStubs(st, bs).status
    decreases |bs|
  {
    hide AddStub, Stubbed;
    if bs == [] {
      StubbedNothing(st);
    } else {
      var st1 := AddStub(st, bs[0]);
      AddStubsChecks(st1, bs[1..]);
      AddStubStubbed(st, bs[0]);
      AddStubsStubbed(st1, bs[1..]);
      StubbedTrans(st, st1, AddStubs(st, bs));
      assert bs == [bs[0]] + bs[1..];
    }
  }

  lemma StubbedNothing(st: State)
    ensures Stubbed(st, st)
  {}

  lemma AddStubStubbed(st: State, b: BlockId)
    requires AddStub(st, b).checks == st.checks == true
    ensures Stubbed(st, AddStub(st, b)) && (b.Id? && b.src < |st.sources| ==> b in AddStub(st, b).status)
  {
    hide Register;
  }

  lemma StubbedTrans(st: State, r: State, q: State)
    requires Stubbed(st, r) && Stubbed(r, q)
    ensures Stubbed(st, q) && |r.sources| == |st.sources| && forall b :: b in r.status ==> b in q.status
  {}

  lemma AddStubsChecks(st: State, bs: seq<BlockId>)
    ensures AddStubs(st, bs).checks ==> st.checks
    decreases |bs|
  {
    if bs != [] {
      AddStubsChecks(AddStub(st, bs[0]), bs[1..]);
    }
  }

  lemma AddStubsKeep(st: State, x: set<BlockId>, bs: seq<BlockId>)
    requires Inv(st, x) && forall b :: b in bs ==> b.Root? || (b.height > 0 && b.src < |st.sources|)
    ensures Inv(AddStubs(st, bs), x)
    decreases |bs|
  {
    hide Inv;
    if bs != [] {
      AddStubKeeps(st, x, bs[0]);
      AddStubsKeep(AddStub(st, bs[0]), x, bs[1..]);
    }
  }

  lemma InvChecks(st: State, x: set<BlockId>)
    requires Inv(st, x)
    ensures st.checks && Is(st.status, Root, Delivered)
  {}

  // ----- linking a received block to its parents -----

  lemma MergeAllJoins(status: Statuses, vt: Stamps, v: seq<nat>, ps: seq<BlockId>)
    ensures var r := MergeAll(status, vt, v, ps);
            && (forall f: nat :: At(v, f) <= At(r, f))
            && (forall p, f: nat :: p in ps && Is(status, p, Delivered) ==> V(vt, p, f) <= At(r, f))
            && (forall f: nat :: At(r, f) == At(v, f) || exists p :: p in ps && Is(status, p, Delivered) && V(vt, p, f) == At(r, f))
    decreases |ps|
  {
    if ps != [] {
      var p := ps[0];
      var v' := if Is(status, p, Delivered) then Join(v, Find(vt, p, [])) else v;
      MergeAllJoins(status, vt, v', ps[1..]);
      var r := MergeAll(status, vt, v, ps);
      forall f: nat ensures At(r, f) == At(v, f) || exists p :: p in ps && Is(status, p, Delivered) && V(vt, p, f) == At(r, f) {
        if At(r, f) == At(v', f) && At(r, f) != At(v, f) {
          assert V(vt, p, f) == At(r, f);
        }
      }
    }
  }

  /** Only delivered blocks, such as the root, may be listed twice. */
  ghost predicate OnceOpen(status: Statuses, ps: seq<BlockId>) {
    forall i, j :: 0 <= i < j < |ps| && ps[i] == ps[j] ==> Is(status, ps[i], Delivered)
  }

  lemma CountWaitingCounts(status: Statuses, ps: seq<BlockId>)
    requires OnceOpen(status, ps)
    ensures CountWaiting(status, ps) == |set p | p in ps && !Is(status, p, Delivered)|
  {
    if ps != [] {
      CountWaitingCounts(status, ps[1..]);
      var rest := set p | p in ps[1..] && !Is(status, p, Delivered);
      var all := set p | p in ps && !Is(status, p, Delivered);
      if Is(status, ps[0], Delivered) {
        assert all == rest;
      } else {
        assert all == rest + {ps[0]} && ps[0] !in rest;
      }
    }
  }

  lemma AwaitAllAppends(status: Statuses, rev: map<BlockId, seq<BlockId>>, b: BlockId, ps: seq<BlockId>, p: BlockId)
    requires OnceOpen(status, ps)
    ensures var r := AwaitAll(status, rev, b, ps);
            var waits := p in ps && !Is(status, p, Delivered);
            (p in r <==> p in rev || waits) && Find(r, p, []) == Find(rev, p, []) + if waits then [b] else []
    decreases |ps|
  {
    if ps != [] {
      var q := ps[0];
      if Is(status, q, Delivered) {
        AwaitAllAppends(status, rev, b, ps[1..], p);
      } else {
        AwaitAllAppends(status, rev[q := Find(rev, q, []) + [b]], b, ps[1..], p);
        assert p == q ==> p !in ps[1..];
      }
    }
  }

  // ----- initialize -----

  function Fill(st: State, b: BlockId, body: Body): State {
    st.(status := st.status[b := Initialized], body := st.body[b := body])
  }

  lemma FillShape(status: Statuses, bodies: Bodies, n: nat, b: BlockId, body: Body)
    requires Shape(status, bodies, n) && Is(status, b, Stub)
    requires WellFormed(n, b, body) && forall p :: Parent(body, p) ==> p in status
    ensures Shape(status[b := Initialized], bodies[b := body], n)
  {}

  lemma FillIs(status: Statuses, b: BlockId)
    requires Is(status, b, Stub)
    ensures forall c, t :: t != Stub && t != Initialized ==> (Is(status[b := Initialized], c, t) <==> Is(status, c, t))
    ensures forall c :: c != b ==> (Is(status[b := Initialized], c, Initialized) <==> Is(status, c, Initialized))
  {
    IsUpdate(status, b, Initialized);
  }

  lemma FillWaiting(status: Statuses, bodies: Bodies, rev: map<BlockId, seq<BlockId>>, b: BlockId, body: Body)
    requires Waiting(status, bodies, rev, {}) && Is(status, b, Stub)
    ensures Waiting(status[b := Initialized], bodies[b := body], rev, {b})
    ensures forall p :: b !in Find(rev, p, [])
  {
    FillIs(status, b);
  }

  lemma FillCounted(status: Statuses, bodies: Bodies, pending: map<BlockId, nat>, b: BlockId, body: Body)
    requires Counted(status, bodies, pending, {}) && Is(status, b, Stub)
    ensures Counted(status[b := Initialized], bodies[b := body], pending, {b})
  {
    FillIs(status, b);
    var status', bodies' := status[b := Initialized], bodies[b := body];
    forall c | c in bodies' && Is(status', c, Initialized) && c !in {b}
      ensures Find(pending, c, 0) == |Undelivered(status', bodies'[c])|
    {
      assert Undelivered(status', bodies'[c]) == Undelivered(status, bodies[c]);
    }
  }

  lemma FillIllness(status: Statuses, bodies: Bodies, ills: seq<BlockId>, log: seq<BlockId>, b: BlockId, body: Body)
    requires Illness(status, bodies, ills, {}) && Ordered(status, bodies, log) && Is(status, b, Stub)
    ensures Illness(status[b := Initialized], bodies[b := body], ills, {b})
    ensures Ordered(status[b := Initialized], bodies[b := body], log)
  {
    FillIs(status, b);
    assert b !in log;
  }

  lemma FillQueue(st: State, b: BlockId, body: Body)
    requires Queue(st, {}) && Is(st.status, b, Stub) && b !in st.inDb
    ensures Queue(Fill(st, b, body), {b})
  {
    FillIs(st.status, b);
  }

  lemma FillForks(status: Statuses, bodies: Bodies, fork: map<BlockId, nat>, next: map<BlockId, BlockId>,
                     b: BlockId, body: Body)
    requires ForkStatus(status, fork, {}) && ForkTree(bodies, fork, next) && Is(status, b, Stub) && b !in fork
    ensures ForkStatus(status[b := Initialized], fork, {b}) && ForkTree(bodies[b := body], fork, next)
  {
    FillIs(status, b);
  }

  lemma FillClocks(status: Statuses, bodies: Bodies, fork: map<BlockId, nat>, vt: Stamps, b: BlockId, body: Body)
    requires Clocks(status, bodies, fork, vt, {}) && Is(status, b, Stub) && b !in fork
    ensures Clocks(status[b := Initialized], bodies[b := body], fork, vt, {b})
  {
    FillIs(status, b);
  }

  lemma FillBooks(status: Statuses, sources: seq<Source>, b: BlockId)
    requires Books(status, sources) && Is(status, b, Stub)
    ensures Books(status[b := Initialized], sources)
  {
    forall s | 0 <= s < |sources| ensures Book(status[b := Initialized], sources[s], s) {
      assert Book(status, sources[s], s);
    }
  }

  lemma StubUntouched(st: State, b: BlockId)
    requires Inv(st, {}) && Is(st.status, b, Stub)
    ensures b !in st.body && b !in st.inDb && b !in st.fork && b !in st.vt && b !in st.pending && Touched(st)
  {}

  lemma FillKeeps(st: State, b: BlockId, body: Body)
    requires Inv(st, {}) && Is(st.status, b, Stub)
    requires WellFormed(|st.sources|, b, body) && forall p :: Parent(body, p) ==> p in st.status
    ensures Inv(Fill(st, b, body), {b})
  {
    StubUntouched(st, b);
    hide Shape, Waiting, Counted, Illness, Ordered, Queue, ForkStatus, ForkTree, ForkOwners, Clocks, Books;
    FillShape(st.status, st.body, |st.sources|, b, body);
    FillWaiting(st.status, st.body, st.revDeps, b, body);
    FillCounted(st.status, st.body, st.pending, b, body);
    FillIllness(st.status, st.body, st.ills, st.log, b, body);
    FillQueue(st, b, body);
    FillForks(st.status, st.body, st.fork, st.next, b, body);
    FillClocks(st.status, st.body, st.fork, st.vt, b, body);
    FillBooks(st.status, st.sources, b);
  }

  function ParentsOf(body: Body): seq<BlockId> {
    [body.prev] + body.deps
  }

  lemma DistinctParents(n: nat, b: BlockId, body: Body)
    requires WellFormed(n, b, body)
    ensures b !in ParentsOf(body) && forall p :: p in ParentsOf(body) <==> Parent(body, p)
    ensures forall status: Statuses :: Is(status, Root, Delivered) ==> OnceOpen(status, ParentsOf(body))
  {
    var ps := ParentsOf(body);
    assert forall i :: 0 < i < |ps| ==> ps[i] == body.deps[i - 1];
    assert forall i, j :: 0 <= i < j < |ps| && ps[i] == ps[j] ==> ps[i] == Root;
  }

  lemma LinkWaiting(status: Statuses, bodies: Bodies, rev: map<BlockId, seq<BlockId>>, n: nat, b: BlockId)
    requires Waiting(status, bodies, rev, {b}) && b in bodies && Is(status, b, Initialized)
    requires WellFormed(n, b, bodies[b]) && Is(status, Root, Delivered) && forall p :: b !in Find(rev, p, [])
    ensures Waiting(status, bodies, AwaitAll(status, rev, b, ParentsOf(bodies[b])), {})
    ensures AwaitAll(status, rev, b, ParentsOf(bodies[b])).Keys <= rev.Keys + set p | p in ParentsOf(bodies[b])
  {
    hide Waiting, WellFormed, AwaitAll;
    var ps := ParentsOf(bodies[b]);
    var r := AwaitAll(status, rev, b, ps);
    DistinctParents(n, b, bodies[b]);
    forall p
      ensures p in r <==> p in rev || (p in ps && !Is(status, p, Delivered))
      ensures Find(r, p, []) == Find(rev, p, []) + if p in ps && !Is(status, p, Delivered) then [b] else []
    {
      AwaitAllAppends(status, rev, b, ps, p);
    }
    AppendedWaiting(status, bodies, rev, r, b);
  }

  /** Block `b` is appended to the list of every parent that is not delivered. */
  lemma AppendedWaiting(status: Statuses, bodies: Bodies, rev: map<BlockId, seq<BlockId>>,
                        r: map<BlockId, seq<BlockId>>, b: BlockId)
    requires Waiting(status, bodies, rev, {b}) && b in bodies && Is(status, b, Initialized)
    requires forall p :: b !in Find(rev, p, [])
    requires forall p :: p in r <==> p in rev || (Parent(bodies[b], p) && !Is(status, p, Delivered))
    requires forall p :: Find(r, p, []) ==
                         Find(rev, p, []) + if Parent(bodies[b], p) && !Is(status, p, Delivered) then [b] else []
    ensures Waiting(status, bodies, r, {})
  {
    forall p | p in r ensures NoDup(r[p]) && (Is(status, p, Delivered) ==> r[p] == []) {
      assert r[p] == Find(r, p, []);
      assert b !in Find(rev, p, []);
    }
    forall p, c | p in r && c in r[p] ensures c in bodies && Open(status, c) && Parent(bodies[c], p) {
      assert r[p] == Find(r, p, []);
      assert c in Find(rev, p, []) || c == b;
    }
    forall p, c | c in bodies && Is(status, c, Initialized) && Parent(bodies[c], p) && !Is(status, p, Delivered)
      ensures p in r && c in r[p]
    {
      assert r[p] == Find(r, p, []);
    }
  }

  lemma LinkCounted(status: Statuses, bodies: Bodies, pending: map<BlockId, nat>, n: nat, b: BlockId)
    requires Counted(status, bodies, pending, {b}) && b in bodies && WellFormed(n, b, bodies[b]) && Is(status, Root, Delivered)
    ensures Counted(status, bodies, pending[b := CountWaiting(status, ParentsOf(bodies[b]))], {})
  {
    var ps := ParentsOf(bodies[b]);
    DistinctParents(n, b, bodies[b]);
    CountWaitingCounts(status, ps);
    assert Undelivered(status, bodies[b]) == set p | p in ps && !Is(status, p, Delivered);
  }

  lemma LinkClocks(status: Statuses, bodies: Bodies, fork: map<BlockId, nat>, vt: Stamps, n: nat, b: BlockId)
    requires Clocks(status, bodies, fork, vt, {b}) && b in bodies && Is(status, b, Initialized)
    requires WellFormed(n, b, bodies[b]) && Closed(status, bodies)
    ensures Clocks(status, bodies, fork, vt[b := MergeAll(status, vt, [], ParentsOf(bodies[b]))], {})
  {
    hide Clocks, Joined, MergeAll, V;
    var v := MergeAll(status, vt, [], ParentsOf(bodies[b]));
    ClocksElsewhere(status, bodies, fork, vt, {b}, b, v);
    LinkJoined(status, vt, n, b, bodies[b]);
    ClocksDone(status, bodies, fork, vt[b := v], b);
  }

  lemma ClocksDone(status: Statuses, bodies: Bodies, fork: map<BlockId, nat>, vt: Stamps, b: BlockId)
    requires Clocks(status, bodies, fork, vt, {b} + {b}) && b in bodies && Joined(status, bodies[b], vt, b)
    ensures Clocks(status, bodies, fork, vt, {})
  {
    hide Joined, Stamped, Seen;
  }

  /** Merging the delivered parents joins them. */
  lemma LinkJoined(status: Statuses, vt: Stamps, n: nat, b: BlockId, body: Body)
    requires WellFormed(n, b, body)
    ensures Joined(status, body, vt[b := MergeAll(status, vt, [], ParentsOf(body))], b)
  {
    hide MergeAll;
    var ps := ParentsOf(body);
    var v := MergeAll(status, vt, [], ps);
    var vt' := vt[b := v];
    DistinctParents(n, b, body);
    MergeAllJoins(status, vt, [], ps);
    VUpdate(vt, b, v);
    hide V;
    forall f: nat | V(vt', b, f) > 0
      ensures exists p :: Parent(body, p) && Is(status, p, Delivered) && V(vt', p, f) == V(vt', b, f)
    {
      var p :| p in ps && Is(status, p, Delivered) && V(vt, p, f) == At(v, f);
      assert Parent(body, p) && V(vt', p, f) == V(vt', b, f);
    }
  }

  lemma LinkQueue(st: State, b: BlockId, ps: seq<BlockId>)
    requires Queue(st, {b}) && b !in st.inDb
    ensures Queue(LinkAll(st, b, ps), {})
  {}

  lemma LinkIllness(status: Statuses, bodies: Bodies, ills: seq<BlockId>, fork: map<BlockId, nat>, b: BlockId)
    requires Illness(status, bodies, ills, {b}) && ForkStatus(status, fork, {b}) && b in bodies && b !in fork
    requires forall p :: Parent(bodies[b], p) ==> !Is(status, p, Ill)
    ensures Illness(status, bodies, ills, {}) && ForkStatus(status, fork, {})
  {}

  lemma LinkKeeps(st: State, b: BlockId)
    requires Inv(st, {b}) && b in st.body && Is(st.status, b, Initialized)
    requires b !in st.vt && b !in st.inDb && b !in st.fork && forall p :: b !in Find(st.revDeps, p, [])
    requires forall p :: Parent(st.body[b], p) ==> !Is(st.status, p, Ill)
    ensures Inv(LinkAll(st, b, ParentsOf(st.body[b])), {})
  {
    BodyFacts(st, {b}, b);
    hide Shape, Waiting, Counted, Illness, Ordered, Queue, ForkStatus, ForkTree, ForkOwners, Clocks, Books;
    var ps := ParentsOf(st.body[b]);
    DistinctParents(|st.sources|, b, st.body[b]);
    LinkWaiting(st.status, st.body, st.revDeps, |st.sources|, b);
    LinkCounted(st.status, st.body, st.pending, |st.sources|, b);
    LinkClocks(st.status, st.body, st.fork, st.vt, |st.sources|, b);
    LinkIllness(st.status, st.body, st.ills, st.fork, b);
    LinkQueue(st, b, ps);
  }

  lemma BodyFacts(st: State, x: set<BlockId>, b: BlockId)
    requires Inv(st, x) && b in st.body
    ensures WellFormed(|st.sources|, b, st.body[b]) && Closed(st.status, st.body)
    ensures forall p :: Parent(st.body[b], p) ==> p in st.status
  {}

  function BodyIn(m: Msg): Body {
    Body(m.prev.id, Ids(m.deps))
  }

  lemma ValidBody(st: State, m: Msg)
    requires Validate(st, m)
    ensures WellFormed(|st.sources|, m.id, BodyIn(m))
    ensures forall p :: p in ParentsOf(BodyIn(m)) ==> p.Root? || (p.height > 0 && p.src < |st.sources|)
  {
    var body := BodyIn(m);
    forall i | 0 <= i < |body.deps| && body.deps[i].Id?
      ensures body.deps[i].height > 0 && body.deps[i].src < |st.sources| && body.deps[i].src != m.id.src
    {
      assert ValidRef(st, m.deps[i]);
    }
  }

  lemma ReceivedKeeps(st: State, x: set<BlockId>, b: BlockId)
    requires Inv(st, x) && b.Id?
    ensures Inv(BlockReceived(st, b), x)
    ensures BlockReceived(st, b) == st.(sources := BlockReceived(st, b).sources)
  {
    hide Shape, Waiting, Counted, Illness, Ordered, Queue, ForkStatus, ForkTree, ForkOwners, Clocks, Books;
    if b.src < |st.sources| && !st.sources[b.src].blamed {
      var src := BlockReceived(st, b).sources[b.src];
      ReceivedSources(st, b.src, src.received);
      SourcesKeep(st, x, st.sources[b.src := st.sources[b.src].(received := src.received)], st.totalForks);
    }
  }

  lemma ReceivedSources(st: State, s: nat, h: nat)
    requires s < |st.sources| && ForkOwners(st.fork, st.sources, st.totalForks) && Books(st.status, st.sources)
    ensures var sources := st.sources[s := st.sources[s].(received := h)];
            ForkOwners(st.fork, sources, st.totalForks) && Books(st.status, sources)
  {
    var sources := st.sources[s := st.sources[s].(received := h)];
    forall t | 0 <= t < |sources| ensures Book(st.status, sources[t], t) {
      assert Book(st.status, st.sources[t], t);
    }
  }

  lemma NotWaiting(st: State, b: BlockId)
    requires Inv(st, {}) && Is(st.status, b, Stub)
    ensures forall p :: b !in Find(st.revDeps, p, [])
  {}

  /** A message that validation let through, for a block that was only referenced so far. */
  ghost predicate Fits(st: State, m: Msg) {
    && Is(st.status, m.id, Stub) && m.id.Id?
    && WellFormed(|st.sources|, m.id, BodyIn(m))
    && forall p :: p in ParentsOf(BodyIn(m)) ==> p.Root? || (p.height > 0 && p.src < |st.sources|)
  }

  /** The state in which `initialize` starts to look at the parents. */
  function Filled(st: State, m: Msg): State {
    Fill(AddStubs(st, [m.prev.id] + Ids(m.deps)), m.id, BodyIn(m))
  }

  lemma FilledStubs(st: State, m: Msg)
    requires Inv(st, {}) && Fits(st, m)
    ensures var st1 := AddStubs(st, [m.prev.id] + Ids(m.deps));
            Inv(st1, {}) && Stubbed(st, st1) && Is(st1.status, m.id, Stub)
    ensures var st1 := AddStubs(st, [m.prev.id] + Ids(m.deps));
            forall p :: Parent(BodyIn(m), p) ==> p in st1.status
  {
    hide Inv;
    var ps := ParentsOf(BodyIn(m));
    assert ps == [m.prev.id] + Ids(m.deps);
    AddStubsKeep(st, {}, ps);
    InvChecks(st, {});
    InvChecks(AddStubs(st, ps), {});
    AddStubsStubbed(st, ps);
    DistinctParents(|st.sources|, m.id, BodyIn(m));
  }

  lemma FilledKeeps(st: State, m: Msg)
    requires Inv(st, {}) && Fits(st, m)
    ensures var b, st2 := m.id, Filled(st, m);
            && Inv(st2, {b}) && Is(st2.status, b, Initialized) && |st2.sources| == |st.sources|
            && st2.body == st.body[b := BodyIn(m)] && st2.inDb == st.inDb
            && b !in st2.vt && b !in st2.inDb && b !in st2.fork && forall p :: b !in Find(st2.revDeps, p, [])
  {
    hide Inv, Stubbed;
    FilledStubs(st, m);
    var st1 := AddStubs(st, [m.prev.id] + Ids(m.deps));
    StubbedSame(st, st1);
    StubUntouched(st1, m.id);
    NotWaiting(st1, m.id);
    FillKeeps(st1, m.id, BodyIn(m));
  }

  lemma StubbedSame(st: State, r: State)
    requires Stubbed(st, r)
    ensures r == st.(status := r.status, sources := r.sources) && |r.sources| == |st.sources|
  {}

  lemma InitializeCases(st: State, m: Msg)
    requires Inv(st, {}) && Fits(st, m)
    ensures var b, ps, st2 := m.id, ParentsOf(BodyIn(m)), Filled(st, m);
            Initialize(st, m) == if AnyIll(st2, ps) then SetIll(st2, b) else BlockReceived(LinkAll(st2, b, ps), b)
  {
    hide Inv, SetIll, BlockReceived, AnyIll;
    FilledKeeps(st, m);
    assert ParentsOf(BodyIn(m)) == [m.prev.id] + Ids(m.deps);
  }

  lemma InitializeKeeps(st: State, m: Msg)
    requires Inv(st, {}) && Fits(st, m)
    ensures Inv(Initialize(st, m), {})
  {
    hide Inv, Initialize, Filled, SetIll, BlockReceived, Fits;
    var b, ps, st2 := m.id, ParentsOf(BodyIn(m)), Filled(st, m);
    FilledKeeps(st, m);
    InitializeCases(st, m);
    if AnyIll(st2, ps) {
      assert {} + {b} == {b};
      SetIllKeeps(st2, {}, b);
    } else {
      FitsParents(st, m);
      LinkKeeps(st2, b);
      ReceivedKeeps(LinkAll(st2, b, ps), {}, b);
    }
  }

  lemma FitsParents(st: State, m: Msg)
    requires Fits(st, m)
    ensures m.id.Id? && forall p :: Parent(BodyIn(m), p) <==> p in ParentsOf(BodyIn(m))
  {
    DistinctParents(|st.sources|, m.id, BodyIn(m));
  }

  lemma ScheduleQueue(st: State, x: set<BlockId>, b: BlockId)
    requires Queue(st, x + {b}) && b in st.inDb && b !in st.pushed && PendingOf(st, b) == 0
    ensures Queue(Schedule(st, b), x)
  {
    hide NoDup;
    NoDupSnoc(st.pushed, b);
    var r := Schedule(st, b);
    assert r.toRun == r.pushed[|r.pushed| - |r.toRun|..];
    assert forall c :: c in r.toRun <==> c in st.toRun || c == b;
    assert forall c :: c in r.pushed <==> c in st.pushed || c == b;
  }

  lemma NoDupSnoc(s: seq<BlockId>, b: BlockId)
    requires NoDup(s) && b !in s
    ensures NoDup(s + [b])
  {}

  lemma WrittenQueue(st: State, b: BlockId)
    requires Queue(st, {}) && b !in st.inDb
    ensures Queue(Written(st, b), {})
  {
    hide NoDup;
    var st1 := st.(inDb := st.inDb + {b});
    assert Queue(st1, {} + {b});
    if PendingOf(st, b) == 0 {
      ScheduleQueue(st1, {}, b);
    }
  }

  lemma WrittenKeeps(st: State, b: BlockId)
    requires Inv(st, {}) && b in st.body && b !in st.inDb
    ensures Inv(Written(st, b), {})
  {
    hide Shape, Waiting, Counted, Illness, Ordered, Queue, ForkStatus, ForkTree, ForkOwners, Clocks, Books;
    WrittenQueue(st, b);
  }

  lemma AddStubFits(st: State, m: Msg)
    requires Inv(st, {}) && Validate(st, m) && (m.id in st.status ==> st.status[m.id] == Stub)
    ensures Inv(AddStub(st, m.id), {}) && Fits(AddStub(st, m.id), m) && Stubbed(st, AddStub(st, m.id))
  {
    hide Inv;
    ValidBody(st, m);
    AddStubKeeps(st, {}, m.id);
    InvChecks(st, {});
    InvChecks(AddStub(st, m.id), {});
  }
}
