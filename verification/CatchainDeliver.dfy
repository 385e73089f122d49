/** Running a block - fork assignment, pre-delivery checks, delivery - keeps the receiver invariant. */
module CatchainDeliver {
  import opened CatchainReceiver
  import opened CatchainInvariant
  import opened CatchainCreate

  type Forkmap = map<BlockId, nat>

  // ----- fork assignment -----

  lemma NewForkTree(body: Bodies, fork: Forkmap, next: map<BlockId, BlockId>, b: BlockId, f: nat)
    requires ForkTree(body, fork, next) && b in body && b !in fork && f > 0
    requires forall a :: a in fork ==> fork[a] != f
    ensures ForkTree(body, fork[b := f], next)
  {}

  lemma ExtendForkTree(body: Bodies, fork: Forkmap, next: map<BlockId, BlockId>, b: BlockId)
    requires ForkTree(body, fork, next) && b in body && b !in fork && b !in next
    requires body[b].prev in fork && body[b].prev !in next && body[b].prev.Height() + 1 == b.Height()
    requires b.Id? && body[b].prev.Id? && body[b].prev.src == b.src
    ensures ForkTree(body, fork[b := fork[body[b].prev]], next[body[b].prev := b])
  {
    var prev := body[b].prev;
    var fork', next' := fork[b := fork[prev]], next[prev := b];
    forall c, d | c in fork' && d in fork' && fork'[c] == fork'[d]
      ensures c.Height() == d.Height() ==> c == d
      ensures c.Height() < d.Height() ==> body[d].prev in fork' && fork'[body[d].prev] == fork'[d]
      ensures c !in next' ==> d.Height() <= c.Height()
    {
      if c == b || d == b {
        assert c != b ==> c.Height() <= prev.Height() && (c !in next ==> prev.Height() <= c.Height());
        assert d != b ==> d.Height() <= prev.Height();
      }
    }
  }

  lemma NewForkOwners(fork: Forkmap, sources: seq<Source>, total: nat, b: BlockId)
    requires ForkOwners(fork, sources, total) && b.Id? && b.src < |sources| && b !in fork
    requires b.height == 1 || Began(fork, b.src)
    ensures ForkOwners(fork[b := total + 1], sources[b.src := AddFork(sources[b.src], total + 1)], total + 1)
    ensures forall a :: a in fork ==> fork[a] != total + 1
  {
    var src, f := sources[b.src], total + 1;
    var sources' := sources[b.src := AddFork(src, f)];
    forall s ensures 0 <= s < |sources| ==> forall g :: g in sources'[s].forks <==> g in sources[s].forks || (s == b.src && g == f) {}
    BeganStays(fork, b, f);
  }

  lemma BeganStays(fork: Forkmap, b: BlockId, f: nat)
    requires b !in fork && b.Id?
    ensures forall s: nat :: Began(fork, s) || (s == b.src && b.height == 1) ==> Began(fork[b := f], s)
  {
    forall s: nat | Began(fork, s) || (s == b.src && b.height == 1) ensures Began(fork[b := f], s) {
      if Began(fork, s) {
        var a :| a in fork && a.Id? && a.src == s && a.height == 1;
        assert a in fork[b := f];
      } else {
        assert b in fork[b := f];
      }
    }
  }

  lemma ExtendForkOwners(fork: Forkmap, sources: seq<Source>, total: nat, b: BlockId, prev: BlockId)
    requires ForkOwners(fork, sources, total) && prev in fork && prev.Id? && b.Id? && b.src == prev.src && b !in fork
    ensures ForkOwners(fork[b := fork[prev]], sources, total)
  {
    BeganStays(fork, b, fork[prev]);
  }

  lemma NewForkBooks(status: Statuses, sources: seq<Source>, s: nat, f: nat)
    requires Books(status, sources) && s < |sources|
    ensures Books(status, sources[s := AddFork(sources[s], f)])
  {
    var sources' := sources[s := AddFork(sources[s], f)];
    forall t | 0 <= t < |sources'| ensures Book(status, sources'[t], t) {
      assert Book(status, sources[t], t);
    }
  }

  /** The check that a block is newer than everything it knows of its fork never fails. */
  lemma NewerThanKnown(st: State, b: BlockId)
    requires b in st.body && b.Id? && b.height > 0 && Joined(st.status, st.body[b], st.vt, b)
    requires Clocks(st.status, st.body, st.fork, st.vt, {b}) && ForkTree(st.body, st.fork, st.next)
    requires ForkOwners(st.fork, st.sources, st.totalForks)
    requires StartsFork(st, b) || (st.body[b].prev in st.fork && st.body[b].prev.Height() + 1 == b.height)
    ensures At(VtOf(st, b), NewForkOf(st, b)) < b.height
  {
    var f := NewForkOf(st, b);
    if V(st.vt, b, f) > 0 {
      var p :| Parent(st.body[b], p) && Is(st.status, p, Delivered) && V(st.vt, p, f) == V(st.vt, b, f);
      assert Seen(st.status, st.fork, f, V(st.vt, p, f));
      var a :| a in st.fork && Is(st.status, a, Delivered) && st.fork[a] == f && a.Height() == V(st.vt, p, f);
    }
  }

  /** A block that reached the front of the queue. */
  ghost predicate Ready(st: State, b: BlockId) {
    && b.Id? && b in st.body && Is(st.status, b, Initialized) && b in st.inDb && PendingOf(st, b) == 0
    && b !in st.fork && b !in st.next
    && WellFormed(|st.sources|, b, st.body[b])
    && (forall p :: Parent(st.body[b], p) ==> Is(st.status, p, Delivered))
    && Joined(st.status, st.body[b], st.vt, b)
  }

  lemma PopKeeps(st: State)
    requires Inv(st, {}) && st.toRun != []
    ensures Inv(st.(toRun := st.toRun[1..]), {st.toRun[0]})
    ensures Is(st.status, st.toRun[0], Initialized) ==> Ready(st, st.toRun[0])
  {
    var b := st.toRun[0];
    PopQueue(st);
    if Is(st.status, b, Initialized) {
      assert b in st.pushed by { assert b == st.pushed[|st.pushed| - |st.toRun|]; }
      assert Undelivered(st.status, st.body[b]) == {};
      forall p | Parent(st.body[b], p) ensures Is(st.status, p, Delivered) {
        assert p !in Undelivered(st.status, st.body[b]);
      }
    }
    Weaken(st, {}, {b});
    hide Shape, Waiting, Counted, Illness, Ordered, Queue, ForkStatus, ForkTree, ForkOwners, Clocks, Books;
  }

  lemma PopQueue(st: State)
    requires Queue(st, {}) && st.toRun != []
    ensures Queue(st.(toRun := st.toRun[1..]), {st.toRun[0]})
  {
    var q := st.(toRun := st.toRun[1..]);
    assert st.toRun == [st.toRun[0]] + q.toRun;
    assert q.toRun == st.pushed[|st.pushed| - |q.toRun|..];
    hide NoDup;
  }

  /** What a block carries between fork assignment and delivery. */
  ghost predicate Placed(st: State, b: BlockId) {
    && b.Id? && b in st.body && Is(st.status, b, Initialized) && b in st.inDb && PendingOf(st, b) == 0
    && b in st.fork
    && WellFormed(|st.sources|, b, st.body[b])
    && (forall p :: Parent(st.body[b], p) ==> Is(st.status, p, Delivered))
    && Stamped(st.body[b], st.fork[b], st.vt, b)
    && (forall g: nat :: g != st.fork[b] && V(st.vt, b, g) > 0 ==> Seen(st.status, st.fork, g, V(st.vt, b, g)))
  }

  lemma StampReady(st: State, b: BlockId, f: nat)
    requires Ready(st, b) && At(VtOf(st, b), f) < b.height
    ensures Stamped(st.body[b], f, st.vt[b := Stamp(VtOf(st, b), f, b.height)], b)
  {
    var vt' := st.vt[b := Stamp(VtOf(st, b), f, b.height)];
    VUpdate(st.vt, b, Stamp(VtOf(st, b), f, b.height));
    DistinctParents(|st.sources|, b, st.body[b]);
    assert forall p :: Parent(st.body[b], p) ==> p != b;
    forall g: nat ensures V(vt', b, g) == if g == f then b.height else V(st.vt, b, g) {
      assert V(st.vt, b, g) == At(VtOf(st, b), g);
    }
    forall p, g: nat | Parent(st.body[b], p)
      ensures V(vt', p, g) <= V(vt', b, g) && (g == f ==> V(vt', p, g) < b.height)
    {
      assert V(vt', p, g) == V(st.vt, p, g) && Is(st.status, p, Delivered);
      assert V(st.vt, p, g) <= V(st.vt, b, g);
    }
    forall g: nat | g != f && V(vt', b, g) > 0 ensures exists p :: Parent(st.body[b], p) && V(vt', p, g) == V(vt', b, g) {
      var p :| Parent(st.body[b], p) && Is(st.status, p, Delivered) && V(st.vt, p, g) == V(st.vt, b, g);
      assert V(vt', p, g) == V(vt', b, g);
    }
  }

  lemma SeenStays(status: Statuses, fork: Forkmap, b: BlockId, f: nat)
    requires b !in fork
    ensures forall g, h :: Seen(status, fork, g, h) ==> Seen(status, fork[b := f], g, h)
  {
    forall g, h | Seen(status, fork, g, h) ensures Seen(status, fork[b := f], g, h) {
      var a :| a in fork && Is(status, a, Delivered) && fork[a] == g && a.Height() == h;
      assert a in fork[b := f] && fork[b := f][a] == g;
    }
  }

  lemma ForkClocks(status: Statuses, body: Bodies, fork: Forkmap, vt: Stamps, b: BlockId, f: nat, v: seq<nat>)
    requires Clocks(status, body, fork, vt, {b}) && Closed(status, body) && b != Root
    requires !Is(status, b, Delivered) && b !in fork
    ensures Clocks(status, body, fork[b := f], vt[b := v], {b})
  {
    ClocksElsewhere(status, body, fork, vt, {b}, b, v);
    SeenStays(status, fork, b, f);
  }

  lemma QueueSame(st: State, r: State, x: set<BlockId>)
    requires Queue(st, x)
    requires r.status == st.status && r.pending == st.pending && r.inDb == st.inDb
    requires r.toRun == st.toRun && r.pushed == st.pushed
    ensures Queue(r, x)
  {
    hide NoDup;
  }

  /** Fork assignment, given what it does to the fork tables. */
  lemma PlaceKeeps(st: State, b: BlockId, f: nat, r: State)
    requires Inv(st, {b}) && Ready(st, b) && r.checks && f == NewForkOf(st, b) && At(VtOf(st, b), f) < b.height
    requires r == st.(fork := st.fork[b := f], vt := st.vt[b := Stamp(VtOf(st, b), f, b.height)],
                      next := r.next, sources := r.sources, totalForks := r.totalForks)
    requires r.next.Keys <= r.fork.Keys && |r.sources| == |st.sources|
    requires ForkTree(st.body, r.fork, r.next) && ForkOwners(r.fork, r.sources, r.totalForks) && Books(st.status, r.sources)
    ensures Inv(r, {b}) && Placed(r, b)
  {
    hide Shape, Waiting, Counted, Illness, Ordered, Queue, ForkStatus, ForkTree, ForkOwners, Clocks, Books, Stamped, Seen, Joined, WellFormed, V, At;
    BodyFacts(st, {b}, b);
    StampReady(st, b, f);
    ForkClocks(st.status, st.body, st.fork, st.vt, b, f, Stamp(VtOf(st, b), f, b.height));
    PlacedForkStatus(st.status, st.fork, b, f);
    PlacedSeen(st, b, f);
    QueueSame(st, r, {b});
  }

  lemma InitializeForkKeeps(st: State, b: BlockId)
    requires Inv(st, {b}) && Ready(st, b)
    ensures Inv(InitializeFork(st, b), {b}) && Placed(InitializeFork(st, b), b)
  {
    hide Shape, Waiting, Counted, Illness, Ordered, Queue, ForkStatus, ForkTree, ForkOwners, Clocks, Books, Joined, WellFormed, V, At;
    PrevPlaced(st, b);
    var f := NewForkOf(st, b);
    NewerThanKnown(st, b);
    if StartsFork(st, b) {
      if b.height > 1 {
        PlacedBegan(st.fork, st.sources, st.totalForks, st.body[b].prev);
      }
      NewForkOwners(st.fork, st.sources, st.totalForks, b);
      NewForkTree(st.body, st.fork, st.next, b, f);
      NewForkBooks(st.status, st.sources, b.src, f);
    } else {
      ExtendForkTree(st.body, st.fork, st.next, b);
      ExtendForkOwners(st.fork, st.sources, st.totalForks, b, st.body[b].prev);
    }
    NewForkBlames(st, b);
    PlaceKeeps(st, b, f, InitializeFork(st, b));
  }

  lemma PlacedBegan(fork: Forkmap, sources: seq<Source>, total: nat, p: BlockId)
    requires ForkOwners(fork, sources, total) && p in fork
    ensures p.Id? && Began(fork, p.src)
  {
    assert fork[p] in sources[p.src].forks;
  }

  lemma NewForkBlames(st: State, b: BlockId)
    requires b.Id? && b.src < |st.sources|
    ensures var src := AddFork(st.sources[b.src], st.totalForks + 1); |src.forks| > 1 ==> src.blamed
  {}

  lemma PrevPlaced(st: State, b: BlockId)
    requires Inv(st, {b}) && Ready(st, b)
    ensures b.src < |st.sources|
    ensures b.height > 1 ==> st.body[b].prev in st.fork && st.body[b].prev.Id? && st.body[b].prev.src == b.src &&
                             st.body[b].prev.height + 1 == b.height
    ensures b.height > 0
  {}

  lemma PlacedForkStatus(status: Statuses, fork: Forkmap, b: BlockId, f: nat)
    requires ForkStatus(status, fork, {b})
    ensures ForkStatus(status, fork[b := f], {b})
  {}

  lemma PlacedSeen(st: State, b: BlockId, f: nat)
    requires Ready(st, b) && Clocks(st.status, st.body, st.fork, st.vt, {b})
    ensures var fork', vt' := st.fork[b := f], st.vt[b := Stamp(VtOf(st, b), f, b.height)];
            forall g: nat :: g != f && V(vt', b, g) > 0 ==> Seen(st.status, fork', g, V(vt', b, g))
  {
    var fork', vt' := st.fork[b := f], st.vt[b := Stamp(VtOf(st, b), f, b.height)];
    SeenStays(st.status, st.fork, b, f);
    VUpdate(st.vt, b, Stamp(VtOf(st, b), f, b.height));
    forall g: nat | g != f && V(vt', b, g) > 0 ensures Seen(st.status, fork', g, V(vt', b, g)) {
      assert V(vt', b, g) == V(st.vt, b, g);
      var p :| Parent(st.body[b], p) && Is(st.status, p, Delivered) && V(st.vt, p, g) == V(st.vt, b, g);
    }
  }

  // ----- delivery -----

  lemma MergeIntoAt(status: Statuses, vt: Stamps, v: seq<nat>, bs: seq<BlockId>, c: BlockId)
    requires NoDup(bs)
    ensures var r := MergeInto(status, vt, v, bs);
            var hit := c in bs && !Is(status, c, Ill);
            (c in r <==> c in vt || hit) && Find(r, c, []) == if hit then Join(Find(vt, c, []), v) else Find(vt, c, [])
    decreases |bs|
  {
    if bs != [] {
      var d := bs[0];
      MergeIntoAt(status, if Is(status, d, Ill) then vt else vt[d := Join(Find(vt, d, []), v)], v, bs[1..], c);
      assert c == d ==> c !in bs[1..];
    }
  }

  lemma DecrementAllAt(status: Statuses, pending: map<BlockId, nat>, bs: seq<BlockId>, c: BlockId)
    requires NoDup(bs)
    ensures var r := DecrementAll(status, pending, bs);
            var hit := c in bs && !Is(status, c, Ill);
            (c in r <==> c in pending || hit) &&
            Find(r, c, 0) == if hit then Decrement(Find(pending, c, 0)) else Find(pending, c, 0)
    decreases |bs|
  {
    if bs != [] {
      var d := bs[0];
      DecrementAllAt(status, if Is(status, d, Ill) then pending else pending[d := Decrement(Find(pending, d, 0))], bs[1..], c);
      assert c == d ==> c !in bs[1..];
    }
  }

  lemma WokenAt(status: Statuses, pending: map<BlockId, nat>, inDb: set<BlockId>, bs: seq<BlockId>)
    requires NoDup(bs)
    ensures var w := Woken(status, pending, inDb, bs);
            && NoDup(w)
            && (forall c :: c in w <==>
                  c in bs && !Is(status, c, Ill) && Decrement(Find(pending, c, 0)) == 0 && c in inDb)
    decreases |bs|
  {
    if bs != [] {
      var d := bs[0];
      assert d !in bs[1..] && forall c :: c in bs <==> c == d || c in bs[1..];
      if Is(status, d, Ill) {
        WokenAt(status, pending, inDb, bs[1..]);
      } else {
        WokenAt(status, pending[d := Decrement(Find(pending, d, 0))], inDb, bs[1..]);
      }
    }
  }

  type Revmap = map<BlockId, seq<BlockId>>

  lemma ReleaseShape(status: Statuses, body: Bodies, n: nat, b: BlockId)
    requires Shape(status, body, n) && Is(status, b, Initialized)
    ensures Shape(status[b := Delivered], body, n)
  {}

  lemma ReleaseWaiting(status: Statuses, body: Bodies, rev: Revmap, b: BlockId)
    requires Waiting(status, body, rev, {b}) && Is(status, b, Initialized) && b in body
    requires forall p :: Parent(body[b], p) ==> Is(status, p, Delivered)
    ensures Waiting(status[b := Delivered], body, rev[b := []], {})
  {
    IsUpdate(status, b, Delivered);
    var status', rev' := status[b := Delivered], rev[b := []];
    forall p, c | p in rev' && c in rev'[p] ensures c in body && Open(status', c) && Parent(body[c], p) {
      assert c in rev[p];
    }
  }

  /** The waiting list of a block is exactly its initialized children, and its ill ones. */
  lemma WaitersOf(status: Statuses, body: Bodies, rev: Revmap, b: BlockId, c: BlockId)
    requires Waiting(status, body, rev, {b}) && Is(status, b, Initialized) && c != b
    requires c in body && Is(status, c, Initialized)
    ensures Parent(body[c], b) <==> c in Find(rev, b, [])
  {}

  lemma ReleaseCounted(status: Statuses, body: Bodies, rev: Revmap, pending: map<BlockId, nat>, b: BlockId)
    requires Waiting(status, body, rev, {b}) && Counted(status, body, pending, {b}) && Is(status, b, Initialized)
    requires NoDup(Find(rev, b, []))
    ensures Counted(status[b := Delivered], body, DecrementAll(status[b := Delivered], pending, Find(rev, b, [])), {})
  {
    IsUpdate(status, b, Delivered);
    var status', bs := status[b := Delivered], Find(rev, b, []);
    var pending' := DecrementAll(status', pending, bs);
    forall c | c in body && Is(status', c, Initialized) && c !in {}
      ensures Find(pending', c, 0) == |Undelivered(status', body[c])|
    {
      DecrementAllAt(status', pending, bs, c);
      WaitersOf(status, body, rev, b, c);
      var u, u' := Undelivered(status, body[c]), Undelivered(status', body[c]);
      if Parent(body[c], b) {
        assert b in u && u' == u - {b};
      } else {
        assert u' == u;
      }
    }
  }

  lemma ReleaseIllness(status: Statuses, body: Bodies, ills: seq<BlockId>, b: BlockId)
    requires Illness(status, body, ills, {b}) && Is(status, b, Initialized) && b in body
    requires forall p :: Parent(body[b], p) ==> Is(status, p, Delivered)
    ensures Illness(status[b := Delivered], body, ills, {})
  {
    IsUpdate(status, b, Delivered);
  }

  lemma ReleaseOrdered(status: Statuses, body: Bodies, log: seq<BlockId>, b: BlockId)
    requires Ordered(status, body, log) && Is(status, b, Initialized) && b in body && b != Root
    requires forall p :: Parent(body[b], p) ==> Is(status, p, Delivered)
    ensures Ordered(status[b := Delivered], body, log + [b])
  {
    IsUpdate(status, b, Delivered);
    var status', log' := status[b := Delivered], log + [b];
    assert b !in log;
    assert forall c :: c in log' <==> c in log || c == b;
    forall i, p | 0 <= i < |log'| && log'[i] in body && Parent(body[log'[i]], p) ensures p == Root || p in log'[..i] {
      assert log'[..i] == log[..i];
      if i == |log| {
        assert log[..i] == log && Is(status, p, Delivered);
      }
    }
  }

  lemma ReleaseForks(status: Statuses, fork: Forkmap, b: BlockId)
    requires ForkStatus(status, fork, {b}) && b in fork && Is(status, b, Initialized)
    ensures ForkStatus(status[b := Delivered], fork, {})
  {
    IsUpdate(status, b, Delivered);
  }

  lemma NoDupConcat<T>(s: seq<T>, t: seq<T>)
    requires NoDup(s) && NoDup(t) && forall c :: c in t ==> c !in s
    ensures NoDup(s + t)
  {
    forall i, j | 0 <= i < j < |s + t| ensures (s + t)[i] != (s + t)[j] {
      if i < |s| <= j {
        assert (s + t)[j] in t && (s + t)[i] in s;
      }
    }
  }

  /** Pushing the woken blocks keeps the queue exact. */
  lemma PushQueue(st: State, r: State, w: seq<BlockId>, x: set<BlockId>)
    requires Queue(st, x) && r.inDb == st.inDb
    requires r.toRun == st.toRun + w && r.pushed == st.pushed + w && NoDup(w)
    requires forall c :: c in w ==> c in st.inDb && c !in st.pushed && PendingOf(r, c) == 0
    requires forall c :: Is(r.status, c, Initialized) ==> Is(st.status, c, Initialized) && c !in x
    requires forall c :: Is(r.status, c, Initialized) && c !in w ==>
               (PendingOf(r, c) == 0 && c in st.inDb ==> PendingOf(st, c) == 0) && (c in st.pushed ==> PendingOf(r, c) == 0)
    ensures Queue(r, {})
  {
    NoDupConcat(st.pushed, w);
    assert forall c :: c in r.pushed <==> c in st.pushed || c in w;
    assert forall c :: c in r.toRun <==> c in st.toRun || c in w;
    assert r.toRun == r.pushed[|r.pushed| - |r.toRun|..];
  }

  lemma ReleaseQueue(st: State, b: BlockId)
    requires Queue(st, {b}) && Is(st.status, b, Initialized) && Waiting(st.status, st.body, st.revDeps, {b})
    requires Counted(st.status, st.body, st.pending, {b}) && NoDup(RevDepsOf(st, b)) && b !in RevDepsOf(st, b)
    ensures Queue(Release(st, b), {})
  {
    var r, bs := Release(st, b), RevDepsOf(st, b);
    var status' := st.status[b := Delivered];
    var w := Woken(status', st.pending, st.inDb, bs);
    IsUpdate(st.status, b, Delivered);
    WokenAt(status', st.pending, st.inDb, bs);
    forall c ensures PendingOf(r, c) ==
      if c in bs && !Is(status', c, Ill) then Decrement(PendingOf(st, c)) else PendingOf(st, c)
    {
      DecrementAllAt(status', st.pending, bs, c);
    }
    forall c | c in bs && !Is(status', c, Ill)
      ensures Is(st.status, c, Initialized) && PendingOf(st, c) > 0 && c !in st.pushed
    {
      assert Parent(st.body[c], b);
      assert b in Undelivered(st.status, st.body[c]);
    }
    hide Queue;
    PushQueue(st, r, w, {b});
  }

  lemma SeenLater(status: Statuses, fork: Forkmap, b: BlockId, f: nat, h: nat)
    requires Seen(status, fork, f, h)
    ensures Seen(status[b := Delivered], fork, f, h)
  {
    var a :| a in fork && Is(status, a, Delivered) && fork[a] == f && a.Height() == h;
    assert Is(status[b := Delivered], a, Delivered);
  }

  lemma ReleaseJoined(status: Statuses, body: Body, vt: Stamps, vt': Stamps, b: BlockId, c: BlockId)
    requires Joined(status, body, vt, c) && !Is(status, b, Delivered)
    requires forall p, f: nat :: Is(status, p, Delivered) || p == b ==> V(vt', p, f) == V(vt, p, f)
    requires forall f: nat :: V(vt', c, f) == if Parent(body, b) then Max(V(vt, c, f), V(vt, b, f)) else V(vt, c, f)
    ensures Joined(status[b := Delivered], body, vt', c)
  {
    var status' := status[b := Delivered];
    IsUpdate(status, b, Delivered);
    forall p, f: nat | Parent(body, p) && Is(status', p, Delivered) ensures V(vt', p, f) <= V(vt', c, f) {
      assert V(vt', p, f) == V(vt, p, f);
      assert p != b ==> V(vt, p, f) <= V(vt, c, f);
    }
    forall f: nat | V(vt', c, f) > 0
      ensures exists p :: Parent(body, p) && Is(status', p, Delivered) && V(vt', p, f) == V(vt', c, f)
    {
      if V(vt', c, f) == V(vt, c, f) {
        var p :| Parent(body, p) && Is(status, p, Delivered) && V(vt, p, f) == V(vt, c, f);
        assert Is(status', p, Delivered) && V(vt', p, f) == V(vt', c, f);
      } else {
        assert Is(status', b, Delivered) && V(vt', b, f) == V(vt', c, f);
      }
    }
  }

  lemma MergedV(status: Statuses, vt: Stamps, b: BlockId, bs: seq<BlockId>, c: BlockId)
    requires NoDup(bs) && b !in bs
    ensures var vt' := MergeInto(status, vt, Find(vt, b, []), bs);
            forall f: nat :: V(vt', c, f) ==
              if c in bs && !Is(status, c, Ill) then Max(V(vt, c, f), V(vt, b, f)) else V(vt, c, f)
  {
    MergeIntoAt(status, vt, Find(vt, b, []), bs, c);
  }

  lemma ReleaseClocks(st: State, b: BlockId)
    requires Clocks(st.status, st.body, st.fork, st.vt, {b}) && Placed(st, b) && Closed(st.status, st.body)
    requires Waiting(st.status, st.body, st.revDeps, {b}) && NoDup(RevDepsOf(st, b)) && b !in RevDepsOf(st, b)
    requires Root !in st.body
    ensures Clocks(Release(st, b).status, st.body, st.fork, Release(st, b).vt, {})
  {
    var status, bs := st.status[b := Delivered], RevDepsOf(st, b);
    var vt' := Release(st, b).vt;
    IsUpdate(st.status, b, Delivered);
    forall c, f: nat ensures V(vt', c, f) ==
      if c in bs && !Is(status, c, Ill) then Max(V(st.vt, c, f), V(st.vt, b, f)) else V(st.vt, c, f)
    {
      MergedV(status, st.vt, b, bs, c);
    }
    forall c, f: nat | Is(status, c, Delivered) ensures V(vt', c, f) == V(st.vt, c, f) {
      assert c in bs ==> Open(st.status, c);
    }
    forall c | c in st.body && c in st.fork && Is(status, c, Delivered)
      ensures Stamped(st.body[c], st.fork[c], vt', c)
    {
      assert forall p :: Parent(st.body[c], p) ==> Is(status, p, Delivered);
      StampedSame(st.body[c], st.fork[c], st.vt, vt', c);
    }
    forall c, f: nat | Is(status, c, Delivered) && V(vt', c, f) > 0 ensures Seen(status, st.fork, f, V(vt', c, f)) {
      if c == b && f == st.fork[b] {
        assert Is(status, b, Delivered);
      } else {
        SeenLater(st.status, st.fork, b, f, V(st.vt, c, f));
      }
    }
    forall c | c in st.body && Is(status, c, Initialized) ensures Joined(status, st.body[c], vt', c) {
      WaitersOf(st.status, st.body, st.revDeps, b, c);
      ReleaseJoined(st.status, st.body[c], st.vt, vt', b, c);
    }
    assert Root !in vt' by { MergeIntoAt(status, st.vt, VtOf(st, b), bs, Root); }
  }

  /** Delivered heights grow one by one: the walk over `blocks_` stops right behind the new block. */
  lemma DeliveredBook(st: State, r: State, b: BlockId)
    requires Placed(st, b) && b.src < |st.sources| && Book(st.status, st.sources[b.src], b.src)
    requires r.status == st.status[b := Delivered] && r.sources == st.sources
    ensures Book(r.status, BlockDelivered(r, b).sources[b.src], b.src)
  {
    var src, prev := st.sources[b.src], st.body[b].prev;
    if !src.blamed {
      assert Parent(st.body[b], prev);
      assert src.delivered + 1 == b.height;
      var h := b.height;
      if h + 1 in src.blocks {
        assert src.blocks[h + 1] != b && st.status[src.blocks[h + 1]] != Delivered;
        assert StatusOf(r, src.blocks[h + 1]) != Delivered;
      }
      assert Advance(r, src, h, true) == h;
    }
  }

  lemma DeliveredBooks(st: State, r: State, b: BlockId)
    requires Placed(st, b) && b.src < |st.sources| && Books(st.status, st.sources)
    requires r.status == st.status[b := Delivered] && r.sources == st.sources
    ensures Books(r.status, BlockDelivered(r, b).sources)
    ensures BlockDelivered(r, b) == r.(sources := BlockDelivered(r, b).sources)
    ensures |BlockDelivered(r, b).sources| == |r.sources|
  {
    DeliveredBook(st, r, b);
    var sources := BlockDelivered(r, b).sources;
    forall s | 0 <= s < |sources| ensures Book(r.status, sources[s], s) {
      assert Book(st.status, st.sources[s], s);
      if s != b.src {
        OtherBook(st.status, st.sources[s], s, b);
        assert sources[s] == st.sources[s];
      }
    }
  }

  lemma OtherBook(status: Statuses, src: Source, s: nat, b: BlockId)
    requires Book(status, src, s) && b.Id? && b.src != s && Is(status, b, Initialized)
    ensures Book(status[b := Delivered], src, s)
  {}

  lemma DeliveredOwners(st: State, b: BlockId)
    requires ForkOwners(st.fork, st.sources, st.totalForks) && b.Id?
    ensures ForkOwners(st.fork, BlockDelivered(st, b).sources, st.totalForks)
  {}

  lemma ReleaseTouched(st: State, b: BlockId)
    requires Touched(st) && Waiting(st.status, st.body, st.revDeps, {b}) && NoDup(RevDepsOf(st, b)) && b in st.status
    ensures Touched(Release(st, b))
  {
    var r, status, bs := Release(st, b), st.status[b := Delivered], RevDepsOf(st, b);
    forall c ensures c in r.vt ==> c in st.body {
      MergeIntoAt(status, st.vt, VtOf(st, b), bs, c);
    }
    forall c ensures c in r.pending ==> c in st.body {
      DecrementAllAt(status, st.pending, bs, c);
    }
  }

  lemma DeliverKeeps(st: State, b: BlockId)
    requires Inv(st, {b}) && Placed(st, b)
    ensures Inv(Deliver(st, b), {})
    ensures Deliver(st, b).status == st.status[b := Delivered]
  {
    hide Shape, Waiting, Counted, Illness, Ordered, Queue, ForkStatus, ForkTree, ForkOwners, Clocks, Books, Stamped, Seen, Joined, WellFormed, V, At;
    var r := Release(st, b);
    DeliverFacts(st, b);
    ReleaseShape(st.status, st.body, |st.sources|, b);
    ReleaseTouched(st, b);
    ReleaseWaiting(st.status, st.body, st.revDeps, b);
    ReleaseCounted(st.status, st.body, st.revDeps, st.pending, b);
    ReleaseIllness(st.status, st.body, st.ills, b);
    ReleaseOrdered(st.status, st.body, st.log, b);
    ReleaseQueue(st, b);
    ReleaseForks(st.status, st.fork, b);
    ReleaseClocks(st, b);
    DeliveredBooks(st, r, b);
    DeliveredOwners(r, b);
    QueueSame(r, BlockDelivered(r, b), {});
  }

  lemma DeliverFacts(st: State, b: BlockId)
    requires Inv(st, {b}) && Placed(st, b)
    ensures b.src < |st.sources| && Root !in st.body && Closed(st.status, st.body)
    ensures NoDup(RevDepsOf(st, b)) && b !in RevDepsOf(st, b)
  {
    DistinctParents(|st.sources|, b, st.body[b]);
  }
}
