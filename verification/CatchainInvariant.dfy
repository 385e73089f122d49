/**
  The invariant of the receiver.  `x` names the blocks that are being worked on in the middle of an
  event: clauses about initialized blocks are suspended for them.  Between events `x` is empty.
*/
module CatchainInvariant {
  import opened CatchainReceiver

  ghost predicate NoDup<T>(s: seq<T>) {
    forall i, j :: 0 <= i < j < |s| ==> s[i] != s[j]
  }

  type Statuses = map<BlockId, Status>
  type Bodies = map<BlockId, Body>

  ghost predicate Is(status: Statuses, b: BlockId, s: Status) {
    b in status && status[b] == s
  }

  /** Received and not delivered. */
  ghost predicate Open(status: Statuses, b: BlockId) {
    Is(status, b, Initialized) || Is(status, b, Ill)
  }

  /** What validation guarantees about the body of a block that was received. */
  ghost predicate WellFormed(n: nat, b: BlockId, body: Body) {
    && b.Id?
    && (if b.height > 1 then body.prev.Id? && body.prev.src == b.src && body.prev.height + 1 == b.height
        else body.prev == Root)
    && (forall i :: 0 <= i < |body.deps| && body.deps[i].Id? ==>
          body.deps[i].height > 0 && body.deps[i].src < n && body.deps[i].src != b.src)
    && (forall i, j :: 0 <= i < j < |body.deps| && body.deps[i].Id? && body.deps[j].Id? ==>
          body.deps[i].src != body.deps[j].src)
  }

  ghost predicate Shape(status: Statuses, body: Bodies, n: nat) {
    && Is(status, Root, Delivered) && Root !in body
    && (forall b :: b in status && b != Root ==> b.height > 0 && b.src < n)
    && (forall b :: b in body ==> b in status && status[b] != Stub)
    && (forall b :: b in status && status[b] != Stub && b != Root ==> b in body)
    && (forall b :: b in body ==> WellFormed(n, b, body[b]))
    && (forall b, p :: b in body && Parent(body[b], p) ==> p in status)
  }

  /** Fields other than these still have their initial values. */
  ghost predicate Touched(st: State) {
    && st.fork.Keys <= st.body.Keys && st.next.Keys <= st.fork.Keys
    && st.revDeps.Keys <= st.status.Keys
    && st.vt.Keys <= st.body.Keys && st.pending.Keys <= st.body.Keys && st.inDb <= st.body.Keys
  }

  ghost function Undelivered(status: Statuses, body: Body): set<BlockId> {
    set p | p in {body.prev} + (set d | d in body.deps) && !Is(status, p, Delivered)
  }

  /** Who waits for whom: `rev_deps_`. */
  ghost predicate Waiting(status: Statuses, body: Bodies, rev: map<BlockId, seq<BlockId>>, x: set<BlockId>) {
    && (forall p {:trigger rev[p]} :: p in rev ==> NoDup(rev[p]))
    && (forall p {:trigger rev[p]} :: p in rev && Is(status, p, Delivered) ==> rev[p] == [])
    && (forall p, c {:trigger c in rev[p]} :: p in rev && c in rev[p] ==>
          c in body && Open(status, c) && Parent(body[c], p))
    && (forall p, c {:trigger Parent(body[c], p)} ::
          c in body && Is(status, c, Initialized) && c !in x && Parent(body[c], p) && !Is(status, p, Delivered) ==>
            p in rev && c in rev[p])
  }

  /** `pending_deps_` counts the undelivered parents. */
  ghost predicate Counted(status: Statuses, body: Bodies, pending: map<BlockId, nat>, x: set<BlockId>) {
    forall c :: c in body && Is(status, c, Initialized) && c !in x ==>
      Find(pending, c, 0) == |Undelivered(status, body[c])|
  }

  /** Delivered blocks have delivered parents. */
  ghost predicate Closed(status: Statuses, body: Bodies) {
    forall c, p {:trigger Parent(body[c], p)} :: c in body && Is(status, c, Delivered) && Parent(body[c], p) ==>
      Is(status, p, Delivered)
  }

  ghost predicate Illness(status: Statuses, body: Bodies, ills: seq<BlockId>, x: set<BlockId>) {
    && (forall c, p {:trigger Parent(body[c], p)} :: c in body && Is(status, c, Initialized) && c !in x && Parent(body[c], p) ==> !Is(status, p, Ill))
    && Closed(status, body)
    && NoDup(ills)
    && (forall c {:trigger c in ills} {:trigger Is(status, c, Ill)} :: c in ills <==> Is(status, c, Ill))
  }

  /** The callbacks list every delivered block once, after all of its parents. */
  ghost predicate Ordered(status: Statuses, body: Bodies, log: seq<BlockId>) {
    && NoDup(log)
    && (forall c {:trigger c in log} {:trigger Is(status, c, Delivered)} :: c in log <==> c != Root && Is(status, c, Delivered))
    && (forall i, p :: 0 <= i < |log| && log[i] in body && Parent(body[log[i]], p) ==> p == Root || p in log[..i])
  }

  ghost predicate Queue(st: State, x: set<BlockId>) {
    && NoDup(st.pushed)
    && |st.toRun| <= |st.pushed| && st.toRun == st.pushed[|st.pushed| - |st.toRun|..]
    && (forall c :: c in st.pushed ==> c in st.inDb)
    && (forall c :: c in st.pushed && Is(st.status, c, Initialized) && c !in x ==>
          PendingOf(st, c) == 0 && c in st.toRun)
    && (forall c :: c in st.inDb && Is(st.status, c, Initialized) && c !in x && PendingOf(st, c) == 0 ==> c in st.toRun)
  }

  ghost predicate ForkStatus(status: Statuses, fork: map<BlockId, nat>, x: set<BlockId>) {
    && (forall c :: c in fork && c !in x ==> Is(status, c, Delivered) || Is(status, c, Ill))
    && (forall c :: Is(status, c, Delivered) && c != Root ==> c in fork)
  }

  ghost predicate ForkTree(body: Bodies, fork: map<BlockId, nat>, next: map<BlockId, BlockId>) {
    && (forall a :: a in fork ==> fork[a] > 0 && a in body)
    && (forall a, b :: a in fork && b in fork && fork[a] == fork[b] ==>
          && (a.Height() == b.Height() ==> a == b)
          && (a.Height() < b.Height() ==> body[b].prev in fork && fork[body[b].prev] == fork[b])
          && (a !in next ==> b.Height() <= a.Height()))
    && Successors(fork, next)
  }

  /** `next_` of a block is a block of the same source, one higher, that has been placed. */
  ghost predicate Successors(fork: map<BlockId, nat>, next: map<BlockId, BlockId>) {
    forall p :: p in next ==>
      p.Id? && next[p] in fork && next[p].Id? && next[p].src == p.src && next[p].height == p.height + 1
  }

  ghost predicate ForkOwners(fork: map<BlockId, nat>, sources: seq<Source>, total: nat) {
    && (forall c :: c in fork ==> c.Id? && c.src < |sources| && fork[c] in sources[c.src].forks)
    && (forall s, f :: 0 <= s < |sources| && f in sources[s].forks ==> 0 < f <= total)
    && (forall s, t, f :: (0 <= s < |sources| && 0 <= t < |sources| &&
                           f in sources[s].forks && f in sources[t].forks) ==> s == t)
    && (forall s :: 0 <= s < |sources| && |sources[s].forks| > 1 ==> sources[s].blamed)
    && (forall s :: 0 <= s < |sources| && sources[s].forks != [] ==> Began(fork, s))
  }

  /** The first block of source `s` has been placed. */
  ghost predicate Began(fork: map<BlockId, nat>, s: nat) {
    exists a :: a in fork && a.Id? && a.src == s && a.height == 1
  }

  type Stamps = map<BlockId, seq<nat>>

  ghost function V(vt: Stamps, b: BlockId, f: nat): nat {
    At(Find(vt, b, []), f)
  }

  /** `vt` of a delivered block is the join of its parents' with its own (fork, height) stamped in. */
  ghost predicate Stamped(body: Body, fork: nat, vt: Stamps, b: BlockId) {
    && V(vt, b, fork) == b.Height()
    && (forall p, f: nat :: Parent(body, p) ==> V(vt, p, f) <= V(vt, b, f))
    && (forall p :: Parent(body, p) ==> V(vt, p, fork) < b.Height())
    && (forall f: nat :: f != fork && V(vt, b, f) > 0 ==> exists p :: Parent(body, p) && V(vt, p, f) == V(vt, b, f))
  }

  /** `vt` of a waiting block is the join of the parents delivered so far. */
  ghost predicate Joined(status: Statuses, body: Body, vt: Stamps, b: BlockId) {
    && (forall p, f: nat :: Parent(body, p) && Is(status, p, Delivered) ==> V(vt, p, f) <= V(vt, b, f))
    && (forall f: nat :: V(vt, b, f) > 0 ==>
          exists p :: Parent(body, p) && Is(status, p, Delivered) && V(vt, p, f) == V(vt, b, f))
  }

  ghost predicate Seen(status: Statuses, fork: map<BlockId, nat>, f: nat, h: nat) {
    exists a :: a in fork && Is(status, a, Delivered) && fork[a] == f && a.Height() == h
  }

  ghost predicate Clocks(status: Statuses, body: Bodies, fork: map<BlockId, nat>, vt: Stamps, x: set<BlockId>) {
    && Root !in vt
    && (forall b :: b in body && b in fork && Is(status, b, Delivered) ==> Stamped(body[b], fork[b], vt, b))
    && (forall b, f: nat :: Is(status, b, Delivered) && V(vt, b, f) > 0 ==> Seen(status, fork, f, V(vt, b, f)))
    && (forall b :: b in body && Is(status, b, Initialized) && b !in x ==> Joined(status, body[b], vt, b))
  }

  lemma VUpdate(vt: Stamps, b: BlockId, v: seq<nat>)
    ensures forall c, f: nat :: V(vt[b := v], c, f) == if c == b then At(v, f) else V(vt, c, f)
  {
    forall c, f: nat ensures V(vt[b := v], c, f) == if c == b then At(v, f) else V(vt, c, f) {
      assert Find(vt[b := v], c, []) == if c == b then v else Find(vt, c, []);
    }
  }

  lemma StampedSame(body: Body, fork: nat, vt: Stamps, vt': Stamps, b: BlockId)
    requires Stamped(body, fork, vt, b)
    requires forall c, f: nat :: c == b || Parent(body, c) ==> V(vt', c, f) == V(vt, c, f)
    ensures Stamped(body, fork, vt', b)
  {
    forall f: nat | f != fork && V(vt', b, f) > 0
      ensures exists p :: Parent(body, p) && V(vt', p, f) == V(vt', b, f)
    {
      var p :| Parent(body, p) && V(vt, p, f) == V(vt, b, f);
      assert V(vt', p, f) == V(vt', b, f);
    }
  }

  lemma JoinedSame(status: Statuses, body: Body, vt: Stamps, vt': Stamps, b: BlockId)
    requires Joined(status, body, vt, b)
    requires forall c, f: nat :: c == b || (Parent(body, c) && Is(status, c, Delivered)) ==> V(vt', c, f) == V(vt, c, f)
    ensures Joined(status, body, vt', b)
  {
    forall f: nat | V(vt', b, f) > 0
      ensures exists p :: Parent(body, p) && Is(status, p, Delivered) && V(vt', p, f) == V(vt', b, f)
    {
      var p :| Parent(body, p) && Is(status, p, Delivered) && V(vt, p, f) == V(vt, b, f);
      assert V(vt', p, f) == V(vt', b, f);
    }
  }

  /** Changing the timestamp of a block that is not delivered concerns only that block. */
  lemma ClocksElsewhere(status: Statuses, body: Bodies, fork: map<BlockId, nat>, vt: Stamps, x: set<BlockId>,
                        b: BlockId, v: seq<nat>)
    requires Clocks(status, body, fork, vt, x) && Closed(status, body) && b != Root && !Is(status, b, Delivered)
    ensures Clocks(status, body, fork, vt[b := v], x + {b})
  {
    var vt' := vt[b := v];
    VUpdate(vt, b, v);
    forall c | c in body && c in fork && Is(status, c, Delivered) ensures Stamped(body[c], fork[c], vt', c) {
      assert Stamped(body[c], fork[c], vt, c);
      assert forall p :: Parent(body[c], p) ==> p != b;
      StampedSame(body[c], fork[c], vt, vt', c);
    }
    forall c, f: nat | Is(status, c, Delivered) && V(vt', c, f) > 0 ensures Seen(status, fork, f, V(vt', c, f)) {
      assert V(vt', c, f) == V(vt, c, f);
    }
    forall c | c in body && Is(status, c, Initialized) && c !in x + {b} ensures Joined(status, body[c], vt', c) {
      assert Joined(status, body[c], vt, c);
      JoinedSame(status, body[c], vt, vt', c);
    }
  }

  ghost predicate Book(status: Statuses, src: Source, s: nat) {
    && (src.proven ==> src.blamed)
    && (src.blamed ==> src.delivered == 0)
    && (forall h :: h in src.blocks ==>
          src.blocks[h] in status && src.blocks[h].Id? && src.blocks[h].src == s && src.blocks[h].height == h)
    && (!src.blamed ==>
          && (forall b :: b in status && b != Root && b.src == s ==>
                b.height in src.blocks && src.blocks[b.height] == b && status[b] != Ill)
          && (forall h :: 1 <= h <= src.delivered ==> h in src.blocks)
          && (forall h :: h in src.blocks ==> (status[src.blocks[h]] == Delivered <==> h <= src.delivered)))
  }

  ghost predicate Books(status: Statuses, sources: seq<Source>) {
    forall s :: 0 <= s < |sources| ==> Book(status, sources[s], s)
  }

  ghost predicate Inv(st: State, x: set<BlockId>) {
    && Shape(st.status, st.body, |st.sources|)
    && Touched(st)
    && Waiting(st.status, st.body, st.revDeps, x)
    && Counted(st.status, st.body, st.pending, x)
    && Illness(st.status, st.body, st.ills, x)
    && Ordered(st.status, st.body, st.log)
    && Queue(st, x)
    && ForkStatus(st.status, st.fork, x)
    && ForkTree(st.body, st.fork, st.next)
    && ForkOwners(st.fork, st.sources, st.totalForks)
    && Clocks(st.status, st.body, st.fork, st.vt, x)
    && Books(st.status, st.sources)
    && st.checks
  }

  // ----- becoming ill -----

  lemma IsUpdate(status: Statuses, b: BlockId, s: Status)
    ensures forall c, t :: Is(status[b := s], c, t) <==> if c == b then t == s else Is(status, c, t)
  {
    forall c, t ensures Is(status[b := s], c, t) <==> if c == b then t == s else Is(status, c, t) {
      assert c != b ==> (c in status[b := s] <==> c in status);
    }
  }

  lemma MarkIllShape(status: Statuses, body: Bodies, n: nat, b: BlockId)
    requires Shape(status, body, n) && Is(status, b, Initialized)
    ensures Shape(status[b := Ill], body, n)
  {}

  lemma MarkIllWaiting(status: Statuses, body: Bodies, rev: map<BlockId, seq<BlockId>>,
                       x: set<BlockId>, y: set<BlockId>, b: BlockId)
    requires Waiting(status, body, rev, x) && Is(status, b, Initialized) && x <= y + {b}
    ensures Waiting(status[b := Ill], body, rev, y)
  {
    IsUpdate(status, b, Ill);
  }

  lemma MarkIllCounted(status: Statuses, body: Bodies, pending: map<BlockId, nat>, x: set<BlockId>, y: set<BlockId>, b: BlockId)
    requires Counted(status, body, pending, x) && Is(status, b, Initialized) && x <= y + {b}
    ensures Counted(status[b := Ill], body, pending, y)
  {
    forall c | c in body && Is(status[b := Ill], c, Initialized) && c !in y
      ensures Find(pending, c, 0) == |Undelivered(status[b := Ill], body[c])|
    {
      assert Undelivered(status[b := Ill], body[c]) == Undelivered(status, body[c]);
    }
  }

  lemma MarkIllIllness(status: Statuses, body: Bodies, rev: map<BlockId, seq<BlockId>>, ills: seq<BlockId>,
                       x: set<BlockId>, y: set<BlockId>, b: BlockId)
    requires Waiting(status, body, rev, x) && Illness(status, body, ills, x) && Is(status, b, Initialized)
    requires x <= y + {b} && forall c :: c in Find(rev, b, []) ==> c in y
    ensures Illness(status[b := Ill], body, ills + [b], y)
  {
    IsUpdate(status, b, Ill);
    assert b !in ills;
    assert forall c :: c in ills + [b] <==> c in ills || c == b;
  }

  lemma MarkIllOrdered(status: Statuses, body: Bodies, log: seq<BlockId>, b: BlockId)
    requires Ordered(status, body, log) && Is(status, b, Initialized)
    ensures Ordered(status[b := Ill], body, log)
  {
    IsUpdate(status, b, Ill);
  }

  lemma MarkIllQueue(st: State, x: set<BlockId>, y: set<BlockId>, b: BlockId)
    requires Queue(st, x) && Is(st.status, b, Initialized) && x <= y + {b}
    ensures Queue(MarkIll(st, b), y)
  {
    hide NoDup;
    IsUpdate(st.status, b, Ill);
  }

  lemma MarkIllForks(status: Statuses, fork: map<BlockId, nat>, x: set<BlockId>, y: set<BlockId>, b: BlockId)
    requires ForkStatus(status, fork, x) && Is(status, b, Initialized) && x <= y + {b}
    ensures ForkStatus(status[b := Ill], fork, y)
  {
    IsUpdate(status, b, Ill);
  }

  lemma MarkIllClocks(status: Statuses, body: Bodies, fork: map<BlockId, nat>, vt: Stamps,
                      x: set<BlockId>, y: set<BlockId>, b: BlockId)
    requires Clocks(status, body, fork, vt, x) && Is(status, b, Initialized) && x <= y + {b}
    ensures Clocks(status[b := Ill], body, fork, vt, y)
  {
    IsUpdate(status, b, Ill);
  }

  lemma BlameOwners(fork: map<BlockId, nat>, sources: seq<Source>, total: nat, s: nat)
    requires ForkOwners(fork, sources, total) && s < |sources|
    ensures ForkOwners(fork, sources[s := BlameSource(sources[s])], total)
  {}

  lemma MarkIllBooks(status: Statuses, sources: seq<Source>, b: BlockId)
    requires Books(status, sources) && Is(status, b, Initialized) && b.Id? && b.src < |sources|
    ensures Books(status[b := Ill], sources[b.src := BlameSource(sources[b.src])])
  {
    var status', sources' := status[b := Ill], sources[b.src := BlameSource(sources[b.src])];
    forall s | 0 <= s < |sources'| ensures Book(status', sources'[s], s) {
      assert Book(status, sources[s], s);
    }
  }

  lemma MarkIllKeeps(st: State, x: set<BlockId>, y: set<BlockId>, b: BlockId)
    requires Inv(st, x) && Is(st.status, b, Initialized)
    requires x <= y + {b} && forall c :: c in RevDepsOf(st, b) ==> c in y
    ensures Inv(MarkIll(st, b), y)
  {
    MarkIllShape(st.status, st.body, |st.sources|, b);
    MarkIllWaiting(st.status, st.body, st.revDeps, x, y, b);
    MarkIllCounted(st.status, st.body, st.pending, x, y, b);
    MarkIllIllness(st.status, st.body, st.revDeps, st.ills, x, y, b);
    MarkIllOrdered(st.status, st.body, st.log, b);
    MarkIllQueue(st, x, y, b);
    MarkIllForks(st.status, st.fork, x, y, b);
    BlameOwners(st.fork, st.sources, st.totalForks, b.src);
    MarkIllClocks(st.status, st.body, st.fork, st.vt, x, y, b);
    MarkIllBooks(st.status, st.sources, b);
  }

  /** A block that is no longer initialized needs no exemption. */
  lemma Weaken(st: State, x: set<BlockId>, y: set<BlockId>)
    requires Inv(st, x) && forall c :: c in x && c !in y ==> !Is(st.status, c, Initialized)
    ensures Inv(st, y)
  {
    assert Waiting(st.status, st.body, st.revDeps, y);
    assert Counted(st.status, st.body, st.pending, y);
    assert Illness(st.status, st.body, st.ills, y);
    assert Queue(st, y);
    assert Clocks(st.status, st.body, st.fork, st.vt, y);
  }

  /** Illness number `i` was caught from a parent that was ill before. */
  ghost predicate Caught(body: Bodies, ills: seq<BlockId>, i: nat) {
    i < |ills| && ills[i] in body && exists j :: 0 <= j < i && Parent(body[ills[i]], ills[j])
  }

  /** From number `k` on, every illness but the seeds was caught. */
  ghost predicate Contagion(body: Bodies, ills: seq<BlockId>, k: nat, seeds: set<BlockId>) {
    forall i {:trigger ills[i]} :: k <= i < |ills| ==> ills[i] in seeds || Caught(body, ills, i)
  }

  /** What `set_ill` may change: initialized blocks become ill and sources get blamed. */
  ghost predicate Sicker(st: State, r: State) {
    && r == st.(status := r.status, sources := r.sources, ills := r.ills)
    && r.status.Keys == st.status.Keys
    && (forall c {:trigger r.status[c]} {:trigger st.status[c]} :: c in st.status ==>
          r.status[c] == st.status[c] || (st.status[c] == Initialized && r.status[c] == Ill))
    && |r.sources| == |st.sources|
    && (forall s :: 0 <= s < |st.sources| ==>
          r.sources[s] == st.sources[s] || r.sources[s] == BlameSource(st.sources[s]))
    && st.ills <= r.ills
  }

  /** Only received blocks wait, and only for their parents. */
  ghost predicate Waiters(st: State) {
    forall p, c {:trigger c in RevDepsOf(st, p)} :: c in RevDepsOf(st, p) ==>
      c in st.body && Parent(st.body[c], p) && Open(st.status, c)
  }

  lemma InvWaiters(st: State, x: set<BlockId>)
    requires Inv(st, x)
    ensures Waiters(st)
  {}

  lemma SickerWaiters(st: State, r: State)
    requires Sicker(st, r) && Waiters(st)
    ensures Waiters(r)
  {
    forall p, c | c in RevDepsOf(r, p)
      ensures c in r.body && Parent(r.body[c], p) && Open(r.status, c)
    {
      assert c in RevDepsOf(st, p);
    }
  }

  lemma SickerTrans(st: State, r: State, q: State)
    requires Sicker(st, r) && Sicker(r, q)
    ensures Sicker(st, q)
  {}

  lemma MarkIllSicker(st: State, b: BlockId)
    requires Is(st.status, b, Initialized)
    ensures Sicker(st, MarkIll(st, b))
  {}

  lemma CaughtStays(body: Bodies, ills: seq<BlockId>, more: seq<BlockId>, i: nat)
    requires Caught(body, ills, i) && ills <= more
    ensures Caught(body, more, i)
  {
    var j :| 0 <= j < i && Parent(body[ills[i]], ills[j]);
    assert more[j] == ills[j];
  }

  lemma CaughtEarlier(st: State, r: State, b: BlockId, i: nat)
    requires |st.ills| <= i < |r.ills| && st.ills <= r.ills && (r.ills[i] == b || Caught(st.body, r.ills, i))
    requires b in st.body && exists p :: p in st.ills && Parent(st.body[b], p)
    ensures Caught(st.body, r.ills, i)
  {
    if r.ills[i] == b {
      var p :| p in st.ills && Parent(st.body[b], p);
      var j :| 0 <= j < |st.ills| && st.ills[j] == p;
      assert r.ills[j] == p;
    }
  }

  lemma SetIllSicker(st: State, b: BlockId)
    requires Waiters(st) && Open(st.status, b)
    ensures Sicker(st, SetIll(st, b)) && Is(SetIll(st, b).status, b, Ill)
    ensures Contagion(st.body, SetIll(st, b).ills, |st.ills|, {b})
    decreases Healthy(st), 0
  {
    if !Is(st.status, b, Ill) {
      var st1 := MarkIll(st, b);
      MarkIllSicker(st, b);
      SickerWaiters(st, st1);
      assert Healthy(st1) == Healthy(st) - {b} && b in Healthy(st);
      assert b in st1.ills;
      assert RevDepsOf(st1, b) == RevDepsOf(st, b);
      SetIllAllSicker(st1, RevDepsOf(st1, b));
      SickerTrans(st, st1, SetIll(st, b));
      assert SetIll(st, b).ills[|st.ills|] == b;
    }
  }

  lemma SetIllAllSicker(st: State, bs: seq<BlockId>)
    requires Waiters(st)
    requires forall c :: c in bs ==> Open(st.status, c)
    requires forall c :: c in bs ==> c in st.body && exists p :: p in st.ills && Parent(st.body[c], p)
    ensures Sicker(st, SetIllAll(st, bs))
    ensures Contagion(st.body, SetIllAll(st, bs).ills, |st.ills|, {})
    decreases Healthy(st), |bs|
  {
    if bs != [] {
      var r := SetIll(st, bs[0]);
      SetIllSicker(st, bs[0]);
      SickerWaiters(st, r);
      forall c | c in bs[1..]
        ensures Open(r.status, c)
        ensures exists p :: p in r.ills && Parent(r.body[c], p)
      {
        assert c in bs && Open(st.status, c);
        var p :| p in st.ills && Parent(st.body[c], p);
        assert p in r.ills;
      }
      SetIllAllSicker(r, bs[1..]);
      SickerTrans(st, r, SetIllAll(st, bs));
      var ills := SetIllAll(st, bs).ills;
      forall i | |st.ills| <= i < |r.ills| ensures Caught(st.body, ills, i) {
        assert r.ills[i] in {bs[0]} || Caught(st.body, r.ills, i);
        CaughtEarlier(st, r, bs[0], i);
        CaughtStays(st.body, r.ills, ills, i);
      }
    }
  }

  lemma SetIllKeeps(st: State, x: set<BlockId>, b: BlockId)
    requires Inv(st, x + {b}) && Open(st.status, b)
    ensures Inv(SetIll(st, b), x)
    decreases Healthy(st), 0
  {
    hide Inv;
    if Is(st.status, b, Ill) {
      Weaken(st, x + {b}, x);
    } else {
      var y := x + set c | c in RevDepsOf(st, b);
      MarkIllKeeps(st, x + {b}, y, b);
      InvWaiters(MarkIll(st, b), y);
      assert RevDepsOf(MarkIll(st, b), b) == RevDepsOf(st, b);
      assert Healthy(MarkIll(st, b)) == Healthy(st) - {b} && b in Healthy(st);
      SetIllAllKeeps(MarkIll(st, b), x, RevDepsOf(MarkIll(st, b), b));
    }
  }

  lemma SetIllAllKeeps(st: State, x: set<BlockId>, bs: seq<BlockId>)
    requires Inv(st, x + set c | c in bs)
    requires forall c :: c in bs ==> Open(st.status, c)
    ensures Inv(SetIllAll(st, bs), x)
    decreases Healthy(st), |bs|
  {
    hide Inv;
    if bs == [] {
      assert x + (set c | c in bs) == x;
    } else {
      var y := x + set c | c in bs[1..];
      assert x + (set c | c in bs) == y + {bs[0]};
      InvWaiters(st, x + set c | c in bs);
      SetIllKeeps(st, y, bs[0]);
      SetIllSicker(st, bs[0]);
      forall c | c in bs[1..] ensures Open(SetIll(st, bs[0]).status, c) {
        assert c in bs && Open(st.status, c);
      }
      SetIllAllKeeps(SetIll(st, bs[0]), x, bs[1..]);
    }
  }
}
