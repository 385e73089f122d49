/** Vector timestamps answer ancestry: `is_descendant_of` is reachability through `prev` and `deps`. */
module CatchainVectorTime {
  import opened CatchainReceiver
  import opened CatchainInvariant
  import opened CatchainRuns

  /** `CatChainBlockImpl::is_descendant_of`: one comparison against the timestamp of the later block. */
  predicate IsDescendantOf(vt: seq<nat>, fork: nat, height: nat) {
    if fork >= |vt| then false else height <= vt[fork]
  }

  ghost predicate Path(body: Bodies, path: seq<BlockId>, b: BlockId, a: BlockId) {
    && |path| > 0 && path[0] == b && path[|path| - 1] == a
    && forall i :: 0 <= i < |path| - 1 ==> path[i] in body && Parent(body[path[i]], path[i + 1])
  }

  /** `a` is `b` or an ancestor of `b`. */
  ghost predicate Reaches(body: Bodies, b: BlockId, a: BlockId) {
    exists path :: Path(body, path, b, a)
  }

  lemma ReachesSelf(body: Bodies, b: BlockId)
    ensures Reaches(body, b, b)
  {
    assert Path(body, [b], b, b);
  }

  lemma ReachesStep(body: Bodies, b: BlockId, p: BlockId, a: BlockId)
    requires b in body && Parent(body[b], p) && Reaches(body, p, a)
    ensures Reaches(body, b, a)
  {
    var path :| Path(body, path, p, a);
    var longer := [b] + path;
    forall i | 0 <= i < |longer| - 1 ensures longer[i] in body && Parent(body[longer[i]], longer[i + 1]) {
      if i > 0 {
        assert longer[i] == path[i - 1] && longer[i + 1] == path[i];
      }
    }
    assert Path(body, longer, b, a);
  }

  lemma ReachesFirst(body: Bodies, b: BlockId, a: BlockId) returns (p: BlockId)
    requires Reaches(body, b, a) && a != b
    ensures b in body && Parent(body[b], p) && Reaches(body, p, a)
  {
    var path :| Path(body, path, b, a);
    p := path[1];
    var rest := path[1..];
    forall i | 0 <= i < |rest| - 1 ensures rest[i] in body && Parent(body[rest[i]], rest[i + 1]) {
      assert rest[i] == path[i + 1] && rest[i + 1] == path[i + 2];
    }
    assert Path(body, rest, p, a);
  }

  /** With every block, its parents. */
  ghost predicate Upward(body: Bodies, s: set<BlockId>) {
    forall b, p {:trigger Parent(body[b], p)} :: b in s && b in body && Parent(body[b], p) ==> p == Root || p in s
  }

  /** Ancestry of old blocks does not change when new blocks are added. */
  lemma ReachesStable(body: Bodies, body': Bodies, s: set<BlockId>, c: BlockId, a: BlockId)
    requires Upward(body, s) && s <= body.Keys && Root !in body' && c in s
    requires forall b :: b in body ==> b in body' && body'[b] == body[b]
    ensures Reaches(body', c, a) <==> Reaches(body, c, a)
  {
    if path :| Path(body, path, c, a) {
      assert Path(body', path, c, a);
    }
    if path :| Path(body', path, c, a) {
      forall i | 0 <= i < |path| - 1 ensures path[i] in s {
        PathStays(body, body', s, path, c, a, i);
      }
      assert Path(body, path, c, a);
    }
  }

  lemma {:induction false} PathStays(body: Bodies, body': Bodies, s: set<BlockId>, path: seq<BlockId>, c: BlockId,
                                     a: BlockId, i: nat)
    requires Upward(body, s) && s <= body.Keys && Root !in body' && c in s && Path(body', path, c, a) && i < |path| - 1
    requires forall b :: b in body ==> b in body' && body'[b] == body[b]
    ensures path[i] in s
  {
    if i > 0 {
      PathStays(body, body', s, path, c, a, i - 1);
      assert Parent(body[path[i - 1]], path[i]);
    }
  }

  /** What the ancestry argument uses of the invariant. */
  ghost predicate Dag(st: State) {
    && Ordered(st.status, st.body, st.log) && Closed(st.status, st.body)
    && ForkTree(st.body, st.fork, st.next)
    && (forall b :: b in st.log ==> b in st.body && b in st.fork && Stamped(st.body[b], st.fork[b], st.vt, b))
    && (forall f: nat :: V(st.vt, Root, f) == 0) && Root !in st.body && Root !in st.fork
    && (forall b :: b in st.body ==> b.Height() == st.body[b].prev.Height() + 1)
  }

  lemma InvDag(st: State)
    requires Inv(st, {})
    ensures Dag(st)
  {
    hide Queue, Waiting, Counted, Books, ForkOwners, ForkTree, Stamped;
    forall b | b in st.log ensures b in st.body && b in st.fork && Stamped(st.body[b], st.fork[b], st.vt, b) {
      assert Is(st.status, b, Delivered);
    }
    forall b | b in st.fork ensures b in st.body {}
  }

  lemma DagForks(st: State, a: BlockId)
    requires Dag(st) && a in st.log
    ensures a in st.fork && ForkOf(st, a) == st.fork[a] && a.Height() > 0
  {}

  lemma InLog(log: seq<BlockId>, i: nat, p: BlockId) returns (j: nat)
    requires i <= |log| && p in log[..i]
    ensures j < i && log[j] == p
  {
    j :| 0 <= j < i && log[..i][j] == p;
  }

  lemma LogFacts(st: State, i: nat)
    requires Dag(st) && i < |st.log|
    ensures var b := st.log[i];
            && b in st.body && b in st.fork && b.Height() > 0 && Stamped(st.body[b], st.fork[b], st.vt, b)
            && (forall p :: Parent(st.body[b], p) ==> p == Root || p in st.log[..i])
            && (forall f: nat :: V(st.vt, Root, f) == 0)
  {
    assert st.log[i] in st.log;
  }

  lemma SameFork(st: State, a: BlockId, b: BlockId)
    requires Dag(st) && a in st.log && b in st.log && a in st.fork && b in st.fork && st.fork[a] == st.fork[b]
    ensures a == b || a.Height() != b.Height()
    ensures a.Height() < b.Height() ==>
              b in st.body && st.body[b].prev in st.fork && st.fork[st.body[b].prev] == st.fork[a] &&
              st.body[b].prev != Root
  {
    hide Successors, Closed, Stamped, Ordered;
  }

  /** A parent of `log[i]` that knows `a` too. */
  lemma KnowingParent(st: State, i: nat, a: BlockId) returns (p: BlockId)
    requires Dag(st) && i < |st.log| && a in st.log && a in st.fork && a != st.log[i] && a.Height() > 0
    requires a.Height() <= V(st.vt, st.log[i], st.fork[a])
    ensures st.log[i] in st.body && Parent(st.body[st.log[i]], p) && p in st.log[..i]
    ensures a.Height() <= V(st.vt, p, st.fork[a])
  {
    hide Dag;
    var b := st.log[i];
    LogFacts(st, i);
    if st.fork[a] == st.fork[b] {
      SameFork(st, a, b);
      p := st.body[b].prev;
      assert Parent(st.body[b], p);
      var j := InLog(st.log, i, p);
      LogFacts(st, j);
      PrevHeight(st, a, b);
    } else {
      p :| Parent(st.body[b], p) && V(st.vt, p, st.fork[a]) == V(st.vt, b, st.fork[a]);
    }
  }

  /** Soundness of the comparison, by induction on delivery order. */
  lemma {:induction false} KnownIsReached(st: State, i: nat, a: BlockId)
    requires Dag(st) && i < |st.log| && a in st.log && a in st.fork && a.Height() <= V(st.vt, st.log[i], st.fork[a])
    ensures Reaches(st.body, st.log[i], a)
    decreases i
  {
    hide Dag;
    DagForks(st, a);
    var b := st.log[i];
    if a == b {
      ReachesSelf(st.body, b);
    } else {
      var p := KnowingParent(st, i, a);
      var j := InLog(st.log, i, p);
      KnownIsReached(st, j, a);
      ReachesStep(st.body, b, p, a);
    }
  }

  /** Inside a fork, heights are contiguous along `prev`. */
  lemma PrevHeight(st: State, a: BlockId, b: BlockId)
    requires Dag(st) && b in st.body && a.Height() < b.Height()
    ensures a.Height() <= st.body[b].prev.Height()
  {}

  /** Completeness of the comparison: whatever is reached is covered by the timestamp. */
  lemma {:induction false} ReachedIsKnown(st: State, i: nat, a: BlockId)
    requires Dag(st) && i < |st.log| && a in st.log && Reaches(st.body, st.log[i], a)
    ensures a.Height() <= V(st.vt, st.log[i], st.fork[a])
    decreases i
  {
    var b := st.log[i];
    assert b in st.log && Stamped(st.body[b], st.fork[b], st.vt, b);
    if a != b {
      var p := ReachesFirst(st.body, b, a);
      if p == Root {
        assert Root !in st.log;
        var q := ReachesFirst(st.body, Root, a);
        assert false;
      }
      var j := InLog(st.log, i, p);
      ReachedIsKnown(st, j, a);
      assert V(st.vt, p, st.fork[a]) <= V(st.vt, b, st.fork[a]);
    }
  }

  lemma DescendantIffReaches(st: State, a: BlockId, b: BlockId)
    requires Inv(st, {}) && Is(st.status, a, Delivered) && Is(st.status, b, Delivered) && a != Root && b != Root
    ensures IsDescendantOf(VtOf(st, b), ForkOf(st, a), a.Height()) <==> Reaches(st.body, b, a)
  {
    hide Inv, Dag;
    InvDag(st);
    DeliveredInLog(st, a);
    DeliveredInLog(st, b);
    DagForks(st, a);
    var i :| 0 <= i < |st.log| && st.log[i] == b;
    assert V(st.vt, b, st.fork[a]) == At(VtOf(st, b), ForkOf(st, a));
    if Reaches(st.body, b, a) {
      ReachedIsKnown(st, i, a);
    }
    if a.Height() <= V(st.vt, b, st.fork[a]) {
      KnownIsReached(st, i, a);
    }
  }

  /** For all delivered blocks of any run, forks included. */
  lemma VectorTimeIsReachability(n: nat, maxDeps: nat, events: seq<Event>, a: BlockId, b: BlockId)
    requires Alive(n, maxDeps, events)
    requires var st := Execute(n, maxDeps, events); a in st.log && b in st.log
    ensures var st := Execute(n, maxDeps, events);
            IsDescendantOf(VtOf(st, b), ForkOf(st, a), a.Height()) <==> Reaches(st.body, b, a)
  {
    var st := Execute(n, maxDeps, events);
    ExecuteKeeps(n, maxDeps, events);
    DeliveredInLog(st, a);
    DeliveredInLog(st, b);
    hide Inv;
    DescendantIffReaches(st, a, b);
  }

  lemma DeliveredInLog(st: State, b: BlockId)
    requires Inv(st, {})
    ensures b in st.log <==> b != Root && Is(st.status, b, Delivered)
  {}
}
