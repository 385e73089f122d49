/** The iterative lookup: it keeps the k nearest nodes it has heard of and asks each of them once. */
module DhtQuery {
  import opened DhtKeys
  import opened DhtBucket
  import opened DhtLookup

  ghost function KeysOf(nodes: seq<DhtNode>): set<Key> {
    set n | n in nodes :: n.key
  }

  ghost predicate DistinctKeys(s: set<DhtNode>) {
    forall x, y :: x in s && y in s && x.key == y.key ==> x == y
  }

  /** A node that is farther than all of a full list does not change the k nearest. */
  lemma NearestIgnore(id: Key, k: nat, all: set<DhtNode>, list: seq<DhtNode>, n: DhtNode)
    requires Nearest(id, k, all, list) && |list| == k > 0 && n !in all && Nearer(id, list[k - 1].key, n.key)
    ensures Nearest(id, k, all + {n}, list)
  {
    hide Nearer;
    forall x | x in Members(list) ensures Nearer(id, x.key, n.key) {
      var i :| 0 <= i < k && list[i] == x;
      if i < k - 1 {
        NearerTransitive(id, x.key, list[k - 1].key, n.key);
      }
    }
    SortedSize(id, list);
    SubsetSize(Members(list), all);
    assert all + {n} - Members(list) == (all - Members(list)) + {n};
  }

  /** While the list is not full it holds everything. */
  lemma NearestGrow(id: Key, k: nat, all: set<DhtNode>, list: seq<DhtNode>, n: DhtNode, r: seq<DhtNode>)
    requires Nearest(id, k, all, list) && |list| < k && n !in all && Sorted(id, r) && Members(r) == Members(list) + {n}
    ensures Nearest(id, k, all + {n}, r) && |r| == |list| + 1
  {
    hide Nearer, Sorted;
    SortedSize(id, list);
    SortedSize(id, r);
    SubsetSize(Members(list), all);
    assert Members(list) == all;
  }

  /** A nearer node pushes out the last of a full list. */
  lemma NearestReplace(id: Key, k: nat, all: set<DhtNode>, list: seq<DhtNode>, n: DhtNode, r: seq<DhtNode>)
    requires Nearest(id, k, all, list) && |list| == k > 0 && n !in all && Nearer(id, n.key, list[k - 1].key)
    requires Sorted(id, r) && Members(r) == Members(list) + {n}
    ensures |r| == k + 1 && r[k] == list[k - 1] && Nearest(id, k, all + {n}, r[..k])
    ensures Members(r[..k]) == Members(list) - {list[k - 1]} + {n}
  {
    hide Nearer, Sorted, Nearest, Members, AllNearer;
    NearestParts(id, k, all, list);
    LastStays(id, k, list, n, r);
    SortedSplit(id, r, k);
    LastOnly(r, k);
    Separate(id, r, k);
    NotListed(list, n);
    FarthestOut(id, k, all, list, n, r[..k]);
  }

  lemma NotListed(list: seq<DhtNode>, n: DhtNode)
    requires list != []
    ensures list[|list| - 1] in Members(list)
  {}

  lemma NearestParts(id: Key, k: nat, all: set<DhtNode>, list: seq<DhtNode>)
    requires Nearest(id, k, all, list)
    ensures Sorted(id, list) && Members(list) <= all
  {}

  lemma LastOnly(r: seq<DhtNode>, k: nat)
    requires |r| == k + 1
    ensures Members(r[k..]) == {r[k]}
  {
    assert r[k..] == [r[k]];
  }

  lemma LastStays(id: Key, k: nat, list: seq<DhtNode>, n: DhtNode, r: seq<DhtNode>)
    requires Sorted(id, list) && |list| == k > 0 && n !in Members(list) && Nearer(id, n.key, list[k - 1].key)
    requires Sorted(id, r) && Members(r) == Members(list) + {n}
    ensures |r| == k + 1 && r[k] == list[k - 1]
  {
    hide Nearer;
    var last := list[k - 1];
    SortedSize(id, list);
    SortedSize(id, r);
    assert last in Members(list) && last in Members(r);
    var i :| 0 <= i < |r| && r[i] == last;
    if i < k {
      assert r[k] in Members(r);
      LastIsFarthest(id, list, n, r[k]);
    }
  }

  lemma LastIsFarthest(id: Key, list: seq<DhtNode>, n: DhtNode, x: DhtNode)
    requires Sorted(id, list) && list != [] && Nearer(id, n.key, list[|list| - 1].key) && x in Members(list) + {n}
    ensures !Nearer(id, list[|list| - 1].key, x.key)
  {
    hide Nearer;
    var last := list[|list| - 1];
    if x == n {
      NearerAsymmetric(id, n.key, last.key);
    } else {
      var i :| 0 <= i < |list| && list[i] == x;
      if i < |list| - 1 {
        NearerAsymmetric(id, x.key, last.key);
      } else if Nearer(id, last.key, x.key) {
        NearerAsymmetric(id, last.key, x.key);
      }
    }
  }

  lemma Separate(id: Key, r: seq<DhtNode>, k: nat)
    requires Sorted(id, r) && |r| == k + 1
    ensures r[k] !in Members(r[..k])
  {
    hide Nearer;
    if r[k] in r[..k] {
      var i :| 0 <= i < k && r[i] == r[k];
      NearerAsymmetric(id, r[i].key, r[k].key);
    }
  }

  lemma FarthestOut(id: Key, k: nat, all: set<DhtNode>, list: seq<DhtNode>, n: DhtNode, r: seq<DhtNode>)
    requires Nearest(id, k, all, list) && |list| == k > 0 && n !in all && Nearer(id, n.key, list[k - 1].key)
    requires Sorted(id, r) && |r| == k && Members(r) == Members(list) + {n} - {list[k - 1]}
    requires AllNearer(id, Members(r), {list[k - 1]})
    ensures Nearest(id, k, all + {n}, r)
  {
    hide Nearer, Sorted;
    var last := list[k - 1];
    assert last in Members(list);
    SortedSize(id, list);
    SubsetSize(Members(list), all);
    forall x, y | x in Members(r) && y in all + {n} - Members(r) ensures Nearer(id, x.key, y.key) {
      if y != last {
        assert y in all - Members(list);
        NearerTransitive(id, x.key, last.key, y.key);
      }
    }
  }

  // ----- the bookkeeping of a query -----

  ghost predicate Knows(offered: set<DhtNode>, x: Key) {
    exists n :: n in offered && n.key == x
  }

  /**
    `list` is the k nearest of all nodes offered so far, pending nodes are listed, no node is asked
    twice, nobody asked is pending again, and every listed node is pending or asked.
  */
  ghost predicate Track(key: Key, k: nat, offered: set<DhtNode>, list: seq<DhtNode>, pending: set<Key>, asked: seq<Key>) {
    && DistinctKeys(offered) && Nearest(key, k, offered, list)
    && pending <= KeysOf(list)
    && (forall i, j :: 0 <= i < j < |asked| ==> asked[i] != asked[j])
    && (forall x :: x in asked ==> x !in pending && Knows(offered, x))
    && (forall n :: n in list ==> n.key in pending || n.key in asked)
  }

  lemma KnowsMore(offered: set<DhtNode>, n: DhtNode)
    ensures forall x :: Knows(offered + {n}, x) <==> Knows(offered, x) || x == n.key
  {
    assert n in offered + {n};
  }

  lemma NewDistinct(offered: set<DhtNode>, n: DhtNode)
    requires DistinctKeys(offered) && !Knows(offered, n.key)
    ensures DistinctKeys(offered + {n}) && n !in offered
  {}

  lemma {:induction false} ListFacts(key: Key, k: nat, offered: set<DhtNode>, list: seq<DhtNode>)
    requires Nearest(key, k, offered, list)
    ensures Sorted(key, list) && (forall n :: n in list ==> n in offered) && |list| <= k
    ensures |list| < k ==> forall n :: n in offered ==> n in list
  {
    hide Nearer;
    SortedSize(key, list);
    SubsetSize(Members(list), offered);
    forall n | n in list ensures n in offered {
      assert n in Members(list);
    }
    if |list| < k {
      assert Members(list) == offered;
    }
  }

  lemma ListedTrack(key: Key, k: nat, offered: set<DhtNode>, list: seq<DhtNode>, pending: set<Key>, asked: seq<Key>, n: DhtNode)
    requires Track(key, k, offered, list, pending, asked) && n.key in KeysOf(list)
    ensures Knows(offered, n.key)
  {
    hide Nearest;
    ListFacts(key, k, offered, list);
  }

  lemma GrowTrack(key: Key, k: nat, offered: set<DhtNode>, list: seq<DhtNode>, pending: set<Key>, asked: seq<Key>,
                  n: DhtNode, r: seq<DhtNode>)
    requires Track(key, k, offered, list, pending, asked) && |list| < k && n.key !in KeysOf(list)
    requires Sorted(key, r) && Members(r) == Members(list) + {n}
    ensures Track(key, k, offered + {n}, r, pending + {n.key}, asked) && !Knows(offered, n.key)
  {
    hide Nearest, Sorted;
    ListFacts(key, k, offered, list);
    assert !Knows(offered, n.key);
    NewDistinct(offered, n);
    NearestGrow(key, k, offered, list, n, r);
    KnowsMore(offered, n);
    SameMembers(r, list, n);
  }

  lemma SameMembers(r: seq<DhtNode>, list: seq<DhtNode>, n: DhtNode)
    requires Members(r) == Members(list) + {n}
    ensures forall x :: x in r <==> x in list || x == n
    ensures KeysOf(r) == KeysOf(list) + {n.key}
  {
    assert forall x :: x in Members(r) <==> x in r;
  }

  /** A node that was pushed out, or never got in, is farther than the whole list: it can never come back. */
  lemma NeverBack(key: Key, k: nat, offered: set<DhtNode>, list: seq<DhtNode>, n: DhtNode)
    requires Nearest(key, k, offered, list) && |list| == k > 0 && n.key !in KeysOf(list) && Knows(offered, n.key)
    ensures !Nearer(key, n.key, list[k - 1].key)
  {
    hide Nearer;
    var m :| m in offered && m.key == n.key;
    assert m !in list;
    assert list[k - 1] in Members(list) && m in offered - Members(list);
    NearerAsymmetric(key, list[k - 1].key, m.key);
  }

  lemma ReplaceTrack(key: Key, k: nat, offered: set<DhtNode>, list: seq<DhtNode>, pending: set<Key>, asked: seq<Key>,
                     n: DhtNode, r: seq<DhtNode>)
    requires Track(key, k, offered, list, pending, asked) && |list| == k > 0 && n.key !in KeysOf(list)
    requires Nearer(key, n.key, list[k - 1].key) && Sorted(key, r) && Members(r) == Members(list) + {n}
    ensures |r| == k + 1 && r[k] == list[k - 1]
    ensures Track(key, k, offered + {n}, r[..k], pending + {n.key} - {list[k - 1].key}, asked) && !Knows(offered, n.key)
  {
    hide Nearest, Sorted, Nearer;
    var last := list[k - 1];
    if Knows(offered, n.key) {
      NeverBack(key, k, offered, list, n);
    }
    NewDistinct(offered, n);
    NearestReplace(key, k, offered, list, n, r);
    KnowsMore(offered, n);
    ListFacts(key, k, offered, list);
    assert last in list;
    forall x ensures x in r[..k] <==> (x in list && x != last) || x == n {
      assert x in Members(r[..k]) <==> x in Members(list) - {last} + {n};
    }
    forall y | y in pending + {n.key} - {last.key} ensures y in KeysOf(r[..k]) {
      if y != n.key {
        var m :| m in list && m.key == y;
        assert m in r[..k];
      } else {
        assert n in r[..k];
      }
    }
  }

  lemma IgnoreTrack(key: Key, k: nat, offered: set<DhtNode>, list: seq<DhtNode>, pending: set<Key>, asked: seq<Key>, n: DhtNode)
    requires Track(key, k, offered, list, pending, asked) && |list| == k > 0 && n.key !in KeysOf(list)
    requires !Nearer(key, n.key, list[k - 1].key) && !Knows(offered, n.key)
    ensures Track(key, k, offered + {n}, list, pending, asked)
  {
    hide Nearest, Nearer;
    NewDistinct(offered, n);
    assert list[k - 1] in list;
    NearerTotal(key, n.key, list[k - 1].key);
    NearestIgnore(key, k, offered, list, n);
    KnowsMore(offered, n);
  }

  lemma AskTrack(key: Key, k: nat, offered: set<DhtNode>, list: seq<DhtNode>, pending: set<Key>, asked: seq<Key>, x: Key)
    requires Track(key, k, offered, list, pending, asked) && x in pending
    ensures Track(key, k, offered, list, pending - {x}, asked + [x]) && x !in asked
  {
    hide Nearest;
    ListFacts(key, k, offered, list);
    assert forall y :: y in asked + [x] <==> y in asked || y == x;
    var n :| n in list && n.key == x;
    assert Knows(offered, x);
  }

  method Contains(list: seq<DhtNode>, x: Key) returns (found: bool)
    ensures found <==> x in KeysOf(list)
  {
    for i := 0 to |list|
      invariant forall j :: 0 <= j < i ==> list[j].key != x
    {
      if list[i].key == x {
        assert list[i] in list;
        return true;
      }
    }
    return false;
  }

  /** The keys `xs` were taken out of `before`, nearest first, and `after` is what is left. */
  ghost predicate Chosen(key: Key, before: set<Key>, xs: seq<Key>, after: set<Key>) {
    && (forall x :: x in before <==> x in xs || x in after)
    && (forall x :: x in xs ==> x !in after)
    && (forall i, y :: 0 <= i < |xs| && (y in after || y in xs[i + 1..]) ==> Nearer(key, xs[i], y))
  }

  lemma ChosenSnoc(key: Key, before: set<Key>, xs: seq<Key>, after: set<Key>, x: Key)
    requires Chosen(key, before, xs, after) && x in after && forall y :: y in after && y != x ==> Nearer(key, x, y)
    ensures Chosen(key, before, xs + [x], after - {x})
  {
    hide Nearer;
    var more := xs + [x];
    forall i, y | 0 <= i < |more| && (y in after - {x} || y in more[i + 1..]) ensures Nearer(key, more[i], y) {
      if i < |xs| {
        assert more[i + 1..] == xs[i + 1..] + [x];
      }
    }
  }

  class Query {
    const key: Key
    const k: nat
    const a: nat
    var list: seq<DhtNode>
    var pending: set<Key>
    var active: nat
    var finished: bool
    ghost var offered: set<DhtNode>
    ghost var asked: seq<Key>
    ghost var answers: seq<seq<DhtNode>>

    ghost predicate Tracks()
      reads this
    {
      0 < k && 0 < a && active <= a && Track(key, k, offered, list, pending, asked)
    }

    /** Between answers: as many queries run as the budget allows, and the lookup ends when none does. */
    ghost predicate Valid()
      reads this
    {
      && Tracks() && (finished <==> active == 0) && (pending != {} ==> active == a)
      && (k == 1 ==> active <= 1)
    }

    constructor (key: Key, k: nat, a: nat, nodes: seq<DhtNode>)
      requires 0 < k && 0 < a
      ensures Tracks() && active == 0 && !finished && asked == []
      ensures this.key == key && this.k == k && this.a == a && answers == []
      ensures forall n :: n in nodes ==> Knows(offered, n.key)
      ensures forall n :: n in offered ==> n in nodes
    {
      this.key, this.k, this.a := key, k, a;
      list, pending, active, finished, offered, asked, answers := [], {}, 0, false, {}, [], [];
      new;
      AddNodes(nodes);
    }

    /** `add_nodes`: afterwards the list is the k nearest of everything ever offered. */
    method AddNodes(nodes: seq<DhtNode>)
      requires Tracks()
      modifies this`list, this`pending, this`offered
      ensures Tracks() && old(offered) <= offered
      ensures forall n :: n in nodes ==> Knows(offered, n.key)
      ensures forall n :: n in offered ==> n in old(offered) || n in nodes
    {
      hide Track;
      for i := 0 to |nodes|
        invariant Tracks() && old(offered) <= offered
        invariant forall j :: 0 <= j < i ==> Knows(offered, nodes[j].key)
        invariant forall n :: n in offered ==> n in old(offered) || n in nodes
      {
        ghost var before := offered;
        AddNode(nodes[i]);
        KnowsMore(before, nodes[i]);
      }
    }

    method AddNode(n: DhtNode)
      requires Tracks()
      modifies this`list, this`pending, this`offered
      ensures Tracks()
      ensures offered == old(offered) + if Knows(old(offered), n.key) then {} else {n}
    {
      hide Nearer, Track, Nearest, Sorted;
      TrackList(key, k, offered, list, pending, asked);
      var found := Contains(list, n.key);
      if found {
        ListedTrack(key, k, offered, list, pending, asked, n);
        return;
      }
      if |list| < k {
        var longer := Insert(key, list, n);
        GrowTrack(key, k, offered, list, pending, asked, n, longer);
        list, pending, offered := longer, pending + {n.key}, offered + {n};
      } else if Nearer(key, n.key, list[|list| - 1].key) {
        var longer := Insert(key, list, n);
        ReplaceTrack(key, k, offered, list, pending, asked, n, longer);
        list, pending, offered := longer[..k], pending + {n.key} - {list[|list| - 1].key}, offered + {n};
      } else if !Known(n) {
        IgnoreTrack(key, k, offered, list, pending, asked, n);
        offered := offered + {n};
      }
    }

    ghost predicate Known(n: DhtNode)
      reads this
    {
      Knows(offered, n.key)
    }

    /** The nearest pending node: pending nodes are listed, and the list is in order of distance. */
    method FirstPending() returns (x: Key)
      requires Tracks() && pending != {}
      ensures x in pending && forall y :: y in pending && y != x ==> Nearer(key, x, y)
    {
      hide Nearer, Track, Nearest;
      TrackList(key, k, offered, list, pending, asked);
      var i := 0;
      ghost var p := PendingPlace(list, pending);
      while list[i].key !in pending
        invariant i <= p && forall j :: 0 <= j < i ==> list[j].key !in pending
        decreases |list| - i
      {
        i := i + 1;
      }
      x := list[i].key;
      FirstIsNearest(key, list, pending, i);
    }

    /** `send_queries`: ask the nearest pending nodes while the budget lasts; finish when nobody is left. */
    method SendQueries()
      requires Tracks() && !finished && (k == 1 ==> active == 0)
      modifies this`pending, this`active, this`finished, this`asked
      ensures Valid() && old(asked) <= asked
      ensures forall x :: x in pending ==> x in old(pending)
      ensures |asked| - |old(asked)| == active - old(active)
      ensures Chosen(key, old(pending), asked[|old(asked)|..], pending)
      ensures finished ==> forall n :: n in list ==> n.key in asked
    {
      hide Track, Nearer;
      PendingBound(key, k, offered, list, pending, asked);
      while pending != {} && active < a
        invariant Tracks() && !finished && old(asked) <= asked && old(active) <= active
        invariant active + |pending| == old(active) + |old(pending)|
        invariant forall x :: x in pending ==> x in old(pending)
        invariant |asked| - |old(asked)| == active - old(active)
        invariant Chosen(key, old(pending), asked[|old(asked)|..], pending)
        decreases a - active
      {
        var x := FirstPending();
        AskTrack(key, k, offered, list, pending, asked, x);
        ChosenSnoc(key, old(pending), asked[|old(asked)|..], pending, x);
        active, pending := active + 1, pending - {x};
        asked := asked + [x];
        assert asked[|old(asked)|..] == asked[|old(asked)|..|asked| - 1] + [x];
      }
      if active == 0 {
        TrackList(key, k, offered, list, pending, asked);
        finished := true;
      }
    }

    /**
      `on_result`: an answer, or none, to a query that is running.  `finish_query` decrements, checks
      `active_queries_ <= k_` and sends more; the check holds in every run when k == 1 or a <= k + 1,
      because at most a queries run at a time, and only one if the list has one place.
    */
    method OnResult(nodes: seq<DhtNode>)
      requires Valid() && !finished && (k == 1 || a <= k + 1 || active <= k + 1)
      modifies this
      ensures Valid() && old(asked) <= asked && old(offered) <= offered
      ensures forall n :: n in nodes ==> Knows(offered, n.key)
      ensures forall n :: n in offered ==> n in old(offered) || n in nodes
      ensures |asked| - |old(asked)| == active - old(active) + 1
      ensures answers == old(answers) + [nodes]
      ensures finished ==> forall n :: n in list ==> n.key in asked
    {
      hide Track;
      AddNodes(nodes);
      answers := answers + [nodes];
      active := active - 1;
      assert active <= k;
      SendQueries();
    }
  }

  /** No more nodes are pending than the list has places. */
  lemma PendingBound(key: Key, k: nat, offered: set<DhtNode>, list: seq<DhtNode>, pending: set<Key>, asked: seq<Key>)
    requires Track(key, k, offered, list, pending, asked)
    ensures |pending| <= k
  {
    hide Track, Nearest;
    TrackList(key, k, offered, list, pending, asked);
    KeysBound(list);
    SubsetSize(pending, KeysOf(list));
  }

  lemma {:induction false} KeysBound(list: seq<DhtNode>)
    ensures |KeysOf(list)| <= |list|
  {
    if list == [] {
      assert KeysOf(list) == {};
    } else {
      var n := |list| - 1;
      KeysBound(list[..n]);
      assert list == list[..n] + [list[n]];
      assert KeysOf(list) == KeysOf(list[..n]) + {list[n].key};
    }
  }

  lemma PendingPlace(list: seq<DhtNode>, pending: set<Key>) returns (p: nat)
    requires pending != {} && pending <= KeysOf(list)
    ensures p < |list| && list[p].key in pending
  {
    var z :| z in pending;
    var m :| m in list && m.key == z;
    p :| 0 <= p < |list| && list[p] == m;
  }

  lemma FirstIsNearest(key: Key, list: seq<DhtNode>, pending: set<Key>, i: nat)
    requires Sorted(key, list) && pending <= KeysOf(list) && i < |list|
    requires forall j :: 0 <= j < i ==> list[j].key !in pending
    ensures forall y :: y in pending && y != list[i].key ==> Nearer(key, list[i].key, y)
  {
    hide Nearer;
    forall y | y in pending && y != list[i].key ensures Nearer(key, list[i].key, y) {
      var n :| n in list && n.key == y;
      var j :| 0 <= j < |list| && list[j] == n;
    }
  }

  lemma TrackList(key: Key, k: nat, offered: set<DhtNode>, list: seq<DhtNode>, pending: set<Key>, asked: seq<Key>)
    requires Track(key, k, offered, list, pending, asked)
    ensures Sorted(key, list) && |list| <= k && Nearest(key, k, offered, list)
    ensures pending == {} ==> forall n :: n in list ==> n.key in asked
    ensures pending <= KeysOf(list)
  {
    hide Nearest;
    ListFacts(key, k, offered, list);
  }
}
