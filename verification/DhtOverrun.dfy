/** The check on `active_queries_` is only safe when k == 1 or a <= k + 1: otherwise two answers break it. */
module DhtOverrun {
  import opened DhtKeys
  import opened DhtBucket
  import opened DhtLookup
  import opened DhtQuery

  /** The key with only bit `i` set; later bits are nearer to zero. */
  function BitKey(i: nat): (r: Key)
    ensures forall j :: 0 <= j < BITS ==> r[j] == (j == i)
  {
    seq(BITS, j requires 0 <= j < BITS => j == i)
  }

  function Zero(): (r: Key)
    ensures forall j :: 0 <= j < BITS ==> !r[j]
  {
    seq(BITS, _ => false)
  }

  function NodeAt(i: nat): DhtNode {
    DhtNode(BitKey(i), 0, true, 0)
  }

  lemma LaterIsNearer(i: nat, j: nat)
    requires i < j < BITS
    ensures Nearer(Zero(), BitKey(j), BitKey(i)) && BitKey(i) != BitKey(j)
  {
    assert LessAt(Xor(Zero(), BitKey(j)), Xor(Zero(), BitKey(i)), i);
    assert BitKey(i)[i] && !BitKey(j)[i];
  }

  /** The nodes of bits `lo` to `hi`, the latter excluded. */
  function Nodes(lo: nat, hi: nat): (r: seq<DhtNode>)
    requires lo <= hi
    ensures |r| == hi - lo && forall i :: 0 <= i < |r| ==> r[i] == NodeAt(lo + i)
  {
    seq(hi - lo, i requires 0 <= i => NodeAt(lo + i))
  }

  ghost function NodeSet(lo: nat, hi: nat): set<DhtNode>
    requires lo <= hi
  {
    Members(Nodes(lo, hi))
  }

  lemma NodeSetSplit(lo: nat, mid: nat, hi: nat)
    requires lo <= mid <= hi
    ensures NodeSet(lo, hi) == NodeSet(lo, mid) + NodeSet(mid, hi)
  {
    assert Nodes(lo, hi) == Nodes(lo, mid) + Nodes(mid, hi);
    MembersConcat(Nodes(lo, mid), Nodes(mid, hi));
  }

  ghost function KeySet(lo: nat, hi: nat): set<Key>
    requires lo <= hi
  {
    KeysOf(Nodes(lo, hi))
  }

  lemma KeySetSplit(lo: nat, mid: nat, hi: nat)
    requires lo <= mid <= hi
    ensures KeySet(lo, hi) == KeySet(lo, mid) + KeySet(mid, hi)
  {
    assert Nodes(lo, hi) == Nodes(lo, mid) + Nodes(mid, hi);
  }

  lemma {:induction false} KeySetSize(lo: nat, hi: nat)
    requires lo <= hi <= BITS
    ensures |KeySet(lo, hi)| == hi - lo && |NodeSet(lo, hi)| == hi - lo
    decreases hi
  {
    hide Nodes, BitKey;
    if lo == hi {
      NoNodes(lo);
    } else {
      KeySetSize(lo, hi - 1);
      KeySetSplit(lo, hi - 1, hi);
      NodeSetSplit(lo, hi - 1, hi);
      NewNode(lo, hi - 1);
    }
  }

  lemma NoNodes(lo: nat)
    ensures KeySet(lo, lo) == {} && NodeSet(lo, lo) == {}
  {}

  lemma NewNode(lo: nat, m: nat)
    requires lo <= m < BITS
    ensures KeySet(m, m + 1) == {BitKey(m)} && NodeSet(m, m + 1) == {NodeAt(m)}
    ensures BitKey(m) !in KeySet(lo, m) && NodeAt(m) !in NodeSet(lo, m)
  {
    hide BitKey;
    assert Nodes(m, m + 1) == [NodeAt(m)];
    forall n | n in Nodes(lo, m) ensures n.key != BitKey(m) {
      var i :| 0 <= i < m - lo && Nodes(lo, m)[i] == n;
      LaterIsNearer(lo + i, m);
    }
  }

  /** The latest `k` nodes push out all earlier ones. */
  lemma LatestListed(k: nat, lo: nat, list: seq<DhtNode>, n: DhtNode)
    requires lo + k <= BITS && Nearest(Zero(), k, NodeSet(0, lo + k), list) && n in NodeSet(lo, lo + k)
    ensures n in list
  {
    hide Nearer, Nodes, Sorted;
    NodeSetSplit(0, lo, lo + k);
    KeySetSize(0, lo + k);
    KeySetSize(lo, lo + k);
    SortedSize(Zero(), list);
    if Members(list) <= NodeSet(lo, lo + k) {
      SubsetSize(Members(list), NodeSet(lo, lo + k));
      assert n in Members(list);
    } else if n !in list {
      var y :| y in Members(list) && y !in NodeSet(lo, lo + k);
      EarlierIsFarther(lo, k, y, n);
      NearerAsymmetric(Zero(), n.key, y.key);
    }
  }

  lemma EarlierIsFarther(lo: nat, k: nat, y: DhtNode, n: DhtNode)
    requires lo + k <= BITS && y in NodeSet(0, lo) && n in NodeSet(lo, lo + k)
    ensures Nearer(Zero(), n.key, y.key)
  {
    hide Nearer;
    var i :| 0 <= i < lo && Nodes(0, lo)[i] == y;
    var j :| 0 <= j < k && Nodes(lo, lo + k)[j] == n;
    LaterIsNearer(i, lo + j);
  }

  lemma {:induction false} SeqSize(s: seq<Key>)
    requires forall i, j :: 0 <= i < j < |s| ==> s[i] != s[j]
    ensures |(set x | x in s)| == |s|
  {
    if s == [] {
      assert (set x | x in s) == {};
    } else {
      var n := |s| - 1;
      SeqSize(s[..n]);
      assert s == s[..n] + [s[n]];
      assert (set x | x in s) == (set x | x in s[..n]) + {s[n]};
    }
  }

  /** How many nodes have been asked, when all of bits `0 .. n` were offered and all of `0 .. m` asked. */
  lemma AskedBounds(q: Query, n: nat, m: nat)
    requires q.Tracks() && m <= n <= BITS && q.offered == NodeSet(0, n)
    requires forall x :: x in KeySet(0, m) ==> x in q.asked
    ensures m <= |q.asked| <= n
  {
    hide Nearest;
    SeqSize(q.asked);
    KeySetSize(0, n);
    KeySetSize(0, m);
    var asked := set x | x in q.asked;
    SubsetSize(KeySet(0, m), asked);
    forall x | x in asked ensures x in KeySet(0, n) {
      assert Knows(q.offered, x);
    }
    SubsetSize(asked, KeySet(0, n));
  }

  lemma AllListedAsked(q: Query, lo: nat)
    requires q.Tracks() && q.pending == {} && q.key == Zero() && lo + q.k <= BITS && q.offered == NodeSet(0, lo + q.k)
    requires forall x :: x in KeySet(0, lo) ==> x in q.asked
    ensures forall x :: x in KeySet(0, lo + q.k) ==> x in q.asked
  {
    hide Nearest;
    KeySetSplit(0, lo, lo + q.k);
    forall x | x in KeySet(lo, lo + q.k) ensures x in q.asked {
      var n :| n in Nodes(lo, lo + q.k) && n.key == x;
      LatestListed(q.k, lo, q.list, n);
    }
  }

  lemma Offered(q: set<DhtNode>, lo: nat, hi: nat, before: set<DhtNode>)
    requires lo <= hi && before == NodeSet(0, lo) && before <= q
    requires forall n :: n in q ==> n in before || n in Nodes(lo, hi)
    requires forall n :: n in Nodes(lo, hi) ==> Knows(q, n.key)
    requires hi <= BITS
    ensures q == NodeSet(0, hi)
  {
    NodeSetSplit(0, lo, hi);
    forall n | n in NodeSet(lo, hi) ensures n in q {
      var m :| m in q && m.key == n.key;
      SameNode(m, n, hi);
    }
  }

  lemma SameNode(m: DhtNode, n: DhtNode, hi: nat)
    requires hi <= BITS && m in NodeSet(0, hi) && n in NodeSet(0, hi) && m.key == n.key
    ensures m == n
  {
    var i :| 0 <= i < hi && Nodes(0, hi)[i] == m;
    var j :| 0 <= j < hi && Nodes(0, hi)[j] == n;
    if i < j {
      LaterIsNearer(i, j);
    } else if j < i {
      LaterIsNearer(j, i);
    }
  }

  /** With k >= 2 and a >= k + 2, at most two answers lead to more than k + 1 running queries: the next one fails the check. */
  method Overrun(k: nat, a: nat) returns (q: Query)
    requires 2 <= k && 3 * k <= BITS && a >= k + 2
    ensures fresh(q) && q.Valid() && q.k == k && q.a == a && q.active > q.k + 1
    ensures |q.answers| <= 2 && forall i :: 0 <= i < |q.answers| ==> q.answers[i] == Nodes((i + 1) * k, (i + 2) * k)
  {
    hide Nearer, Track, Nodes;
    q := new Query(Zero(), k, a, Nodes(0, k));
    NodeSetNothing();
    Offered(q.offered, 0, k, {});
    q.SendQueries();
    KeySetNothing();
    if q.pending == {} {
      AllListedAsked(q, 0);
    }
    AskedBounds(q, k, if q.pending == {} then k else 0);
    Answer(q, k);
    if q.active <= k + 1 {
      Answer(q, 2 * k);
    }
    assert 0 < |q.answers| <= 2;
  }

  /** One answer with `k` nearer nodes. */
  method Answer(q: Query, lo: nat)
    requires q.Valid() && !q.finished && q.active <= q.k + 1 && q.key == Zero() && 2 <= q.k <= lo && lo + q.k <= BITS
    requires q.offered == NodeSet(0, lo) && (forall x :: x in KeySet(0, lo) ==> x in q.asked) && |q.asked| == lo
    modifies q
    ensures q.Valid() && !q.finished && q.offered == NodeSet(0, lo + q.k)
    ensures q.answers == old(q.answers) + [Nodes(lo, lo + q.k)]
    ensures if q.pending == {}
            then (forall x :: x in KeySet(0, lo + q.k) ==> x in q.asked) && |q.asked| == lo + q.k && q.active == old(q.active) - 1 + q.k
            else q.active == q.a
  {
    hide Nearer, Track, Nodes;
    q.OnResult(Nodes(lo, lo + q.k));
    Offered(q.offered, lo, lo + q.k, old(q.offered));
    forall x | x in KeySet(0, lo) ensures x in q.asked {
      assert x in old(q.asked);
    }
    if q.pending == {} {
      AllListedAsked(q, lo);
      AskedBounds(q, lo + q.k, lo + q.k);
    }
  }

  lemma NodeSetNothing()
    ensures NodeSet(0, 0) == {}
  {}

  lemma KeySetNothing()
    ensures KeySet(0, 0) == {}
  {}
}
