/** Lookup in the routing table: one upward and one downward sweep over the buckets. */
module DhtLookup {
  import opened DhtKeys
  import opened DhtBucket

  // ----- the specification: sort by distance and take k -----

  ghost predicate Sorted(id: Key, vec: seq<DhtNode>) {
    forall i, j :: 0 <= i < j < |vec| ==> Nearer(id, vec[i].key, vec[j].key)
  }

  ghost function Members(vec: seq<DhtNode>): set<DhtNode> {
    set n | n in vec
  }

  ghost predicate AllNearer(id: Key, s: set<DhtNode>, t: set<DhtNode>) {
    forall x, y :: x in s && y in t ==> Nearer(id, x.key, y.key)
  }

  /** `vec` is the `k` nodes of `all` nearest to `id`, in increasing distance. */
  ghost predicate Nearest(id: Key, k: nat, all: set<DhtNode>, vec: seq<DhtNode>) {
    && Sorted(id, vec) && Members(vec) <= all
    && |vec| == (if |all| < k then |all| else k)
    && AllNearer(id, Members(vec), all - Members(vec))
  }

  lemma {:induction false} SortedSize(id: Key, vec: seq<DhtNode>)
    requires Sorted(id, vec)
    ensures |Members(vec)| == |vec|
  {
    hide Nearer;
    if vec == [] {
      assert Members(vec) == {};
    } else {
      var n := |vec| - 1;
      SortedSize(id, vec[..n]);
      assert vec == vec[..n] + [vec[n]];
      forall x | x in vec[..n] ensures x != vec[n] {
        var i :| 0 <= i < n && vec[i] == x;
        NearerAsymmetric(id, vec[i].key, vec[n].key);
      }
      assert Members(vec) == Members(vec[..n]) + {vec[n]};
    }
  }

  lemma SubsetSize<T>(s: set<T>, t: set<T>)
    requires s <= t
    ensures |s| <= |t| && (|s| == |t| ==> s == t)
  {
    var d := t - s;
    assert t == s + d;
    if d == {} {
    } else {
      var x :| x in d;
      assert |d| > 0;
    }
  }

  lemma SizeOfUnion<T>(s: set<T>, t: set<T>)
    requires s !! t
    ensures |s + t| == |s| + |t|
  {}

  /** The specification has only one solution when keys are distinct. */
  lemma {:induction false} NearestUnique(id: Key, k: nat, all: set<DhtNode>, v: seq<DhtNode>, w: seq<DhtNode>)
    requires Nearest(id, k, all, v) && Nearest(id, k, all, w)
    ensures v == w
  {
    if v != [] {
      SortedSize(id, v);
      SortedSize(id, w);
      Head(id, k, all, v, w);
      Head(id, k, all, w, v);
      if v[0] != w[0] {
        NearerAsymmetric(id, v[0].key, w[0].key);
      }
      Rest(id, k, all, v);
      Rest(id, k, all, w);
      NearestUnique(id, k - 1, all - {v[0]}, v[1..], w[1..]);
    }
  }

  lemma Head(id: Key, k: nat, all: set<DhtNode>, v: seq<DhtNode>, w: seq<DhtNode>)
    requires Nearest(id, k, all, v) && Nearest(id, k, all, w) && v != [] && w != []
    ensures v[0] == w[0] || Nearer(id, v[0].key, w[0].key)
  {
    assert w[0] in Members(w);
    if w[0] in v {
      var i :| 0 <= i < |v| && v[i] == w[0];
    } else {
      assert v[0] in Members(v) && w[0] in all - Members(v);
    }
  }

  lemma Rest(id: Key, k: nat, all: set<DhtNode>, v: seq<DhtNode>)
    requires Nearest(id, k, all, v) && v != []
    ensures k > 0 && Nearest(id, k - 1, all - {v[0]}, v[1..])
  {
    hide Nearer;
    var r := v[1..];
    assert v == [v[0]] + r;
    assert Sorted(id, r);
    if v[0] in r {
      var i :| 0 <= i < |r| && r[i] == v[0];
      assert Nearer(id, v[0].key, v[i + 1].key);
      NearerAsymmetric(id, v[0].key, v[i + 1].key);
    }
    assert v[0] in Members(v);
    assert Members(v) == Members(r) + {v[0]};
    assert (all - {v[0]}) - Members(r) == all - Members(v);
  }

  lemma NearestSize(id: Key, k: nat, all: set<DhtNode>, vec: seq<DhtNode>)
    requires Nearest(id, k, all, vec)
    ensures |vec| <= k && (|vec| < k ==> |vec| == |all|)
  {}

  lemma MembersConcat(a: seq<DhtNode>, b: seq<DhtNode>)
    ensures Members(a + b) == Members(a) + Members(b)
  {}

  lemma SortedConcat(id: Key, a: seq<DhtNode>, b: seq<DhtNode>)
    requires Sorted(id, a) && Sorted(id, b) && AllNearer(id, Members(a), Members(b))
    ensures Sorted(id, a + b)
  {
    hide Nearer;
    var r := a + b;
    forall i, j | 0 <= i < j < |r| ensures Nearer(id, r[i].key, r[j].key) {
      if i < |a| <= j {
        assert r[i] in Members(a) && r[j] in Members(b);
      }
    }
  }

  lemma SortedSplit(id: Key, l: seq<DhtNode>, m: nat)
    requires Sorted(id, l) && m <= |l|
    ensures Sorted(id, l[..m]) && AllNearer(id, Members(l[..m]), Members(l[m..]))
    ensures Members(l) == Members(l[..m]) + Members(l[m..])
  {
    hide Nearer;
    assert l == l[..m] + l[m..];
    MembersConcat(l[..m], l[m..]);
    forall x, y | x in Members(l[..m]) && y in Members(l[m..]) ensures Nearer(id, x.key, y.key) {
      var i :| 0 <= i < m && l[i] == x;
      var j :| 0 <= j < |l| - m && l[m..][j] == y;
      assert y == l[m + j];
    }
  }

  /** Take as many of the farther nodes as still fit. */
  lemma NearestAppend(id: Key, k: nat, s: set<DhtNode>, vec: seq<DhtNode>, l: seq<DhtNode>, m: nat)
    requires Nearest(id, k, s, vec) && Sorted(id, l) && AllNearer(id, s, Members(l)) && s !! Members(l)
    requires m == if k - |vec| < |l| then k - |vec| else |l|
    ensures Nearest(id, k, s + Members(l), vec + l[..m])
  {
    hide Nearer, Sorted, Members;
    var r, t := vec + l[..m], Members(l);
    SortedSize(id, l);
    SortedSize(id, vec);
    SizeOfUnion(s, t);
    if |vec| < k {
      SubsetSize(Members(vec), s);
    }
    SortedSplit(id, l, m);
    SortedConcat(id, vec, l[..m]);
    MembersConcat(vec, l[..m]);
    if m == 0 {
      NoMembers(l[..m]);
    }
  }

  lemma NoMembers(l: seq<DhtNode>)
    ensures l == [] ==> Members(l) == {}
  {}

  /** Farther nodes do not matter once `k` are found. */
  lemma NearestStop(id: Key, k: nat, s: set<DhtNode>, vec: seq<DhtNode>, t: set<DhtNode>)
    requires Nearest(id, k, s, vec) && |vec| == k && AllNearer(id, s, t)
    ensures Nearest(id, k, s + t, vec)
  {
    SubsetSize(s, s + t);
  }

  // ----- one bucket -----

  ghost function Nodes(slots: seq<Slot>): set<DhtNode> {
    set i | 0 <= i < |slots| && slots[i].Some? :: slots[i].value.node
  }

  /** The ordered map that `DhtBucket::get_nearest_nodes` fills, entry by entry. */
  method Insert(id: Key, list: seq<DhtNode>, n: DhtNode) returns (r: seq<DhtNode>)
    requires Sorted(id, list) && forall x :: x in list ==> x.key != n.key
    ensures Sorted(id, r) && Members(r) == Members(list) + {n}
  {
    hide Nearer;
    var i := 0;
    while i < |list| && Nearer(id, list[i].key, n.key)
      invariant i <= |list| && forall j :: 0 <= j < i ==> Nearer(id, list[j].key, n.key)
    {
      i := i + 1;
    }
    r := list[..i] + [n] + list[i..];
    assert list == list[..i] + list[i..];
    if i < |list| {
      NearerTotal(id, list[i].key, n.key);
    }
    forall a, b | 0 <= a < b < |r| ensures Nearer(id, r[a].key, r[b].key) {
      if a == i && b > i + 1 {
        assert Nearer(id, list[i].key, list[b - 1].key);
        NearerTransitive(id, n.key, list[i].key, list[b - 1].key);
      }
    }
  }

  method SortActive(id: Key, slots: seq<Slot>) returns (list: seq<DhtNode>)
    requires Distinct(slots)
    ensures Sorted(id, list) && Members(list) == Nodes(slots)
  {
    list := [];
    for i := 0 to |slots|
      invariant Sorted(id, list) && Members(list) == Nodes(slots[..i])
    {
      assert slots[..i + 1] == slots[..i] + [slots[i]];
      if slots[i].Some? {
        forall x | x in list ensures x.key != slots[i].value.node.key {
          assert x in Nodes(slots[..i]);
        }
        list := Insert(id, list, slots[i].value.node);
      }
      NodesSnoc(slots, i);
    }
    assert slots[..|slots|] == slots;
  }

  lemma NodesSnoc(slots: seq<Slot>, i: nat)
    requires i < |slots|
    ensures Nodes(slots[..i + 1]) == Nodes(slots[..i]) + if slots[i].Some? then {slots[i].value.node} else {}
  {
    forall n ensures n in Nodes(slots[..i + 1]) <==> n in Nodes(slots[..i]) || (slots[i].Some? && n == slots[i].value.node) {
      if n in Nodes(slots[..i]) {
        var j :| 0 <= j < i && slots[..i][j].Some? && slots[..i][j].value.node == n;
        assert slots[..i + 1][j] == slots[..i][j];
      }
      if slots[i].Some? && n == slots[i].value.node {
        assert slots[..i + 1][i] == slots[i];
      }
    }
  }

  /** `DhtBucket::get_nearest_nodes`: append this bucket's nodes while there is room. */
  method AppendNearest(id: Key, k: nat, slots: seq<Slot>, vec: seq<DhtNode>, ghost s: set<DhtNode>) returns (r: seq<DhtNode>)
    requires Distinct(slots) && Nearest(id, k, s, vec) && AllNearer(id, s, Nodes(slots)) && s !! Nodes(slots)
    ensures Nearest(id, k, s + Nodes(slots), r)
  {
    hide Nearest, AllNearer, Sorted, Nearer;
    var list := SortActive(id, slots);
    NearestSize(id, k, s, vec);
    r := vec;
    var i := 0;
    while i < |list| && |r| < k
      invariant i <= |list| && r == vec + list[..i] && (|r| <= k)
    {
      r := r + [list[i]];
      i := i + 1;
    }
    NearestAppend(id, k, s, vec, list, i);
  }

  /** `active_cnt`. */
  method ActiveCount(slots: seq<Slot>) returns (cnt: nat)
    requires Distinct(slots)
    ensures cnt == |Nodes(slots)|
  {
    cnt := 0;
    assert Nodes(slots[..0]) == {};
    for i := 0 to |slots|
      invariant cnt == |Nodes(slots[..i])|
    {
      NodesSnoc(slots, i);
      if slots[i].Some? {
        assert slots[i].value.node !in Nodes(slots[..i]);
        cnt := cnt + 1;
      }
    }
    assert slots[..|slots|] == slots;
  }
}
