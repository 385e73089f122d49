/** The routing table of a DHT node: 256 prefix buckets around its own key. */
module DhtMember {
  import opened DhtKeys
  import opened DhtBucket
  import opened DhtLookup

  /** The active slots of all buckets. */
  type Table = seq<seq<Slot>>

  ghost predicate Sound(self: Key, table: Table) {
    |table| == BITS && forall b {:trigger table[b]} :: 0 <= b < BITS ==> Distinct(table[b]) && AllIn(self, b, table[b])
  }

  ghost function Region(table: Table, sel: set<nat>): set<DhtNode> {
    set b, n | b in sel && 0 <= b < |table| && n in Nodes(table[b]) :: n
  }

  ghost predicate IsBit(b: nat) {
    b < BITS
  }

  ghost function Everything(): set<nat> {
    set b: nat | b < BITS && IsBit(b)
  }

  /** The active nodes. */
  ghost function All(table: Table): set<DhtNode> {
    Region(table, Everything())
  }

  /** Every node of bucket `i` is nearer to the key at XOR distance `d` from us than every node of bucket `j`. */
  predicate Before(d: Key, i: nat, j: nat) {
    i < BITS && j < BITS &&
    if d[i] then !d[j] || i < j else !d[j] && j < i
  }

  lemma BucketOrder(self: Key, id: Key, i: nat, j: nat, x: Key, y: Key)
    requires Before(Xor(id, self), i, j) && InBucket(self, i, x) && InBucket(self, j, y)
    ensures Nearer(id, x, y) && x != y
  {
    if Xor(id, self)[i] && Xor(id, self)[j] {
      UpwardOrder(self, id, i, j, x, y);
    } else if Xor(id, self)[i] {
      BucketSide(self, id, i, x);
      BucketSide(self, id, j, y);
      NearerTransitive(id, x, self, y);
    } else {
      DownwardOrder(self, id, i, j, x, y);
    }
    NearerAsymmetric(id, x, y);
  }

  lemma RegionOrder(self: Key, id: Key, table: Table, a: set<nat>, b: set<nat>)
    requires Sound(self, table) && forall i, j :: i in a && j in b ==> Before(Xor(id, self), i, j)
    ensures AllNearer(id, Region(table, a), Region(table, b)) && Region(table, a) !! Region(table, b)
  {
    hide Nearer, InBucket, Before;
    forall x, y | x in Region(table, a) && y in Region(table, b) ensures Nearer(id, x.key, y.key) && x != y {
      var i :| i in a && 0 <= i < |table| && x in Nodes(table[i]);
      var j :| j in b && 0 <= j < |table| && y in Nodes(table[j]);
      BucketOrder(self, id, i, j, x.key, y.key);
    }
  }

  lemma RegionSplit(table: Table, a: set<nat>, b: set<nat>)
    ensures Region(table, a + b) == Region(table, a) + Region(table, b)
  {}

  lemma RegionOne(table: Table, b: nat)
    requires b < |table|
    ensures Region(table, {b}) == Nodes(table[b])
  {
    assert b in {b};
  }

  /** The buckets swept before bit `b` on the way up, and those down to bit `b` on the way down. */
  ghost function Up(d: Key, b: nat): set<nat> {
    set j: nat | j < b && j < BITS && d[j]
  }

  ghost function Down(d: Key, b: nat): set<nat> {
    set j: nat | b <= j < BITS && !d[j]
  }

  /** Sweeping one more bucket. */
  lemma Sweep(self: Key, id: Key, table: Table, done: set<nat>, b: nat)
    requires Sound(self, table) && b < BITS && forall i :: i in done ==> Before(Xor(id, self), i, b)
    ensures Region(table, done + {b}) == Region(table, done) + Nodes(table[b])
    ensures AllNearer(id, Region(table, done), Nodes(table[b])) && Region(table, done) !! Nodes(table[b])
    ensures Distinct(table[b])
  {
    hide Before, Nearer;
    RegionSplit(table, done, {b});
    RegionOne(table, b);
    RegionOrder(self, id, table, done, {b});
  }

  /** Once `k` nodes are found, what was not swept is farther away. */
  lemma Stop(self: Key, id: Key, k: nat, table: Table, done: set<nat>, vec: seq<DhtNode>)
    requires Sound(self, table) && Nearest(id, k, Region(table, done), vec) && |vec| == k && done <= Everything()
    requires forall i, j :: i in done && j in Everything() && j !in done ==> Before(Xor(id, self), i, j)
    ensures Nearest(id, k, All(table), vec)
  {
    hide Before, Nearer, Nearest;
    var rest := Everything() - done;
    RegionOrder(self, id, table, done, rest);
    RegionSplit(table, done, rest);
    assert done + rest == Everything();
    NearestStop(id, k, Region(table, done), vec, Region(table, rest));
  }

  /** The nodes nearer to `id` than we are live in the buckets where `id` differs from us. */
  lemma CloserRegion(self: Key, id: Key, table: Table)
    requires Sound(self, table)
    ensures Region(table, Up(Xor(id, self), BITS)) == set n | n in All(table) && Nearer(id, n.key, self)
  {
    hide Nearer, InBucket;
    var d := Xor(id, self);
    forall n ensures n in Region(table, Up(d, BITS)) <==> n in All(table) && Nearer(id, n.key, self) {
      if n in All(table) {
        var b :| b in Everything() && 0 <= b < |table| && n in Nodes(table[b]);
        BucketSide(self, id, b, n.key);
        if n in Region(table, Up(d, BITS)) {
          var c :| c in Up(d, BITS) && 0 <= c < |table| && n in Nodes(table[c]);
          OneBucket(self, b, c, n.key);
        }
      }
      assert Up(d, BITS) <= Everything();
    }
  }

  class Member {
    const self: Key
    const k: nat
    const buckets: seq<Bucket>

    ghost predicate Valid()
      reads this, buckets
    {
      && |buckets| == BITS
      && (forall i, j :: 0 <= i < j < BITS ==> buckets[i] != buckets[j])
      && (forall i {:trigger buckets[i]} :: 0 <= i < BITS ==>
            buckets[i].self == self && buckets[i].bit == i && buckets[i].Valid())
    }

    constructor (self: Key, k: nat)
      ensures Valid() && this.self == self && this.k == k && All(Actives()) == {}
    {
      this.self, this.k := self, k;
      var bs: seq<Bucket> := [];
      for i := 0 to BITS
        invariant |bs| == i && forall j, l :: 0 <= j < l < i ==> bs[j] != bs[l]
        invariant forall j {:trigger bs[j]} :: 0 <= j < i ==>
                    fresh(bs[j]) && bs[j].self == self && bs[j].bit == j && bs[j].Valid() && Nodes(bs[j].active) == {}
      {
        var b := new Bucket(self, i, k);
        bs := bs + [b];
      }
      buckets := bs;
    }

    ghost function Actives(): Table
      reads this, buckets
    {
      seq(|buckets|, i requires 0 <= i < |buckets| reads this, buckets => buckets[i].active)
    }

    lemma ActivesSound()
      requires Valid()
      ensures Sound(self, Actives())
    {
      forall b | 0 <= b < BITS ensures Distinct(Actives()[b]) && AllIn(self, b, Actives()[b]) {
        assert buckets[b].Valid();
      }
    }

    /** `get_nearest_nodes`: the `size` active nodes nearest to `id`, in increasing XOR distance. */
    method GetNearestNodes(id: Key, size: nat) returns (vec: seq<DhtNode>)
      requires Valid()
      ensures Nearest(id, size, All(Actives()), vec)
    {
      hide Nearest, AllNearer, Nearer, Nodes, Region;
      ghost var table := Actives();
      ActivesSound();
      var d := Xor(id, self);
      vec := SweepUp(id, d, size);
      if |vec| < size {
        vec := SweepDown(id, d, size, vec);
      } else {
        StopUp(self, id, size, table, vec);
      }
    }

    /** The upward loop; every node found is nearer to `id` than we are. */
    method SweepUp(id: Key, d: Key, size: nat) returns (vec: seq<DhtNode>)
      requires Valid() && d == Xor(id, self)
      ensures Nearest(id, size, Region(Actives(), Up(d, BITS)), vec)
      ensures forall n :: n in vec ==> Nearer(id, n.key, self)
    {
      hide Nearest, AllNearer, Nearer, Nodes, Region;
      ghost var table := Actives();
      ActivesSound();
      vec := [];
      NearestNothing(id, size, table);
      assert Up(d, 0) == {};
      var bit: nat := 0;
      while bit < BITS
        invariant bit <= BITS && Nearest(id, size, Region(table, Up(d, bit)), vec)
      {
        if d[bit] {
          assert Up(d, bit + 1) == Up(d, bit) + {bit};
          Sweep(self, id, table, Up(d, bit), bit);
          assert buckets[bit].active == table[bit];
          vec := AppendNearest(id, size, buckets[bit].active, vec, Region(table, Up(d, bit)));
          if |vec| >= size {
            StopRest(self, id, size, table, bit + 1, vec);
            break;
          }
        } else {
          assert Up(d, bit + 1) == Up(d, bit);
        }
        bit := bit + 1;
      }
      AllCloser(self, id, size, table, vec);
    }

    /** The downward loop over the remaining buckets. */
    method SweepDown(id: Key, d: Key, size: nat, found: seq<DhtNode>) returns (vec: seq<DhtNode>)
      requires Valid() && d == Xor(id, self) && Nearest(id, size, Region(Actives(), Up(d, BITS)), found)
      ensures Nearest(id, size, All(Actives()), vec)
    {
      hide Nearest, AllNearer, Nearer, Nodes, Region;
      ghost var table := Actives();
      ActivesSound();
      vec := found;
      var bit: nat := BITS;
      assert Up(d, BITS) + Down(d, BITS) == Up(d, BITS);
      while bit > 0
        invariant bit <= BITS && Nearest(id, size, Region(table, Up(d, BITS) + Down(d, bit)), vec)
      {
        bit := bit - 1;
        ghost var done := Up(d, BITS) + Down(d, bit + 1);
        if !d[bit] {
          assert Up(d, BITS) + Down(d, bit) == done + {bit};
          Sweep(self, id, table, done, bit);
          assert buckets[bit].active == table[bit];
          vec := AppendNearest(id, size, buckets[bit].active, vec, Region(table, done));
          if |vec| >= size {
            NearestSize(id, size, Region(table, Up(d, BITS) + Down(d, bit)), vec);
            Stop(self, id, size, table, Up(d, BITS) + Down(d, bit), vec);
            return;
          }
        } else {
          assert Down(d, bit) == Down(d, bit + 1);
        }
      }
      assert Up(d, BITS) + Down(d, 0) == Everything();
    }

    /** `distance`: how many active nodes are nearer to the key than we are, capped. */
    method Distance(id: Key, maxValue: nat) returns (res: nat)
      requires Valid()
      ensures var cap := if maxValue == 0 then 2 * k else maxValue;
              var closer := |set n | n in All(Actives()) && Nearer(id, n.key, self)|;
              res == if closer < cap then closer else cap
    {
      hide Nearer, Nodes, Region;
      ActivesSound();
      CloserRegion(self, id, Actives());
      res := CountUp(id, Xor(id, self), if maxValue == 0 then 2 * k else maxValue);
    }

    method CountUp(id: Key, d: Key, cap: nat) returns (res: nat)
      requires Valid() && d == Xor(id, self)
      ensures var closer := |Region(Actives(), Up(d, BITS))|; res == if closer < cap then closer else cap
    {
      hide AllNearer, Nearer, Nodes, Region;
      ghost var table := Actives();
      ActivesSound();
      res := 0;
      assert Up(d, 0) == {};
      RegionNothing(table);
      var bit: nat := 0;
      while bit < BITS
        invariant bit <= BITS && res == |Region(table, Up(d, bit))|
        invariant res < cap || (res == 0 == cap)
      {
        if d[bit] {
          assert Up(d, bit + 1) == Up(d, bit) + {bit};
          Sweep(self, id, table, Up(d, bit), bit);
          assert buckets[bit].active == table[bit];
          var cnt := ActiveCount(buckets[bit].active);
          SizeOfUnion(Region(table, Up(d, bit)), Nodes(table[bit]));
          res := res + cnt;
          if res >= cap {
            RegionGrows(table, d, bit + 1);
            return cap;
          }
        } else {
          assert Up(d, bit + 1) == Up(d, bit);
        }
        bit := bit + 1;
      }
    }

    /** `add_full_node`: the key decides the bucket; our own key is not stored. */
    method AddFullNode(n: DhtNode, now: real)
      requires Valid()
      modifies buckets
      ensures Valid()
      ensures forall i {:trigger buckets[i]} :: 0 <= i < BITS ==>
                if InBucket(self, i, n.key)
                then Added(old(buckets[i].active), old(buckets[i].backup), buckets[i].active, buckets[i].backup, n, now)
                else buckets[i].active == old(buckets[i].active) && buckets[i].backup == old(buckets[i].backup)
    {
      var bit := CommonPrefix(self, n.key);
      if bit < BITS {
        buckets[bit].AddFullNode(n, now);
      }
    }

    /** `receive_ping`: the key that was pinged decides the bucket, whatever node the answer describes. */
    method ReceivePing(key: Key, n: DhtNode, now: real) returns (ok: bool)
      requires Valid()
      modifies buckets
      ensures Valid()
      ensures key == self ==> ok
      ensures forall i {:trigger buckets[i]} :: 0 <= i < BITS ==>
                if InBucket(self, i, key)
                then PingOutcome(old(buckets[i].active), old(buckets[i].backup), buckets[i].active, buckets[i].backup, key, n, now, ok)
                else buckets[i].active == old(buckets[i].active) && buckets[i].backup == old(buckets[i].backup)
    {
      ok := true;
      var bit := CommonPrefix(self, key);
      if bit < BITS {
        ok := buckets[bit].ReceivePing(key, n, now);
      }
    }

    /** The bucket part of the periodic `check`. */
    method Check(now: real)
      requires Valid()
      modifies buckets
      ensures Valid()
      ensures forall i {:trigger buckets[i]} :: 0 <= i < BITS ==>
                Checked(old(buckets[i].active), old(buckets[i].backup), buckets[i].active, buckets[i].backup, now)
    {
      hide Checked;
      for i := 0 to BITS
        invariant Valid()
        invariant forall j {:trigger buckets[j]} :: i <= j < BITS ==>
                    buckets[j].active == old(buckets[j].active) && buckets[j].backup == old(buckets[j].backup)
        invariant forall j {:trigger buckets[j]} :: 0 <= j < i ==>
                    Checked(old(buckets[j].active), old(buckets[j].backup), buckets[j].active, buckets[j].backup, now)
      {
        buckets[i].Check(now);
      }
    }
  }

  lemma NearestNothing(id: Key, k: nat, table: Table)
    ensures Nearest(id, k, Region(table, {}), [])
  {
    RegionNothing(table);
  }

  lemma RegionNothing(table: Table)
    ensures Region(table, {}) == {}
  {}

  lemma RegionGrows(table: Table, d: Key, b: nat)
    requires b <= BITS
    ensures |Region(table, Up(d, b))| <= |Region(table, Up(d, BITS))|
  {
    SubsetSize(Region(table, Up(d, b)), Region(table, Up(d, BITS)));
  }

  /** After an early break on the way up, the buckets above are farther. */
  lemma StopRest(self: Key, id: Key, k: nat, table: Table, b: nat, vec: seq<DhtNode>)
    requires Sound(self, table) && b <= BITS && |vec| >= k && Nearest(id, k, Region(table, Up(Xor(id, self), b)), vec)
    ensures Nearest(id, k, Region(table, Up(Xor(id, self), BITS)), vec)
  {
    hide Nearest, Nearer;
    var d := Xor(id, self);
    NearestSize(id, k, Region(table, Up(d, b)), vec);
    var rest := Up(d, BITS) - Up(d, b);
    RegionOrder(self, id, table, Up(d, b), rest);
    RegionSplit(table, Up(d, b), rest);
    assert Up(d, b) + rest == Up(d, BITS);
    NearestStop(id, k, Region(table, Up(d, b)), vec, Region(table, rest));
  }

  lemma StopUp(self: Key, id: Key, k: nat, table: Table, vec: seq<DhtNode>)
    requires Sound(self, table) && |vec| >= k && Nearest(id, k, Region(table, Up(Xor(id, self), BITS)), vec)
    ensures Nearest(id, k, All(table), vec)
  {
    hide Nearest, Nearer;
    NearestSize(id, k, Region(table, Up(Xor(id, self), BITS)), vec);
    Stop(self, id, k, table, Up(Xor(id, self), BITS), vec);
  }

  lemma AllCloser(self: Key, id: Key, k: nat, table: Table, vec: seq<DhtNode>)
    requires Sound(self, table) && Nearest(id, k, Region(table, Up(Xor(id, self), BITS)), vec)
    ensures forall n :: n in vec ==> Nearer(id, n.key, self)
  {
    hide Nearer;
    CloserRegion(self, id, table);
    forall n | n in vec ensures n in Region(table, Up(Xor(id, self), BITS)) {
      assert n in Members(vec);
    }
  }
}
