/** 256-bit keys, most significant bit first, and the XOR metric of Kademlia. */
module DhtKeys {
  const BITS := 256

  type Key = k: seq<bool> | |k| == BITS witness seq(BITS, _ => false)

  function Xor(a: Key, b: Key): (r: Key)
    ensures forall i :: 0 <= i < BITS ==> r[i] == (a[i] != b[i])
  {
    seq(BITS, i requires 0 <= i < BITS => a[i] != b[i])
  }

  predicate LessAt(a: Key, b: Key, i: nat) {
    i < BITS && (forall j :: 0 <= j < i ==> a[j] == b[j]) && !a[i] && b[i]
  }

  /** Comparison as big-endian numbers. */
  predicate Less(a: Key, b: Key) {
    exists i: nat :: i < BITS && LessAt(a, b, i)
  }

  /** Is `x` nearer to `id` than `y`? */
  predicate Nearer(id: Key, x: Key, y: Key) {
    Less(Xor(id, x), Xor(id, y))
  }

  lemma LessIrreflexive(a: Key)
    ensures !Less(a, a)
  {}

  lemma LessTransitive(a: Key, b: Key, c: Key)
    requires Less(a, b) && Less(b, c)
    ensures Less(a, c)
  {
    var i: nat :| i < BITS && LessAt(a, b, i);
    var j: nat :| j < BITS && LessAt(b, c, j);
    assert LessAt(a, c, if i < j then i else j);
  }

  lemma LessTotal(a: Key, b: Key)
    ensures a == b || Less(a, b) || Less(b, a)
  {
    if a != b {
      var i := FirstDifference(a, b, 0);
      assert LessAt(a, b, i) || LessAt(b, a, i);
    }
  }

  lemma FirstDifference(a: Key, b: Key, k: nat) returns (i: nat)
    requires a != b && k <= BITS && forall j :: 0 <= j < k ==> a[j] == b[j]
    ensures k <= i < BITS && a[i] != b[i] && forall j :: 0 <= j < i ==> a[j] == b[j]
    decreases BITS - k
  {
    assert k == BITS ==> a == b;
    if a[k] != b[k] {
      i := k;
    } else {
      i := FirstDifference(a, b, k + 1);
    }
  }

  lemma XorInjective(id: Key, x: Key, y: Key)
    requires Xor(id, x) == Xor(id, y)
    ensures x == y
  {
    forall i | 0 <= i < BITS ensures x[i] == y[i] {
      assert Xor(id, x)[i] == Xor(id, y)[i];
    }
  }

  lemma NearerTotal(id: Key, x: Key, y: Key)
    ensures x == y || Nearer(id, x, y) || Nearer(id, y, x)
  {
    LessTotal(Xor(id, x), Xor(id, y));
    if Xor(id, x) == Xor(id, y) {
      XorInjective(id, x, y);
    }
  }

  lemma NearerTransitive(id: Key, x: Key, y: Key, z: Key)
    requires Nearer(id, x, y) && Nearer(id, y, z)
    ensures Nearer(id, x, z)
  {
    LessTransitive(Xor(id, x), Xor(id, y), Xor(id, z));
  }

  lemma NearerAsymmetric(id: Key, x: Key, y: Key)
    requires Nearer(id, x, y)
    ensures !Nearer(id, y, x) && x != y
  {
    if Nearer(id, y, x) {
      LessTransitive(Xor(id, x), Xor(id, y), Xor(id, x));
    }
    LessIrreflexive(Xor(id, x));
  }

  // ----- prefix buckets -----

  /** `x` shares exactly `bit` leading bits with `self`. */
  predicate InBucket(self: Key, bit: nat, x: Key) {
    bit < BITS && (forall j :: 0 <= j < bit ==> x[j] == self[j]) && x[bit] != self[bit]
  }

  lemma OneBucket(self: Key, i: nat, j: nat, x: Key)
    requires InBucket(self, i, x) && InBucket(self, j, x)
    ensures i == j
  {}

  /** `count_leading_zeroes` of the XOR of two keys. */
  method CommonPrefix(self: Key, x: Key) returns (bit: nat)
    ensures if bit < BITS then InBucket(self, bit, x) else bit == BITS && x == self
  {
    var d := Xor(x, self);
    bit := 0;
    while bit < BITS && !d[bit]
      invariant bit <= BITS && forall j :: 0 <= j < bit ==> x[j] == self[j]
    {
      bit := bit + 1;
    }
    if bit == BITS {
      assert x == self;
    }
  }

  /** Relative to `self`, a bucket lies wholly on one side of `id`. */
  lemma BucketSide(self: Key, id: Key, bit: nat, x: Key)
    requires InBucket(self, bit, x)
    ensures Nearer(id, x, self) <==> Xor(id, self)[bit]
    ensures Nearer(id, self, x) <==> !Xor(id, self)[bit]
  {
    var d, e := Xor(id, self), Xor(id, x);
    if d[bit] {
      assert LessAt(e, d, bit);
      NearerAsymmetric(id, x, self);
    } else {
      assert LessAt(d, e, bit);
      NearerAsymmetric(id, self, x);
    }
  }

  /** Among the buckets nearer than `self`, lower ones come first. */
  lemma UpwardOrder(self: Key, id: Key, i: nat, j: nat, x: Key, y: Key)
    requires i < j && InBucket(self, i, x) && InBucket(self, j, y) && Xor(id, self)[i]
    ensures Nearer(id, x, y)
  {
    assert LessAt(Xor(id, x), Xor(id, y), i);
  }

  /** Among the others, higher ones come first. */
  lemma DownwardOrder(self: Key, id: Key, i: nat, j: nat, x: Key, y: Key)
    requires j < i && InBucket(self, i, x) && InBucket(self, j, y) && !Xor(id, self)[j]
    ensures Nearer(id, x, y)
  {
    assert LessAt(Xor(id, x), Xor(id, y), j);
  }
}
