/** Splitting a large message into parts and putting it together again. */
module AdnlParts {
  import opened Options
  import AdnlPacking

  const PART_SIZE := 1024
  const PART_OVERHEAD := 48
  const HUGE_MAX := 1024 * 8 + 128

  type Bytes = seq<int>

  /** Messages that matter here: a part, or anything else. */
  datatype Message = Part(hash: int, size: nat, offset: nat, data: Bytes) | Other(tag: int)

  /** The hash function (0 is the zero hash) and the parser of serialized messages. */
  datatype Codec = Codec(sha: Bytes -> int, parse: Bytes -> Option<Message>)

  /** The serialized form of a part is longer than the data in it. */
  ghost predicate Sane(c: Codec) {
    forall b :: c.parse(b).Some? && c.parse(b).value.Part? ==> |c.parse(b).value.data| < |b|
  }

  // ----- splitting -----

  function PartOf(c: Codec, b: Bytes, i: nat): Message
    requires i * PART_SIZE < |b|
  {
    var lo := i * PART_SIZE;
    var hi := if lo + PART_SIZE < |b| then lo + PART_SIZE else |b|;
    Part(c.sha(b), |b|, lo, b[lo..hi])
  }

  function PartCount(b: Bytes): nat {
    (|b| + PART_SIZE - 1) / PART_SIZE
  }

  /** The loop of `send_messages` over a message that is too long for one packet. */
  method Split(c: Codec, b: Bytes) returns (parts: seq<Message>)
    ensures |parts| == PartCount(b)
    ensures forall i :: 0 <= i < |parts| ==> i * PART_SIZE < |b| && parts[i] == PartOf(c, b, i)
    ensures forall i :: 0 <= i < |parts| ==> parts[i].Part? && |parts[i].data| + PART_OVERHEAD <= AdnlPacking.PEER_MTU
  {
    parts := [];
    var offset, rest := 0, b;
    while offset < |b|
      invariant offset == |parts| * PART_SIZE
      invariant rest == if offset <= |b| then b[offset..] else []
      invariant offset < |b| + PART_SIZE
      invariant forall i :: 0 <= i < |parts| ==> i * PART_SIZE < |b| && parts[i] == PartOf(c, b, i)
    {
      var data := if |rest| > PART_SIZE then rest[..PART_SIZE] else rest;
      parts := parts + [Part(c.sha(b), |b|, offset, data)];
      rest := rest[|data|..];
      offset := offset + PART_SIZE;
    }
  }

  // ----- joining -----

  /** `hash` 0 means that nothing is being put together; `got` is the filled prefix of the buffer. */
  datatype Joiner = Joiner(hash: int, size: nat, got: Bytes)

  const IDLE := Joiner(0, 0, [])

  ghost predicate Bounded(j: Joiner) {
    |j.got| <= j.size <= HUGE_MAX
  }

  /** The outcome of `process_message(Part)`: the new state and the messages delivered, innermost last. */
  datatype Outcome = Outcome(j: Joiner, delivered: seq<Message>)

  /** The state in which a part is considered, or nothing if it is dropped at once. */
  function Select(j: Joiner, m: Message): (Joiner, bool)
    requires m.Part?
  {
    if m.size > HUGE_MAX || m.hash == 0 then (j, false)
    else if m.hash == j.hash then (j, true)
    else if m.offset == 0 then (Joiner(m.hash, m.size, []), true)
    else (IDLE, false)
  }

  predicate Continues(j: Joiner, m: Message)
    requires m.Part?
  {
    |m.data| + m.offset <= m.size && m.size == j.size && m.offset == |j.got|
  }

  /** `process_message(Part)`; a completed message is delivered, and may be a part itself. */
  function Join(c: Codec, j: Joiner, m: Message): (r: Outcome)
    requires Sane(c) && m.Part? && Bounded(j)
    ensures Bounded(r.j)
    decreases |j.got| + |m.data|
  {
    var (k, considered) := Select(j, m);
    if !considered || !Continues(k, m) then Outcome(k, [])
    else Complete(c, k.(got := k.got + m.data))
  }

  /** A buffer that just grew: deliver it if it is full and its hash is right. */
  function Complete(c: Codec, k: Joiner): (r: Outcome)
    requires Sane(c) && Bounded(k)
    ensures Bounded(r.j)
    decreases |k.got|, 0
  {
    if |k.got| != k.size || c.sha(k.got) != k.hash then Outcome(k, [])
    else
      match c.parse(k.got)
      case None => Outcome(IDLE, [])
      case Some(inner) =>
        if inner.Part? then Join(c, IDLE, inner) else Outcome(IDLE, [inner])
  }

  // ----- splitting and joining undo each other -----

  function JoinAll(c: Codec, j: Joiner, ms: seq<Message>): (r: Outcome)
    requires Sane(c) && Bounded(j) && forall m :: m in ms ==> m.Part?
    ensures Bounded(r.j)
  {
    if ms == [] then Outcome(j, [])
    else
      assert ms[|ms| - 1] in ms;
      var before := JoinAll(c, j, ms[..|ms| - 1]);
      var last := Join(c, before.j, ms[|ms| - 1]);
      Outcome(last.j, before.delivered + last.delivered)
  }

  /** How many parts have been taken when parts arrive in the order `idx`. */
  function Progress(idx: seq<nat>): nat {
    if idx == [] then 0
    else
      var p := Progress(idx[..|idx| - 1]);
      if idx[|idx| - 1] == p then p + 1 else p
  }

  /** Every part is the next one or a repeat of one already taken, and nothing follows the last part. */
  ghost predicate InOrder(idx: seq<nat>, n: nat) {
    forall i :: 0 <= i < |idx| ==> idx[i] <= Progress(idx[..i]) < n
  }

  ghost function Parts(c: Codec, b: Bytes, idx: seq<nat>): (r: seq<Message>)
    requires forall i :: 0 <= i < |idx| ==> idx[i] * PART_SIZE < |b|
    ensures |r| == |idx| && forall m :: m in r ==> m.Part?
  {
    seq(|idx|, i requires 0 <= i < |idx| => PartOf(c, b, idx[i]))
  }

  /** The joiner after the first `k` of the parts, the message being incomplete. */
  ghost function Halfway(c: Codec, b: Bytes, k: nat): Joiner
    requires k * PART_SIZE <= |b|
  {
    Joiner(c.sha(b), |b|, b[..k * PART_SIZE])
  }

  lemma CountMeans(b: Bytes, k: nat)
    ensures k < PartCount(b) <==> k * PART_SIZE < |b|
    ensures k + 1 == PartCount(b) ==> |b| <= (k + 1) * PART_SIZE
  {}

  /** A message that can travel in parts. */
  ghost predicate Travels(c: Codec, b: Bytes, m: Message) {
    Sane(c) && 0 < |b| <= HUGE_MAX && c.sha(b) != 0 && c.parse(b) == Some(m) && m.Other?
  }

  lemma NextPart(c: Codec, b: Bytes, m: Message, k: nat)
    requires Travels(c, b, m) && k < PartCount(b) && k * PART_SIZE < |b|
    ensures Complete(c, Halfway(c, b, k).(got := Halfway(c, b, k).got + PartOf(c, b, k).data)) ==
            if k + 1 == PartCount(b) then Outcome(IDLE, [m]) else Outcome(Halfway(c, b, k + 1), [])
  {
    CountMeans(b, k);
    CountMeans(b, k + 1);
    var lo := k * PART_SIZE;
    var hi := if lo + PART_SIZE < |b| then lo + PART_SIZE else |b|;
    assert b[..lo] + b[lo..hi] == b[..hi];
    assert b[..|b|] == b;
  }

  lemma TakePart(c: Codec, b: Bytes, m: Message, j: Joiner, k: nat)
    requires Travels(c, b, m) && Bounded(j) && k < PartCount(b) && k * PART_SIZE < |b|
    requires if k == 0 then j.hash != c.sha(b) else j == Halfway(c, b, k)
    ensures Join(c, j, PartOf(c, b, k)) == if k + 1 == PartCount(b) then Outcome(IDLE, [m]) else Outcome(Halfway(c, b, k + 1), [])
  {
    hide Complete, Sane;
    NextPart(c, b, m, k);
    assert k == 0 ==> Halfway(c, b, 0) == Joiner(c.sha(b), |b|, []);
  }

  lemma RepeatPart(c: Codec, b: Bytes, m: Message, k: nat, i: nat)
    requires Travels(c, b, m) && i < k < PartCount(b) && k * PART_SIZE < |b| && i * PART_SIZE < |b|
    ensures Join(c, Halfway(c, b, k), PartOf(c, b, i)) == Outcome(Halfway(c, b, k), [])
  {
    hide Complete, Sane;
    assert i * PART_SIZE != k * PART_SIZE;
  }

  /** The joiner and the deliveries after `k` parts, starting from `j`. */
  ghost function Expected(c: Codec, b: Bytes, m: Message, j: Joiner, k: nat): Outcome {
    if k == 0 then Outcome(j, [])
    else if k >= PartCount(b) || k * PART_SIZE > |b| then Outcome(IDLE, [m])
    else Outcome(Halfway(c, b, k), [])
  }

  lemma ExpectedStep(c: Codec, b: Bytes, m: Message, j: Joiner, k: nat, i: nat)
    requires Travels(c, b, m) && Bounded(j) && j.hash != c.sha(b) && i <= k < PartCount(b) && i * PART_SIZE < |b|
    ensures var e := Expected(c, b, m, j, k);
            && Sane(c) && Bounded(e.j) && e.delivered == []
            && Join(c, e.j, PartOf(c, b, i)) == Expected(c, b, m, j, if i == k then k + 1 else k)
  {
    hide Join, Sane;
    CountMeans(b, k);
    CountMeans(b, k + 1);
    if i == k {
      TakePart(c, b, m, if k == 0 then j else Halfway(c, b, k), k);
    } else {
      RepeatPart(c, b, m, k, i);
    }
  }

  lemma {:induction false} JoinExpected(c: Codec, b: Bytes, m: Message, j: Joiner, idx: seq<nat>)
    requires Travels(c, b, m) && Sane(c) && Bounded(j) && j.hash != c.sha(b) && InOrder(idx, PartCount(b))
    ensures forall i :: 0 <= i < |idx| ==> idx[i] * PART_SIZE < |b|
    ensures Progress(idx) <= PartCount(b)
    ensures JoinAll(c, j, Parts(c, b, idx)) == Expected(c, b, m, j, Progress(idx))
    decreases |idx|
  {
    hide Travels, Join, PartCount, PartOf, Parts, Expected, Sane, Bounded, InOrder;
    if idx == [] {
      NothingYet(c, b, m, j);
    } else {
      var n := |idx| - 1;
      InOrderPrefix(idx, PartCount(b));
      JoinExpected(c, b, m, j, idx[..n]);
      var k := Progress(idx[..n]);
      CountMeans(b, idx[n]);
      forall i | 0 <= i < |idx| ensures idx[i] * PART_SIZE < |b| {
        assert i < n ==> idx[i] == idx[..n][i];
      }
      PartsSnoc(c, b, idx);
      ExpectedStep(c, b, m, j, k, idx[n]);
    }
  }

  lemma InOrderPrefix(idx: seq<nat>, n: nat)
    requires InOrder(idx, n) && idx != []
    ensures InOrder(idx[..|idx| - 1], n) && idx[|idx| - 1] <= Progress(idx[..|idx| - 1]) < n
  {
    var p := idx[..|idx| - 1];
    forall i | 0 <= i < |p| ensures p[i] <= Progress(p[..i]) < n {
      assert p[..i] == idx[..i] && p[i] == idx[i];
    }
  }

  lemma PartsSnoc(c: Codec, b: Bytes, idx: seq<nat>)
    requires idx != [] && forall i :: 0 <= i < |idx| ==> idx[i] * PART_SIZE < |b|
    ensures var n := |idx| - 1;
            Parts(c, b, idx)[..n] == Parts(c, b, idx[..n]) && Parts(c, b, idx)[n] == PartOf(c, b, idx[n])
  {}

  lemma NothingYet(c: Codec, b: Bytes, m: Message, j: Joiner)
    ensures Expected(c, b, m, j, 0) == Outcome(j, [])
  {}

  /**
    Feeding the parts in order, with repeats of parts already received before completion, delivers
    exactly the original message once and leaves nothing behind.
  */
  lemma SplitThenJoin(c: Codec, b: Bytes, m: Message, j: Joiner, idx: seq<nat>)
    requires Travels(c, b, m) && Sane(c) && Bounded(j) && j.hash != c.sha(b)
    requires InOrder(idx, PartCount(b)) && Progress(idx) == PartCount(b)
    ensures forall i :: 0 <= i < |idx| ==> idx[i] * PART_SIZE < |b|
    ensures JoinAll(c, j, Parts(c, b, idx)) == Outcome(IDLE, [m])
  {
    JoinExpected(c, b, m, j, idx);
    hide JoinAll, Parts, Progress;
  }

  // ----- any parts at all -----

  function Glue(parts: seq<Message>): Bytes
    requires forall m :: m in parts ==> m.Part?
  {
    if parts == [] then []
    else
      assert parts[|parts| - 1] in parts;
      Glue(parts[..|parts| - 1]) + parts[|parts| - 1].data
  }

  /** The parts announce hash `hash` and size `size`, each begins where the ones before it end, and together they are `b`. */
  ghost predicate Pieces(parts: seq<Message>, hash: int, size: nat, b: Bytes) {
    && (forall m :: m in parts ==> m.Part? && m.hash == hash && m.size == size)
    && (forall i :: 0 <= i < |parts| ==> parts[i].offset == |Glue(parts[..i])|)
    && Glue(parts) == b
  }

  /** `b` is made of pieces from `pool` that announce its size and its own, nonzero hash. */
  ghost predicate Whole(c: Codec, pool: iset<Message>, b: Bytes) {
    c.sha(b) != 0 && |b| <= HUGE_MAX && exists parts :: (forall m :: m in parts ==> m in pool) && Pieces(parts, c.sha(b), |b|, b)
  }

  /** Whatever part comes out of whole messages from the pool is in the pool, too. */
  ghost predicate Closed(c: Codec, pool: iset<Message>) {
    forall b :: Whole(c, pool, b) && c.parse(b).Some? && c.parse(b).value.Part? ==> c.parse(b).value in pool
  }

  /** What is being put together consists of pieces from the pool. */
  ghost predicate Gathered(pool: iset<Message>, j: Joiner) {
    j.hash != 0 ==> exists parts :: (forall m :: m in parts ==> m in pool) && Pieces(parts, j.hash, j.size, j.got)
  }

  ghost predicate Delivers(c: Codec, pool: iset<Message>, d: Message) {
    d.Other? && exists b :: Whole(c, pool, b) && c.parse(b) == Some(d)
  }

  lemma NoPieces(hash: int, size: nat)
    ensures Pieces([], hash, size, [])
  {}

  lemma OnePiece(parts: seq<Message>, hash: int, size: nat, b: Bytes, m: Message)
    requires Pieces(parts, hash, size, b) && m.Part? && m.hash == hash && m.size == size && m.offset == |b|
    ensures Pieces(parts + [m], hash, size, b + m.data)
  {
    var more := parts + [m];
    assert more[..|parts|] == parts;
    forall i | 0 <= i < |more| ensures more[i].offset == |Glue(more[..i])| {
      assert more[..i] == if i < |parts| then parts[..i] else parts;
    }
  }

  lemma {:induction false} JoinGathers(c: Codec, pool: iset<Message>, j: Joiner, m: Message)
    requires Sane(c) && Closed(c, pool) && Bounded(j) && Gathered(pool, j) && m.Part? && m in pool
    ensures var r := Join(c, j, m); Gathered(pool, r.j) && forall d :: d in r.delivered ==> Delivers(c, pool, d)
    decreases |j.got| + |m.data|
  {
    hide Pieces, Complete, Closed, Delivers;
    var (k, considered) := Select(j, m);
    if considered {
      NoPieces(k.hash, k.size);
      assert Gathered(pool, k) by {
        if m.hash != j.hash {
          var none: seq<Message> := [];
          assert Pieces(none, k.hash, k.size, k.got);
        }
      }
      if Continues(k, m) {
        var parts :| (forall x :: x in parts ==> x in pool) && Pieces(parts, k.hash, k.size, k.got);
        OnePiece(parts, k.hash, k.size, k.got, m);
        assert forall x :: x in parts + [m] ==> x in pool;
        CompleteGathers(c, pool, k.(got := k.got + m.data));
      }
    }
  }

  lemma {:induction false} CompleteGathers(c: Codec, pool: iset<Message>, k: Joiner)
    requires Sane(c) && Closed(c, pool) && Bounded(k) && Gathered(pool, k) && k.hash != 0
    ensures var r := Complete(c, k); Gathered(pool, r.j) && forall d :: d in r.delivered ==> Delivers(c, pool, d)
    decreases |k.got|, 0
  {
    hide Pieces, Join;
    if |k.got| == k.size && c.sha(k.got) == k.hash {
      assert Whole(c, pool, k.got);
      match c.parse(k.got)
      case None => {}
      case Some(inner) =>
        if inner.Part? {
          JoinGathers(c, pool, IDLE, inner);
        }
    }
  }

  /**
    Over any parts in any order: every message delivered is the parse of bytes that hash to what their parts
    announced, glued from parts with consecutive offsets starting at 0.  The parts are from any collection
    that holds the ones received and is closed under unpacking, so the least such collection will do.
  */
  lemma {:induction false} DeliveredIsWhole(c: Codec, pool: iset<Message>, ms: seq<Message>)
    requires Sane(c) && Closed(c, pool) && forall m :: m in ms ==> m.Part? && m in pool
    ensures var r := JoinAll(c, IDLE, ms);
            Gathered(pool, r.j) && forall d :: d in r.delivered ==> Delivers(c, pool, d)
  {
    hide Join, Closed, Delivers, Gathered;
    if ms == [] {
      NothingGathered(pool);
    } else {
      var n := |ms| - 1;
      assert ms[n] in ms;
      DeliveredIsWhole(c, pool, ms[..n]);
      JoinGathers(c, pool, JoinAll(c, IDLE, ms[..n]).j, ms[n]);
    }
  }

  lemma NothingGathered(pool: iset<Message>)
    ensures Gathered(pool, IDLE)
  {}

  /** A full buffer with another hash than announced delivers nothing, whatever further parts of it arrive. */
  lemma {:induction false} WrongHashStays(c: Codec, j: Joiner, ms: seq<Message>)
    requires Sane(c) && Bounded(j) && |j.got| == j.size && c.sha(j.got) != j.hash
    requires forall m :: m in ms ==> m.Part? && m.hash == j.hash
    ensures JoinAll(c, j, ms) == Outcome(j, [])
  {
    if ms != [] {
      var n := |ms| - 1;
      assert ms[n] in ms;
      WrongHashStays(c, j, ms[..n]);
      if Continues(j, ms[n]) {
        assert ms[n].data == [] && j.got + ms[n].data == j.got;
        assert Complete(c, j.(got := j.got + ms[n].data)) == Outcome(j, []);
      }
    }
  }

  /** Parts that announce too large a message or the zero hash change nothing. */
  lemma Ignored(c: Codec, j: Joiner, m: Message)
    requires Sane(c) && Bounded(j) && m.Part? && (m.size > HUGE_MAX || m.hash == 0)
    ensures Join(c, j, m) == Outcome(j, [])
  {}

  /** A later part of another message loses the one being put together: the rest of it delivers nothing. */
  lemma {:induction false} Interrupted(c: Codec, b: Bytes, k: nat, x: Message, idx: seq<nat>)
    requires Sane(c) && |b| <= HUGE_MAX && k * PART_SIZE <= |b|
    requires x.Part? && x.hash != 0 && x.hash != c.sha(b) && x.size <= HUGE_MAX && x.offset != 0
    requires forall i :: 0 <= i < |idx| ==> 0 < idx[i] && idx[i] * PART_SIZE < |b|
    ensures JoinAll(c, Halfway(c, b, k), [x] + Parts(c, b, idx)) == Outcome(IDLE, [])
    decreases |idx|
  {
    var ms := [x] + Parts(c, b, idx);
    var j := Halfway(c, b, k);
    if idx == [] {
      assert ms == [x] && ms[..0] == [];
      assert JoinAll(c, j, []) == Outcome(j, []);
    } else {
      var n := |idx| - 1;
      Interrupted(c, b, k, x, idx[..n]);
      PartsSnoc(c, b, idx);
      assert ms[..|ms| - 1] == [x] + Parts(c, b, idx[..n]);
      assert ms[|ms| - 1] == PartOf(c, b, idx[n]);
      assert idx[n] * PART_SIZE != 0;
    }
  }

  // ----- the buffer itself -----

  /** `process_message(Part)` on a buffer that is written in place. */
  class Assembler {
    var hash: int
    var huge: array<int>
    var offset: nat

    ghost predicate Valid()
      reads this
    {
      offset <= huge.Length <= HUGE_MAX
    }

    ghost function View(): Joiner
      requires Valid()
      reads this, huge
    {
      Joiner(hash, huge.Length, huge[..offset])
    }

    constructor ()
      ensures Valid() && View() == IDLE
    {
      hash, huge, offset := 0, new int[0], 0;
    }

    method Reset()
      modifies this
      ensures Valid() && View() == IDLE && fresh(huge)
    {
      hash, huge, offset := 0, new int[0], 0;
    }

    /** Copies `data` behind the filled prefix; the caller has checked that it fits. */
    method Append(data: Bytes)
      requires Valid() && offset + |data| <= huge.Length
      modifies this`offset, huge
      ensures Valid() && offset == old(offset) + |data| && huge[..offset] == old(huge[..offset]) + data
    {
      for i := 0 to |data|
        invariant offset == old(offset)
        invariant huge[..offset + i] == old(huge[..offset]) + data[..i]
      {
        huge[offset + i] := data[i];
        assert huge[..offset + i + 1] == huge[..offset + i] + [data[i]];
      }
      offset := offset + |data|;
    }

    method ProcessPart(c: Codec, m: Message) returns (delivered: seq<Message>)
      requires Valid() && Sane(c) && m.Part?
      modifies this, huge
      ensures Valid() && Outcome(View(), delivered) == Join(c, old(View()), m)
      ensures huge == old(huge) || fresh(huge)
      decreases offset + |m.data|
    {
      delivered := [];
      if m.size > HUGE_MAX || m.hash == 0 {
        return;
      }
      if m.hash != hash {
        Reset();
        if m.offset != 0 {
          return;
        }
        hash, huge := m.hash, new int[m.size];
      }
      if |m.data| + m.offset > m.size || m.size != huge.Length || m.offset != offset {
        return;
      }
      Append(m.data);
      delivered := Finish(c);
    }

    method Finish(c: Codec) returns (delivered: seq<Message>)
      requires Valid() && Sane(c)
      modifies this, huge
      ensures Valid() && Outcome(View(), delivered) == Complete(c, old(View()))
      ensures huge == old(huge) || fresh(huge)
      decreases offset, 0
    {
      delivered := [];
      if offset != huge.Length {
        return;
      }
      var bytes := huge[..];
      assert bytes == huge[..offset];
      if c.sha(bytes) != hash {
        return;
      }
      Reset();
      match c.parse(bytes)
      case None => return;
      case Some(inner) =>
        if inner.Part? {
          delivered := ProcessPart(c, inner);
        } else {
          delivered := [inner];
        }
    }
  }
}
