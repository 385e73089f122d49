/** Answering `getDifference`: which blocks a lagging peer is sent. */
module CatchainDifference {
  import opened CatchainReceiver
  import opened CatchainInvariant
  import opened CatchainTheorems

  const MAX_SEND := 100

  /** `Update` carries the blocks sent, in order, and the peer's heights afterwards. */
  datatype Answer = BadSize | FoundFork(src: nat) | Update(sent: seq<BlockId>, heights: seq<int>)

  function Min(a: nat, b: nat): nat {
    if a < b then a else b
  }

  /** How far the peer lags on source `i`; a negative entry asks for nothing. */
  function Gap(sources: seq<Source>, asked: seq<int>, i: nat): nat
    requires i < |sources| == |asked|
  {
    if 0 <= asked[i] < sources[i].delivered then sources[i].delivered - asked[i] else 0
  }

  /** The number of blocks sent for the first `k` sources when each gets at most `cap`. */
  function Capped(sources: seq<Source>, asked: seq<int>, cap: nat, k: nat): nat
    requires k <= |sources| == |asked|
  {
    if k == 0 then 0 else Capped(sources, asked, cap, k - 1) + Min(Gap(sources, asked, k - 1), cap)
  }

  ghost predicate FairCap(sources: seq<Source>, asked: seq<int>, cap: nat)
    requires |sources| == |asked|
  {
    && 1 <= cap <= MAX_SEND + 1
    && (Capped(sources, asked, cap, |sources|) > MAX_SEND || cap == MAX_SEND + 1)
    && (forall c :: 0 <= c < cap ==> Capped(sources, asked, c, |sources|) <= MAX_SEND)
  }

  /** The sources that are cut off by the cap or reach it exactly. */
  ghost function Saturated(sources: seq<Source>, asked: seq<int>, cap: nat, k: nat): set<nat>
    requires k <= |sources| == |asked|
  {
    set i | 0 <= i < k && Gap(sources, asked, i) >= cap
  }

  /** Blocks of heights `lo + 1` to `hi` of a source. */
  ghost function Heights(src: Source, lo: int, hi: int): (r: seq<BlockId>)
    requires 0 <= lo && forall h :: lo < h <= hi ==> h in src.blocks
    ensures |r| == if lo < hi then hi - lo else 0
  {
    if lo >= hi then [] else Heights(src, lo, hi - 1) + [src.blocks[hi]]
  }

  ghost predicate Stored(sources: seq<Source>, lo: seq<int>, hi: seq<int>)
  {
    && |sources| == |lo| == |hi|
    && (forall i, h :: 0 <= i < |sources| && 0 <= lo[i] < h <= hi[i] ==> h in sources[i].blocks)
  }

  ghost function Sent(sources: seq<Source>, lo: seq<int>, hi: seq<int>, k: nat): seq<BlockId>
    requires Stored(sources, lo, hi) && k <= |sources|
  {
    if k == 0 then []
    else Sent(sources, lo, hi, k - 1) +
         if 0 <= lo[k - 1] then Heights(sources[k - 1], lo[k - 1], hi[k - 1]) else []
  }

  lemma {:induction false} CappedMonotone(sources: seq<Source>, asked: seq<int>, c: nat, d: nat, k: nat)
    requires k <= |sources| == |asked| && c <= d
    ensures Capped(sources, asked, c, k) <= Capped(sources, asked, d, k)
  {
    if k > 0 {
      CappedMonotone(sources, asked, c, d, k - 1);
    }
  }

  lemma {:induction false} CappedStep(sources: seq<Source>, asked: seq<int>, c: nat, k: nat)
    requires k <= |sources| == |asked|
    ensures Capped(sources, asked, c + 1, k) == Capped(sources, asked, c, k) + |Saturated(sources, asked, c + 1, k)|
  {
    if k == 0 {
      assert Saturated(sources, asked, c + 1, k) == {};
    } else {
      CappedStep(sources, asked, c, k - 1);
      var one := if Gap(sources, asked, k - 1) >= c + 1 then {k - 1} else {};
      assert Saturated(sources, asked, c + 1, k) == Saturated(sources, asked, c + 1, k - 1) + one;
    }
  }

  lemma {:induction false} GapWithinTotal(sources: seq<Source>, asked: seq<int>, cap: nat, k: nat, i: nat)
    requires i < k <= |sources| == |asked|
    ensures Min(Gap(sources, asked, i), cap) <= Capped(sources, asked, cap, k)
  {
    if i < k - 1 {
      GapWithinTotal(sources, asked, cap, k - 1, i);
    }
  }

  /** There is exactly one fair cap, and the answer it allows is bounded and complete when little is missing. */
  lemma FairCapMeans(sources: seq<Source>, asked: seq<int>, cap: nat)
    requires |sources| == |asked| && FairCap(sources, asked, cap)
    ensures forall c: nat :: FairCap(sources, asked, c) ==> c == cap
    ensures Capped(sources, asked, cap, |sources|) <= MAX_SEND + |Saturated(sources, asked, cap, |sources|)|
    ensures Capped(sources, asked, MAX_SEND + 1, |sources|) <= MAX_SEND ==>
              cap == MAX_SEND + 1 && forall i :: 0 <= i < |sources| ==> Gap(sources, asked, i) <= cap
  {
    CappedStep(sources, asked, cap - 1, |sources|);
    if Capped(sources, asked, MAX_SEND + 1, |sources|) <= MAX_SEND {
      CappedMonotone(sources, asked, cap, MAX_SEND + 1, |sources|);
      forall i | 0 <= i < |sources| ensures Gap(sources, asked, i) <= MAX_SEND {
        GapWithinTotal(sources, asked, MAX_SEND + 1, |sources|, i);
      }
    }
  }

  /** The number of blocks sent is the capped total. */
  lemma {:induction false} SentCount(sources: seq<Source>, lo: seq<int>, hi: seq<int>, cap: nat, k: nat)
    requires Stored(sources, lo, hi) && k <= |sources|
    requires forall i :: 0 <= i < |sources| ==> hi[i] == lo[i] + Min(Gap(sources, lo, i), cap)
    ensures |Sent(sources, lo, hi, k)| == Capped(sources, lo, cap, k)
  {
    if k > 0 {
      SentCount(sources, lo, hi, cap, k - 1);
    }
  }

  method Sum(sources: seq<Source>, asked: seq<int>, x: nat) returns (sum: nat)
    requires |sources| == |asked|
    ensures sum == Capped(sources, asked, x, |sources|)
  {
    sum := 0;
    for i := 0 to |sources|
      invariant sum == Capped(sources, asked, x, i)
    {
      if asked[i] >= 0 && sources[i].delivered > asked[i] {
        sum := sum + if sources[i].delivered - asked[i] > x then x else sources[i].delivered - asked[i];
      }
    }
  }

  /** The binary search between 0 and `MAX_SEND + 1`. */
  method SearchCap(sources: seq<Source>, asked: seq<int>) returns (r: nat)
    requires |sources| == |asked|
    ensures FairCap(sources, asked, r)
  {
    var l: nat := 0;
    r := MAX_SEND + 1;
    CappedZero(sources, asked, |sources|);
    while r - l > 1
      invariant l < r <= MAX_SEND + 1
      invariant Capped(sources, asked, r, |sources|) > MAX_SEND || r == MAX_SEND + 1
      invariant Capped(sources, asked, l, |sources|) <= MAX_SEND
    {
      var x := (r + l) / 2;
      var sum := Sum(sources, asked, x);
      if sum > MAX_SEND {
        r := x;
      } else {
        l := x;
      }
    }
    forall c | 0 <= c < r ensures Capped(sources, asked, c, |sources|) <= MAX_SEND {
      CappedMonotone(sources, asked, c, l, |sources|);
    }
  }

  lemma {:induction false} CappedZero(sources: seq<Source>, asked: seq<int>, k: nat)
    requires k <= |sources| == |asked|
    ensures Capped(sources, asked, 0, k) == 0
  {
    if k > 0 {
      CappedZero(sources, asked, k - 1);
    }
  }

  /** Sends the next `t` blocks of one source. */
  method SendNext(src: Source, lo: int, t: nat) returns (sent: seq<BlockId>, height: int)
    requires 0 <= lo && forall h :: lo < h <= lo + t ==> h in src.blocks
    ensures height == lo + t && sent == Heights(src, lo, lo + t)
  {
    sent, height := [], lo;
    var left: nat := t;
    while left > 0
      invariant left <= t && height == lo + t - left && sent == Heights(src, lo, height)
    {
      left, height := left - 1, height + 1;
      sent := sent + [src.blocks[height]];
    }
  }

  /** The closing loop: `cap` blocks at most for every lagging source. */
  method SendAll(st: State, asked: seq<int>, cap: nat) returns (sent: seq<BlockId>, heights: seq<int>)
    requires Inv(st, {}) && |asked| == |st.sources|
    ensures Stored(st.sources, asked, heights)
    ensures forall i :: 0 <= i < |asked| ==> heights[i] == asked[i] + Min(Gap(st.sources, asked, i), cap)
    ensures sent == Sent(st.sources, asked, heights, |asked|)
    ensures forall b :: b in sent ==> Is(st.status, b, Delivered)
  {
    hide Inv;
    ghost var goal := Goal(st, asked, cap);
    sent, heights := [], asked;
    for i := 0 to |asked|
      invariant |heights| == |asked|
      invariant forall j :: 0 <= j < |asked| ==> heights[j] == if j < i then goal[j] else asked[j]
      invariant sent == Sent(st.sources, asked, goal, i)
      invariant forall b :: b in sent ==> Is(st.status, b, Delivered)
    {
      if asked[i] >= 0 && st.sources[i].delivered > asked[i] {
        var gap: nat := st.sources[i].delivered - asked[i];
        var t := if gap > cap then cap else gap;
        assert asked[i] + t == goal[i];
        var blocks, height := SendNext(st.sources[i], asked[i], t);
        HeightsDelivered(st, st.sources[i], asked[i], height);
        sent := sent + blocks;
        heights := heights[i := height];
      }
    }
    assert heights == goal;
  }

  lemma Goal(st: State, asked: seq<int>, cap: nat) returns (goal: seq<int>)
    requires Inv(st, {}) && |asked| == |st.sources|
    ensures |goal| == |asked| && Stored(st.sources, asked, goal)
    ensures forall i :: 0 <= i < |asked| ==> goal[i] == asked[i] + Min(Gap(st.sources, asked, i), cap)
    ensures forall i, h :: 0 <= i < |asked| && 0 <= asked[i] < h <= goal[i] ==>
              h in st.sources[i].blocks && Is(st.status, st.sources[i].blocks[h], Delivered)
  {
    hide Inv;
    goal := seq(|asked|, i requires 0 <= i < |asked| => asked[i] + Min(Gap(st.sources, asked, i), cap));
    forall i, h | 0 <= i < |asked| && 0 <= asked[i] < h <= goal[i]
      ensures h in st.sources[i].blocks && Is(st.status, st.sources[i].blocks[h], Delivered)
    {
      BookFacts(st, i, h);
    }
  }

  /**
    The answer to `getDifference`.  Every block sent exists and is delivered, each lagging source gets
    exactly its next `min(gap, cap)` heights under the one fair cap, and the total is bounded.
  */
  method GetDifference(st: State, asked: seq<int>) returns (answer: Answer, cap: nat)
    requires Inv(st, {})
    ensures answer.BadSize? <==> |asked| != |st.sources|
    ensures answer.FoundFork? <==>
              (|asked| == |st.sources| && exists i :: 0 <= i < |asked| && asked[i] >= 0 && st.sources[i].proven)
    ensures answer.FoundFork? ==>
              && answer.src < |asked| == |st.sources| && asked[answer.src] >= 0 && st.sources[answer.src].proven
              && forall i :: 0 <= i < answer.src && asked[i] >= 0 ==> !st.sources[i].proven
    ensures answer.Update? ==>
              && |asked| == |st.sources| && FairCap(st.sources, asked, cap)
              && Stored(st.sources, asked, answer.heights)
              && (forall i :: 0 <= i < |asked| ==>
                    answer.heights[i] == asked[i] + Min(Gap(st.sources, asked, i), cap))
              && answer.sent == Sent(st.sources, asked, answer.heights, |asked|)
              && |answer.sent| <= MAX_SEND + |Saturated(st.sources, asked, cap, |asked|)|
              && (Capped(st.sources, asked, MAX_SEND + 1, |asked|) <= MAX_SEND ==>
                    forall i :: 0 <= i < |asked| && asked[i] >= 0 ==> answer.heights[i] >= st.sources[i].delivered)
              && (forall b :: b in answer.sent ==> Is(st.status, b, Delivered))
  {
    hide Inv;
    cap := 0;
    if |asked| != |st.sources| {
      return BadSize, 0;
    }
    for i := 0 to |asked|
      invariant forall j :: 0 <= j < i && asked[j] >= 0 ==> !st.sources[j].proven
    {
      if asked[i] >= 0 && st.sources[i].proven {
        return FoundFork(i), 0;
      }
    }
    cap := SearchCap(st.sources, asked);
    var sent, heights := SendAll(st, asked, cap);
    FairCapMeans(st.sources, asked, cap);
    SentCount(st.sources, asked, heights, cap, |asked|);
    answer := Update(sent, heights);
  }

  lemma {:induction false} HeightsDelivered(st: State, src: Source, lo: int, hi: int)
    requires 0 <= lo && forall h :: lo < h <= hi ==> h in src.blocks && Is(st.status, src.blocks[h], Delivered)
    ensures forall b :: b in Heights(src, lo, hi) ==> Is(st.status, b, Delivered)
    decreases hi - lo
  {
    if lo < hi {
      HeightsDelivered(st, src, lo, hi - 1);
    }
  }
}
