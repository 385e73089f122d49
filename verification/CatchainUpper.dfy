/**
  The upper half of CatChain: the frontier of top blocks, the replay of ancestors in topological order
  and the choice of dependencies for the next local block.
*/
module CatchainUpper {
  import opened CatchainReceiver
  import opened CatchainInvariant
  import opened CatchainCreate
  import opened CatchainVectorTime
  import opened CatchainConfluence

  /**
    `order` lists the blocks in arrival order, `trace` the calls of `preprocess_block`, `handed` all
    blocks passed to `process_blocks` so far and `batch` those of the current call (`process_deps_`).
  */
  datatype Upper = Upper(me: nat, maxDeps: nat, order: seq<BlockId>, body: Bodies,
                         fork: map<BlockId, nat>, vt: map<BlockId, seq<nat>>,
                         top: set<BlockId>, topSource: map<nat, BlockId>, blamed: set<nat>,
                         processed: set<BlockId>, trace: seq<BlockId>, handed: seq<BlockId>,
                         batch: seq<BlockId>)

  function InitUpper(me: nat, maxDeps: nat): Upper {
    Upper(me, maxDeps, [], map[], map[], map[], {}, map[], {}, {}, [], [], [])
  }

  /** Every block of `s` occurs once, after its parents. */
  ghost predicate Linear(body: Bodies, s: seq<BlockId>) {
    NoDup(s) && forall i {:trigger s[i]} :: 0 <= i < |s| ==> Known(body, s[..i], s[i])
  }

  /** The blocks known to the upper half and an order in which they arrived. */
  ghost predicate Arrived(body: Bodies, order: seq<BlockId>) {
    Linear(body, order) && Root !in body && forall b :: b in order <==> b in body
  }

  function Rank(order: seq<BlockId>, b: BlockId): nat {
    if order == [] then 0
    else if order[|order| - 1] == b then |order|
    else Rank(order[..|order| - 1], b)
  }

  lemma {:induction false} RankPrefix(order: seq<BlockId>, k: nat, b: BlockId)
    requires NoDup(order) && k <= |order|
    ensures b in order[..k] ==> 0 < Rank(order, b) <= k
    ensures b !in order ==> Rank(order, b) == 0
    ensures k < |order| && b == order[k] ==> Rank(order, b) == k + 1
    decreases |order|
  {
    if order != [] {
      var n := |order| - 1;
      if b != order[n] && k <= n {
        assert order[..n][..k] == order[..k];
        RankPrefix(order[..n], k, b);
      } else if b != order[n] {
        assert order[..k] == order && order == order[..n] + [order[n]];
        assert order[..n][..n] == order[..n];
        RankPrefix(order[..n], n, b);
      } else if k <= n {
        assert b !in order[..k];
      }
    }
  }

  lemma RankDecreases(body: Bodies, order: seq<BlockId>, b: BlockId, p: BlockId)
    requires Arrived(body, order) && b in body && Parent(body[b], p)
    ensures Rank(order, p) < Rank(order, b)
  {
    var i :| 0 <= i < |order| && order[i] == b;
    RankPrefix(order, i, b);
    assert Known(body, order[..i], b);
    RankPrefix(order, i, p);
    if p == Root {
      assert Root !in order;
    }
  }

  lemma RanksDecrease(body: Bodies, order: seq<BlockId>, b: BlockId)
    requires Arrived(body, order) && b in body
    ensures forall p :: p in ParentsOf(body[b]) ==> Rank(order, p) < Rank(order, b)
  {
    forall p | p in ParentsOf(body[b]) ensures Rank(order, p) < Rank(order, b) {
      RankDecreases(body, order, b, p);
    }
  }

  // ----- replaying ancestors -----

  /** `send_preprocess`: ancestors first, each block once.  The root is not a block of the upper half. */
  function SendPreprocess(body: Bodies, order: seq<BlockId>, trace: seq<BlockId>, b: BlockId): seq<BlockId>
    requires Arrived(body, order)
    decreases Rank(order, b), 1, 0
  {
    if b in trace || b !in body then trace
    else
      RanksDecrease(body, order, b);
      PreprocessAll(body, order, trace, ParentsOf(body[b]), Rank(order, b)) + [b]
  }

  function PreprocessAll(body: Bodies, order: seq<BlockId>, trace: seq<BlockId>, bs: seq<BlockId>, r: nat): seq<BlockId>
    requires Arrived(body, order) && forall p :: p in bs ==> Rank(order, p) < r
    decreases r, 0, |bs|
  {
    if bs == [] then trace
    else PreprocessAll(body, order, SendPreprocess(body, order, trace, bs[0]), bs[1..], r)
  }

  /** `set_processed`. */
  function SetProcessed(body: Bodies, order: seq<BlockId>, done: set<BlockId>, b: BlockId): set<BlockId>
    requires Arrived(body, order)
    decreases Rank(order, b), 1, 0
  {
    if b in done || b !in body then done
    else
      RanksDecrease(body, order, b);
      ProcessAll(body, order, done, ParentsOf(body[b]), Rank(order, b)) + {b}
  }

  function ProcessAll(body: Bodies, order: seq<BlockId>, done: set<BlockId>, bs: seq<BlockId>, r: nat): set<BlockId>
    requires Arrived(body, order) && forall p :: p in bs ==> Rank(order, p) < r
    decreases r, 0, |bs|
  {
    if bs == [] then done
    else ProcessAll(body, order, SetProcessed(body, order, done, bs[0]), bs[1..], r)
  }

  ghost function Past(body: Bodies, b: BlockId): set<BlockId> {
    set a | a in body && Reaches(body, b, a)
  }

  ghost function PastAll(body: Bodies, bs: seq<BlockId>): set<BlockId> {
    set a | a in body && exists b :: b in bs && Reaches(body, b, a)
  }

  lemma {:induction false} UpwardReaches(body: Bodies, order: seq<BlockId>, s: set<BlockId>, b: BlockId, a: BlockId)
    requires Arrived(body, order) && Upward(body, s) && b in s && Reaches(body, b, a) && a in body
    ensures a in s
    decreases Rank(order, b)
  {
    if a != b {
      var p := ReachesFirst(body, b, a);
      RankDecreases(body, order, b, p);
      if p == Root {
        RootReachesNothing(body, a);
      }
      UpwardReaches(body, order, s, p, a);
    }
  }

  lemma PastSplit(body: Bodies, b: BlockId, a: BlockId)
    requires b in body
    ensures Reaches(body, b, a) <==> a == b || exists p :: p in ParentsOf(body[b]) && Reaches(body, p, a)
  {
    if Reaches(body, b, a) && a != b {
      var p := ReachesFirst(body, b, a);
      assert p in ParentsOf(body[b]);
    }
    if a == b {
      ReachesSelf(body, b);
    }
    if p :| p in ParentsOf(body[b]) && Reaches(body, p, a) {
      ReachesStep(body, b, p, a);
    }
  }

  lemma PastNowhere(body: Bodies, b: BlockId)
    requires b !in body
    ensures Past(body, b) == {}
  {
    forall a | a in body ensures !Reaches(body, b, a) {
      if Reaches(body, b, a) {
        var p := ReachesFirst(body, b, a);
      }
    }
  }

  lemma PastAllSplit(body: Bodies, bs: seq<BlockId>)
    ensures bs == [] ==> PastAll(body, bs) == {}
    ensures bs != [] ==> PastAll(body, bs) == Past(body, bs[0]) + PastAll(body, bs[1..])
  {
    if bs != [] {
      assert bs == [bs[0]] + bs[1..];
    }
  }

  lemma PastIs(body: Bodies, b: BlockId)
    requires b in body
    ensures Past(body, b) == PastAll(body, ParentsOf(body[b])) + {b}
  {
    forall a | a in body ensures a in Past(body, b) <==> a in PastAll(body, ParentsOf(body[b])) + {b} {
      PastSplit(body, b, a);
    }
  }

  /** Marking stops at blocks already marked, and still marks exactly the causal past. */
  lemma {:induction false} SetProcessedIs(body: Bodies, order: seq<BlockId>, done: set<BlockId>, b: BlockId)
    requires Arrived(body, order) && Upward(body, done)
    ensures var r := SetProcessed(body, order, done, b); r == done + Past(body, b) && Upward(body, r)
    decreases Rank(order, b), 1, 0
  {
    if b !in body {
      PastNowhere(body, b);
    } else if b in done {
      forall a | a in Past(body, b) ensures a in done {
        UpwardReaches(body, order, done, b, a);
      }
    } else {
      RanksDecrease(body, order, b);
      ProcessAllIs(body, order, done, ParentsOf(body[b]), Rank(order, b));
      PastIs(body, b);
      ParentsMarked(body, order, b);
    }
  }

  lemma ParentsMarked(body: Bodies, order: seq<BlockId>, b: BlockId)
    requires Arrived(body, order) && b in body
    ensures forall p :: Parent(body[b], p) ==> p == Root || p in PastAll(body, ParentsOf(body[b]))
  {
    forall p | Parent(body[b], p) && p != Root ensures p in PastAll(body, ParentsOf(body[b])) {
      ParentKnown(body, order, b, p);
      ReachesSelf(body, p);
      assert p in ParentsOf(body[b]);
    }
  }

  lemma ParentKnown(body: Bodies, order: seq<BlockId>, b: BlockId, p: BlockId)
    requires Arrived(body, order) && b in body && Parent(body[b], p) && p != Root
    ensures p in body
  {
    var i :| 0 <= i < |order| && order[i] == b;
    assert Known(body, order[..i], order[i]);
    var j := InLog(order, i, p);
    assert p in order;
  }

  lemma {:induction false} ProcessAllIs(body: Bodies, order: seq<BlockId>, done: set<BlockId>, bs: seq<BlockId>, r: nat)
    requires Arrived(body, order) && Upward(body, done) && forall p :: p in bs ==> Rank(order, p) < r
    ensures var s := ProcessAll(body, order, done, bs, r); s == done + PastAll(body, bs) && Upward(body, s)
    decreases r, 0, |bs|
  {
    PastAllSplit(body, bs);
    if bs != [] {
      SetProcessedIs(body, order, done, bs[0]);
      ProcessAllIs(body, order, SetProcessed(body, order, done, bs[0]), bs[1..], r);
    }
  }

  ghost function Members(s: seq<BlockId>): set<BlockId> {
    set b | b in s
  }

  lemma LinearUpward(body: Bodies, s: seq<BlockId>)
    requires Linear(body, s)
    ensures Upward(body, Members(s))
  {
    forall b, p | b in Members(s) && b in body && Parent(body[b], p) ensures p == Root || p in Members(s) {
      var i :| 0 <= i < |s| && s[i] == b;
      assert Known(body, s[..i], s[i]);
    }
  }

  lemma LinearAppend(body: Bodies, s: seq<BlockId>, b: BlockId)
    requires Linear(body, s) && b !in s && Known(body, s, b)
    ensures Linear(body, s + [b])
  {
    var t := s + [b];
    forall i | 0 <= i < |t| ensures Known(body, t[..i], t[i]) {
      assert t[..i] == if i < |s| then s[..i] else s;
    }
  }

  /** The replay appends exactly the missing part of the causal past, in an order that respects the DAG. */
  lemma {:induction false} SendPreprocessIs(body: Bodies, order: seq<BlockId>, trace: seq<BlockId>, b: BlockId)
    requires Arrived(body, order) && Linear(body, trace)
    ensures var r := SendPreprocess(body, order, trace, b);
            trace <= r && Linear(body, r) && Members(r) == Members(trace) + Past(body, b)
    decreases Rank(order, b), 1, 0
  {
    if b !in body {
      PastNowhere(body, b);
    } else if b in trace {
      LinearUpward(body, trace);
      forall a | a in Past(body, b) ensures a in Members(trace) {
        UpwardReaches(body, order, Members(trace), b, a);
      }
    } else {
      RanksDecrease(body, order, b);
      var s := PreprocessAll(body, order, trace, ParentsOf(body[b]), Rank(order, b));
      PreprocessAllIs(body, order, trace, ParentsOf(body[b]), Rank(order, b));
      PastIs(body, b);
      ParentsMarked(body, order, b);
      NotOwnAncestor(body, order, b);
      assert b !in Members(s) && Members(s + [b]) == Members(s) + {b};
      LinearAppend(body, s, b);
    }
  }

  lemma {:induction false} LowerRank(body: Bodies, order: seq<BlockId>, b: BlockId, a: BlockId)
    requires Arrived(body, order) && Reaches(body, b, a)
    ensures Rank(order, a) <= Rank(order, b)
    decreases Rank(order, b)
  {
    if a != b {
      var p := ReachesFirst(body, b, a);
      RankDecreases(body, order, b, p);
      LowerRank(body, order, p, a);
    }
  }

  lemma NotOwnAncestor(body: Bodies, order: seq<BlockId>, b: BlockId)
    requires Arrived(body, order) && b in body
    ensures b !in PastAll(body, ParentsOf(body[b]))
  {
    forall p | p in ParentsOf(body[b]) ensures !Reaches(body, p, b) {
      RankDecreases(body, order, b, p);
      if Reaches(body, p, b) {
        LowerRank(body, order, p, b);
      }
    }
  }

  lemma {:induction false} PreprocessAllIs(body: Bodies, order: seq<BlockId>, trace: seq<BlockId>, bs: seq<BlockId>, r: nat)
    requires Arrived(body, order) && Linear(body, trace) && forall p :: p in bs ==> Rank(order, p) < r
    ensures var s := PreprocessAll(body, order, trace, bs, r);
            trace <= s && Linear(body, s) && Members(s) == Members(trace) + PastAll(body, bs)
    decreases r, 0, |bs|
  {
    PastAllSplit(body, bs);
    if bs != [] {
      SendPreprocessIs(body, order, trace, bs[0]);
      PreprocessAllIs(body, order, SendPreprocess(body, order, trace, bs[0]), bs[1..], r);
    }
  }

  // ----- events -----

  /** What `on_new_block` demands: a new block whose parents are known. */
  ghost predicate Acceptable(u: Upper, b: BlockId, body: Body) {
    && Arrived(u.body, u.order) && b.Id? && b !in u.body
    && forall p :: Parent(body, p) ==> p == Root || p in u.body
  }

  function Top(u: Upper, b: BlockId, body: Body): set<BlockId> {
    u.top - {body.prev} - (if b.Id? && b.src in u.blamed then {} else set d | d in body.deps)
  }

  function OnNewBlock(u: Upper, b: BlockId, body: Body, fork: nat, vt: seq<nat>): Upper
    requires Acceptable(u, b, body)
  {
    ArrivedAppend(u, b, body);
    var order', body' := u.order + [b], u.body[b := body];
    var v := u.(order := order', body := body', fork := u.fork[b := fork], vt := u.vt[b := vt], top := Top(u, b, body));
    if b.src in u.blamed then v
    else v.(trace := SendPreprocess(body', order', u.trace, b), topSource := u.topSource[b.src := b],
            top := v.top + if b.src == u.me then {} else {b})
  }

  lemma ArrivedAppend(u: Upper, b: BlockId, body: Body)
    requires Acceptable(u, b, body)
    ensures Arrived(u.body[b := body], u.order + [b]) 
  {
    var body' := u.body[b := body];
    LinearGrow(u.body, u.order, b, body);
    assert b !in u.order;
    LinearAppend(body', u.order, b);
  }

  lemma LinearGrow(body: Bodies, s: seq<BlockId>, b: BlockId, edges: Body)
    requires Linear(body, s) && b !in body
    ensures Linear(body[b := edges], s)
  {
    forall i | 0 <= i < |s| ensures Known(body[b := edges], s[..i], s[i]) {
      assert Known(body, s[..i], s[i]);
    }
  }

  function VtAt(u: Upper, b: BlockId): seq<nat> { Find(u.vt, b, []) }
  function ForkAt(u: Upper, b: BlockId): nat { Find(u.fork, b, 0) }

  predicate Descends(u: Upper, b: BlockId, a: BlockId) {
    IsDescendantOf(VtAt(u, b), ForkAt(u, a), a.Height())
  }

  /** Is the latest block of another healthy source a descendant of the latest block of source `i`? */
  predicate Covered(u: Upper, i: nat) {
    i in u.topSource && exists j :: j in u.topSource && j != i && j !in u.blamed && Descends(u, u.topSource[j], u.topSource[i])
  }

  /** The frontier `on_blame` rebuilds from the latest blocks of the healthy sources. */
  function Frontier(u: Upper): set<BlockId> {
    set i | i in u.topSource && i !in u.blamed && i != u.me && u.topSource[i] !in u.processed && !Covered(u, i)
      :: u.topSource[i]
  }

  function OnBlame(u: Upper, s: nat): Upper {
    if s in u.blamed then u
    else
      var v := u.(blamed := u.blamed + {s}, topSource := u.topSource - {s});
      v.(top := Frontier(v))
  }

  /** One round of the loop in `send_process`; blocks of blamed sources are dropped. */
  function Draw(u: Upper, b: BlockId): Upper
    requires Arrived(u.body, u.order)
  {
    var v := u.(top := u.top - {b});
    if b.Id? && b.src in u.blamed then v
    else v.(batch := u.batch + [b], handed := u.handed + [b],
            processed := SetProcessed(u.body, u.order, u.processed, b))
  }

  /** A possible outcome of the random draws: they stop when the frontier or the budget is used up. */
  predicate Drawable(u: Upper, draws: seq<BlockId>)
    requires Arrived(u.body, u.order)
    decreases |draws|
  {
    if draws == [] then u.top == {} || |u.batch| >= u.maxDeps
    else |u.batch| < u.maxDeps && draws[0] in u.top && Drawable(Draw(u, draws[0]), draws[1..])
  }

  function DrawAll(u: Upper, draws: seq<BlockId>): (r: Upper)
    requires Arrived(u.body, u.order)
    ensures r.body == u.body && r.order == u.order
    decreases |draws|
  {
    if draws == [] then u else DrawAll(Draw(u, draws[0]), draws[1..])
  }

  datatype UpperEvent = NewBlock(b: BlockId, body: Body, fork: nat, vt: seq<nat>) | Blamed(src: nat)
                      | Process(draws: seq<BlockId>)

  ghost predicate Possible(u: Upper, e: UpperEvent) {
    && Arrived(u.body, u.order)
    && match e
       case NewBlock(b, body, _, _) => Acceptable(u, b, body)
       case Blamed(_) => true
       case Process(draws) => Drawable(u.(batch := []), draws)
  }

  function UpperStep(u: Upper, e: UpperEvent): Upper
    requires Possible(u, e)
  {
    match e
    case NewBlock(b, body, fork, vt) => OnNewBlock(u, b, body, fork, vt)
    case Blamed(s) => OnBlame(u, s)
    case Process(draws) => DrawAll(u.(batch := []), draws)
  }

  // ----- what every event keeps -----

  ghost predicate UpperInv(u: Upper) {
    && Arrived(u.body, u.order) && Linear(u.body, u.trace)
    && Upward(u.body, u.processed) && u.processed <= Members(u.trace)
    && u.top <= Members(u.trace) && (forall b :: b in u.top ==> b.Id? && b.src != u.me && b.src !in u.blamed)
    && NoDup(u.handed) && Members(u.handed) <= u.processed && u.top !! Members(u.handed)
    && Latest(u.topSource, u.order, u.blamed) && InTrace(u.topSource, u.trace)
    && Members(u.batch) <= Members(u.handed) && |u.batch| <= u.maxDeps
  }

  /** `b` is the last block of its source among the blocks that arrived. */
  ghost predicate LastOfSource(order: seq<BlockId>, b: BlockId) {
    b.Id? && exists k :: LastAt(order, b, k)
  }

  ghost predicate LastAt(order: seq<BlockId>, b: BlockId, k: int)
    requires b.Id?
  {
    0 <= k < |order| && order[k] == b && forall j :: k < j < |order| ==> !(order[j].Id? && order[j].src == b.src)
  }

  /** `top_source_blocks_` holds the last block of every source that is not blamed. */
  ghost predicate Latest(topSource: map<nat, BlockId>, order: seq<BlockId>, blamed: set<nat>) {
    && (forall i :: i in topSource ==> i !in blamed && LastOfSource(order, topSource[i]) && topSource[i].src == i)
    && (forall b :: LastOfSource(order, b) && b.src !in blamed ==> b.src in topSource && topSource[b.src] == b)
  }

  ghost predicate InTrace(topSource: map<nat, BlockId>, trace: seq<BlockId>) {
    forall i :: i in topSource ==> topSource[i] in trace
  }

  lemma LastSnoc(order: seq<BlockId>, b: BlockId, c: BlockId)
    requires b.Id? && b !in order
    ensures LastOfSource(order + [b], c) <==> c == b || (LastOfSource(order, c) && c.src != b.src)
  {
    var order' := order + [b];
    if c == b {
      assert LastAt(order', b, |order|);
    } else if c.Id? {
      if k :| LastAt(order', c, k) {
        assert k < |order| && order'[|order|] == b;
        forall j | k < j < |order| ensures !(order[j].Id? && order[j].src == c.src) {
          assert order'[j] == order[j];
        }
        assert LastAt(order, c, k);
      }
      if k :| LastAt(order, c, k) && c.src != b.src {
        assert LastAt(order', c, k);
      }
    }
  }

  lemma LatestGrows(topSource: map<nat, BlockId>, order: seq<BlockId>, blamed: set<nat>, b: BlockId)
    requires Latest(topSource, order, blamed) && b.Id? && b !in order
    ensures Latest(if b.src in blamed then topSource else topSource[b.src := b], order + [b], blamed)
  {
    hide LastOfSource;
    LastIds(order);
    LastIds(order + [b]);
    forall c ensures LastOfSource(order + [b], c) <==> c == b || (LastOfSource(order, c) && c.src != b.src) {
      LastSnoc(order, b, c);
    }
  }

  lemma LastIds(order: seq<BlockId>)
    ensures forall c :: LastOfSource(order, c) ==> c.Id?
  {}

  lemma OnNewBlockKeeps(u: Upper, b: BlockId, body: Body, fork: nat, vt: seq<nat>)
    requires UpperInv(u) && Acceptable(u, b, body)
    ensures UpperInv(OnNewBlock(u, b, body, fork, vt)) && u.trace <= OnNewBlock(u, b, body, fork, vt).trace
  {
    hide Linear, Arrived, Past, Latest;
    var body', order' := u.body[b := body], u.order + [b];
    ArrivedAppend(u, b, body);
    OrderedBodies(u.body, u.order);
    LatestGrows(u.topSource, u.order, u.blamed, b);
    LinearGrow(u.body, u.trace, b, body);
    LinearIn(u.body, u.trace);
    assert Upward(body', u.processed);
    if b.src !in u.blamed {
      var trace' := SendPreprocess(body', order', u.trace, b);
      SendPreprocessIs(body', order', u.trace, b);
      SelfInPast(body', b);
      LinearIn(body', trace');
      assert Members(u.trace) <= Members(trace') && b in Members(trace');
    }
  }

  lemma OrderedBodies(body: Bodies, order: seq<BlockId>)
    requires Arrived(body, order)
    ensures forall b :: b in order <==> b in body
  {}

  lemma SelfInPast(body: Bodies, b: BlockId)
    requires b in body
    ensures b in Past(body, b)
  {
    ReachesSelf(body, b);
  }

  lemma LinearIn(body: Bodies, s: seq<BlockId>)
    requires Linear(body, s)
    ensures Members(s) <= body.Keys
  {}

  lemma OnBlameKeeps(u: Upper, s: nat)
    requires UpperInv(u)
    ensures UpperInv(OnBlame(u, s)) && OnBlame(u, s).trace == u.trace
  {}

  lemma DrawKeeps(u: Upper, b: BlockId)
    requires UpperInv(u) && b in u.top && |u.batch| < u.maxDeps
    ensures UpperInv(Draw(u, b)) && Draw(u, b).trace == u.trace
  {
    hide Linear, Arrived, Past;
    LinearIn(u.body, u.trace);
    SetProcessedIs(u.body, u.order, u.processed, b);
    SelfInPast(u.body, b);
    LinearUpward(u.body, u.trace);
    forall a | a in Past(u.body, b) ensures a in Members(u.trace) {
      PastIn(u.body, u.order, Members(u.trace), b, a);
    }
    assert Members(u.handed + [b]) == Members(u.handed) + {b};
    assert Members(u.batch + [b]) == Members(u.batch) + {b};
  }

  lemma PastIn(body: Bodies, order: seq<BlockId>, s: set<BlockId>, b: BlockId, a: BlockId)
    requires Arrived(body, order) && Upward(body, s) && b in s && a in Past(body, b)
    ensures a in s
  {
    UpwardReaches(body, order, s, b, a);
  }

  lemma {:induction false} DrawAllKeeps(u: Upper, draws: seq<BlockId>)
    requires UpperInv(u) && Drawable(u, draws)
    ensures UpperInv(DrawAll(u, draws)) && DrawAll(u, draws).trace == u.trace
    decreases |draws|
  {
    hide UpperInv, Draw;
    if draws != [] {
      InvArrived(u);
      DrawKeeps(u, draws[0]);
      InvArrived(Draw(u, draws[0]));
      DrawAllKeeps(Draw(u, draws[0]), draws[1..]);
    }
  }

  lemma InvArrived(u: Upper)
    requires UpperInv(u)
    ensures Arrived(u.body, u.order)
  {}

  lemma UpperStepKeeps(u: Upper, e: UpperEvent)
    requires UpperInv(u) && Possible(u, e)
    ensures UpperInv(UpperStep(u, e)) && u.trace <= UpperStep(u, e).trace
  {
    hide UpperInv, Arrived, Acceptable, OnNewBlock, OnBlame;
    match e
    case NewBlock(b, body, fork, vt) => OnNewBlockKeeps(u, b, body, fork, vt);
    case Blamed(s) => OnBlameKeeps(u, s);
    case Process(draws) =>
      EmptyBatch(u);
      DrawAllKeeps(u.(batch := []), draws);
  }

  lemma EmptyBatch(u: Upper)
    requires UpperInv(u)
    ensures UpperInv(u.(batch := []))
  {}

  lemma UpperBody(u: Upper)
    requires UpperInv(u)
    ensures Arrived(u.body, u.order) && u.processed <= u.body.Keys && u.top <= u.body.Keys && Upward(u.body, u.processed)
    ensures Upward(u.body, u.body.Keys) && Root !in u.body
  {
    hide Linear, Past;
    LinearIn(u.body, u.trace);
    forall b, p | b in u.body && Parent(u.body[b], p) ensures p == Root || p in u.body {
      if p != Root {
        ParentKnown(u.body, u.order, b, p);
      }
    }
  }

  /** A run of the upper half; an event that is not possible does not happen. */
  ghost function Play(me: nat, maxDeps: nat, events: seq<UpperEvent>): Upper {
    if events == [] then InitUpper(me, maxDeps)
    else
      var u := Play(me, maxDeps, events[..|events| - 1]);
      if Possible(u, events[|events| - 1]) then UpperStep(u, events[|events| - 1]) else u
  }

  lemma {:induction false} PlayKeeps(me: nat, maxDeps: nat, events: seq<UpperEvent>)
    ensures UpperInv(Play(me, maxDeps, events))
  {
    hide UpperInv, Possible, UpperStep;
    if events == [] {
      InitUpperHolds(me, maxDeps);
    } else {
      var u := Play(me, maxDeps, events[..|events| - 1]);
      PlayKeeps(me, maxDeps, events[..|events| - 1]);
      if Possible(u, events[|events| - 1]) {
        UpperStepKeeps(u, events[|events| - 1]);
      }
    }
  }

  lemma InitUpperHolds(me: nat, maxDeps: nat)
    ensures UpperInv(InitUpper(me, maxDeps))
  {}

  /**
    Over every run, with any number of blames: the preprocess trace is a duplicate-free, ancestor-closed
    linear extension of the DAG, the processed set is ancestor-closed, no block is handed to
    `process_blocks` twice, what is handed over was preprocessed before, and the frontier holds blocks of
    healthy foreign sources only, all preprocessed and none handed over.
  */
  lemma UpperDiscipline(me: nat, maxDeps: nat, events: seq<UpperEvent>)
    ensures var u := Play(me, maxDeps, events);
            && Linear(u.body, u.trace) && Upward(u.body, u.processed)
            && NoDup(u.handed) && Members(u.handed) <= u.processed <= Members(u.trace)
            && |u.batch| <= maxDeps
            && u.top <= Members(u.trace) && u.top !! Members(u.handed)
            && forall b :: b in u.top ==> b.Id? && b.src != me && b.src !in u.blamed
  {
    hide Linear, Upward, NoDup, Play;
    PlayKeeps(me, maxDeps, events);
    PlayConstants(me, maxDeps, events);
  }

  lemma {:induction false} PlayConstants(me: nat, maxDeps: nat, events: seq<UpperEvent>)
    ensures Play(me, maxDeps, events).maxDeps == maxDeps && Play(me, maxDeps, events).me == me
  {
    if events != [] {
      var u, e := Play(me, maxDeps, events[..|events| - 1]), events[|events| - 1];
      PlayConstants(me, maxDeps, events[..|events| - 1]);
      if Possible(u, e) && e.Process? {
        DrawAllConstants(u.(batch := []), e.draws);
      }
    }
  }

  lemma {:induction false} DrawAllConstants(u: Upper, draws: seq<BlockId>)
    requires Arrived(u.body, u.order)
    ensures var r := DrawAll(u, draws);
            r.maxDeps == u.maxDeps && r.me == u.me && r.blamed == u.blamed && r.trace == u.trace && r.topSource == u.topSource
    decreases |draws|
  {
    if draws != [] {
      DrawAllConstants(Draw(u, draws[0]), draws[1..]);
    }
  }

  // ----- the frontier -----

  /** Unprocessed blocks of other nodes without children. */
  ghost function Tips(u: Upper): set<BlockId> {
    set b | b in u.body && b.Id? && b.src != u.me && b !in u.processed && !HasChild(u.body, b)
  }

  ghost predicate HasChild(body: Bodies, b: BlockId) {
    exists c :: c in body && Parent(body[c], b)
  }

  lemma NewBlockTips(u: Upper, b: BlockId, body: Body, fork: nat, vt: seq<nat>)
    requires UpperInv(u) && Acceptable(u, b, body) && u.blamed == {} && u.top == Tips(u)
    ensures var r := OnNewBlock(u, b, body, fork, vt); r.top == Tips(r)
  {
    hide Linear, SendPreprocess;
    var r := OnNewBlock(u, b, body, fork, vt);
    LinearIn(u.body, u.trace);
    forall x ensures HasChild(r.body, x) <==> HasChild(u.body, x) || Parent(body, x) {
      ChildGrow(u.body, b, body, x);
    }
    if HasChild(u.body, b) {
      var c :| c in u.body && Parent(u.body[c], b);
      ParentKnown(u.body, u.order, c, b);
    }
    assert !Parent(body, b);
    forall x ensures x in r.top <==> x in Tips(r) {
      assert Parent(body, x) <==> x == body.prev || x in body.deps;
    }
  }

  lemma ChildGrow(body: Bodies, b: BlockId, edges: Body, x: BlockId)
    requires b !in body
    ensures HasChild(body[b := edges], x) <==> HasChild(body, x) || Parent(edges, x)
  {
    var body' := body[b := edges];
    if c :| c in body && Parent(body[c], x) {
      assert c in body' && Parent(body'[c], x);
    }
    if Parent(edges, x) {
      assert b in body' && Parent(body'[b], x);
    }
  }

  /** Drawing a tip marks its ancestors, none of which is another tip. */
  lemma DrawTips(u: Upper, b: BlockId)
    requires UpperInv(u) && u.blamed == {} && u.top == Tips(u) && b in u.top
    ensures var r := Draw(u, b); r.top == Tips(r)
  {
    hide Linear, SetProcessed, Past;
    var r := Draw(u, b);
    SetProcessedIs(u.body, u.order, u.processed, b);
    SelfInPast(u.body, b);
    forall x | x in Past(u.body, b) && x != b ensures HasChild(u.body, x) {
      AncestorHasChild(u.body, u.order, b, x);
    }
  }

  lemma {:induction false} AncestorHasChild(body: Bodies, order: seq<BlockId>, b: BlockId, a: BlockId)
    requires Arrived(body, order) && b in body && a in Past(body, b) && a != b
    ensures HasChild(body, a)
    decreases Rank(order, b)
  {
    var p := ReachesFirst(body, b, a);
    if p != a {
      if p == Root {
        RootReachesNothing(body, a);
      }
      RankDecreases(body, order, b, p);
      ParentKnown(body, order, b, p);
      AncestorHasChild(body, order, p, a);
    }
  }

  lemma {:induction false} DrawAllTips(u: Upper, draws: seq<BlockId>)
    requires UpperInv(u) && Drawable(u, draws) && u.blamed == {} && u.top == Tips(u)
    ensures var r := DrawAll(u, draws); r.top == Tips(r) && r.blamed == {}
    decreases |draws|
  {
    hide UpperInv, Tips;
    if draws != [] {
      InvArrived(u);
      DrawKeeps(u, draws[0]);
      DrawTips(u, draws[0]);
      InvArrived(Draw(u, draws[0]));
      DrawAllTips(Draw(u, draws[0]), draws[1..]);
    }
  }

  lemma StepTips(u: Upper, e: UpperEvent)
    requires UpperInv(u) && Possible(u, e) && !e.Blamed? && u.blamed == {} && u.top == Tips(u)
    ensures var r := UpperStep(u, e); r.top == Tips(r) && r.blamed == {}
  {
    hide UpperInv, Arrived, Acceptable, Drawable, DrawAll, SendPreprocess;
    match e
    case NewBlock(b, body, fork, vt) => NewBlockTips(u, b, body, fork, vt);
    case Process(draws) =>
      EmptyBatch(u);
      assert Tips(u.(batch := [])) == Tips(u);
      DrawAllTips(u.(batch := []), draws);
  }

  /** In runs without blames the frontier is exactly the unprocessed foreign blocks without children. */
  lemma {:induction false} FrontierIsExact(me: nat, maxDeps: nat, events: seq<UpperEvent>)
    requires forall e :: e in events ==> !e.Blamed?
    ensures var u := Play(me, maxDeps, events); u.top == Tips(u) && u.blamed == {}
  {
    hide UpperInv, Possible, UpperStep, Tips;
    if events == [] {
      assert Tips(InitUpper(me, maxDeps)) == {} by { NoTips(me, maxDeps); }
    } else {
      var k := |events| - 1;
      var u := Play(me, maxDeps, events[..k]);
      FrontierIsExact(me, maxDeps, events[..k]);
      PlayKeeps(me, maxDeps, events[..k]);
      assert events[k] in events;
      if Possible(u, events[k]) {
        StepTips(u, events[k]);
      }
    }
  }

  lemma NoTips(me: nat, maxDeps: nat)
    ensures Tips(InitUpper(me, maxDeps)) == {}
  {}

  /** Timestamps answer ancestry. */
  ghost predicate Clocked(u: Upper) {
    forall a, b :: a in u.body && b in u.body ==> (Descends(u, b, a) <==> Reaches(u.body, b, a))
  }

  /** Is `b` the last block of a healthy foreign source, unprocessed and not in the past of another healthy source's last? */
  ghost predicate OnFrontier(u: Upper, b: BlockId) {
    && LastOfSource(u.order, b) && b.src !in u.blamed && b.src != u.me && b !in u.processed
    && forall c :: LastOfSource(u.order, c) && c.src !in u.blamed && c.src != b.src ==> !Reaches(u.body, c, b)
  }

  lemma {:induction false} SomeLast(order: seq<BlockId>, b: BlockId) returns (c: BlockId)
    requires b in order && b.Id?
    ensures LastOfSource(order, c) && c.src == b.src
  {
    var n := |order| - 1;
    if order[n].Id? && order[n].src == b.src {
      c := order[n];
      assert LastAt(order, c, n);
    } else {
      c := SomeLast(order[..n], b);
      var k :| LastAt(order[..n], c, k);
      assert forall j :: k < j < n ==> order[j] == order[..n][j];
      assert LastAt(order, c, k);
    }
  }

  /** Over every run, with any blames: a healthy source that was heard of is remembered by its last block. */
  lemma LatestIsRemembered(me: nat, maxDeps: nat, events: seq<UpperEvent>, b: BlockId)
    requires var u := Play(me, maxDeps, events); b in u.order && b.Id? && b.src !in u.blamed
    ensures var u := Play(me, maxDeps, events);
            b.src in u.topSource &&
            exists k :: 0 <= k < |u.order| && u.order[k] == u.topSource[b.src] &&
                        forall j :: k < j < |u.order| ==> !(u.order[j].Id? && u.order[j].src == b.src)
  {
    hide Play, Linear, Arrived;
    PlayKeeps(me, maxDeps, events);
    var u := Play(me, maxDeps, events);
    var c := SomeLast(u.order, b);
    var k :| LastAt(u.order, c, k);
  }

  /** `on_blame` rebuilds an antichain: one block per source, none an ancestor of another. */
  lemma RebuiltFrontier(u: Upper, s: nat)
    requires UpperInv(u) && Clocked(u) && s !in u.blamed
    ensures var r := OnBlame(u, s);
            && (forall b :: b in r.top <==> OnFrontier(r, b))
            && (forall a, b :: a in r.top && b in r.top && a != b ==> a.Id? && b.Id? && a.src != b.src && !Reaches(r.body, a, b))
  {
    var r := OnBlame(u, s);
    OnBlameKeeps(u, s);
    UpperLatest(u);
    UpperLatest(r);
    hide UpperInv, Linear, Upward, IsDescendantOf, Reaches, Find, LastOfSource, Covered;
    LastIds(u.order);
    forall i | i in r.topSource
      ensures Covered(r, i) <==> exists j :: j in r.topSource && j !in r.blamed && j != i && Reaches(r.body, r.topSource[j], r.topSource[i])
    {
      CoveredIff(u, r, i);
    }
  }

  lemma UpperLatest(u: Upper)
    requires UpperInv(u)
    ensures Latest(u.topSource, u.order, u.blamed) && forall i :: i in u.topSource ==> u.topSource[i] in u.body
  {
    LinearIn(u.body, u.trace);
  }

  lemma CoveredIff(u: Upper, r: Upper, i: nat)
    requires Clocked(u) && r.body == u.body && r.vt == u.vt && r.fork == u.fork && i in r.topSource
    requires forall j :: j in r.topSource ==> r.topSource[j] in u.body
    ensures Covered(r, i) <==> exists j :: j in r.topSource && j !in r.blamed && j != i && Reaches(r.body, r.topSource[j], r.topSource[i])
  {
    hide IsDescendantOf, Reaches, Find;
    forall j | j in r.topSource ensures Descends(r, r.topSource[j], r.topSource[i]) <==> Reaches(r.body, r.topSource[j], r.topSource[i]) {
      assert Descends(r, r.topSource[j], r.topSource[i]) == Descends(u, r.topSource[j], r.topSource[i]);
    }
  }

  // ----- the frontier between blames -----

  /** `b` arrived as number `k` or later. */
  ghost predicate Since(u: Upper, k: nat, b: BlockId) {
    k <= |u.order| && b in u.order[k..]
  }

  /** A block that arrived as number `k` or later builds on `b`; those of blamed sources only count for `prev`. */
  ghost predicate Superseded(u: Upper, k: nat, b: BlockId) {
    exists c :: Since(u, k, c) && BuildsOn(u, c, b)
  }

  ghost predicate BuildsOn(u: Upper, c: BlockId, b: BlockId) {
    c in u.body && c.Id? && (u.body[c].prev == b || (c.src !in u.blamed && b in u.body[c].deps))
  }

  /**
    What the frontier `base` became since block number `k` without further blames: it gained the new blocks
    of healthy foreign sources and lost what was built on or handed over.
  */
  ghost predicate FrontierFrom(u: Upper, base: set<BlockId>, k: nat) {
    forall b :: b in u.top <==>
      && (b in base || (Since(u, k, b) && b.Id? && b.src != u.me && b.src !in u.blamed))
      && !Superseded(u, k, b) && b !in u.handed
  }

  lemma NewBlockFields(u: Upper, b: BlockId, body: Body, fork: nat, vt: seq<nat>)
    requires Acceptable(u, b, body)
    ensures var r := OnNewBlock(u, b, body, fork, vt);
            r.order == u.order + [b] && r.body == u.body[b := body] && r.blamed == u.blamed && b.Id? && b !in u.body
  {
    hide Arrived, SendPreprocess;
  }

  lemma SupersededSnoc(u: Upper, k: nat, b: BlockId, body: Body, fork: nat, vt: seq<nat>, x: BlockId)
    requires UpperInv(u) && Acceptable(u, b, body) && k <= |u.order|
    ensures var r := OnNewBlock(u, b, body, fork, vt);
            Superseded(r, k, x) <==> Superseded(u, k, x) || body.prev == x || (b.src !in u.blamed && x in body.deps)
    ensures Since(OnNewBlock(u, b, body, fork, vt), k, x) <==> Since(u, k, x) || x == b
  {
    OrderedBodies(u.body, u.order);
    NewBlockFields(u, b, body, fork, vt);
    hide UpperInv, Arrived, OnNewBlock, Acceptable;
    var r := OnNewBlock(u, b, body, fork, vt);
    assert r.order[k..] == u.order[k..] + [b];
    assert forall c :: Since(r, k, c) <==> Since(u, k, c) || c == b;
    assert forall c :: Since(u, k, c) ==> c != b;
    assert forall c :: c != b ==> (BuildsOn(r, c, x) <==> BuildsOn(u, c, x));
    assert BuildsOn(r, b, x) <==> body.prev == x || (b.src !in u.blamed && x in body.deps);
    hide Since, BuildsOn;
  }

  /** Nothing builds on a block that is only arriving, and it was not handed over. */
  lemma NewcomerFree(u: Upper, k: nat, b: BlockId, body: Body)
    requires UpperInv(u) && Acceptable(u, b, body)
    ensures !Superseded(u, k, b) && b !in u.handed && !Parent(body, b) && b !in u.top
  {
    UpperBody(u);
    LinearIn(u.body, u.trace);
    hide Linear, Arrived;
    assert b !in Members(u.handed);
    assert forall c :: c in u.body ==> !Parent(u.body[c], b);
  }

  lemma NewBlockFrontier(u: Upper, base: set<BlockId>, k: nat, b: BlockId, body: Body, fork: nat, vt: seq<nat>)
    requires UpperInv(u) && Acceptable(u, b, body) && k <= |u.order| && FrontierFrom(u, base, k) && base <= u.body.Keys
    ensures FrontierFrom(OnNewBlock(u, b, body, fork, vt), base, k)
  {
    NewcomerFree(u, k, b, body);
    hide UpperInv, Arrived, SendPreprocess, Superseded, Since;
    var r := OnNewBlock(u, b, body, fork, vt);
    forall x ensures x in r.top <==>
        && (x in base || (Since(r, k, x) && x.Id? && x.src != r.me && x.src !in r.blamed))
        && !Superseded(r, k, x) && x !in r.handed
    {
      SupersededSnoc(u, k, b, body, fork, vt, x);
      assert Parent(body, x) <==> x == body.prev || x in body.deps;
    }
  }

  lemma SameGraph(u: Upper, r: Upper, k: nat)
    requires r.order == u.order && r.body == u.body && r.blamed == u.blamed
    ensures forall x :: (Superseded(r, k, x) <==> Superseded(u, k, x)) && (Since(r, k, x) <==> Since(u, k, x))
  {
    forall x ensures Superseded(r, k, x) <==> Superseded(u, k, x) {
      assert forall c :: (Since(r, k, c) <==> Since(u, k, c)) && (BuildsOn(r, c, x) <==> BuildsOn(u, c, x));
    }
  }

  lemma DrawFrontier(u: Upper, base: set<BlockId>, k: nat, b: BlockId)
    requires UpperInv(u) && b in u.top && FrontierFrom(u, base, k)
    ensures FrontierFrom(Draw(u, b), base, k)
  {
    hide Linear, Arrived, Upward, Latest, SetProcessed;
    var r := Draw(u, b);
    assert forall x :: x in r.handed <==> x in u.handed || x == b;
    SameGraph(u, r, k);
    hide Superseded, Since;
  }

  lemma {:induction false} DrawAllFrontier(u: Upper, base: set<BlockId>, k: nat, draws: seq<BlockId>)
    requires UpperInv(u) && Drawable(u, draws) && FrontierFrom(u, base, k)
    ensures FrontierFrom(DrawAll(u, draws), base, k)
    decreases |draws|
  {
    hide UpperInv, Draw, FrontierFrom;
    if draws != [] {
      InvArrived(u);
      DrawKeeps(u, draws[0]);
      DrawFrontier(u, base, k, draws[0]);
      InvArrived(Draw(u, draws[0]));
      DrawAllFrontier(Draw(u, draws[0]), base, k, draws[1..]);
    }
  }

  lemma StepFrontier(u: Upper, base: set<BlockId>, k: nat, e: UpperEvent)
    requires UpperInv(u) && Possible(u, e) && !e.Blamed? && k <= |u.order| && FrontierFrom(u, base, k) && base <= u.body.Keys
    ensures var r := UpperStep(u, e); FrontierFrom(r, base, k) && k <= |r.order| && u.body.Keys <= r.body.Keys
  {
    hide UpperInv, Arrived, Acceptable, Drawable, SendPreprocess, FrontierFrom;
    match e
    case NewBlock(b, body, fork, vt) => NewBlockFrontier(u, base, k, b, body, fork, vt);
    case Process(draws) =>
      EmptyBatch(u);
      SameFrontier(u, base, k);
      DrawAllFrontier(u.(batch := []), base, k, draws);
  }

  lemma SameFrontier(u: Upper, base: set<BlockId>, k: nat)
    requires FrontierFrom(u, base, k)
    ensures FrontierFrom(u.(batch := []), base, k)
  {
    var r := u.(batch := []);
    SameGraph(u, r, k);
    hide Superseded, Since;
  }

  lemma StartFrontier(u: Upper)
    requires UpperInv(u)
    ensures FrontierFrom(u, u.top, |u.order|) && u.top <= u.body.Keys
  {
    UpperBody(u);
    assert u.order[|u.order|..] == [];
    assert forall b :: !Since(u, |u.order|, b);
    assert forall b :: b in u.top ==> b !in Members(u.handed);
    hide Linear, Arrived, Upward, Latest;
  }

  /**
    Between blames: whatever the frontier was after the events `before`, without further blames it gains the
    new blocks of healthy foreign sources and loses exactly what is built on or handed over.
  */
  lemma {:induction false} FrontierSince(me: nat, maxDeps: nat, before: seq<UpperEvent>, events: seq<UpperEvent>)
    requires forall e :: e in events ==> !e.Blamed?
    ensures var u, r := Play(me, maxDeps, before), Play(me, maxDeps, before + events);
            FrontierFrom(r, u.top, |u.order|) && |u.order| <= |r.order| && u.body.Keys <= r.body.Keys && u.top <= r.body.Keys
    decreases |events|
  {
    hide UpperInv, Possible, UpperStep, FrontierFrom;
    var u := Play(me, maxDeps, before);
    PlayKeeps(me, maxDeps, before);
    if events == [] {
      assert before + events == before;
      StartFrontier(u);
    } else {
      var n := |events| - 1;
      FrontierSince(me, maxDeps, before, events[..n]);
      PlayKeeps(me, maxDeps, before + events[..n]);
      assert (before + events)[..|before + events| - 1] == before + events[..n];
      assert events[n] in events && (before + events)[|before + events| - 1] == events[n];
      var v := Play(me, maxDeps, before + events[..n]);
      if Possible(v, events[n]) {
        StepFrontier(v, u.top, |u.order|, events[n]);
      }
    }
  }

  /** All draws are handed over. */
  lemma {:induction false} DrawsHanded(u: Upper, draws: seq<BlockId>)
    requires UpperInv(u) && Drawable(u, draws)
    ensures DrawAll(u, draws).batch == u.batch + draws && DrawAll(u, draws).handed == u.handed + draws
    decreases |draws|
  {
    hide UpperInv, Draw, Arrived;
    InvArrived(u);
    if draws != [] {
      var v := Draw(u, draws[0]);
      DrawKeeps(u, draws[0]);
      DrawOne(u, draws[0]);
      InvArrived(v);
      DrawsHanded(v, draws[1..]);
      assert draws == [draws[0]] + draws[1..];
    }
  }

  /** They are taken off the frontier. */
  lemma {:induction false} DrawsTaken(u: Upper, draws: seq<BlockId>)
    requires UpperInv(u) && Drawable(u, draws)
    ensures DrawAll(u, draws).top == u.top - Members(draws) && Members(draws) <= u.top
    decreases |draws|
  {
    hide UpperInv, Draw, Arrived;
    InvArrived(u);
    MembersCons(draws);
    hide Members;
    if draws != [] {
      var v := Draw(u, draws[0]);
      DrawKeeps(u, draws[0]);
      DrawOne(u, draws[0]);
      InvArrived(v);
      DrawsTaken(v, draws[1..]);
      assert draws == [draws[0]] + draws[1..];
    }
  }

  /** They are as many as the frontier holds or the budget allows. */
  lemma {:induction false} DrawsCounted(u: Upper, draws: seq<BlockId>)
    requires UpperInv(u) && Drawable(u, draws)
    ensures |draws| == Least(|u.top|, u.maxDeps - |u.batch|)
    decreases |draws|
  {
    hide UpperInv, Draw, Arrived;
    InvArrived(u);
    BatchFits(u);
    if draws != [] {
      var v := Draw(u, draws[0]);
      DrawKeeps(u, draws[0]);
      DrawOne(u, draws[0]);
      InvArrived(v);
      DrawsCounted(v, draws[1..]);
      assert draws == [draws[0]] + draws[1..];
    }
  }

  lemma BatchFits(u: Upper)
    requires UpperInv(u)
    ensures |u.batch| <= u.maxDeps
  {}

  lemma MembersCons(s: seq<BlockId>)
    ensures Members(s) == if s == [] then {} else {s[0]} + Members(s[1..])
  {
    if s != [] {
      assert s == [s[0]] + s[1..];
    }
  }

  lemma DrawOne(u: Upper, b: BlockId)
    requires UpperInv(u) && b in u.top
    ensures var r := Draw(u, b);
            r.batch == u.batch + [b] && r.handed == u.handed + [b] && r.top == u.top - {b} && r.maxDeps == u.maxDeps
  {
    hide Linear, Arrived, Upward, Latest, SetProcessed;
  }

  function Least(a: int, b: int): int {
    if a < b then a else b
  }

  /**
    One call of `send_process` in any run hands over distinct blocks of the frontier, as many as it holds or
    `max_deps` allows, and takes exactly them off the frontier.
  */
  lemma ProcessHandsOver(me: nat, maxDeps: nat, events: seq<UpperEvent>, draws: seq<BlockId>)
    requires Possible(Play(me, maxDeps, events), Process(draws))
    ensures var u, r := Play(me, maxDeps, events), Play(me, maxDeps, events + [Process(draws)]);
            && r.batch == draws && r.handed == u.handed + draws && NoDup(draws)
            && Members(draws) <= u.top && r.top == u.top - Members(draws) && |draws| == Least(|u.top|, maxDeps)
  {
    hide UpperInv, Drawable, DrawAll, NoDup, Members, Arrived;
    var u := Play(me, maxDeps, events);
    PlayKeeps(me, maxDeps, events);
    PlayConstants(me, maxDeps, events);
    PlaySnoc(me, maxDeps, events, Process(draws));
    hide Play;
    InvArrived(u);
    EmptyBatch(u);
    var v := u.(batch := []);
    DrawsHanded(v, draws);
    DrawsTaken(v, draws);
    DrawsCounted(v, draws);
    assert [] + draws == draws;
    DrawAllKeeps(v, draws);
    HandedOnce(DrawAll(v, draws));
    SuffixNoDup(u.handed, draws);
  }

  lemma PlaySnoc(me: nat, maxDeps: nat, events: seq<UpperEvent>, e: UpperEvent)
    requires Possible(Play(me, maxDeps, events), e)
    ensures Play(me, maxDeps, events + [e]) == UpperStep(Play(me, maxDeps, events), e)
  {
    hide Possible, UpperStep;
    assert (events + [e])[..|events|] == events;
  }

  lemma SuffixNoDup(s: seq<BlockId>, t: seq<BlockId>)
    requires NoDup(s + t)
    ensures NoDup(t)
  {
    forall i, j | 0 <= i < j < |t| ensures t[i] != t[j] {
      assert (s + t)[|s| + i] == t[i] && (s + t)[|s| + j] == t[j];
    }
  }

  lemma HandedOnce(u: Upper)
    requires UpperInv(u)
    ensures NoDup(u.handed)
  {}

  /** A block of a healthy source makes the replay catch up with its causal past; one of a blamed source leaves it alone. */
  lemma ReplayedOnArrival(me: nat, maxDeps: nat, events: seq<UpperEvent>, b: BlockId, body: Body, fork: nat, vt: seq<nat>)
    requires Possible(Play(me, maxDeps, events), NewBlock(b, body, fork, vt))
    ensures var u, r := Play(me, maxDeps, events), Play(me, maxDeps, events + [NewBlock(b, body, fork, vt)]);
            && r.body == u.body[b := body] && b.Id? && u.trace <= r.trace
            && Members(r.trace) == Members(u.trace) + if b.src in u.blamed then {} else Past(r.body, b)
  {
    hide UpperInv, Past, Linear;
    var u := Play(me, maxDeps, events);
    PlayKeeps(me, maxDeps, events);
    assert (events + [NewBlock(b, body, fork, vt)])[..|events|] == events;
    TraceLinear(u);
    if b.src !in u.blamed {
      ArrivedAppend(u, b, body);
      LinearGrow(u.body, u.trace, b, body);
      SendPreprocessIs(u.body[b := body], u.order + [b], u.trace, b);
    }
  }

  lemma TraceLinear(u: Upper)
    requires UpperInv(u)
    ensures Linear(u.body, u.trace)
  {}
}
