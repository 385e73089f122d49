/** The upper half as an object; every method is proved against the step function it implements. */
module CatchainUpperClass {
  import opened CatchainReceiver
  import opened CatchainCreate
  import opened CatchainUpper

  /** Parents of an arriving block leave the frontier; those of a blamed source take only `prev` away. */
  method DropParents(top0: set<BlockId>, body: Body, blamed: bool) returns (top: set<BlockId>)
    requires Root !in top0
    ensures top == top0 - {body.prev} - (if blamed then {} else set d | d in body.deps)
  {
    top := top0;
    if body.prev != Root {
      top := top - {body.prev};
    }
    for i := 0 to |body.deps|
      invariant top == top0 - {body.prev} - (if blamed then {} else set d | d in body.deps[..i])
    {
      assert body.deps[..i + 1] == body.deps[..i] + [body.deps[i]];
      if !blamed {
        top := top - {body.deps[i]};
      }
    }
    assert body.deps[..|body.deps|] == body.deps;
  }

  /** The inner scan of `on_blame`: does no other healthy source's latest block descend from that of `i`? */
  method IsFree(u: Upper, i: nat, n: nat) returns (free: bool)
    requires i in u.topSource && forall j :: j in u.topSource ==> j < n
    ensures free <==> !Covered(u, i)
  {
    hide Descends;
    for j := 0 to n
      invariant forall k :: 0 <= k < j && k in u.topSource && k != i && k !in u.blamed ==> !Descends(u, u.topSource[k], u.topSource[i])
    {
      if j in u.topSource && j != i && j !in u.blamed && Descends(u, u.topSource[j], u.topSource[i]) {
        return false;
      }
    }
    return true;
  }

  class CatChain {
    var u: Upper

    ghost predicate Valid()
      reads this
    {
      UpperInv(u)
    }

    constructor (me: nat, maxDeps: nat)
      ensures Valid() && u == InitUpper(me, maxDeps)
    {
      u := InitUpper(me, maxDeps);
      InitUpperHolds(me, maxDeps);
    }

    /** `send_preprocess`: recursive, marking a block after its ancestors. */
    method SendPreprocess(b: BlockId)
      requires Arrived(u.body, u.order)
      modifies this
      ensures u == old(u).(trace := CatchainUpper.SendPreprocess(old(u.body), old(u.order), old(u.trace), b))
      decreases Rank(u.order, b)
    {
      if b in u.trace || b !in u.body {
        return;
      }
      ghost var v := u;
      var ps := ParentsOf(u.body[b]);
      RanksDecrease(u.body, u.order, b);
      ghost var r := Rank(u.order, b);
      for i := 0 to |ps|
        invariant u == v.(trace := u.trace)
        invariant PreprocessAll(v.body, v.order, u.trace, ps[i..], r) == PreprocessAll(v.body, v.order, v.trace, ps, r)
      {
        assert ps[i..][0] == ps[i] && ps[i..][1..] == ps[i + 1..] && ps[i] in ps;
        SendPreprocess(ps[i]);
      }
      assert ps[|ps|..] == [];
      u := u.(trace := u.trace + [b]);
    }

    /** `set_processed`. */
    method SetProcessed(b: BlockId)
      requires Arrived(u.body, u.order)
      modifies this
      ensures u == old(u).(processed := CatchainUpper.SetProcessed(old(u.body), old(u.order), old(u.processed), b))
      decreases Rank(u.order, b)
    {
      if b in u.processed || b !in u.body {
        return;
      }
      ghost var v := u;
      var ps := ParentsOf(u.body[b]);
      RanksDecrease(u.body, u.order, b);
      ghost var r := Rank(u.order, b);
      for i := 0 to |ps|
        invariant u == v.(processed := u.processed)
        invariant ProcessAll(v.body, v.order, u.processed, ps[i..], r) == ProcessAll(v.body, v.order, v.processed, ps, r)
      {
        assert ps[i..][0] == ps[i] && ps[i..][1..] == ps[i + 1..] && ps[i] in ps;
        SetProcessed(ps[i]);
      }
      assert ps[|ps|..] == [];
      u := u.(processed := u.processed + {b});
    }

    method OnNewBlock(b: BlockId, body: Body, fork: nat, vt: seq<nat>)
      requires Valid() && Acceptable(u, b, body)
      modifies this
      ensures Valid() && u == CatchainUpper.OnNewBlock(old(u), b, body, fork, vt)
    {
      hide UpperInv, CatchainUpper.SendPreprocess, Arrived;
      OnNewBlockKeeps(u, b, body, fork, vt);
      ArrivedAppend(u, b, body);
      ghost var before := u;
      RootNotOnTop(u);
      var top := DropParents(u.top, body, b.src in u.blamed);
      u := u.(order := u.order + [b], body := u.body[b := body], fork := u.fork[b := fork], vt := u.vt[b := vt], top := top);
      assert u.top == Top(before, b, body);
      if b.src !in u.blamed {
        SendPreprocess(b);
        u := u.(topSource := u.topSource[b.src := b]);
        if b.src != u.me {
          u := u.(top := u.top + {b});
        } else {
          assert u.top + {} == u.top;
        }
      }
    }

    /** `on_blame`: the quadratic scan over the latest blocks of the sources `0 .. n`. */
    method OnBlame(s: nat, n: nat)
      requires Valid() && forall i :: i in u.topSource ==> i < n
      modifies this
      ensures Valid() && u == CatchainUpper.OnBlame(old(u), s)
    {
      OnBlameKeeps(u, s);
      hide UpperInv, Covered;
      if s in u.blamed {
        return;
      }
      u := u.(blamed := u.blamed + {s}, topSource := u.topSource - {s});
      ghost var v := u;
      var top: set<BlockId> := {};
      for i := 0 to n
        invariant u == v
        invariant forall b :: b in top <==> exists k :: 0 <= k < i && InFrontier(u, k) && u.topSource[k] == b
      {
        if i in u.topSource && i !in u.blamed && i != u.me && u.topSource[i] !in u.processed {
          var free := IsFree(u, i, n);
          if free {
            top := top + {u.topSource[i]};
          }
        }
      }
      assert top == Frontier(u);
      u := u.(top := top);
    }

    /** `send_process`: draws at random until the frontier or the budget is used up. */
    method SendProcess() returns (ghost draws: seq<BlockId>)
      requires Valid()
      modifies this
      ensures Arrived(old(u.body), old(u.order)) && Drawable(old(u).(batch := []), draws)
      ensures Valid() && u == DrawAll(old(u).(batch := []), draws)
    {
      hide UpperInv, CatchainUpper.SetProcessed;
      InvArrived(u);
      EmptyBatch(u);
      u := u.(batch := []);
      ghost var v := u;
      draws := [];
      while u.top != {} && |u.batch| < u.maxDeps
        invariant UpperInv(u) && Arrived(u.body, u.order)
        invariant Drawn(v, draws, u)
        decreases |u.top|
      {
        ghost var w := u;
        var b :| b in u.top;
        DrawKeeps(u, b);
        InvArrived(Draw(u, b));
        DrawnSnoc(v, draws, w, b);
        u := u.(top := u.top - {b});
        if !(b.Id? && b.src in u.blamed) {
          SetProcessed(b);
          u := u.(batch := u.batch + [b], handed := u.handed + [b]);
        }
        draws := draws + [b];
      }
      DrawnDone(v, draws, u);
    }
  }

  predicate InFrontier(u: Upper, i: nat) {
    i in u.topSource && i !in u.blamed && i != u.me && u.topSource[i] !in u.processed && !Covered(u, i)
  }

  lemma RootNotOnTop(u: Upper)
    requires UpperInv(u)
    ensures Root !in u.top
  {
    LinearIn(u.body, u.trace);
  }

  /** `w` is what the draws so far made of `v`. */
  ghost predicate Drawn(v: Upper, draws: seq<BlockId>, w: Upper)
    decreases |draws|
  {
    Arrived(v.body, v.order) &&
    if draws == [] then w == v
    else |v.batch| < v.maxDeps && draws[0] in v.top && Drawn(Draw(v, draws[0]), draws[1..], w)
  }

  lemma {:induction false} DrawnSnoc(v: Upper, draws: seq<BlockId>, w: Upper, b: BlockId)
    requires Drawn(v, draws, w) && b in w.top && |w.batch| < w.maxDeps && Arrived(w.body, w.order)
    ensures Drawn(v, draws + [b], Draw(w, b))
    decreases |draws|
  {
    hide SetProcessed, Arrived;
    var longer := draws + [b];
    if draws != [] {
      assert longer[0] == draws[0] && longer[1..] == draws[1..] + [b];
      DrawnSnoc(Draw(v, draws[0]), draws[1..], w, b);
    } else {
      assert longer[0] == b && longer[1..] == [];
      assert Arrived(Draw(w, b).body, Draw(w, b).order);
    }
  }

  lemma {:induction false} DrawnDone(v: Upper, draws: seq<BlockId>, w: Upper)
    requires Drawn(v, draws, w) && (w.top == {} || |w.batch| >= w.maxDeps)
    ensures Arrived(v.body, v.order) && Drawable(v, draws) && w == DrawAll(v, draws)
    decreases |draws|
  {
    hide SetProcessed, Arrived, Draw;
    if draws != [] {
      DrawnDone(Draw(v, draws[0]), draws[1..], w);
    }
  }
}
