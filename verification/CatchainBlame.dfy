/** Exactly when a chosen dependency repeats an earlier choice, with any number of blames. */
module CatchainBlame {
  import opened CatchainReceiver
  import opened CatchainInvariant
  import opened CatchainVectorTime
  import opened CatchainUpper

  // ----- processed means: in the past of something handed over -----

  ghost predicate PastOnly(u: Upper) {
    u.processed == PastAll(u.body, u.handed)
  }

  lemma HandedKnown(u: Upper)
    requires UpperInv(u)
    ensures Members(u.handed) <= u.body.Keys && Upward(u.body, u.body.Keys) && Root !in u.body && Arrived(u.body, u.order)
  {
    hide Linear;
    UpperBody(u);
  }

  lemma PastAllGrow(body: Bodies, body': Bodies, hs: seq<BlockId>)
    requires Upward(body, body.Keys) && Root !in body' && Members(hs) <= body.Keys
    requires forall b :: b in body ==> b in body' && body'[b] == body[b]
    ensures PastAll(body', hs) == PastAll(body, hs)
  {
    hide Reaches;
    forall h, a | h in hs ensures Reaches(body', h, a) <==> Reaches(body, h, a) {
      assert h in Members(hs);
      ReachesStable(body, body', body.Keys, h, a);
    }
    forall a | a in PastAll(body', hs) ensures a in body {
      var h :| h in hs && Reaches(body', h, a);
      assert h in Members(hs);
      ReachedKnown(body, h, a);
    }
  }

  lemma ReachedKnown(body: Bodies, h: BlockId, a: BlockId)
    requires Upward(body, body.Keys) && h in body && Reaches(body, h, a)
    ensures a == Root || a in body
  {
    var path :| Path(body, path, h, a);
    if |path| > 1 {
      assert Parent(body[path[|path| - 2]], path[|path| - 1]);
    }
  }

  lemma PastAllSnoc(body: Bodies, hs: seq<BlockId>, b: BlockId)
    ensures PastAll(body, hs + [b]) == PastAll(body, hs) + Past(body, b)
  {
    assert forall c :: c in hs + [b] <==> c in hs || c == b;
  }

  lemma DrawPast(u: Upper, b: BlockId)
    requires UpperInv(u) && PastOnly(u) && b in u.top
    ensures PastOnly(Draw(u, b))
  {
    hide UpperInv, Past, PastAll;
    HandedKnown(u);
    ProcessedUpward(u);
    SetProcessedIs(u.body, u.order, u.processed, b);
    PastAllSnoc(u.body, u.handed, b);
  }

  lemma ProcessedUpward(u: Upper)
    requires UpperInv(u)
    ensures Upward(u.body, u.processed)
  {}

  lemma {:induction false} DrawAllPast(u: Upper, draws: seq<BlockId>)
    requires UpperInv(u) && PastOnly(u) && Drawable(u, draws)
    ensures PastOnly(DrawAll(u, draws))
    decreases |draws|
  {
    hide UpperInv, PastOnly, Draw;
    if draws != [] {
      InvArrived(u);
      DrawKeeps(u, draws[0]);
      DrawPast(u, draws[0]);
      InvArrived(Draw(u, draws[0]));
      DrawAllPast(Draw(u, draws[0]), draws[1..]);
    }
  }

  lemma NewBlockPast(u: Upper, b: BlockId, body: Body, fork: nat, vt: seq<nat>)
    requires UpperInv(u) && PastOnly(u) && Acceptable(u, b, body)
    ensures PastOnly(OnNewBlock(u, b, body, fork, vt))
  {
    hide UpperInv, PastAll, SendPreprocess, Arrived;
    HandedKnown(u);
    PastAllGrow(u.body, u.body[b := body], u.handed);
  }

  lemma StepPast(u: Upper, e: UpperEvent)
    requires UpperInv(u) && PastOnly(u) && Possible(u, e)
    ensures PastOnly(UpperStep(u, e))
  {
    hide UpperInv, PastAll, Arrived, Acceptable, OnNewBlock, Drawable, DrawAll, Frontier;
    match e
    case NewBlock(b, body, fork, vt) => NewBlockPast(u, b, body, fork, vt);
    case Blamed(s) => {}
    case Process(draws) =>
      EmptyBatch(u);
      DrawAllPast(u.(batch := []), draws);
  }

  /** Over every run, a block is processed exactly when it is in the causal past of a block handed over. */
  lemma {:induction false} ProcessedIsPast(me: nat, maxDeps: nat, events: seq<UpperEvent>)
    ensures PastOnly(Play(me, maxDeps, events))
  {
    hide UpperInv, Possible, UpperStep;
    if events != [] {
      var u := Play(me, maxDeps, events[..|events| - 1]);
      ProcessedIsPast(me, maxDeps, events[..|events| - 1]);
      PlayKeeps(me, maxDeps, events[..|events| - 1]);
      if Possible(u, events[|events| - 1]) {
        hide PastOnly;
        StepPast(u, events[|events| - 1]);
      }
    }
  }

  /**
    Exactly when a choice is sound: a frontier block lies in the causal past of an earlier choice if and
    only if it is marked processed already.
  */
  lemma RepeatsIffProcessed(me: nat, maxDeps: nat, events: seq<UpperEvent>, b: BlockId)
    requires b in Play(me, maxDeps, events).top
    ensures var u := Play(me, maxDeps, events);
            b in u.processed <==> exists h :: h in u.handed && Reaches(u.body, h, b)
  {
    ProcessedIsPast(me, maxDeps, events);
    PlayKeeps(me, maxDeps, events);
    var u := Play(me, maxDeps, events);
    LinearIn(u.body, u.trace);
    hide Play, Reaches;
  }
}
