/**
  The receiver as an object.  Its fields are the components of `s`; every method updates them step by
  step, with the loops of the code, and is proved against the transition function it implements.
*/
module CatchainReceiverClass {
  import opened CatchainReceiver
  import opened CatchainInvariant
  import opened CatchainCreate
  import opened CatchainDeliver
  import opened CatchainRuns
  import opened CatchainReceived
  import opened CatchainTheorems
  import opened CatchainAdmission
  import opened CatchainVerdict
  import opened CatchainEvidence

  /** `update_deps`. */
  method UpdateDeps(deps: seq<nat>, d: seq<nat>) returns (r: seq<nat>)
    ensures r == Join(deps, d)
  {
    r := deps;
    if |d| > |deps| {
      r := r + seq(|d| - |deps|, _ => 0);
    }
    for i := 0 to |d|
      invariant |r| == Max(|deps|, |d|)
      invariant forall j :: 0 <= j < |r| ==> r[j] == if j < i then Max(At(deps, j), At(d, j)) else At(deps, j)
    {
      if r[i] < d[i] {
        r := r[i := d[i]];
      }
    }
    assert forall j :: |d| <= j < |r| ==> At(d, j) == 0;
  }

  /** `dep_delivered` on every block `bs` that waits for a block with timestamp `v`. */
  method DepDelivered(status: map<BlockId, Status>, inDb: set<BlockId>, vt0: map<BlockId, seq<nat>>,
                      pending0: map<BlockId, nat>, v: seq<nat>, bs: seq<BlockId>)
    returns (vt: map<BlockId, seq<nat>>, pending: map<BlockId, nat>, woken: seq<BlockId>)
    ensures vt == MergeInto(status, vt0, v, bs)
    ensures pending == DecrementAll(status, pending0, bs)
    ensures woken == Woken(status, pending0, inDb, bs)
  {
    hide MergeInto, DecrementAll, Woken;
    vt, pending, woken := vt0, pending0, [];
    for i := 0 to |bs|
      invariant MergeInto(status, vt, v, bs[i..]) == MergeInto(status, vt0, v, bs)
      invariant DecrementAll(status, pending, bs[i..]) == DecrementAll(status, pending0, bs)
      invariant woken + Woken(status, pending, inDb, bs[i..]) == Woken(status, pending0, inDb, bs)
    {
      var c := bs[i];
      UnfoldMerge(status, vt, v, bs, i);
      UnfoldDecrement(status, pending, bs, i);
      UnfoldWoken(status, pending, inDb, bs, i);
      if Find(status, c, Stub) != Ill {
        var merged := UpdateDeps(Find(vt, c, []), v);
        vt := vt[c := merged];
        var left := Decrement(Find(pending, c, 0));
        pending := pending[c := left];
        if left == 0 && c in inDb {
          woken := woken + [c];
        }
      }
    }
    UnfoldDone(status, vt, v, pending, inDb, bs);
  }

  lemma UnfoldMerge(status: map<BlockId, Status>, vt: map<BlockId, seq<nat>>, v: seq<nat>, bs: seq<BlockId>, i: nat)
    requires i < |bs|
    ensures MergeInto(status, vt, v, bs[i..]) ==
            MergeInto(status, if Find(status, bs[i], Stub) == Ill then vt else vt[bs[i] := Join(Find(vt, bs[i], []), v)], v, bs[i + 1..])
  {
    assert bs[i..][0] == bs[i] && bs[i..][1..] == bs[i + 1..];
  }

  lemma UnfoldDecrement(status: map<BlockId, Status>, pending: map<BlockId, nat>, bs: seq<BlockId>, i: nat)
    requires i < |bs|
    ensures DecrementAll(status, pending, bs[i..]) ==
            DecrementAll(status, if Find(status, bs[i], Stub) == Ill then pending
                                 else pending[bs[i] := Decrement(Find(pending, bs[i], 0))], bs[i + 1..])
  {
    assert bs[i..][0] == bs[i] && bs[i..][1..] == bs[i + 1..];
  }

  lemma UnfoldWoken(status: map<BlockId, Status>, pending: map<BlockId, nat>, inDb: set<BlockId>, bs: seq<BlockId>, i: nat)
    requires i < |bs|
    ensures Woken(status, pending, inDb, bs[i..]) ==
            if Find(status, bs[i], Stub) == Ill then Woken(status, pending, inDb, bs[i + 1..])
            else
              var left := Decrement(Find(pending, bs[i], 0));
              (if left == 0 && bs[i] in inDb then [bs[i]] else []) +
              Woken(status, pending[bs[i] := left], inDb, bs[i + 1..])
  {
    assert bs[i..][0] == bs[i] && bs[i..][1..] == bs[i + 1..];
  }

  lemma UnfoldDone(status: map<BlockId, Status>, vt: map<BlockId, seq<nat>>, v: seq<nat>, pending: map<BlockId, nat>,
                   inDb: set<BlockId>, bs: seq<BlockId>)
    ensures MergeInto(status, vt, v, bs[|bs|..]) == vt && DecrementAll(status, pending, bs[|bs|..]) == pending
    ensures Woken(status, pending, inDb, bs[|bs|..]) == []
  {}

  /** The loop of `initialize` over the parents `ps` of `b`. */
  method Link(status: map<BlockId, Status>, vt: map<BlockId, seq<nat>>, rev0: map<BlockId, seq<BlockId>>,
              b: BlockId, v0: seq<nat>, ps: seq<BlockId>)
    returns (v: seq<nat>, pending: nat, rev: map<BlockId, seq<BlockId>>)
    ensures v == MergeAll(status, vt, v0, ps)
    ensures pending == CountWaiting(status, ps)
    ensures rev == AwaitAll(status, rev0, b, ps)
  {
    v, pending, rev := v0, 0, rev0;
    for i := 0 to |ps|
      invariant MergeAll(status, vt, v, ps[i..]) == MergeAll(status, vt, v0, ps)
      invariant pending + CountWaiting(status, ps[i..]) == CountWaiting(status, ps)
      invariant AwaitAll(status, rev, b, ps[i..]) == AwaitAll(status, rev0, b, ps)
    {
      var p := ps[i];
      assert ps[i..][0] == p && ps[i..][1..] == ps[i + 1..];
      if Find(status, p, Stub) != Delivered {
        pending := pending + 1;
        rev := rev[p := Find(rev, p, []) + [b]];
      } else {
        v := UpdateDeps(v, Find(vt, p, []));
      }
    }
    assert ps[|ps|..] == [];
  }

  class Receiver {
    var s: State

    /** Between events. */
    ghost predicate Valid()
      reads this
    {
      Inv(s, {}) && Settled(s)
    }

    constructor (n: nat, maxDeps: nat)
      ensures s == Init(n, maxDeps) && Valid()
    {
      s := Init(n, maxDeps);
      InitHolds(n, maxDeps);
    }

    method Blame(src: nat)
      modifies this
      ensures s == CatchainReceiver.Blame(old(s), src)
    {
      if src < |s.sources| {
        if s.sources[src].blamed {
          assert s.sources[src := s.sources[src]] == s.sources;
        } else {
          s := s.(sources := s.sources[src := s.sources[src].(blamed := true, blocks := map[], delivered := 0)]);
        }
      }
    }

    /** Terminates on any graph of reverse dependencies: a block is marked before its children are visited. */
    method SetIll(b: BlockId)
      modifies this
      ensures s == CatchainReceiver.SetIll(old(s), b)
      decreases Healthy(s)
    {
      if b !in s.status || s.status[b] == Ill {
        return;
      }
      ghost var st := s;
      if b.Id? {
        Blame(b.src);
      }
      s := s.(status := s.status[b := Ill], ills := s.ills + [b]);
      assert s == CatchainReceiver.MarkIll(st, b);
      assert Healthy(s) == Healthy(st) - {b} && b in Healthy(st);
      var children := RevDepsOf(s, b);
      for i := 0 to |children|
        invariant Healthy(s) < Healthy(st)
        invariant SetIllAll(s, children[i..]) == CatchainReceiver.SetIll(st, b)
      {
        assert children[i..][0] == children[i] && children[i..][1..] == children[i + 1..];
        SetIll(children[i]);
      }
      assert children[|children|..] == [];
    }

    method InitializeFork(b: BlockId)
      requires b.Id? && b.src < |s.sources|
      modifies this
      ensures s == CatchainReceiver.InitializeFork(old(s), b)
    {
      var prev := BodyOf(s, b).prev;
      var f := s.totalForks + 1;
      var startsFork := b.height == 1 || prev in s.next;
      if !startsFork {
        f := ForkOf(s, prev);
      }
      var ok := StatusOf(s, b) == Initialized && ForkOf(s, b) == 0 && At(VtOf(s, b), f) < b.height;
      var vt := s.vt[b := Stamp(VtOf(s, b), f, b.height)];
      if startsFork {
        var src := s.sources[b.src];
        if |src.forks| > 0 {
          src := BlameSource(src);
        }
        src := src.(forks := src.forks + [f]);
        s := s.(fork := s.fork[b := f], vt := vt, sources := s.sources[b.src := src], totalForks := f,
                checks := s.checks && ok && f > 0 && (|src.forks| > 1 ==> src.blamed));
      } else {
        s := s.(fork := s.fork[b := f], vt := vt, next := s.next[prev := b], checks := s.checks && ok);
      }
    }

    /** The scan of `pre_deliver` over the direct dependencies and the forks of their sources. */
    method ScanDeps(prevVt: seq<nat>, deps: seq<BlockId>) returns (v: Verdict)
      ensures v == CatchainReceiver.ScanDeps(s, prevVt, deps)
    {
      for i := 0 to |deps|
        invariant CatchainReceiver.ScanDeps(s, prevVt, deps) == CatchainReceiver.ScanDeps(s, prevVt, deps[i..])
      {
        var x := deps[i];
        assert deps[i..][0] == x && deps[i..][1..] == deps[i + 1..];
        if x.Root? {
          return NoSource;
        }
        if IsStale(s, prevVt, x) {
          return Stale;
        }
        if x.src < |s.sources| && s.sources[x.src].blamed {
          var forks := s.sources[x.src].forks;
          for j := 0 to |forks|
            invariant forall k :: 0 <= k < j ==> forks[k] == ForkOf(s, x) || At(prevVt, forks[k]) == 0
          {
            if forks[j] != ForkOf(s, x) && At(prevVt, forks[j]) > 0 {
              assert MixesFork(s, prevVt, x);
              return MixesForks;
            }
          }
        }
        assert !MixesFork(s, prevVt, x);
      }
      assert deps[|deps|..] == [];
      return Fine;
    }

    method PreDeliver(b: BlockId)
      requires b.Id?
      modifies this
      ensures s == CatchainReceiver.PreDeliver(old(s), b)
      ensures Is(old(s).status, b, Initialized) && b.data.ForkProof? && s.checks ==>
                Is(s.status, b, Ill) || Effective(s, b.data.left, b.data.right)
    {
      ProofPayload(s, b);
      hide Effective;
      hide CatchainReceiver.ScanDeps, CatchainReceiver.SetIll, CatchainReceiver.Blame, Prove;
      if StatusOf(s, b) == Ill {
        return;
      }
      var body := BodyOf(s, b);
      var v := ScanDeps(VtOf(s, body.prev), body.deps);
      ScanVerdicts(s, VtOf(s, body.prev), body.deps);
      if v == NoSource {
        s := s.(checks := false);
      } else if v == MixesForks {
        Blame(b.src);
        SetIll(b);
      } else if v == Stale {
        SetIll(b);
      } else {
        match b.data
        case Nop => return;
        case BadBlock => return;
        case ForkProof(l, r) =>
          if !ValidRef(s, l) || !ValidRef(s, r) || !IsFork(l.id, r.id) {
            SetIll(b);
          } else {
            s := Prove(s, l.id.src);
            Blame(l.id.src);
          }
        case _ => s := s.(custom := s.custom + {b});
      }
    }

    /** The `while (true)` walk over the heights registered for a source. */
    method Walk(src: Source, from: nat, delivered: bool) returns (h: nat)
      ensures h == Advance(s, src, from, delivered) && WalkEnds(s, src, from, h, delivered)
    {
      AdvanceEnds(s, src, from, delivered);
      h := from;
      while true
        invariant Advance(s, src, from, delivered) == Advance(s, src, h, delivered)
        decreases src.blocks.Keys - set k | k in src.blocks.Keys && k <= h
      {
        if h + 1 !in src.blocks {
          return;
        }
        var status := StatusOf(s, src.blocks[h + 1]);
        if !(if delivered then status == Delivered else status == Initialized || status == Delivered) {
          return;
        }
        assert h + 1 in src.blocks.Keys - set k | k in src.blocks.Keys && k <= h;
        h := h + 1;
      }
    }

    method Deliver(b: BlockId)
      requires b.Id?
      modifies this
      ensures s == CatchainReceiver.Deliver(old(s), b)
    {
      hide MergeInto, DecrementAll, Woken, Advance;
      if StatusOf(s, b) == Ill {
        return;
      }
      var status := s.status[b := Delivered];
      var vt, pending, woken := DepDelivered(status, s.inDb, s.vt, s.pending, VtOf(s, b), RevDepsOf(s, b));
      s := s.(status := status, log := s.log + [b], vt := vt, pending := pending,
              toRun := s.toRun + woken, pushed := s.pushed + woken, revDeps := s.revDeps[b := []],
              checks := s.checks && StatusOf(s, b) == Initialized && PendingOf(s, b) == 0 && b in s.inDb);
      assert s == Release(old(s), b);
      BlockDelivered(b);
    }

    method BlockDelivered(b: BlockId)
      requires b.Id?
      modifies this
      ensures s == CatchainReceiver.BlockDelivered(old(s), b)
      ensures b.src < |old(s).sources| && !old(s).sources[b.src].blamed ==>
                var before, after := old(s).sources[b.src], s.sources[b.src];
                WalkEnds(s, before, Start(before.delivered, b.height), after.delivered, true)
    {
      hide Advance;
      if b.src < |s.sources| && !s.sources[b.src].blamed {
        var src := s.sources[b.src];
        var h := Walk(src, if src.delivered + 1 == b.height then b.height else src.delivered, true);
        s := s.(sources := s.sources[b.src := src.(delivered := h)]);
      }
    }

    method BlockReceived(b: BlockId)
      requires b.Id?
      modifies this
      ensures s == CatchainReceiver.BlockReceived(old(s), b)
      ensures b.src < |old(s).sources| && !old(s).sources[b.src].blamed ==>
                var before, after := old(s).sources[b.src], s.sources[b.src];
                WalkEnds(s, before, Start(before.received, b.height), after.received, false)
    {
      hide Advance;
      if b.src < |s.sources| && !s.sources[b.src].blamed {
        var src := s.sources[b.src];
        var h := Walk(src, if src.received + 1 == b.height then b.height else src.received, false);
        s := s.(sources := s.sources[b.src := src.(received := h)]);
      }
    }

    /**
      `create_block` for a reference, with `on_new_block` of the source: a new block at a height that is
      registered already proves a fork and blames the source; no other source changes.
    */
    method AddStub(b: BlockId)
      modifies this
      ensures s == CatchainReceiver.AddStub(old(s), b)
      ensures b.Id? && b !in old(s).status && b.src < |old(s).sources| ==>
                var before := old(s).sources[b.src];
                var after := s.sources[b.src];
                !before.proven && b.height in before.blocks ==> after.proven && after.blamed
      ensures |s.sources| == |old(s).sources|
      ensures forall t :: 0 <= t < |s.sources| && (b.Id? ==> t != b.src) ==> s.sources[t] == old(s).sources[t]
    {
      if b in s.status || b.Root? || b.src >= |s.sources| {
        return;
      }
      var src := s.sources[b.src];
      var ok := true;
      if !src.proven {
        if b.height in src.blocks {
          ok := src.blocks[b.height] != b;
          src := BlameSource(src.(proven := true));
        } else {
          src := src.(blocks := src.blocks[b.height := b]);
        }
      }
      s := s.(status := s.status[b := Stub], sources := s.sources[b.src := src], checks := s.checks && ok);
    }

    method AddStubs(bs: seq<BlockId>)
      modifies this
      ensures s == CatchainReceiver.AddStubs(old(s), bs)
    {
      hide CatchainReceiver.AddStub;
      for i := 0 to |bs|
        invariant CatchainReceiver.AddStubs(s, bs[i..]) == CatchainReceiver.AddStubs(old(s), bs)
      {
        assert bs[i..][0] == bs[i] && bs[i..][1..] == bs[i + 1..];
        AddStub(bs[i]);
      }
      assert bs[|bs|..] == [];
    }

    method Initialize(m: Msg)
      requires m.id.Id?
      modifies this
      ensures s == CatchainReceiver.Initialize(old(s), m)
    {
      hide CatchainReceiver.AddStubs, CatchainReceiver.SetIll, CatchainReceiver.BlockReceived,
           MergeAll, CountWaiting, AwaitAll;
      if StatusOf(s, m.id) != Stub {
        return;
      }
      var b, ps := m.id, [m.prev.id] + Ids(m.deps);
      AddStubs(ps);
      s := s.(status := s.status[b := Initialized], body := s.body[b := Body(m.prev.id, Ids(m.deps))]);
      ghost var st2 := s;
      for i := 0 to |ps|
        invariant s == st2 && forall j :: 0 <= j < i ==> StatusOf(s, ps[j]) != Ill
      {
        if StatusOf(s, ps[i]) == Ill {
          assert AnyIll(s, ps);
          SetIll(b);
          return;
        }
      }
      assert !AnyIll(s, ps);
      var v, pending, rev := Link(s.status, s.vt, s.revDeps, b, VtOf(s, b), ps);
      s := s.(vt := s.vt[b := v], pending := s.pending[b := pending], revDeps := rev);
      assert s == LinkAll(st2, b, ps);
      if pending == 0 && b in s.inDb {
        s := Schedule(s, b);
      }
      BlockReceived(b);
    }

    method Written(b: BlockId)
      modifies this
      ensures s == CatchainReceiver.Written(old(s), b)
    {
      if b !in s.inDb {
        s := s.(inDb := s.inDb + {b});
        if PendingOf(s, b) == 0 {
          s := Schedule(s, b);
        }
      }
    }

    /**
      `receive_block`; between events the invariant holds again and the queue is empty, unless the
      program ended for want of a source: that of the block, or that of a dependency on the root.
    */
    method ReceiveBlock(m: Msg)
      requires Valid()
      modifies this
      ensures s == Accept(old(s), m) && Later(old(s), s)
      ensures s.checks ==> Valid()
      ensures !s.checks ==> !Hashable(|old(s).sources|, m) || exists b :: Stuck(s, b)
      ensures !Hashable(|old(s).sources|, m) ==> s == old(s).(checks := false)
      ensures var n := |old(s).sources|;
              m.id.Id? && m.id.src < n ==>
                if m.id !in old(s).body && Genuine(n, old(s).maxDeps, old(s).status.Keys, m)
                then s.body == old(s).body[m.id := Body(m.prev.id, Ids(m.deps))]
                else s == old(s)
    {
      AcceptKeeps(s, m);
      if m.id.Id? && m.id.src < |s.sources| {
        TakenIff(s, m);
      }
      AcceptStuck(s, m);
      if m.id.Id? && m.id.src >= |s.sources| {
        s := s.(checks := false);
        return;
      }
      hide Inv, Later, Stuck, Validate, Genuine, Fits, CatchainReceiver.AddStub, CatchainReceiver.Initialize, CatchainReceiver.Written,
           CatchainReceiver.RunScheduler;
      if StatusOf(s, m.id) == Initialized || StatusOf(s, m.id) == Delivered || !Validate(s, m) {
        return;
      }
      ValidId(s, m);
      WrittenHolds(s, m);
      AddStub(m.id);
      Initialize(m);
      Written(m.id);
      RunScheduler();
    }

    /** `got_fork_proof`. */
    method GotForkProof(l: DepRef, r: DepRef)
      requires Valid()
      modifies this
      ensures s == AcceptProof(old(s), l, r) && Valid() && Later(old(s), s)
      ensures if RealFork(old(s), l, r)
              then && s == old(s).(sources := s.sources) && |s.sources| == |old(s).sources|
                   && forall t :: 0 <= t < |s.sources| ==>
                        s.sources[t] == if t == l.id.src then Exposed(old(s).sources[t]) else old(s).sources[t]
              else s == old(s)
    {
      ProofIff(s, l, r);
      StepKeeps(s, Proof(l, r));
      ProofAlive(s, l, r);
      hide Inv, Later, CatchainReceiver.Blame, Prove;
      if !ValidRef(s, l) || !ValidRef(s, r) || !IsFork(l.id, r.id) {
        return;
      }
      s := Prove(s, l.id.src);
      Blame(l.id.src);
    }

    method Run(b: BlockId)
      requires StatusOf(s, b) == Initialized ==> b.Id? && b.src < |s.sources|
      modifies this
      ensures s == CatchainReceiver.Run(old(s), b)
    {
      hide CatchainReceiver.InitializeFork, CatchainReceiver.PreDeliver, CatchainReceiver.Deliver;
      if b.Root? || StatusOf(s, b) != Initialized {
        return;
      }
      s := Check(s, PendingOf(s, b) == 0 && b in s.inDb);
      InitializeFork(b);
      PreDeliver(b);
      if s.checks {
        Deliver(b);
      }
    }

    method RunScheduler()
      requires Inv(s, {})
      modifies this
      ensures s == CatchainReceiver.RunScheduler(old(s)) && (s.checks ==> Inv(s, {}) && s.toRun == [])
    {
      hide Inv, Ready, CatchainReceiver.Run;
      while s.toRun != [] && s.checks
        invariant CatchainReceiver.RunScheduler(s) == CatchainReceiver.RunScheduler(old(s))
        invariant s.checks ==> Inv(s, {})
        decreases Live(s), |s.toRun|
      {
        ghost var st := s;
        var b := s.toRun[0];
        PopKeeps(s);
        s := s.(toRun := s.toRun[1..]);
        assert Live(s) == Live(st);
        ReadySame(st, s, b);
        RunKeeps(s, b);
        ReadyPlace(st, b);
        Run(b);
      }
    }
  }

  lemma {:induction false} ScanVerdicts(st: State, prevVt: seq<nat>, deps: seq<BlockId>)
    ensures CatchainReceiver.ScanDeps(st, prevVt, deps) != BadProof
    decreases |deps|
  {
    if deps != [] {
      ScanVerdicts(st, prevVt, deps[1..]);
    }
  }

  lemma AcceptStuck(st: State, m: Msg)
    requires Inv(st, {}) && Settled(st)
    ensures !Accept(st, m).checks ==> !Hashable(|st.sources|, m) || exists b :: Stuck(Accept(st, m), b)
  {
    hide Inv, Settled, Stuck, Accept, Hashable;
    InvChecks(st, {});
    if !Accept(st, m).checks {
      StepStuck(st, Receive(m));
    }
  }

  lemma ProofAlive(st: State, l: DepRef, r: DepRef)
    requires Inv(st, {}) && Settled(st)
    ensures Step(st, Proof(l, r)) == AcceptProof(st, l, r) && AcceptProof(st, l, r).checks
  {
    hide Inv, Settled, AcceptProof;
    InvChecks(st, {});
    if !AcceptProof(st, l, r).checks {
      StepStuck(st, Proof(l, r));
    }
  }

  lemma WrittenHolds(st: State, m: Msg)
    requires Inv(st, {}) && Settled(st) && Validate(st, m) && m.id.Id?
    requires StatusOf(st, m.id) == Stub || StatusOf(st, m.id) == Ill
    ensures Inv(CatchainReceiver.Written(CreateBlock(st, m), m.id), {})
  {
    hide Inv, Validate, CreateBlock, CatchainReceiver.Written;
    if StatusOf(st, m.id) == Ill {
      IllAgain(st, m);
    } else {
      CreateKeeps(st, m);
    }
  }

  lemma ReadyPlace(st: State, b: BlockId)
    requires Inv(st, {})
    ensures StatusOf(st, b) == Initialized ==> b.Id? && b.src < |st.sources|
  {}
}
