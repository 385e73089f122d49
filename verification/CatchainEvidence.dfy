/** Who gets blamed, and what a delivered payload does: no source is blamed without evidence, and none escapes it. */
module CatchainEvidence {
  import opened CatchainReceiver
  import opened CatchainInvariant
  import opened CatchainCreate
  import opened CatchainDeliver
  import opened CatchainRuns
  import opened CatchainVerdict
  import opened CatchainAdmission
  import opened CatchainConfluence

  /** Two blocks of source `t` at one height are known. */
  ghost predicate Twins(st: State, t: nat) {
    exists a, b :: a in st.status && b in st.status && a.Id? && b.Id? && a.src == t && b.src == t && a.height == b.height && a != b
  }

  /** A block of source `t` is ill. */
  ghost predicate Sick(st: State, t: nat) {
    exists c :: Is(st.status, c, Ill) && c.Id? && c.src == t
  }

  /** A delivered block carries a fork proof against source `t`. */
  ghost predicate Reported(st: State, t: nat) {
    exists b :: b in st.log && b.Id? && b.data.ForkProof? && b.data.left.id.Id? && b.data.left.id.src == t
  }

  ghost predicate Accused(st: State, t: nat) {
    Twins(st, t) || Sick(st, t) || Reported(st, t)
  }

  /** What is known, delivered, ill, blamed or proven stays so. */
  ghost predicate Grown(st: State, r: State) {
    && |r.sources| == |st.sources| && st.status.Keys <= r.status.Keys && st.log <= r.log
    && (forall c :: Is(st.status, c, Ill) ==> Is(r.status, c, Ill))
    && (forall t :: 0 <= t < |st.sources| ==>
          (st.sources[t].blamed ==> r.sources[t].blamed) && (st.sources[t].proven ==> r.sources[t].proven))
  }

  /** Something for the application: not an inner message of the catchain. */
  predicate Spoken(b: BlockId) {
    b.Id? && (b.data.Custom? || b.data.Empty?)
  }

  /** Fork proofs in delivered payloads are right and took effect; what is for the application was set aside for it. */
  ghost predicate Payloads(st: State) {
    && (forall b :: b in st.log && b.Id? && b.data.ForkProof? ==> Effective(st, b.data.left, b.data.right))
    && (forall b :: b in st.custom <==> b in st.log && Spoken(b))
  }

  ghost predicate Effective(st: State, l: DepRef, r: DepRef) {
    RealFork(st, l, r) && st.sources[l.id.src].blamed && st.sources[l.id.src].proven
  }

  /** Only sources with evidence against them are blamed in between, and payloads have their effect. */
  ghost predicate Fair(st: State, r: State) {
    && Grown(st, r)
    && (forall t :: 0 <= t < |st.sources| && r.sources[t].blamed && !st.sources[t].blamed ==> Accused(r, t))
    && (Payloads(st) ==> Payloads(r))
  }

  lemma EffectiveGrown(st: State, r: State, x: DepRef, y: DepRef)
    requires Grown(st, r) && Effective(st, x, y)
    ensures Effective(r, x, y)
  {}

  lemma AccusedGrown(st: State, r: State, t: nat)
    requires Grown(st, r) && Accused(st, t)
    ensures Accused(r, t)
  {
    if Twins(st, t) {
      var a, b :| a in st.status && b in st.status && a.Id? && b.Id? && a.src == t && b.src == t && a.height == b.height && a != b;
      assert a in r.status && b in r.status;
    } else if Sick(st, t) {
      var c :| Is(st.status, c, Ill) && c.Id? && c.src == t;
      assert Is(r.status, c, Ill);
    } else {
      var b :| b in st.log && b.Id? && b.data.ForkProof? && b.data.left.id.Id? && b.data.left.id.src == t;
      assert b in r.log;
    }
  }

  lemma GrownTrans(st: State, r: State, q: State)
    requires Grown(st, r) && Grown(r, q)
    ensures Grown(st, q)
  {}

  lemma FairTrans(st: State, r: State, q: State)
    requires Fair(st, r) && Fair(r, q)
    ensures Fair(st, q)
  {
    GrownTrans(st, r, q);
    hide Accused, Payloads;
    forall t | 0 <= t < |st.sources| && q.sources[t].blamed && !st.sources[t].blamed ensures Accused(q, t) {
      if r.sources[t].blamed {
        AccusedGrown(r, q, t);
      }
    }
  }

  /** Nothing was delivered in between. */
  lemma Quiet(st: State, r: State)
    requires Grown(st, r) && r.log == st.log && r.custom == st.custom
    requires forall t :: 0 <= t < |st.sources| && r.sources[t].blamed && !st.sources[t].blamed ==> Accused(r, t)
    ensures Fair(st, r)
  {
    hide Accused, Effective, Grown;
    if Payloads(st) {
      forall b | b in r.log && b.Id? && b.data.ForkProof? ensures Effective(r, b.data.left, b.data.right) {
        EffectiveGrown(st, r, b.data.left, b.data.right);
      }
    }
  }

  /** Nobody was blamed in between either. */
  lemma FairSame(st: State, r: State)
    requires |r.sources| == |st.sources| && st.status.Keys <= r.status.Keys && r.log == st.log && r.custom == st.custom
    requires forall c :: Is(st.status, c, Ill) ==> Is(r.status, c, Ill)
    requires forall t :: 0 <= t < |st.sources| ==>
               r.sources[t].blamed == st.sources[t].blamed && r.sources[t].proven == st.sources[t].proven
    ensures Fair(st, r)
  {
    Quiet(st, r);
  }

  lemma FairSelf(st: State)
    ensures Fair(st, st)
  {
    FairSame(st, st);
  }

  // ----- stubs -----

  lemma TwinsAt(st: State, a: BlockId, b: BlockId)
    requires a in st.status && b in st.status && a.Id? && b.Id? && a.src == b.src && a.height == b.height && a != b
    ensures Accused(st, b.src)
  {}

  lemma SickAt(st: State, c: BlockId)
    requires Is(st.status, c, Ill) && c.Id?
    ensures Accused(st, c.src)
  {}

  lemma AddStubFair(st: State, b: BlockId)
    requires Inv(st, {})
    ensures Fair(st, AddStub(st, b))
  {
    var r := AddStub(st, b);
    InvBook(st, b);
    hide Inv, Book, Accused;
    if b in st.status || b.Root? || b.src >= |st.sources| {
      FairSelf(st);
    } else {
      var src := st.sources[b.src];
      if !src.proven && b.height in src.blocks {
        TwinsAt(r, src.blocks[b.height], b);
      }
      StubGrown(st, b);
      Quiet(st, r);
    }
  }

  lemma StubGrown(st: State, b: BlockId)
    requires b !in st.status && b.Id? && b.src < |st.sources|
    ensures var r := AddStub(st, b);
            && Grown(st, r) && r.log == st.log && r.custom == st.custom
            && forall t :: 0 <= t < |st.sources| && t != b.src ==> r.sources[t] == st.sources[t]
  {}

  lemma InvBook(st: State, b: BlockId)
    requires Inv(st, {})
    ensures b.Id? && b.src < |st.sources| ==>
              forall h :: h in st.sources[b.src].blocks ==>
                var c := st.sources[b.src].blocks[h]; c in st.status && c.Id? && c.src == b.src && c.height == h
  {
    if b.Id? && b.src < |st.sources| {
      assert Book(st.status, st.sources[b.src], b.src);
    }
  }

  lemma {:induction false} AddStubsFair(st: State, bs: seq<BlockId>)
    requires Inv(st, {}) && forall b :: b in bs ==> b.Root? || (b.height > 0 && b.src < |st.sources|)
    ensures Fair(st, AddStubs(st, bs))
    decreases |bs|
  {
    hide Inv, AddStub, Fair;
    if bs == [] {
      FairSelf(st);
    } else {
      var st1 := AddStub(st, bs[0]);
      AddStubKeeps(st, {}, bs[0]);
      AddStubFair(st, bs[0]);
      FairSources(st, st1);
      AddStubsFair(st1, bs[1..]);
      FairTrans(st, st1, AddStubs(st, bs));
    }
  }

  lemma FairSources(st: State, r: State)
    requires Fair(st, r)
    ensures |r.sources| == |st.sources|
  {}

  // ----- illness -----

  /** Everybody blamed in between has an ill block. */
  ghost predicate Infected(st: State, r: State) {
    |r.sources| == |st.sources| &&
    forall t :: 0 <= t < |st.sources| && r.sources[t].blamed && !st.sources[t].blamed ==> Sick(r, t)
  }

  lemma InfectedTrans(st: State, r: State, q: State)
    requires Sicker(st, r) && Sicker(r, q) && Infected(st, r) && Infected(r, q)
    ensures Infected(st, q)
  {
    forall t | 0 <= t < |st.sources| && q.sources[t].blamed && !st.sources[t].blamed ensures Sick(q, t) {
      if r.sources[t].blamed {
        var c :| Is(r.status, c, Ill) && c.Id? && c.src == t;
        assert Is(q.status, c, Ill);
      }
    }
  }

  lemma MarkIllInfected(st: State, b: BlockId)
    requires Is(st.status, b, Initialized)
    ensures Infected(st, MarkIll(st, b))
  {
    var r := MarkIll(st, b);
    assert Is(r.status, b, Ill);
    assert b.Id? && b.src < |st.sources| ==> r.sources == st.sources[b.src := BlameSource(st.sources[b.src])];
  }

  lemma {:induction false} SetIllInfected(st: State, b: BlockId)
    requires Waiters(st) && Open(st.status, b)
    ensures Infected(st, SetIll(st, b))
    decreases Healthy(st), 0
  {
    hide Infected, MarkIll, Sicker, Waiters;
    if Is(st.status, b, Ill) {
      InfectedSelf(st);
    } else {
      var st1 := MarkIll(st, b);
      MarkIllSicker(st, b);
      MarkIllInfected(st, b);
      SickerWaiters(st, st1);
      IllShrinks(st, b);
      InfectAll(st1, RevDepsOf(st, b), st, b);
      SetIllAllInfected(st1, RevDepsOf(st, b));
      SetIllAllSicker(st1, RevDepsOf(st, b));
      InfectedTrans(st, st1, SetIllAll(st1, RevDepsOf(st, b)));
    }
  }

  lemma InfectedSelf(st: State)
    ensures Infected(st, st)
  {}

  lemma IllShrinks(st: State, b: BlockId)
    requires Is(st.status, b, Initialized)
    ensures Healthy(MarkIll(st, b)) == Healthy(st) - {b} && b in Healthy(st)
  {}

  lemma InfectAll(st1: State, bs: seq<BlockId>, st: State, b: BlockId)
    requires st1 == MarkIll(st, b) && bs == RevDepsOf(st, b) && Waiters(st1)
    ensures forall c :: c in bs ==> Open(st1.status, c)
    ensures forall c :: c in bs ==> c in st1.body && exists p :: p in st1.ills && Parent(st1.body[c], p)
  {
    assert RevDepsOf(st1, b) == bs;
    assert b in st1.ills;
  }

  lemma {:induction false} SetIllAllInfected(st: State, bs: seq<BlockId>)
    requires Waiters(st)
    requires forall c :: c in bs ==> Open(st.status, c)
    ensures Infected(st, SetIllAll(st, bs))
    decreases Healthy(st), |bs|
  {
    hide Infected, Waiters;
    if bs == [] {
      InfectedSelf(st);
    } else {
      var r := SetIll(st, bs[0]);
      SetIllInfected(st, bs[0]);
      SetIllSicker(st, bs[0]);
      SickerWaiters(st, r);
      StillOpen(st, r, bs[1..]);
      SetIllAllInfected(r, bs[1..]);
      AllSicker(r, bs[1..]);
      InfectedTrans(st, r, SetIllAll(r, bs[1..]));
    }
  }

  lemma StillOpen(st: State, r: State, bs: seq<BlockId>)
    requires Sicker(st, r) && forall c :: c in bs ==> Open(st.status, c)
    ensures forall c :: c in bs ==> Open(r.status, c)
  {
    forall c | c in bs ensures Open(r.status, c) {
      assert Open(st.status, c) && c in r.status;
    }
  }

  lemma {:induction false} AllSicker(st: State, bs: seq<BlockId>)
    requires Waiters(st) && forall c :: c in bs ==> Open(st.status, c)
    ensures Sicker(st, SetIllAll(st, bs))
    decreases |bs|
  {
    hide Sicker, Waiters;
    if bs == [] {
      SickerSelf(st);
    } else {
      var r := SetIll(st, bs[0]);
      SetIllSicker(st, bs[0]);
      SickerWaiters(st, r);
      StillOpen(st, r, bs[1..]);
      AllSicker(r, bs[1..]);
      SickerTrans(st, r, SetIllAll(r, bs[1..]));
    }
  }

  lemma SickerSelf(st: State)
    ensures Sicker(st, st)
  {}

  lemma InfectedFair(st: State, r: State)
    requires Sicker(st, r) && Infected(st, r)
    ensures Fair(st, r)
  {
    SickerGrown(st, r);
    hide Grown;
    Quiet(st, r);
  }

  lemma SickerGrown(st: State, r: State)
    requires Sicker(st, r)
    ensures Grown(st, r) && r.log == st.log && r.custom == st.custom
  {}

  /** A block that is made ill is ill afterwards. */
  lemma {:induction false} MadeIll(st: State, b: BlockId)
    requires b in st.status
    ensures Is(SetIll(st, b).status, b, Ill)
  {
    hide SetIllAll;
    if st.status[b] != Ill {
      StaysIll(MarkIll(st, b), RevDepsOf(st, b), b);
    }
  }

  lemma {:induction false} StaysIll(st: State, bs: seq<BlockId>, c: BlockId)
    requires Is(st.status, c, Ill)
    ensures Is(SetIllAll(st, bs).status, c, Ill)
    decreases Healthy(st), |bs|
  {
    hide MarkIll;
    if bs != [] {
      if bs[0] in st.status && st.status[bs[0]] != Ill {
        MarkedIll(st, bs[0], c);
        StaysIll(MarkIll(st, bs[0]), RevDepsOf(st, bs[0]), c);
      }
      StaysIll(SetIll(st, bs[0]), bs[1..], c);
    }
  }

  lemma MarkedIll(st: State, b: BlockId, c: BlockId)
    requires b in st.status && st.status[b] != Ill && Is(st.status, c, Ill)
    ensures Is(MarkIll(st, b).status, c, Ill) && Healthy(MarkIll(st, b)) == Healthy(st) - {b} && b in Healthy(st)
  {}

  lemma SetIllFair(st: State, b: BlockId)
    requires Waiters(st) && Open(st.status, b)
    ensures Fair(st, SetIll(st, b))
  {
    hide Infected, Fair, Sicker, Waiters;
    SetIllInfected(st, b);
    SetIllSicker(st, b);
    InfectedFair(st, SetIll(st, b));
  }

  // ----- running a block -----

  /** A block of the same source and height was placed before the source gets a second fork. */
  lemma RivalPlaced(st: State, b: BlockId) returns (a: BlockId)
    requires Inv(st, {b}) && Ready(st, b) && StartsFork(st, b) && b.src < |st.sources| && st.sources[b.src].forks != []
    ensures a in st.status && a.Id? && a.src == b.src && a.height == b.height && a != b
  {
    PrevPlaced(st, b);
    ForkKnown(st, b);
    if b.height == 1 {
      FirstPlaced(st.fork, st.sources, st.totalForks, b.src);
      a :| a in st.fork && a.Id? && a.src == b.src && a.height == 1;
    } else {
      a := st.next[st.body[b].prev];
    }
    hide Inv, Ready;
  }

  lemma FirstPlaced(fork: Forkmap, sources: seq<Source>, total: nat, s: nat)
    requires ForkOwners(fork, sources, total) && s < |sources| && sources[s].forks != []
    ensures Began(fork, s)
  {}

  lemma ForkKnown(st: State, b: BlockId)
    requires Inv(st, {b}) && Ready(st, b)
    ensures b.Id? && b !in st.fork && b in st.body && ForkOwners(st.fork, st.sources, st.totalForks)
    ensures forall a :: a in st.fork ==> a in st.status
    ensures Successors(st.fork, st.next)
  {
    hide Waiting, Counted, Illness, Ordered, Queue, Clocks, Books;
  }

  lemma ForkFields(st: State, b: BlockId)
    requires b.Id? && b.src < |st.sources|
    ensures var r := InitializeFork(st, b);
            && r.status == st.status && r.log == st.log && r.custom == st.custom && |r.sources| == |st.sources|
            && forall t :: 0 <= t < |st.sources| ==>
                 && r.sources[t].proven == st.sources[t].proven
                 && (r.sources[t].blamed <==>
                       st.sources[t].blamed || (t == b.src && StartsFork(st, b) && st.sources[t].forks != []))
  {
    hide Stamp, At, AddFork;
    AddForkMeans(st.sources[b.src], NewForkOf(st, b));
  }

  lemma AddForkMeans(src: Source, f: nat)
    ensures var r := AddFork(src, f); r.proven == src.proven && (r.blamed <==> src.blamed || src.forks != [])
  {}

  lemma ForkFair(st: State, b: BlockId)
    requires Inv(st, {b}) && Ready(st, b)
    ensures Fair(st, InitializeFork(st, b))
  {
    PrevPlaced(st, b);
    ForkFields(st, b);
    PlaceFacts(st, b);
    hide Inv, Ready, InitializeFork, StartsFork, Accused;
    var r := InitializeFork(st, b);
    if StartsFork(st, b) && st.sources[b.src].forks != [] {
      var a := RivalPlaced(st, b);
      TwinsAt(r, a, b);
    }
    Quiet(st, r);
  }

  lemma PlaceFacts(st: State, b: BlockId)
    requires Ready(st, b)
    ensures b.Id? && b in st.status
  {}

  lemma RejectFair(st: State, b: BlockId)
    requires Inv(st, {b}) && Is(st.status, b, Initialized) && b.Id?
    ensures Fair(st, Reject(st, b))
  {
    hide Inv, Sicker, Judge, Fair, Accused, Blame;
    var st1 := if Judge(st, b) == MixesForks then Blame(st, b.src) else st;
    BlameKeeps(st, {b}, b.src);
    InvWaiters(st1, {b});
    SetIllFair(st1, b);
    SetIllSicker(st1, b);
    var r := SetIll(st1, b);
    SickAt(r, b);
    BlamedSource(st, b.src);
    RejectedFair(st, st1, r, b);
  }

  lemma BlamedSource(st: State, s: nat)
    ensures var r := Blame(st, s);
            && r == st.(sources := r.sources) && |r.sources| == |st.sources|
            && forall t :: 0 <= t < |st.sources| ==>
                 r.sources[t] == if t == s && !st.sources[t].blamed then Forgotten(st.sources[t]) else st.sources[t]
  {
    hide BlameSource;
    if s < |st.sources| {
      BlameMeans(st.sources[s]);
      assert Blame(st, s).sources == st.sources[s := BlameSource(st.sources[s])];
    }
  }

  /** A source when it is blamed: what was registered for it is forgotten. */
  function Forgotten(src: Source): Source {
    src.(blamed := true, blocks := map[], delivered := 0)
  }

  lemma BlameMeans(src: Source)
    ensures BlameSource(src) == if src.blamed then src else Forgotten(src)
  {}

  lemma RejectedFair(st: State, st1: State, r: State, b: BlockId)
    requires b.Id? && Fair(st1, r) && Accused(r, b.src) && st1 == st.(sources := st1.sources) && |st1.sources| == |st.sources|
    requires forall t :: 0 <= t < |st.sources| ==>
               st1.sources[t].proven == st.sources[t].proven &&
               (st.sources[t].blamed ==> st1.sources[t].blamed) && (st1.sources[t].blamed ==> st.sources[t].blamed || t == b.src)
    ensures Fair(st, r)
  {
    hide Accused;
    if Payloads(st) {
      forall c | c in st1.log && c.Id? && c.data.ForkProof? ensures Effective(st1, c.data.left, c.data.right) {
        assert Effective(st, c.data.left, c.data.right);
      }
      assert Payloads(st1);
    }
    hide Payloads;
  }

  /** What delivering a block changes besides its own bookkeeping. */
  lemma DeliverFields(st: State, b: BlockId)
    requires b.Id? && Is(st.status, b, Initialized)
    ensures var r := Deliver(Absorb(st, b), b);
            && r.status == st.status[b := Delivered] && r.log == st.log + [b] && |r.sources| == |st.sources|
            && r.custom == st.custom + (if Spoken(b) then {b} else {})
            && forall t :: 0 <= t < |st.sources| ==>
                 var named := b.data.ForkProof? && b.data.left.id.Id? && b.data.left.id.src == t;
                 (r.sources[t].blamed <==> st.sources[t].blamed || named) && (r.sources[t].proven <==> st.sources[t].proven || named)
  {
    hide Absorb, Release, BlockDelivered;
    AbsorbFields(st, b);
    var st1 := Absorb(st, b);
    ReleaseFields(st1, b);
    WalkFields(Release(st1, b), b);
  }

  lemma AbsorbFields(st: State, b: BlockId)
    requires b.Id?
    ensures var r := Absorb(st, b);
            && r.status == st.status && r.log == st.log && |r.sources| == |st.sources|
            && r.custom == st.custom + (if Spoken(b) then {b} else {})
            && forall t :: 0 <= t < |st.sources| ==>
                 var named := b.data.ForkProof? && b.data.left.id.Id? && b.data.left.id.src == t;
                 (r.sources[t].blamed <==> st.sources[t].blamed || named) && (r.sources[t].proven <==> st.sources[t].proven || named)
  {
    var r := Absorb(st, b);
    AbsorbCustom(st, b);
    if b.data.ForkProof? && b.data.left.id.Id? {
      ProvenSource(st, b.data.left.id.src);
    }
    hide Blame, Prove, Absorb;
  }

  lemma AbsorbCustom(st: State, b: BlockId)
    requires b.Id?
    ensures var r := Absorb(st, b);
            && r.custom == st.custom + (if Spoken(b) then {b} else {})
            && (b.data.ForkProof? && b.data.left.id.Id? ==> r == Blame(Prove(st, b.data.left.id.src), b.data.left.id.src))
            && (!(b.data.ForkProof? && b.data.left.id.Id?) ==> r.sources == st.sources)
  {
    hide Blame, Prove;
    assert st.custom + {} == st.custom;
  }

  /** A source when a fork of it is proven. */
  function Exposed(src: Source): Source {
    (if src.blamed then src else Forgotten(src)).(proven := true)
  }

  /** What a fork proof does to the sources. */
  lemma ProvenSource(st: State, s: nat)
    ensures var r := Blame(Prove(st, s), s);
            && r == st.(sources := r.sources) && |r.sources| == |st.sources|
            && forall t :: 0 <= t < |st.sources| ==>
                 r.sources[t] == if t == s then Exposed(st.sources[t]) else st.sources[t]
  {
    hide Prove, Blame;
    ProvedSource(st, s);
    BlamedSource(Prove(st, s), s);
  }

  lemma ProvedSource(st: State, s: nat)
    ensures var r := Prove(st, s);
            && r == st.(sources := r.sources) && |r.sources| == |st.sources|
            && forall t :: 0 <= t < |st.sources| ==> r.sources[t] == if t == s then st.sources[t].(proven := true) else st.sources[t]
  {}

  lemma ReleaseFields(st: State, b: BlockId)
    ensures var r := Release(st, b);
            && r.status == st.status[b := Delivered] && r.log == st.log + [b] && r.custom == st.custom && r.sources == st.sources
  {
    hide MergeInto, DecrementAll, Woken;
  }

  lemma WalkFields(st: State, b: BlockId)
    requires b.Id?
    ensures var r := BlockDelivered(st, b);
            && r == st.(sources := r.sources) && |r.sources| == |st.sources|
            && forall t :: 0 <= t < |st.sources| ==>
                 r.sources[t].blamed == st.sources[t].blamed && r.sources[t].proven == st.sources[t].proven
    ensures var r := BlockReceived(st, b);
            && r == st.(sources := r.sources) && |r.sources| == |st.sources|
            && forall t :: 0 <= t < |st.sources| ==>
                 r.sources[t].blamed == st.sources[t].blamed && r.sources[t].proven == st.sources[t].proven
  {
    hide Advance;
    if b.src < |st.sources| && !st.sources[b.src].blamed {
      var src, d, r := st.sources[b.src], BlockDelivered(st, b), BlockReceived(st, b);
      assert d.sources == st.sources[b.src := src.(delivered := d.sources[b.src].delivered)];
      assert r.sources == st.sources[b.src := src.(received := r.sources[b.src].received)];
    }
  }

  lemma DeliverFair(st: State, b: BlockId)
    requires b.Id? && b in st.body && Is(st.status, b, Initialized) && b !in st.log && Judge(st, b) == Fine
    ensures Fair(st, Deliver(Absorb(st, b), b))
  {
    hide Absorb, Deliver, Judge, Passes, MeetsRoot;
    JudgeIff(st, b);
    DeliverFields(st, b);
    DeliveredFair(st, Deliver(Absorb(st, b), b), b);
  }

  lemma DeliveredFair(st: State, r: State, b: BlockId)
    requires b.Id? && Is(st.status, b, Initialized) && b !in st.log && Truthful(st, b)
    requires r.status == st.status[b := Delivered] && r.log == st.log + [b] && |r.sources| == |st.sources|
    requires r.custom == st.custom + if Spoken(b) then {b} else {}
    requires forall t :: 0 <= t < |st.sources| ==>
               var named := b.data.ForkProof? && b.data.left.id.Id? && b.data.left.id.src == t;
               (r.sources[t].blamed <==> st.sources[t].blamed || named) && (r.sources[t].proven <==> st.sources[t].proven || named)
    ensures Fair(st, r)
  {
    IsUpdate(st.status, b, Delivered);
    assert b in r.log;
    forall t | 0 <= t < |st.sources| && r.sources[t].blamed && !st.sources[t].blamed ensures Accused(r, t) {
      assert Reported(r, t);
    }
    assert Grown(st, r);
    hide Grown, Accused;
    if Payloads(st) {
      forall c | c in r.log && c.Id? && c.data.ForkProof? ensures Effective(r, c.data.left, c.data.right) {
        if c != b {
          assert c in st.log;
          EffectiveGrown(st, r, c.data.left, c.data.right);
        } else {
          assert RealFork(r, b.data.left, b.data.right);
        }
      }
      forall c ensures c in r.custom <==> c in r.log && Spoken(c) {
        assert c in r.log <==> c in st.log || c == b;
      }
    }
  }

  /** A block with a wrong fork proof becomes ill; a right one that is let through takes effect. */
  lemma ProofPayload(st: State, b: BlockId)
    requires b.Id?
    ensures var r := PreDeliver(st, b);
            Is(st.status, b, Initialized) && b.data.ForkProof? && r.checks ==>
              Is(r.status, b, Ill) || Effective(r, b.data.left, b.data.right)
  {
    hide Judge, Reject, Absorb, Effective;
    if Is(st.status, b, Initialized) && b.data.ForkProof? {
      match Judge(st, b)
      case Fine => FineEffective(st, b);
      case NoSource => {}
      case _ => RejectIll(st, b);
    }
  }

  lemma FineEffective(st: State, b: BlockId)
    requires b.Id? && b.data.ForkProof? && Judge(st, b) == Fine
    ensures Effective(Absorb(st, b), b.data.left, b.data.right)
  {
    hide ScanDeps, Blame, Prove;
    ProvenSource(st, b.data.left.id.src);
  }

  lemma RejectIll(st: State, b: BlockId)
    requires b.Id? && Is(st.status, b, Initialized)
    ensures Is(Reject(st, b).status, b, Ill)
  {
    hide Judge, Blame, SetIll;
    BlamedSource(st, b.src);
    MadeIll(if Judge(st, b) == MixesForks then Blame(st, b.src) else st, b);
  }

  lemma RunFair(st: State, b: BlockId)
    requires Inv(st, {b}) && (Is(st.status, b, Initialized) ==> Ready(st, b))
    ensures Fair(st, Run(st, b))
  {
    hide Inv, Placed, Ready, Fair, InitializeFork, Judge, Deliver, Absorb, Reject, Run, AllDelivered, Later;
    if b.Root? || StatusOf(st, b) != Initialized {
      Idle(st, b);
      FairSelf(st);
    } else {
      ReadyId(st, b);
      RunVerdict(st, b);
      ForkFair(st, b);
      var st1 := InitializeFork(st, b);
      PlacedId(st1, b);
      PlacedFresh(st1, b);
      match Judge(st1, b)
      case Fine =>
        DeliverFair(st1, b);
        FairTrans(st, st1, Run(st, b));
      case NoSource =>
        FairSame(st1, st1.(checks := false));
        FairTrans(st, st1, Run(st, b));
      case _ =>
        RejectFair(st1, b);
        FairTrans(st, st1, Run(st, b));
    }
  }

  lemma Idle(st: State, b: BlockId)
    requires b.Root? || StatusOf(st, b) != Initialized
    ensures Run(st, b) == st
  {}

  lemma PlacedFresh(st: State, b: BlockId)
    requires Inv(st, {b}) && Placed(st, b)
    ensures b in st.body && b !in st.log
  {}

  lemma {:induction false} RunSchedulerFair(st: State)
    requires Inv(st, {})
    ensures Fair(st, RunScheduler(st))
    decreases Live(st), |st.toRun|
  {
    hide Inv, Ready, Fair, Later, Run;
    InvChecks(st, {});
    FairSelf(st);
    if st.toRun != [] {
      var b := st.toRun[0];
      var st1 := st.(toRun := st.toRun[1..]);
      PopKeeps(st);
      ReadySame(st, st1, b);
      FairSame(st, st1);
      RunFair(st1, b);
      FairTrans(st, st1, Run(st1, b));
      assert Live(st1) == Live(st);
      RunKeeps(st1, b);
      if Run(st1, b).checks {
        RunSchedulerFair(Run(st1, b));
        FairTrans(st, Run(st1, b), RunScheduler(st));
      } else {
        Stopped(Run(st1, b));
      }
    }
  }

  // ----- events -----

  lemma FilledFair(st: State, m: Msg)
    requires Inv(st, {}) && Fits(st, m)
    ensures Fair(st, Filled(st, m))
  {
    hide Inv, Fair, Stubbed, Filled;
    var ps := [m.prev.id] + Ids(m.deps);
    FilledStubs(st, m);
    FitsRefs(st, m);
    AddStubsFair(st, ps);
    var st1 := AddStubs(st, ps);
    FillFair(st1, m.id, BodyIn(m));
    FairTrans(st, st1, Fill(st1, m.id, BodyIn(m)));
    assert Filled(st, m) == Fill(st1, m.id, BodyIn(m)) by { UnfoldFilled(st, m); }
  }

  lemma UnfoldFilled(st: State, m: Msg)
    ensures Filled(st, m) == Fill(AddStubs(st, [m.prev.id] + Ids(m.deps)), m.id, BodyIn(m))
  {}

  lemma FitsRefs(st: State, m: Msg)
    requires Fits(st, m)
    ensures forall p :: p in [m.prev.id] + Ids(m.deps) ==> p.Root? || (p.height > 0 && p.src < |st.sources|)
  {
    assert ParentsOf(BodyIn(m)) == [m.prev.id] + Ids(m.deps);
  }

  lemma FillFair(st: State, b: BlockId, body: Body)
    requires Is(st.status, b, Stub)
    ensures Fair(st, Fill(st, b, body))
  {
    IsUpdate(st.status, b, Initialized);
    hide Fair;
    FairSame(st, Fill(st, b, body));
  }

  lemma LinkFair(st: State, b: BlockId, ps: seq<BlockId>)
    requires b.Id?
    ensures Fair(st, BlockReceived(LinkAll(st, b, ps), b))
  {
    hide Fair, BlockReceived, MergeAll, AwaitAll, CountWaiting;
    WalkFields(LinkAll(st, b, ps), b);
    FairSame(st, BlockReceived(LinkAll(st, b, ps), b));
  }

  lemma InitializeFair(st: State, m: Msg)
    requires Inv(st, {}) && Fits(st, m)
    ensures Fair(st, Initialize(st, m))
  {
    hide Inv, Fair, BlockReceived, LinkAll, SetIll, Initialize, Filled, Waiters, Fits;
    var b, ps, st2 := m.id, ParentsOf(BodyIn(m)), Filled(st, m);
    FilledKeeps(st, m);
    FilledFair(st, m);
    InitializeCases(st, m);
    FitsParents(st, m);
    if AnyIll(st2, ps) {
      InvWaiters(st2, {b});
      SetIllFair(st2, b);
    } else {
      LinkFair(st2, b, ps);
    }
    FairTrans(st, st2, Initialize(st, m));
  }

  lemma WrittenFair(st: State, b: BlockId)
    ensures Fair(st, Written(st, b))
  {
    hide Fair;
    FairSame(st, Written(st, b));
  }

  lemma AcceptFair(st: State, m: Msg)
    requires Inv(st, {}) && Settled(st)
    ensures Fair(st, Accept(st, m))
  {
    hide Inv, Fair, Validate, Written, Initialize, AddStub, RunScheduler, Fits, Later, Stubbed;
    FairSelf(st);
    if !Hashable(|st.sources|, m) {
      FairSame(st, st.(checks := false));
    } else if StatusOf(st, m.id) != Initialized && StatusOf(st, m.id) != Delivered && Validate(st, m) {
      ValidId(st, m);
      if Is(st.status, m.id, Ill) {
        IllAgain(st, m);
        NothingQueued(st);
      } else {
        var st1 := AddStub(st, m.id);
        AddStubFits(st, m);
        AddStubFair(st, m.id);
        InitializeFair(st1, m);
        FairTrans(st, st1, CreateBlock(st, m));
        var st2 := Written(CreateBlock(st, m), m.id);
        WrittenFair(CreateBlock(st, m), m.id);
        FairTrans(st, CreateBlock(st, m), st2);
        CreateKeeps(st, m);
        RunSchedulerFair(st2);
        FairTrans(st, st2, RunScheduler(st2));
      }
    }
  }

  /** A pair of references that comes as a fork proof blames exactly the source it is about, and only if it is right. */
  lemma ProofIff(st: State, l: DepRef, r: DepRef)
    ensures var q := AcceptProof(st, l, r);
            && (!RealFork(st, l, r) ==> q == st)
            && (RealFork(st, l, r) ==>
                  && q == st.(sources := q.sources) && |q.sources| == |st.sources|
                  && forall t :: 0 <= t < |st.sources| ==>
                       q.sources[t] == if t == l.id.src then Exposed(st.sources[t]) else st.sources[t])
  {
    hide Blame, Prove;
    if RealFork(st, l, r) {
      ProvenSource(st, l.id.src);
    }
  }

  lemma ProofPayloads(st: State, l: DepRef, r: DepRef)
    requires Payloads(st)
    ensures Payloads(AcceptProof(st, l, r)) && Grown(st, AcceptProof(st, l, r))
  {
    ProofIff(st, l, r);
    hide AcceptProof;
    var q := AcceptProof(st, l, r);
    assert Grown(st, q);
    hide Grown;
    forall b | b in q.log && b.Id? && b.data.ForkProof? ensures Effective(q, b.data.left, b.data.right) {
      EffectiveGrown(st, q, b.data.left, b.data.right);
    }
  }

  // ----- runs -----

  /** A right fork proof against source `t` came in during the run. */
  ghost predicate Denounced(n: nat, maxDeps: nat, events: seq<Event>, t: nat) {
    exists k: nat :: DenouncedAt(n, maxDeps, events, t, k)
  }

  ghost predicate DenouncedAt(n: nat, maxDeps: nat, events: seq<Event>, t: nat, k: nat) {
    k < |events| && events[k].Proof? && events[k].left.id.Id? && events[k].left.id.src == t &&
    RealFork(Execute(n, maxDeps, events[..k]), events[k].left, events[k].right)
  }

  lemma DenouncedSnoc(n: nat, maxDeps: nat, events: seq<Event>, t: nat)
    requires events != []
    ensures var i := |events| - 1;
            Denounced(n, maxDeps, events, t) <==> Denounced(n, maxDeps, events[..i], t) || DenouncedAt(n, maxDeps, events, t, i)
  {
    hide Execute, RealFork;
    var i := |events| - 1;
    forall k: nat | k < i ensures DenouncedAt(n, maxDeps, events, t, k) <==> DenouncedAt(n, maxDeps, events[..i], t, k) {
      assert events[..i][..k] == events[..k] && events[..i][k] == events[k];
    }
    if k: nat :| DenouncedAt(n, maxDeps, events, t, k) {
      assert k < i ==> DenouncedAt(n, maxDeps, events[..i], t, k);
    }
    if k: nat :| DenouncedAt(n, maxDeps, events[..i], t, k) {
      assert DenouncedAt(n, maxDeps, events, t, k);
    }
  }

  /** Evidence against a source gets it blamed. */
  lemma AccusedBlamed(st: State, t: nat)
    requires Inv(st, {}) && Payloads(st) && t < |st.sources| && Accused(st, t)
    ensures st.sources[t].blamed
  {
    assert Book(st.status, st.sources[t], t);
    RootDelivered(st);
    hide Inv;
  }

  lemma RootDelivered(st: State)
    requires Inv(st, {})
    ensures Is(st.status, Root, Delivered)
  {}

  /** The blamed sources are those with evidence against them. */
  ghost predicate Judged(n: nat, maxDeps: nat, events: seq<Event>) {
    var st := Execute(n, maxDeps, events);
    Payloads(st) && forall t :: 0 <= t < |st.sources| && st.sources[t].blamed ==> Accused(st, t) || Denounced(n, maxDeps, events, t)
  }

  lemma {:induction false} RunJudges(n: nat, maxDeps: nat, events: seq<Event>)
    requires Alive(n, maxDeps, events)
    ensures Judged(n, maxDeps, events) && |Execute(n, maxDeps, events).sources| == n
    ensures forall t :: 0 <= t < n && Denounced(n, maxDeps, events, t) ==> Execute(n, maxDeps, events).sources[t].blamed
  {
    hide Inv, Settled, Accept, AcceptProof, Denounced, DenouncedAt, Later, Accused, Payloads, Grown;
    if events == [] {
      NothingDenounced(n, maxDeps);
      InitPayloads(n, maxDeps);
    } else {
      var i := |events| - 1;
      var st, r := Execute(n, maxDeps, events[..i]), Execute(n, maxDeps, events);
      ExecuteLater(n, maxDeps, events, i);
      ExecuteKeeps(n, maxDeps, events[..i]);
      ExecuteKeeps(n, maxDeps, events);
      RunJudges(n, maxDeps, events[..i]);
      forall t: nat ensures Denounced(n, maxDeps, events, t) <==>
                              Denounced(n, maxDeps, events[..i], t) || DenouncedAt(n, maxDeps, events, t, i)
      {
        DenouncedSnoc(n, maxDeps, events, t);
      }
      EventGrows(st, events[i]);
      forall t | 0 <= t < n && r.sources[t].blamed ensures Accused(r, t) || Denounced(n, maxDeps, events, t) {
        if st.sources[t].blamed && Accused(st, t) {
          AccusedGrown(st, r, t);
        } else if !st.sources[t].blamed {
          NewlyBlamed(n, maxDeps, events, t);
        }
      }
      forall t | 0 <= t < n && Denounced(n, maxDeps, events, t) ensures r.sources[t].blamed {
        if DenouncedAt(n, maxDeps, events, t, i) {
          DenouncedBlamed(n, maxDeps, events, t);
        } else {
          StillBlamed(st, r, t);
        }
      }
    }
  }

  lemma NothingDenounced(n: nat, maxDeps: nat)
    ensures forall t: nat :: !Denounced(n, maxDeps, [], t)
  {}

  lemma InitPayloads(n: nat, maxDeps: nat)
    ensures Payloads(Init(n, maxDeps)) && forall t :: 0 <= t < n ==> !Init(n, maxDeps).sources[t].blamed
  {}

  lemma EventGrows(st: State, e: Event)
    requires Inv(st, {}) && Settled(st) && Payloads(st) && st.checks
    ensures Payloads(Step(st, e)) && Grown(st, Step(st, e))
    ensures e.Receive? ==> Fair(st, Step(st, e))
  {
    hide Inv, Settled, Accept, AcceptProof, Payloads, Grown, Accused;
    match e
    case Receive(m) => AcceptFair(st, m);
    case Proof(l, r) => ProofPayloads(st, l, r);
  }

  lemma StillBlamed(st: State, r: State, t: nat)
    requires Grown(st, r) && t < |st.sources| && st.sources[t].blamed
    ensures r.sources[t].blamed
  {}

  lemma NewlyBlamed(n: nat, maxDeps: nat, events: seq<Event>, t: nat)
    requires events != []
    requires var st := Execute(n, maxDeps, events[..|events| - 1]);
             Inv(st, {}) && Settled(st) && Payloads(st) && st.checks && |st.sources| == n && t < n && !st.sources[t].blamed
    requires |Execute(n, maxDeps, events).sources| == n && Execute(n, maxDeps, events).sources[t].blamed
    ensures Accused(Execute(n, maxDeps, events), t) || DenouncedAt(n, maxDeps, events, t, |events| - 1)
  {
    hide Inv, Settled, Accept, AcceptProof, Payloads, Grown, Accused, RealFork;
    var i := |events| - 1;
    var st := Execute(n, maxDeps, events[..i]);
    EventGrows(st, events[i]);
    if events[i].Proof? {
      ProofIff(st, events[i].left, events[i].right);
      RealForkIds(st, events[i].left, events[i].right);
    }
  }

  lemma RealForkIds(st: State, l: DepRef, r: DepRef)
    requires RealFork(st, l, r)
    ensures l.id.Id?
  {}

  lemma DenouncedBlamed(n: nat, maxDeps: nat, events: seq<Event>, t: nat)
    requires events != [] && DenouncedAt(n, maxDeps, events, t, |events| - 1) && t < n
    requires Execute(n, maxDeps, events[..|events| - 1]).checks && |Execute(n, maxDeps, events[..|events| - 1]).sources| == n
    ensures var r := Execute(n, maxDeps, events); |r.sources| == n && r.sources[t].blamed
  {
    hide AcceptProof, RealFork;
    var i := |events| - 1;
    ProofIff(Execute(n, maxDeps, events[..i]), events[i].left, events[i].right);
  }

  /**
    Who is blamed, over every run: exactly the sources with two known blocks at one height, with an ill
    block, with a fork proof against them in a delivered block, or with a right fork proof against them
    that came in.
  */
  lemma BlamedIff(n: nat, maxDeps: nat, events: seq<Event>, t: nat)
    requires Alive(n, maxDeps, events) && t < n
    ensures var st := Execute(n, maxDeps, events);
            |st.sources| == n &&
            (st.sources[t].blamed <==>
               Twins(st, t) || Sick(st, t) || Reported(st, t) || Denounced(n, maxDeps, events, t))
  {
    hide Execute, Inv, Settled, Payloads, Twins, Sick, Reported, Denounced;
    ExecuteKeeps(n, maxDeps, events);
    RunJudges(n, maxDeps, events);
    var st := Execute(n, maxDeps, events);
    if Accused(st, t) {
      AccusedBlamed(st, t);
    }
  }

  /**
    What delivered payloads do, over every run: each fork proof in one is about two different blocks of one
    source at one height, both vouched for, and that source is blamed and the fork proven; and the payloads
    set aside for the application are exactly those of delivered blocks that are not inner messages.
  */
  lemma PayloadsTakeEffect(n: nat, maxDeps: nat, events: seq<Event>)
    requires Alive(n, maxDeps, events)
    ensures var st := Execute(n, maxDeps, events);
            && (forall b :: b in st.log && b.Id? && b.data.ForkProof? ==>
                  var l, r := b.data.left, b.data.right;
                  RealFork(st, l, r) && st.sources[l.id.src].blamed && st.sources[l.id.src].proven)
            && (forall b :: b in st.custom <==> b in st.log && b.Id? && b.data.Custom?)
  {
    hide Execute, Inv, Settled, RealFork;
    ExecuteKeeps(n, maxDeps, events);
    RunJudges(n, maxDeps, events);
    var st := Execute(n, maxDeps, events);
    forall b | b in st.log && b.Id? ensures b.data != Empty {
      LogBody(st, b);
      OnlyGenuineBlocks(n, maxDeps, events, b);
    }
    forall b | b in st.log && b.Id? && b.data.ForkProof? ensures RealFork(st, b.data.left, b.data.right) {
      assert Effective(st, b.data.left, b.data.right);
    }
  }

  lemma LogBody(st: State, b: BlockId)
    requires Inv(st, {}) && b in st.log
    ensures b in st.body
  {}
}
