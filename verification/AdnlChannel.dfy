/** Two peers set up a channel over a network that loses, duplicates and reorders packets. */
module AdnlChannel {
  import opened Options

  type Secret = seq<int>

  // ----- key derivation -----

  function Reversed(s: Secret): (r: Secret)
    ensures |r| == |s| && forall i :: 0 <= i < |s| ==> r[i] == s[|s| - 1 - i]
  {
    if s == [] then [] else Reversed(s[1..]) + [s[0]]
  }

  /** The byte-reversal loop of `AdnlChannel::create`. */
  method Reverse(s: Secret) returns (r: Secret)
    ensures r == Reversed(s)
  {
    r := [];
    for i := 0 to |s|
      invariant |r| == i && forall j :: 0 <= j < i ==> r[j] == s[|s| - 1 - j]
    {
      r := r + [s[|s| - 1 - i]];
    }
  }

  /** What one end decrypts and encrypts with. */
  datatype Keys = Keys(inKey: Secret, outKey: Secret)

  /** The smaller id reads with the secret and writes with its reversal; the larger one the other way round. */
  function Derive(secret: Secret, local: int, peer: int): Keys {
    if local < peer then Keys(secret, Reversed(secret))
    else if peer < local then Keys(Reversed(secret), secret)
    else Keys(secret, secret)
  }

  /** The two ends derive crossed keys. */
  lemma DeriveMirror(secret: Secret, a: int, b: int)
    ensures Derive(secret, a, b).inKey == Derive(secret, b, a).outKey
    ensures Derive(secret, a, b).outKey == Derive(secret, b, a).inKey
  {}

  /** Key agreement: public keys and shared secrets; it may fail, and it is symmetric. */
  datatype Crypto = Crypto(pub: int -> int, shared: (int, int) -> Option<Secret>, hash: Secret -> int)

  ghost predicate Symmetric(c: Crypto) {
    forall x, y :: c.shared(x, c.pub(y)) == c.shared(y, c.pub(x))
  }

  // ----- one end -----

  datatype End = End(local: int, peer: int, pk: int, date: int, inited: bool, ready: bool,
                     peerPub: Option<int>, peerDate: int, keys: Keys)

  function NewEnd(local: int, peer: int, pk: int, date: int): End {
    End(local, peer, pk, date, false, false, None, 0, Keys([], []))
  }

  function InId(c: Crypto, e: End): int { c.hash(e.keys.inKey) }
  function OutId(c: Crypto, e: End): int { c.hash(e.keys.outKey) }

  /** `create_channel`. */
  function CreateChannel(c: Crypto, e: End, pub: int, date: int): End {
    if e.inited && e.peerPub == Some(pub) then e
    else if e.inited && date <= e.peerDate then e
    else
      var f := e.(inited := false, ready := false, peerPub := Some(pub), peerDate := date);
      match c.shared(e.pk, pub)
      case None => f
      case Some(secret) => f.(inited := true, keys := Derive(secret, e.local, e.peer))
  }

  /** Packets name their sender; the signature of a plain packet vouches for it. */
  datatype Packet =
    | Create(fromA: bool, key: int, date: int)
    | Confirm(fromA: bool, key: int, peerKey: int, date: int)
    | Channel(id: int)

  /** The handshake message added to a plain packet, or a packet over the channel. */
  function Outgoing(c: Crypto, e: End, isA: bool): Packet {
    if !e.inited then Create(isA, c.pub(e.pk), e.date)
    else if !e.ready then Confirm(isA, c.pub(e.pk), if e.peerPub.Some? then e.peerPub.value else 0, e.date)
    else Channel(OutId(c, e))
  }

  function Incoming(c: Crypto, e: End, isA: bool, p: Packet): End {
    match p
    case Create(fromA, key, date) => if fromA == isA then e else CreateChannel(c, e, key, date)
    case Confirm(fromA, key, peerKey, date) =>
      if fromA == isA || peerKey != c.pub(e.pk) then e
      else
        var f := CreateChannel(c, e, key, date);
        if !f.inited || f.peerPub != Some(key) then f else f.(ready := true)
    case Channel(id) => if e.inited && id == InId(c, e) then e.(ready := true) else e
  }

  // ----- the system -----

  /** `net` holds everything ever sent: losing, repeating and reordering are choices of what is received. */
  datatype System = System(a: End, b: End, net: set<Packet>)

  datatype Event = Send(isA: bool) | Receive(isA: bool, p: Packet)

  function Step(c: Crypto, s: System, e: Event): System {
    match e
    case Send(true) => s.(net := s.net + {Outgoing(c, s.a, true)})
    case Send(false) => s.(net := s.net + {Outgoing(c, s.b, false)})
    case Receive(true, p) => if p in s.net then s.(a := Incoming(c, s.a, true, p)) else s
    case Receive(false, p) => if p in s.net then s.(b := Incoming(c, s.b, false, p)) else s
  }

  function Run(c: Crypto, start: System, events: seq<Event>): System {
    if events == [] then start else Step(c, Run(c, start, events[..|events| - 1]), events[|events| - 1])
  }

  // ----- agreement -----

  /** An end holds at most the key the other end really has, and the keys derived from it. */
  ghost predicate OnPeer(c: Crypto, e: End, other: End) {
    && e.local == other.peer && e.peer == other.local
    && (e.ready ==> e.inited)
    && (e.inited ==>
          && e.peerPub == Some(c.pub(other.pk))
          && c.shared(e.pk, c.pub(other.pk)).Some?
          && e.keys == Derive(c.shared(e.pk, c.pub(other.pk)).value, e.local, e.peer))
  }

  ghost predicate Honest(c: Crypto, s: System, p: Packet) {
    match p
    case Create(fromA, key, _) => key == c.pub((if fromA then s.a else s.b).pk)
    case Confirm(fromA, key, _, _) =>
      var sender := if fromA then s.a else s.b;
      key == c.pub(sender.pk) && sender.inited
    case Channel(_) => s.a.inited && s.b.inited
  }

  ghost predicate Agreement(c: Crypto, s: System) {
    && OnPeer(c, s.a, s.b) && OnPeer(c, s.b, s.a)
    && (s.a.ready || s.b.ready ==> s.a.inited && s.b.inited)
    && (forall p :: p in s.net ==> Honest(c, s, p))
  }

  /** A message of the other end, received by an end, keeps it on that end's key. */
  lemma CreateOnPeer(c: Crypto, e: End, other: End, date: int)
    requires OnPeer(c, e, other)
    ensures var f := CreateChannel(c, e, c.pub(other.pk), date);
            OnPeer(c, f, other) && f.pk == e.pk && f.local == e.local && f.peer == e.peer && f.date == e.date
    ensures e.inited ==> CreateChannel(c, e, c.pub(other.pk), date) == e
    ensures !e.inited ==> !CreateChannel(c, e, c.pub(other.pk), date).ready
  {}

  lemma HonestLater(c: Crypto, s: System, r: System)
    requires s.a.pk == r.a.pk && s.b.pk == r.b.pk && (s.a.inited ==> r.a.inited) && (s.b.inited ==> r.b.inited)
    ensures forall p :: Honest(c, s, p) ==> Honest(c, r, p)
  {}

  lemma SendKeeps(c: Crypto, s: System, isA: bool)
    requires Agreement(c, s)
    ensures Agreement(c, Step(c, s, Send(isA)))
  {
    var r := Step(c, s, Send(isA));
    HonestLater(c, s, r);
  }

  /** What an end may become on an honest packet, seen from that end. */
  lemma IncomingKeeps(c: Crypto, e: End, other: End, isA: bool, p: Packet)
    requires OnPeer(c, e, other) && OnPeer(c, other, e)
    requires p.Channel? ==> other.inited
    requires !p.Channel? && p.fromA != isA ==> p.key == c.pub(other.pk)
    requires p.Confirm? && p.fromA != isA ==> other.inited
    ensures var f := Incoming(c, e, isA, p);
            && OnPeer(c, f, other) && f.pk == e.pk && f.local == e.local && f.peer == e.peer && (e.inited ==> f.inited)
            && (f.ready ==> e.ready || other.inited)
            && OnPeer(c, other, f)
  {
    match p
    case Create(fromA, key, date) =>
      if fromA != isA {
        CreateOnPeer(c, e, other, date);
      }
    case Confirm(fromA, key, peerKey, date) =>
      if fromA != isA {
        CreateOnPeer(c, e, other, date);
      }
    case Channel(id) => {}
  }

  lemma ReceiveKeeps(c: Crypto, s: System, isA: bool, p: Packet)
    requires Agreement(c, s) && p in s.net
    ensures Agreement(c, Step(c, s, Receive(isA, p)))
  {
    hide Incoming, OnPeer;
    assert Honest(c, s, p);
    var r := Step(c, s, Receive(isA, p));
    if isA {
      IncomingKeeps(c, s.a, s.b, true, p);
    } else {
      IncomingKeeps(c, s.b, s.a, false, p);
    }
    ReadyInited(c, r.a, r.b);
    ReadyInited(c, r.b, r.a);
    HonestLater(c, s, r);
  }

  lemma ReadyInited(c: Crypto, e: End, other: End)
    requires OnPeer(c, e, other)
    ensures e.ready ==> e.inited
  {}

  lemma {:induction false} RunAgrees(c: Crypto, start: System, events: seq<Event>)
    requires Agreement(c, start)
    ensures Agreement(c, Run(c, start, events))
  {
    hide Agreement, Step;
    if events != [] {
      var s, e := Run(c, start, events[..|events| - 1]), events[|events| - 1];
      RunAgrees(c, start, events[..|events| - 1]);
      match e
      case Send(isA) => SendKeeps(c, s, isA);
      case Receive(isA, p) =>
        if p in s.net {
          ReceiveKeeps(c, s, isA, p);
        } else {
          Unsent(c, s, isA, p);
        }
    }
  }

  lemma Unsent(c: Crypto, s: System, isA: bool, p: Packet)
    requires p !in s.net
    ensures Step(c, s, Receive(isA, p)) == s
  {}

  /**
    Channel agreement: in every run of two fresh peers, if one end is ready then both are set up on
    each other's keys, and each end's outgoing key and channel id are the other's incoming ones.  The end
    with the smaller id reads with the shared secret, the other one with its reversal.
  */
  lemma ChannelAgreement(c: Crypto, a: int, b: int, pkA: int, pkB: int, dateA: int, dateB: int, events: seq<Event>)
    requires Symmetric(c)
    ensures var s := Run(c, System(NewEnd(a, b, pkA, dateA), NewEnd(b, a, pkB, dateB), {}), events);
            s.a.ready || s.b.ready ==>
              && s.a.inited && s.b.inited
              && s.a.peerPub == Some(c.pub(s.b.pk)) && s.b.peerPub == Some(c.pub(s.a.pk))
              && s.a.keys.outKey == s.b.keys.inKey && s.a.keys.inKey == s.b.keys.outKey
              && OutId(c, s.a) == InId(c, s.b) && InId(c, s.a) == OutId(c, s.b)
              && var secret := c.shared(pkA, c.pub(pkB));
                 && secret.Some?
                 && (a <= b ==> s.a.keys.inKey == secret.value) && (b <= a ==> s.b.keys.inKey == secret.value)
                 && (a < b ==> s.a.keys.outKey == Reversed(secret.value)) && (b < a ==> s.b.keys.outKey == Reversed(secret.value))
  {
    var start := System(NewEnd(a, b, pkA, dateA), NewEnd(b, a, pkB, dateB), {});
    RunAgrees(c, start, events);
    KeysStay(c, start, events);
    IdsStay(c, start, events);
    hide Run;
    var s := Run(c, start, events);
    if s.a.ready || s.b.ready {
      assert c.shared(s.a.pk, c.pub(s.b.pk)) == c.shared(s.b.pk, c.pub(s.a.pk));
      DeriveMirror(c.shared(s.a.pk, c.pub(s.b.pk)).value, s.a.local, s.a.peer);
    }
  }

  // ----- getting there -----

  /** A key is taken unless the channel is set up and it is the same key or not newer. */
  lemma KeyTaken(c: Crypto, e: End, pub: int, date: int)
    ensures var f, keep := CreateChannel(c, e, pub, date), e.inited && (e.peerPub == Some(pub) || date <= e.peerDate);
            && (keep ==> f == e)
            && (!keep ==> f.peerPub == Some(pub) && f.peerDate == date && !f.ready && (f.inited <==> c.shared(e.pk, pub).Some?))
  {}

  lemma RunMore(c: Crypto, start: System, events: seq<Event>, e: Event, f: Event)
    ensures Run(c, start, events + [e, f]) == Step(c, Step(c, Run(c, start, events), e), f)
  {
    var all := events + [e, f];
    assert all[..|all| - 1] == events + [e];
    assert (events + [e])[..|events|] == events;
  }

  /** What one message of each kind achieves. */
  lemma Passed(c: Crypto, s: System, fromA: bool)
    requires Agreement(c, s) && Symmetric(c) && c.shared(s.a.pk, c.pub(s.b.pk)).Some?
    ensures var r := Step(c, Step(c, s, Send(fromA)), Receive(!fromA, Outgoing(c, if fromA then s.a else s.b, fromA)));
            && Agreement(c, r) && r.a.pk == s.a.pk && r.b.pk == s.b.pk
            && (if fromA then r.a == s.a && r.b.inited && (s.b.ready ==> r.b.ready) && (s.a.inited && s.b.inited ==> r.b.ready)
                else r.b == s.b && r.a.inited && (s.a.ready ==> r.a.ready) && (s.a.inited && s.b.inited ==> r.a.ready))
  {
    var p := Outgoing(c, if fromA then s.a else s.b, fromA);
    var q := Step(c, s, Send(fromA));
    SendKeeps(c, s, fromA);
    assert p in q.net;
    ReceiveKeeps(c, q, !fromA, p);
    DeriveMirror(c.shared(s.a.pk, c.pub(s.b.pk)).value, s.a.local, s.a.peer);
    hide Honest;
  }

  /** One more message that arrives. */
  lemma OneMessage(c: Crypto, start: System, events: seq<Event>, fromA: bool) returns (more: seq<Event>)
    requires var s := Run(c, start, events);
             Agreement(c, s) && Symmetric(c) && c.shared(s.a.pk, c.pub(s.b.pk)).Some?
    ensures |more| == |events| + 2 && events <= more
    ensures var s, r := Run(c, start, events), Run(c, start, more);
            && Agreement(c, r) && r.a.pk == s.a.pk && r.b.pk == s.b.pk
            && (if fromA then r.a == s.a && r.b.inited && (s.b.ready ==> r.b.ready) && (s.a.inited && s.b.inited ==> r.b.ready)
                else r.b == s.b && r.a.inited && (s.a.ready ==> r.a.ready) && (s.a.inited && s.b.inited ==> r.a.ready))
  {
    hide Agreement, Step, Outgoing;
    var s := Run(c, start, events);
    var p := Outgoing(c, if fromA then s.a else s.b, fromA);
    Passed(c, s, fromA);
    RunMore(c, start, events, Send(fromA), Receive(!fromA, p));
    more := events + [Send(fromA), Receive(!fromA, p)];
  }

  /**
    The handshake can always be finished: whatever was lost, repeated or reordered so far, four messages
    that arrive make both ends ready, provided the two keys agree on a secret.
  */
  lemma AlwaysFinishes(c: Crypto, a: int, b: int, pkA: int, pkB: int, dateA: int, dateB: int, events: seq<Event>)
    requires Symmetric(c) && c.shared(pkA, c.pub(pkB)).Some?
    ensures var start := System(NewEnd(a, b, pkA, dateA), NewEnd(b, a, pkB, dateB), {});
            exists more :: |more| == 8 && var s := Run(c, start, events + more); s.a.ready && s.b.ready
  {
    var start := System(NewEnd(a, b, pkA, dateA), NewEnd(b, a, pkB, dateB), {});
    RunAgrees(c, start, events);
    KeysStay(c, start, events);
    hide Run, Agreement;
    var e1 := OneMessage(c, start, events, true);
    var e2 := OneMessage(c, start, e1, false);
    var e3 := OneMessage(c, start, e2, true);
    var e4 := OneMessage(c, start, e3, false);
    assert events + e4[|events|..] == e4;
  }

  lemma {:induction false} IdsStay(c: Crypto, start: System, events: seq<Event>)
    ensures var s := Run(c, start, events);
            s.a.local == start.a.local && s.a.peer == start.a.peer && s.b.local == start.b.local && s.b.peer == start.b.peer
  {
    if events != [] {
      IdsStay(c, start, events[..|events| - 1]);
    }
  }

  lemma {:induction false} KeysStay(c: Crypto, start: System, events: seq<Event>)
    ensures var s := Run(c, start, events); s.a.pk == start.a.pk && s.b.pk == start.b.pk
  {
    if events != [] {
      KeysStay(c, start, events[..|events| - 1]);
    }
  }

  /**
    An end becomes ready only on a confirmation by the other end that names its own key and the key it has
    agreed on, or on a packet over the channel itself.
  */
  lemma BecomesReady(c: Crypto, e: End, isA: bool, p: Packet)
    requires !e.ready
    ensures var f := Incoming(c, e, isA, p);
            f.ready <==> match p
                         case Create(_, _, _) => false
                         case Confirm(fromA, key, peerKey, _) =>
                           fromA != isA && peerKey == c.pub(e.pk) && f.inited && f.peerPub == Some(key)
                         case Channel(id) => e.inited && id == InId(c, e)
  {}
}
