/** The 64-packet sliding window against replays, as used by peers, masks and the proxy. */
module AdnlWindow {
  const WIDTH := 64
  const UINT64 := 0x1_0000_0000_0000_0000
  const INT64 := 0x8000_0000_0000_0000

  /** A 64-bit word, least significant bit first. */
  type Word = w: seq<bool> | |w| == WIDTH witness seq(WIDTH, _ => false)

  function Zero(): Word {
    seq(WIDTH, _ => false)
  }

  function ShiftLeft(w: Word, d: nat): (r: Word)
    requires d < WIDTH
    ensures forall i :: 0 <= i < WIDTH ==> r[i] == (i >= d && w[i - d])
  {
    seq(d, _ => false) + w[..WIDTH - d]
  }

  function SetBit(w: Word, i: nat): Word
    requires i < WIDTH
  {
    w[i := true]
  }

  /** The highest number seen and a bit for each of the last 64 numbers. */
  datatype Window = Window(max: nat, mask: Word)

  function EmptyWindow(): Window {
    Window(0, Zero())
  }

  predicate IsDelivered(w: Window, s: nat) {
    s + WIDTH <= w.max || (s <= w.max && w.mask[w.max - s])
  }

  function Deliver(w: Window, s: nat): Window
    requires !IsDelivered(w, s)
  {
    if s <= w.max then w.(mask := SetBit(w.mask, w.max - s))
    else if s - w.max >= WIDTH then Window(s, SetBit(Zero(), 0))
    else Window(s, SetBit(ShiftLeft(w.mask, s - w.max), 0))
  }

  // ----- refinement of a set -----

  /** The window represents the set of accepted numbers. */
  ghost predicate Represents(w: Window, accepted: set<nat>) {
    && (forall s :: s in accepted ==> 0 < s <= w.max)
    && (w.max > 0 ==> w.max in accepted)
    && (forall i {:trigger w.mask[i]} :: 0 <= i < WIDTH ==> (w.mask[i] <==> w.max - i in accepted))
  }

  /** A positive number is refused exactly when it was accepted before or is 64 or more behind the maximum. */
  lemma RefusedIff(w: Window, accepted: set<nat>, s: nat)
    requires Represents(w, accepted) && s > 0
    ensures IsDelivered(w, s) <==> s in accepted || s + WIDTH <= w.max
  {
    if s <= w.max < s + WIDTH {
      assert w.mask[w.max - s] <==> w.max - (w.max - s) in accepted;
    }
  }

  lemma DeliverRepresents(w: Window, accepted: set<nat>, s: nat)
    requires Represents(w, accepted) && s > 0 && !IsDelivered(w, s)
    ensures Represents(Deliver(w, s), accepted + {s})
  {
    var r := Deliver(w, s);
    forall i | 0 <= i < WIDTH ensures r.mask[i] <==> r.max - i in accepted + {s} {
      if s <= w.max {
        assert w.mask[i] <==> w.max - i in accepted;
      } else if i > 0 && s - w.max < WIDTH {
        var d := s - w.max;
        assert i >= d ==> (w.mask[i - d] <==> w.max - (i - d) in accepted);
      }
    }
  }

  lemma EmptyRepresents()
    ensures Represents(EmptyWindow(), {})
  {}

  // ----- `AdnlReceivedMask` -----

  class ReceivedMask {
    var seqno: nat
    var mask: Word
    ghost var accepted: set<nat>

    ghost predicate Valid()
      reads this
    {
      Represents(Window(seqno, mask), accepted)
    }

    constructor ()
      ensures Valid() && accepted == {}
    {
      seqno, mask, accepted := 0, Zero(), {};
    }

    method Reset()
      modifies this
      ensures Valid() && accepted == {} && seqno == 0
    {
      seqno, mask, accepted := 0, Zero(), {};
    }

    /** `packet_is_delivered`; the addition must not overflow a signed 64-bit number. */
    method PacketIsDelivered(s: int) returns (r: bool)
      requires Valid() && -INT64 <= s < INT64 - WIDTH
      ensures r <==> s > 0 && (s in accepted || s + WIDTH <= seqno)
    {
      if s <= 0 {
        return false;
      }
      RefusedIff(Window(seqno, mask), accepted, s);
      if s + WIDTH <= seqno {
        return true;
      }
      if s > seqno {
        return false;
      }
      return mask[seqno - s];
    }

    method DeliverPacket(s: int)
      requires Valid() && 0 < s < INT64 - WIDTH && s !in accepted && s + WIDTH > seqno
      modifies this
      ensures Valid() && accepted == old(accepted) + {s as nat}
      ensures seqno == if s > old(seqno) then s else old(seqno)
    {
      RefusedIff(Window(seqno, mask), accepted, s);
      DeliverRepresents(Window(seqno, mask), accepted, s);
      if s <= seqno {
        mask := SetBit(mask, seqno - s);
      } else {
        var before := seqno;
        seqno := s;
        if seqno - before >= WIDTH {
          mask := SetBit(Zero(), 0);
        } else {
          mask := SetBit(ShiftLeft(mask, seqno - before), 0);
        }
      }
      accepted := accepted + {s};
    }
  }

  // ----- `AdnlReceivedMaskVersion` and the proxy -----

  /** A packet of a client run: its start time and its number in that run. */
  datatype Stamp = Stamp(utime: int, seqno: nat)

  datatype Versioned = Versioned(utime: int, window: Window)

  function First(): Versioned {
    Versioned(0, EmptyWindow())
  }

  /** A 64-bit number as the signed argument of the mask. */
  function AsInt64(s: nat): int
    requires s < UINT64
  {
    if s < INT64 then s else s - UINT64
  }

  /** Numbers for which the mask's signed addition does not overflow. */
  predicate Defined(p: Stamp) {
    p.seqno < UINT64 && AsInt64(p.seqno) < INT64 - WIDTH
  }

  /** `packet_is_delivered` of start time and number. */
  predicate IsOld(v: Versioned, p: Stamp)
    requires Defined(p)
  {
    p.utime < v.utime || (p.utime == v.utime && AsInt64(p.seqno) > 0 && IsDelivered(v.window, p.seqno))
  }

  function Enter(v: Versioned, p: Stamp): Versioned
    requires Defined(p) && !IsOld(v, p) && AsInt64(p.seqno) > 0
  {
    if p.utime == v.utime then v.(window := Deliver(v.window, p.seqno))
    else Versioned(p.utime, Deliver(EmptyWindow(), p.seqno))
  }

  /** `out` lists what was accepted; a failed CHECK ends the program. */
  datatype Proxy = Proxy(v: Versioned, out: seq<Stamp>, alive: bool)

  /** `receive_from_client`: check, then deliver; `deliver_packet` CHECKs that the number is positive. */
  function PassOne(r: Proxy, p: Stamp): Proxy
    requires Defined(p)
  {
    if !r.alive || IsOld(r.v, p) then r
    else if AsInt64(p.seqno) <= 0 then r.(alive := false)
    else Proxy(Enter(r.v, p), r.out + [p], true)
  }

  function Pass(ps: seq<Stamp>): Proxy
    requires forall p :: p in ps ==> Defined(p)
  {
    if ps == [] then Proxy(First(), [], true)
    else
      assert ps[|ps| - 1] in ps;
      PassOne(Pass(ps[..|ps| - 1]), ps[|ps| - 1])
  }

  /** The numbers accepted under start time `t`. */
  ghost function Under(out: seq<Stamp>, t: int): set<nat> {
    set p | p in out && p.utime == t :: p.seqno
  }

  /** Accepted packets are distinct, start times never go back, and the window stands for the current one. */
  ghost predicate Passed(v: Versioned, out: seq<Stamp>) {
    && (forall i, j :: 0 <= i < j < |out| ==> out[i] != out[j] && out[i].utime <= out[j].utime)
    && (forall p :: p in out ==> p.utime <= v.utime)
    && Represents(v.window, Under(out, v.utime))
  }

  lemma UnderSnoc(out: seq<Stamp>, p: Stamp, t: int)
    ensures Under(out + [p], t) == Under(out, t) + if p.utime == t then {p.seqno} else {}
  {
    var out' := out + [p];
    forall s ensures s in Under(out', t) <==> s in Under(out, t) || (p.utime == t && s == p.seqno) {
      if s in Under(out, t) {
        var q :| q in out && q.utime == t && q.seqno == s;
        assert q in out';
      }
      if p.utime == t && s == p.seqno {
        assert p in out';
      }
    }
  }

  lemma EnterPassed(v: Versioned, out: seq<Stamp>, p: Stamp)
    requires Passed(v, out) && Defined(p) && AsInt64(p.seqno) > 0 && !IsOld(v, p)
    ensures Passed(Enter(v, p), out + [p])
  {
    hide IsDelivered, Represents;
    UnderSnoc(out, p, p.utime);
    NothingDelivered(p.seqno);
    if p.utime == v.utime {
      RefusedIff(v.window, Under(out, v.utime), p.seqno);
      DeliverRepresents(v.window, Under(out, v.utime), p.seqno);
      assert p in out ==> p.seqno in Under(out, v.utime);
    } else {
      assert Under(out, p.utime) == {};
      EmptyRepresents();
      DeliverRepresents(EmptyWindow(), {}, p.seqno);
    }
  }

  lemma NothingDelivered(s: nat)
    requires s > 0
    ensures !IsDelivered(EmptyWindow(), s)
  {}

  lemma {:induction false} PassKeeps(ps: seq<Stamp>)
    requires forall p :: p in ps ==> Defined(p)
    ensures Passed(Pass(ps).v, Pass(ps).out)
  {
    hide IsDelivered, Represents;
    if ps == [] {
      assert Under([], 0) == {};
      EmptyRepresents();
    } else {
      PassKeeps(ps[..|ps| - 1]);
      var r, p := Pass(ps[..|ps| - 1]), ps[|ps| - 1];
      assert p in ps;
      hide Passed;
      if r.alive && !IsOld(r.v, p) && AsInt64(p.seqno) > 0 {
        EnterPassed(r.v, r.out, p);
      }
    }
  }

  /**
    The proxy never accepts a (start time, number) pair twice nor an older start time after a newer one.
    It refuses a packet exactly when its start time is old, or its number is positive and was accepted
    before under the current start time or is 64 or more behind; of the others it passes on those with a
    positive number.
  */
  lemma ProxyAcceptsOnce(ps: seq<Stamp>, p: Stamp)
    requires (forall q :: q in ps ==> Defined(q)) && Defined(p)
    ensures var r := Pass(ps);
            && (forall i, j :: 0 <= i < j < |r.out| ==> r.out[i] != r.out[j] && r.out[i].utime <= r.out[j].utime)
            && (IsOld(r.v, p) <==>
                  p.utime < r.v.utime ||
                  (p.utime == r.v.utime && AsInt64(p.seqno) > 0 && (p in r.out || p.seqno + WIDTH <= r.v.window.max)))
            && PassOne(r, p).out == r.out + if r.alive && !IsOld(r.v, p) && 0 < p.seqno < INT64 then [p] else []
  {
    PassKeeps(ps);
    hide IsDelivered, Represents, Pass;
    var r := Pass(ps);
    if AsInt64(p.seqno) > 0 {
      RefusedIff(r.v.window, Under(r.out, r.v.utime), p.seqno);
    }
    if p.utime == r.v.utime && p.seqno in Under(r.out, r.v.utime) {
      var q :| q in r.out && q.utime == r.v.utime && q.seqno == p.seqno;
      assert q == p;
    }
  }

  /** The CHECK on the number fails exactly for 0 and for numbers from 2^63 up, unless the start time is old. */
  lemma ProxyAbortsIff(r: Proxy, p: Stamp)
    requires r.alive && Defined(p)
    ensures !PassOne(r, p).alive <==> p.utime >= r.v.utime && (p.seqno == 0 || p.seqno >= INT64)
  {}

  // ----- the peer's window -----

  /** A packet's reinit dates, number and acknowledgement. */
  datatype Header = Header(dstReinit: int, reinit: int, seqno: nat, confirm: nat)

  /** `resets` counts the reinit resets and `accepted` lists the numbered packets accepted, with that count. */
  datatype Peer = Peer(reinitDate: int, window: Window, outSeqno: nat, ackSeqno: nat,
                       resets: nat, accepted: seq<(nat, nat)>)

  /** `received_packet`; the addition wraps at 64 bits. */
  predicate ReceivedPacket(w: Window, s: nat): (r: bool)
    requires 0 < s < UINT64
    ensures !r ==> !IsDelivered(w, s)
  {
    if (s + WIDTH) % UINT64 <= w.max then true
    else if s > w.max then false
    else w.max - s < WIDTH && w.mask[w.max - s]
  }

  /** `reinit`; the first date is only noted. */
  function Reinit(p: Peer, date: int): Peer {
    if p.reinitDate == 0 then p.(reinitDate := date)
    else if p.reinitDate < date then p.(reinitDate := date, window := EmptyWindow(), outSeqno := 0, ackSeqno := 0, resets := p.resets + 1)
    else p
  }

  /** `receive_packet_checked` up to delivery, for a peer started at `start`, at time `now`. */
  function ReceiveChecked(p: Peer, h: Header, start: int, now: int): Peer
    requires h.seqno < UINT64
  {
    if h.dstReinit > start || h.reinit > now + 60 then p
    else Screen(if h.reinit > p.reinitDate then Reinit(p, h.reinit) else p, h, start)
  }

  /** The checks after a possible reinit, and what acceptance records. */
  function Screen(q: Peer, h: Header, start: int): Peer
    requires h.seqno < UINT64
  {
    if h.reinit > 0 && h.reinit < q.reinitDate then q
    else if h.dstReinit > 0 && h.dstReinit < start then q
    else if h.seqno > 0 && ReceivedPacket(q.window, h.seqno) then q
    else if h.confirm > 0 && h.confirm > q.outSeqno then q
    else if h.seqno == 0 then q.(ackSeqno := Newer(h.confirm, q.ackSeqno))
    else q.(ackSeqno := Newer(h.confirm, q.ackSeqno), window := Deliver(q.window, h.seqno),
            accepted := q.accepted + [(q.resets, h.seqno)])
  }

  function Newer(a: nat, b: nat): nat {
    if a > b then a else b
  }

  /**
    Where the wrap-around matters: below the last 64 numbers the peer's test is the window's test; at
    the top it refuses every number whose wrapped successor is not above the maximum.
  */
  lemma PeerRefusesIff(w: Window, accepted: set<nat>, s: nat)
    requires Represents(w, accepted) && 0 < s < UINT64 && w.max < UINT64
    ensures s < UINT64 - WIDTH ==> (ReceivedPacket(w, s) <==> s in accepted || s + WIDTH <= w.max)
    ensures s >= UINT64 - WIDTH ==> (ReceivedPacket(w, s) <==> s - (UINT64 - WIDTH) <= w.max)
    ensures (ReceivedPacket(w, s) <==> s in accepted || s + WIDTH <= w.max) <==>
              (s < UINT64 - WIDTH || s in accepted || s - (UINT64 - WIDTH) > w.max)
  {
    hide Represents;
    RefusedIff(w, accepted, s);
    Below(w, accepted, s);
    if s < UINT64 - WIDTH {
      assert (s + WIDTH) % UINT64 == s + WIDTH;
    } else {
      assert (s + WIDTH) % UINT64 == s + WIDTH - UINT64;
    }
  }

  lemma Below(w: Window, accepted: set<nat>, s: nat)
    requires Represents(w, accepted)
    ensures s in accepted ==> s <= w.max
  {}

  ghost function In(accepted: seq<(nat, nat)>, epoch: nat): set<nat> {
    set a | a in accepted && a.0 == epoch :: a.1
  }

  /** Accepted numbers are distinct within an epoch, the window stands for the current one, and acknowledgements are for packets sent. */
  ghost predicate PeerInv(p: Peer) {
    && (forall i, j :: 0 <= i < j < |p.accepted| ==> p.accepted[i] != p.accepted[j])
    && (forall a :: a in p.accepted ==> a.0 <= p.resets)
    && Represents(p.window, In(p.accepted, p.resets)) && p.window.max < UINT64
    && p.ackSeqno <= p.outSeqno
  }

  lemma InSnoc(out: seq<(nat, nat)>, a: (nat, nat), e: nat)
    ensures In(out + [a], e) == In(out, e) + if a.0 == e then {a.1} else {}
  {
    var out' := out + [a];
    forall s ensures s in In(out', e) <==> s in In(out, e) || (a.0 == e && s == a.1) {
      if s in In(out, e) {
        var q :| q in out && q.0 == e && q.1 == s;
        assert q in out';
      }
      if a.0 == e && s == a.1 {
        assert a in out';
      }
    }
  }

  lemma ReinitKeeps(p: Peer, date: int)
    requires PeerInv(p)
    ensures PeerInv(Reinit(p, date))
  {
    hide Represents;
    if p.reinitDate != 0 && p.reinitDate < date {
      assert In(p.accepted, p.resets + 1) == {};
      EmptyRepresents();
    }
  }

  lemma ReceiveKeeps(p: Peer, h: Header, start: int, now: int)
    requires PeerInv(p) && h.seqno < UINT64
    ensures PeerInv(ReceiveChecked(p, h, start, now))
  {
    hide Represents, ReceivedPacket, Deliver;
    ReinitKeeps(p, h.reinit);
    var q := if h.reinit > p.reinitDate then Reinit(p, h.reinit) else p;
    if h.seqno > 0 && !ReceivedPacket(q.window, h.seqno) {
      RefusedIff(q.window, In(q.accepted, q.resets), h.seqno);
      DeliverRepresents(q.window, In(q.accepted, q.resets), h.seqno);
      DeliverMax(q.window, h.seqno);
      InSnoc(q.accepted, (q.resets, h.seqno), q.resets);
      assert (q.resets, h.seqno) in q.accepted ==> h.seqno in In(q.accepted, q.resets);
    }
  }

  lemma DeliverMax(w: Window, s: nat)
    requires !IsDelivered(w, s)
    ensures Deliver(w, s).max == if s > w.max then s else w.max
  {}

  /**
    What happens to a peer: a packet arrives, a packet is sent, or a reinit date comes in by a message or
    by an address list.
  */
  datatype PeerEvent = Arrive(h: Header, start: int, now: int) | Sent | Reset(date: int)

  function PeerStep(p: Peer, e: PeerEvent): Peer
    requires e.Arrive? ==> e.h.seqno < UINT64
  {
    match e
    case Arrive(h, start, now) => ReceiveChecked(p, h, start, now)
    case Sent => p.(outSeqno := p.outSeqno + 1)
    case Reset(date) => Reinit(p, date)
  }

  function PeerRun(events: seq<PeerEvent>): Peer
    requires forall e :: e in events && e.Arrive? ==> e.h.seqno < UINT64
  {
    if events == [] then Peer(0, EmptyWindow(), 0, 0, 0, [])
    else
      assert events[|events| - 1] in events;
      PeerStep(PeerRun(events[..|events| - 1]), events[|events| - 1])
  }

  lemma {:induction false} PeerRunKeeps(events: seq<PeerEvent>)
    requires forall e :: e in events && e.Arrive? ==> e.h.seqno < UINT64
    ensures PeerInv(PeerRun(events))
  {
    hide Represents, ReceiveChecked, Reinit;
    if events == [] {
      assert In([], 0) == {};
      EmptyRepresents();
    } else {
      var p, e := PeerRun(events[..|events| - 1]), events[|events| - 1];
      assert e in events;
      PeerRunKeeps(events[..|events| - 1]);
      match e
      case Arrive(h, start, now) => ReceiveKeeps(p, h, start, now);
      case Sent => {}
      case Reset(date) => ReinitKeeps(p, date);
    }
  }

  /**
    Over any traffic in both directions and any reinit dates: no number is accepted twice between reinit
    resets; below the last 64 numbers a packet is refused for its number exactly when it was accepted in
    this epoch or is 64 or more behind; and no acknowledgement runs ahead of what was sent.
  */
  lemma PeerAcceptsOnce(events: seq<PeerEvent>)
    requires forall e :: e in events && e.Arrive? ==> e.h.seqno < UINT64
    ensures var p := PeerRun(events);
            && (forall i, j :: 0 <= i < j < |p.accepted| ==> p.accepted[i] != p.accepted[j])
            && (forall s :: 0 < s < UINT64 - WIDTH ==>
                  (ReceivedPacket(p.window, s) <==> (p.resets, s) in p.accepted || s + WIDTH <= p.window.max))
            && p.ackSeqno <= p.outSeqno
  {
    PeerRunKeeps(events);
    hide Represents, PeerRun, ReceivedPacket;
    var p := PeerRun(events);
    forall s | 0 < s < UINT64 - WIDTH
      ensures ReceivedPacket(p.window, s) <==> (p.resets, s) in p.accepted || s + WIDTH <= p.window.max
    {
      PeerRefusesIff(p.window, In(p.accepted, p.resets), s);
      if s in In(p.accepted, p.resets) {
        var a :| a in p.accepted && a.0 == p.resets && a.1 == s;
        assert a == (p.resets, s);
      }
    }
  }

  /** Number `s` was accepted before, is 64 or more behind, or is at the top where the test wraps around. */
  ghost predicate Spent(accepted: seq<(nat, nat)>, epoch: nat, max: nat, s: nat) {
    if s < UINT64 - WIDTH then (epoch, s) in accepted || s + WIDTH <= max else s + WIDTH - UINT64 <= max
  }

  /** A newer reinit date of the sender begins a new epoch: numbers start over on both sides. */
  ghost predicate Restarts(p: Peer, h: Header) {
    p.reinitDate != 0 && h.reinit > p.reinitDate
  }

  /** The dates are possible ones, neither end has restarted since, the number is not spent and what is acknowledged was sent. */
  ghost predicate Welcome(p: Peer, h: Header, start: int, now: int) {
    && h.dstReinit <= start && h.reinit <= now + 60
    && (h.reinit > 0 ==> h.reinit >= p.reinitDate) && (h.dstReinit > 0 ==> h.dstReinit == start)
    && (h.seqno > 0 ==> if Restarts(p, h) then h.seqno < UINT64 - WIDTH || h.seqno > UINT64 - WIDTH
                        else !Spent(p.accepted, p.resets, p.window.max, h.seqno))
    && h.confirm <= if Restarts(p, h) then 0 else p.outSeqno
  }

  /**
    What one packet does to a peer.  A welcome one is recorded under the current epoch and its
    acknowledgement counts; any other changes at most the epoch, which is new exactly when the packet is
    from a restarted sender and neither from the future nor for a later start of ours.
  */
  lemma ArrivalIff(p: Peer, h: Header, start: int, now: int)
    requires PeerInv(p) && h.seqno < UINT64 && p.reinitDate >= 0
    ensures var q, restarts := ReceiveChecked(p, h, start, now), Restarts(p, h) && h.dstReinit <= start && h.reinit <= now + 60;
            && q.resets == p.resets + (if restarts then 1 else 0)
            && q.accepted == p.accepted + (if Welcome(p, h, start, now) && h.seqno > 0 then [(q.resets, h.seqno)] else [])
            && q.outSeqno == (if restarts then 0 else p.outSeqno)
            && q.ackSeqno == Newer(if Welcome(p, h, start, now) then h.confirm else 0, if restarts then 0 else p.ackSeqno)
            && q.reinitDate == if h.dstReinit <= start && h.reinit <= now + 60 && h.reinit > p.reinitDate then h.reinit else p.reinitDate
  {
    hide Represents, ReceivedPacket, Deliver;
    if h.dstReinit <= start && h.reinit <= now + 60 {
      var q := if h.reinit > p.reinitDate then Reinit(p, h.reinit) else p;
      ReinitKeeps(p, h.reinit);
      assert Restarts(p, h) ==> In(p.accepted, p.resets + 1) == {};
      if h.seqno > 0 {
        PeerRefusesIff(q.window, In(q.accepted, q.resets), h.seqno);
        InMeans(q.accepted, q.resets, h.seqno);
      }
    }
  }

  lemma InMeans(accepted: seq<(nat, nat)>, epoch: nat, s: nat)
    ensures s in In(accepted, epoch) <==> (epoch, s) in accepted
  {
    if s in In(accepted, epoch) {
      var a :| a in accepted && a.0 == epoch && a.1 == s;
      assert a == (epoch, s);
    }
    if (epoch, s) in accepted {
      var a := (epoch, s);
      assert a in accepted && a.0 == epoch && a.1 == s;
    }
  }
}
