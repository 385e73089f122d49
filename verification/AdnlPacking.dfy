/** Packing messages into packets on a direct connection. */
module AdnlPacking {
  const NETWORK_MTU := 1440
  const PEER_MTU := 1152
  const PACKET_HEADER := 272
  const CHANNEL_HEADER := 128
  const ADDR_LIST := 128
  const CREATE_SIZE := 40
  const CONFIRM_SIZE := 72

  /** An outbound message; only its size matters here. */
  datatype Message = Message(id: int, size: nat)

  /** State of the channel while packing: no channel, one to be confirmed, or ready. */
  datatype Phase = Fresh | Inited | Ready

  /** A packet: whether it carries a handshake message, its messages, its size estimate and which address lists it may carry. */
  datatype Packet = Packet(control: bool, messages: seq<Message>, estimate: nat, addrList: bool, priorityList: bool)

  function HeaderSize(phase: Phase): nat {
    if phase == Ready then CHANNEL_HEADER else PACKET_HEADER
  }

  function ControlSize(phase: Phase): nat {
    match phase
    case Fresh => CREATE_SIZE
    case Inited => CONFIRM_SIZE
    case Ready => 0
  }

  function Total(ms: seq<Message>): nat {
    if ms == [] then 0 else Total(ms[..|ms| - 1]) + ms[|ms| - 1].size
  }

  function Contents(ps: seq<Packet>): seq<Message> {
    if ps == [] then [] else Contents(ps[..|ps| - 1]) + ps[|ps| - 1].messages
  }

  /** What a packet can weigh, address lists included; the first packet reserves room for both. */
  function Weight(phase: Phase, p: Packet): nat {
    HeaderSize(phase) + Total(p.messages) + (if p.control then ControlSize(phase) else 0) +
    (if p.addrList then ADDR_LIST else 0) + (if p.priorityList then ADDR_LIST else 0)
  }

  /** The packet fits, with everything it may carry. */
  ghost predicate Fits(phase: Phase, p: Packet) {
    p.estimate <= NETWORK_MTU && Weight(phase, p) <= NETWORK_MTU && (p.control ==> phase != Ready)
  }

  /** What the estimate counts before any message is put into a packet. */
  function Base(phase: Phase, first: bool): nat {
    HeaderSize(phase) + if first then 2 * ADDR_LIST + ControlSize(phase) else 0
  }

  /** The next message did not fit behind the messages of the packet. */
  ghost predicate Full(phase: Phase, first: bool, p: Packet, next: Message) {
    Base(phase, first) + Total(p.messages) + next.size > NETWORK_MTU
  }

  /**
    The estimate is exact; a packet carries a handshake message until the channel is ready, if it fits, and
    an address list for each 128 bytes that are left, the first packet having reserved room for both.
  */
  ghost predicate Equipped(phase: Phase, first: bool, p: Packet) {
    var s := Base(phase, first) + Total(p.messages);
    && (p.control <==> phase != Ready && (first || s + ControlSize(phase) <= NETWORK_MTU))
    && p.estimate == s + (if p.control && !first then ControlSize(phase) else 0)
    && (p.addrList <==> first || p.estimate + ADDR_LIST <= NETWORK_MTU)
    && (p.priorityList <==> first || p.estimate + 2 * ADDR_LIST <= NETWORK_MTU)
  }

  /** The inner loop: take messages from `start` while they fit next to `base` bytes. */
  method Fill(messages: seq<Message>, start: nat, base: nat) returns (end: nat, s: nat)
    requires start <= |messages| && base <= NETWORK_MTU && forall m :: m in messages ==> m.size <= PEER_MTU
    ensures start <= end <= |messages| && s == base + Total(messages[start..end]) <= NETWORK_MTU
    ensures end < |messages| ==> s + messages[end].size > NETWORK_MTU
  {
    end, s := start, base;
    assert messages[start..start] == [];
    while end < |messages|
      invariant start <= end <= |messages| && s == base + Total(messages[start..end]) <= NETWORK_MTU
    {
      if s + messages[end].size > NETWORK_MTU {
        break;
      }
      assert messages[start..end + 1][..end - start] == messages[start..end];
      s, end := s + messages[end].size, end + 1;
    }
  }

  /**
    `send_messages_in` on a direct connection.  The packets carry the input in order with nothing lost
    or repeated, there is at most one packet more than messages, each fits the network MTU with
    everything it may carry, no packet is closed while the next message fits, and every packet offers the
    handshake and the address lists that fit.
  */
  method Pack(messages: seq<Message>, phase: Phase) returns (packets: seq<Packet>)
    requires forall m :: m in messages ==> m.size <= PEER_MTU
    ensures Contents(packets) == messages
    ensures 1 <= |packets| <= |messages| + 1
    ensures forall i :: 0 <= i < |packets| ==> Fits(phase, packets[i])
    ensures forall i :: 0 <= i < |packets| ==> Equipped(phase, i == 0, packets[i])
    ensures forall i :: 1 <= i < |packets| ==>
              packets[i].messages != [] && Full(phase, i == 1, packets[i - 1], packets[i].messages[0])
  {
    hide Full, Equipped, Fits, Total;
    packets := [];
    var ptr := 0;
    var first := true;
    while first || ptr < |messages|
      invariant ptr <= |messages| && Contents(packets) == messages[..ptr]
      invariant first <==> packets == []
      invariant |packets| <= ptr + 1
      invariant forall i :: 0 <= i < |packets| ==> Fits(phase, packets[i])
      invariant forall i :: 0 <= i < |packets| ==> Equipped(phase, i == 0, packets[i])
      invariant forall i :: 1 <= i < |packets| ==>
                  packets[i].messages != [] && Full(phase, i == 1, packets[i - 1], packets[i].messages[0])
      invariant packets != [] && ptr < |messages| ==> Full(phase, |packets| == 1, packets[|packets| - 1], messages[ptr])
      decreases first, |messages| - ptr
    {
      var p, end := PackOne(messages, ptr, phase, first);
      assert messages[..end] == messages[..ptr] + messages[ptr..end];
      assert (packets + [p])[..|packets|] == packets;
      packets, ptr, first := packets + [p], end, false;
    }
    assert messages[..ptr] == messages;
  }

  method PackOne(messages: seq<Message>, ptr: nat, phase: Phase, first: bool) returns (p: Packet, end: nat)
    requires ptr <= |messages| && (first || ptr < |messages|) && forall m :: m in messages ==> m.size <= PEER_MTU
    ensures ptr <= end <= |messages| && p.messages == messages[ptr..end] && Fits(phase, p)
    ensures Equipped(phase, first, p) && (end < |messages| ==> Full(phase, first, p, messages[end]))
    ensures !first ==> end > ptr
  {
    var s := HeaderSize(phase);
    var control := false;
    if first {
      s := s + 2 * ADDR_LIST + ControlSize(phase);
      control := phase != Ready;
    }
    end, s := Fill(messages, ptr, s);
    if !first {
      if phase != Ready && s + ControlSize(phase) <= NETWORK_MTU {
        s := s + ControlSize(phase);
        control := true;
      }
    }
    p := Packet(control, messages[ptr..end], s, first || s + ADDR_LIST <= NETWORK_MTU,
                first || s + 2 * ADDR_LIST <= NETWORK_MTU);
  }
}
