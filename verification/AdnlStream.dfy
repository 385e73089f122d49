/**
  The length-prefixed encrypted stream of an external ADNL connection.  AES in counter mode is XOR with a
  keystream (section 6.5 of NIST SP 800-38A); a cipher state is a position in that stream.
*/
module AdnlStream {
  import opened Options

  // ----- bytes -----

  /** Bits, least significant first. */
  datatype Byte = Byte(b0: bool, b1: bool, b2: bool, b3: bool, b4: bool, b5: bool, b6: bool, b7: bool)

  type Bytes = seq<Byte>

  function Xor(x: Byte, y: Byte): Byte {
    Byte(x.b0 != y.b0, x.b1 != y.b1, x.b2 != y.b2, x.b3 != y.b3, x.b4 != y.b4, x.b5 != y.b5, x.b6 != y.b6, x.b7 != y.b7)
  }

  function Bit(b: bool): nat {
    if b then 1 else 0
  }

  function Nibble(b0: bool, b1: bool, b2: bool, b3: bool): nat {
    Bit(b0) + 2 * Bit(b1) + 4 * Bit(b2) + 8 * Bit(b3)
  }

  function ToNat(x: Byte): nat {
    Nibble(x.b0, x.b1, x.b2, x.b3) + 16 * Nibble(x.b4, x.b5, x.b6, x.b7)
  }

  function Odd(n: nat): bool {
    n % 2 == 1
  }

  function FromNat(n: nat): Byte {
    var l, h := n % 16, n / 16;
    Byte(Odd(l), Odd(l / 2), Odd(l / 4), Odd(l / 8), Odd(h), Odd(h / 2), Odd(h / 4), Odd(h / 8))
  }

  lemma NibbleRoundTrip(n: nat)
    requires n < 16
    ensures Nibble(Odd(n), Odd(n / 2), Odd(n / 4), Odd(n / 8)) == n
  {}

  lemma ByteRoundTrip(n: nat)
    requires n < 256
    ensures ToNat(FromNat(n)) == n
  {
    hide Odd, Nibble;
    NibbleRoundTrip(n % 16);
    NibbleRoundTrip(n / 16);
  }

  const WRAP := 0x1_0000_0000
  const MAX_PACKET := 0x100_0000

  /** A 32-bit number, least significant byte first. */
  function Le32(n: nat): (r: Bytes)
    requires n < WRAP
    ensures |r| == 4
  {
    [FromNat(n % 256), FromNat(n / 256 % 256), FromNat(n / 256 / 256 % 256), FromNat(n / 256 / 256 / 256)]
  }

  function FromLe32(s: Bytes): nat
    requires |s| == 4
  {
    ToNat(s[0]) + 256 * (ToNat(s[1]) + 256 * (ToNat(s[2]) + 256 * ToNat(s[3])))
  }

  lemma Le32RoundTrip(n: nat)
    requires n < WRAP
    ensures FromLe32(Le32(n)) == n
  {
    hide ToNat, FromNat;
    var n1 := n / 256;
    var n2 := n1 / 256;
    var n3 := n2 / 256;
    assert n == n % 256 + 256 * n1 && n1 == n1 % 256 + 256 * n2 && n2 == n2 % 256 + 256 * n3;
    assert n1 < 0x100_0000 && n2 < 0x1_0000 && n3 < 256;
    ByteRoundTrip(n % 256);
    ByteRoundTrip(n1 % 256);
    ByteRoundTrip(n2 % 256);
    ByteRoundTrip(n3);
  }

  // ----- the cipher -----

  type Keystream = nat -> Byte

  function Crypt(ks: Keystream, pos: nat, data: Bytes): (r: Bytes)
    ensures |r| == |data|
  {
    seq(|data|, i requires 0 <= i < |data| => Xor(data[i], ks(pos + i)))
  }

  /** Encryption undoes itself at the same position. */
  lemma CryptTwice(ks: Keystream, pos: nat, data: Bytes)
    ensures Crypt(ks, pos, Crypt(ks, pos, data)) == data
  {}

  lemma CryptConcat(ks: Keystream, pos: nat, a: Bytes, b: Bytes)
    ensures Crypt(ks, pos, a + b) == Crypt(ks, pos, a) + Crypt(ks, pos + |a|, b)
  {}

  /** A byte of the result tells exactly which byte the keystream had there. */
  lemma KeystreamMatters(ks: Keystream, other: Keystream, pos: nat, data: Bytes, i: nat)
    requires i < |data|
    ensures Crypt(ks, pos, data)[i] == Crypt(other, pos, data)[i] <==> ks(pos + i) == other(pos + i)
  {}

  // ----- sending -----

  type Block = s: Bytes | |s| == 32 witness seq(32, _ => FromNat(0))

  /** The keystream of one direction and the hash function. */
  datatype Link = Link(ks: Keystream, sha: Bytes -> Block)

  datatype Packet = Packet(nonce: Block, data: Bytes)

  /** What follows the length on the wire. */
  function Payload(link: Link, p: Packet): (r: Bytes)
    ensures |r| == |p.data| + 64
  {
    p.nonce + p.data + link.sha(p.nonce + p.data)
  }

  /** The 32-bit size computed by `send`; it wraps for data sizes from 2^32 - 64 on. */
  function WireSize(p: Packet): nat {
    (|p.data| + 64) % WRAP
  }

  predicate IsSent(p: Packet) {
    32 <= WireSize(p) <= MAX_PACKET
  }

  /** The plain frame of a packet, nothing if `send` drops it. */
  function Frame(link: Link, p: Packet): Bytes {
    if IsSent(p) then Le32(WireSize(p)) + Payload(link, p) else []
  }

  /** The sizes for which the length on the wire is right: all but the 32 largest 32-bit ones. */
  predicate WellSized(p: Packet) {
    |p.data| < WRAP - 32
  }

  lemma FrameSize(link: Link, p: Packet)
    requires |p.data| < WRAP && IsSent(p)
    ensures WireSize(p) == |Frame(link, p)| - 4 <==> WellSized(p)
  {
    hide Le32, Payload;
    var size := |p.data| + 64;
    assert |Frame(link, p)| == size + 4;
    if size < WRAP {
      assert WireSize(p) == size;
    } else {
      assert WireSize(p) == size - WRAP;
    }
  }

  function Frames(link: Link, ps: seq<Packet>): Bytes {
    if ps == [] then [] else Frames(link, ps[..|ps| - 1]) + Frame(link, ps[|ps| - 1])
  }

  /** The bytes `send` puts on the wire, call after call, with a running cipher position. */
  function SendAll(link: Link, ps: seq<Packet>): Bytes {
    if ps == [] then []
    else
      var sent := SendAll(link, ps[..|ps| - 1]);
      sent + Crypt(link.ks, |sent|, Frame(link, ps[|ps| - 1]))
  }

  lemma {:induction false} SendAllIs(link: Link, ps: seq<Packet>)
    ensures SendAll(link, ps) == Crypt(link.ks, 0, Frames(link, ps))
  {
    if ps != [] {
      SendAllIs(link, ps[..|ps| - 1]);
      CryptConcat(link.ks, 0, Frames(link, ps[..|ps| - 1]), Frame(link, ps[|ps| - 1]));
    }
  }

  // ----- receiving -----

  /**
    `len` is set once the length of the next packet is read (`read_len_`); `out` is what was accepted.
    A failed connection is closed; an aborted one took the program down with a CHECK.
  */
  datatype Rx = Open(pos: nat, buf: Bytes, len: Option<nat>, out: seq<Bytes>)
              | Failed(out: seq<Bytes>) | Aborted(out: seq<Bytes>)

  const START := Open(0, [], None, [])

  /** The last 32 bytes are the hash of the others. */
  predicate RightDigest(link: Link, data: Bytes)
    requires |data| >= 32
  {
    link.sha(data[..|data| - 32]) == data[|data| - 32..]
  }

  /** `receive_packet`: without 32 bytes before the hash, dropping the nonce is a failed CHECK. */
  function ReceivePacket(link: Link, rx: Rx, data: Bytes): Rx
    requires rx.Open? && |data| >= 32
  {
    var body := data[..|data| - 32];
    if !RightDigest(link, data) then Failed(rx.out)
    else if |body| < 32 then Aborted(rx.out)
    else if |body| == 32 then rx
    else rx.(out := rx.out + [body[32..]])
  }

  function ReadLength(link: Link, rx: Rx): (r: Rx)
    requires rx.Open? && rx.len.None? && |rx.buf| >= 4
    ensures r.Open? ==> r.len.Some? && 32 <= r.len.value && r.buf == rx.buf[4..]
  {
    var n := FromLe32(Crypt(link.ks, rx.pos, rx.buf[..4]));
    if n > MAX_PACKET || n < 32 then Failed(rx.out) else rx.(pos := rx.pos + 4, buf := rx.buf[4..], len := Some(n))
  }

  function ReadBody(link: Link, rx: Rx): (r: Rx)
    requires rx.Open? && rx.len.Some? && 32 <= rx.len.value <= |rx.buf|
    ensures r.Open? ==> r.len.None? && r.buf == rx.buf[rx.len.value..]
  {
    var n := rx.len.value;
    ReceivePacket(link, rx.(pos := rx.pos + n, buf := rx.buf[n..], len := None), Crypt(link.ks, rx.pos, rx.buf[..n]))
  }

  /** Exactly the packets of 32 to 63 bytes with a right hash abort, exactly those with a wrong hash fail. */
  lemma AbortsIff(link: Link, rx: Rx)
    requires rx.Open? && rx.len.Some? && 32 <= rx.len.value <= |rx.buf|
    ensures var data := Crypt(link.ks, rx.pos, rx.buf[..rx.len.value]);
            var right := link.sha(data[..|data| - 32]) == data[|data| - 32..];
            && (ReadBody(link, rx).Aborted? <==> rx.len.value < 64 && right)
            && (ReadBody(link, rx).Failed? <==> !right)
  {
    hide Crypt;
  }

  predicate Sane(rx: Rx) {
    rx.Open? && rx.len.Some? ==> rx.len.value >= 32
  }

  /** One call of `receive`, with its `exit_loop`. */
  function Receive(link: Link, rx: Rx): (r: (Rx, bool))
    requires rx.Open? && Sane(rx)
    ensures Sane(r.0) && (!r.1 && r.0.Open? ==> |r.0.buf| < |rx.buf|)
  {
    if rx.len.None? && |rx.buf| < 4 then (rx, true)
    else
      var r := if rx.len.None? then ReadLength(link, rx) else rx;
      if !r.Open? then (r, false)
      else if |r.buf| < r.len.value then (r, true)
      else (ReadBody(link, r), false)
  }

  /** The receive loop; it terminates because every round that does not exit consumes a packet. */
  function Drain(link: Link, rx: Rx): (r: Rx)
    requires Sane(rx)
    ensures Sane(r)
    decreases if rx.Open? then |rx.buf| + 1 else 0
  {
    if !rx.Open? then rx
    else
      var (r, exit) := Receive(link, rx);
      if exit then r else Drain(link, r)
  }

  function Feed(link: Link, rx: Rx, chunk: Bytes): (r: Rx)
    requires Sane(rx)
    ensures Sane(r)
  {
    if !rx.Open? then rx else Drain(link, rx.(buf := rx.buf + chunk))
  }

  function FeedAll(link: Link, rx: Rx, chunks: seq<Bytes>): Rx
    requires Sane(rx)
    decreases |chunks|
  {
    if chunks == [] then rx else FeedAll(link, Feed(link, rx, chunks[0]), chunks[1..])
  }

  // ----- chunk boundaries do not matter -----

  lemma ReceiveMore(link: Link, rx: Rx, more: Bytes)
    requires rx.Open? && Sane(rx) && !Receive(link, rx).1
    ensures var (r, _) := Receive(link, rx);
            Receive(link, rx.(buf := rx.buf + more)) == (if !r.Open? then r else r.(buf := r.buf + more), false)
  {
    hide ReadLength, ReadBody;
    var q := if rx.len.None? then ReadLength(link, rx) else rx;
    if rx.len.None? {
      LengthMore(link, rx, more);
    }
    if q.Open? {
      BodyMore(link, q, more);
    }
  }

  lemma LengthMore(link: Link, rx: Rx, more: Bytes)
    requires rx.Open? && rx.len.None? && |rx.buf| >= 4
    ensures var r := ReadLength(link, rx);
            ReadLength(link, rx.(buf := rx.buf + more)) == if !r.Open? then r else r.(buf := r.buf + more)
  {
    hide Crypt, FromLe32;
    var rx' := rx.(buf := rx.buf + more);
    assert rx'.buf[..4] == rx.buf[..4] && rx'.buf[4..] == rx.buf[4..] + more;
  }

  lemma BodyMore(link: Link, rx: Rx, more: Bytes)
    requires rx.Open? && rx.len.Some? && 32 <= rx.len.value <= |rx.buf|
    ensures var r := ReadBody(link, rx);
            ReadBody(link, rx.(buf := rx.buf + more)) == if !r.Open? then r else r.(buf := r.buf + more)
  {
    hide Crypt, RightDigest;
    var n := rx.len.value;
    assert (rx.buf + more)[..n] == rx.buf[..n] && (rx.buf + more)[n..] == rx.buf[n..] + more;
  }

  lemma ReceiveWaits(link: Link, rx: Rx, more: Bytes)
    requires rx.Open? && Sane(rx) && Receive(link, rx).1
    ensures var (r, _) := Receive(link, rx);
            r.Open? && Receive(link, rx.(buf := rx.buf + more)) == Receive(link, r.(buf := r.buf + more))
    ensures |Receive(link, rx).0.buf| <= |rx.buf|
  {
    hide Crypt, FromLe32, ReadBody;
    if rx.len.None? && |rx.buf| >= 4 {
      var rx' := rx.(buf := rx.buf + more);
      assert rx'.buf[..4] == rx.buf[..4] && rx'.buf[4..] == rx.buf[4..] + more;
    }
  }

  lemma {:induction false} DrainMore(link: Link, rx: Rx, more: Bytes)
    requires rx.Open? && Sane(rx)
    ensures Drain(link, rx.(buf := rx.buf + more)) == Feed(link, Drain(link, rx), more)
    decreases |rx.buf|
  {
    hide Receive;
    var (r, exit) := Receive(link, rx);
    if exit {
      ReceiveWaits(link, rx, more);
    } else {
      ReceiveMore(link, rx, more);
      if r.Open? {
        DrainMore(link, r, more);
      }
    }
  }

  lemma FeedTwice(link: Link, rx: Rx, a: Bytes, b: Bytes)
    requires Sane(rx)
    ensures Feed(link, Feed(link, rx, a), b) == Feed(link, rx, a + b)
  {
    hide Drain, Receive;
    if rx.Open? {
      DrainMore(link, rx.(buf := rx.buf + a), b);
      assert rx.buf + a + b == rx.buf + (a + b);
    }
  }

  function Flatten(chunks: seq<Bytes>): Bytes {
    if chunks == [] then [] else chunks[0] + Flatten(chunks[1..])
  }

  /** Nothing is left to do. */
  predicate Idle(link: Link, rx: Rx) {
    Sane(rx) && Drain(link, rx) == rx
  }

  lemma {:induction false} DrainIsIdle(link: Link, rx: Rx)
    requires Sane(rx)
    ensures Idle(link, Drain(link, rx))
    decreases if rx.Open? then |rx.buf| + 1 else 0
  {
    if rx.Open? {
      var (r, exit) := Receive(link, rx);
      if !exit {
        DrainIsIdle(link, r);
      }
    }
  }

  /** Any splitting of the bytes has the same outcome as the bytes at once. */
  lemma {:induction false} ChunksDoNotMatter(link: Link, rx: Rx, chunks: seq<Bytes>)
    requires Idle(link, rx)
    ensures FeedAll(link, rx, chunks) == Feed(link, rx, Flatten(chunks))
    decreases |chunks|
  {
    if chunks == [] {
      if rx.Open? {
        assert rx.(buf := rx.buf + []) == rx;
      }
    } else {
      if rx.Open? {
        DrainIsIdle(link, rx.(buf := rx.buf + chunks[0]));
      }
      ChunksDoNotMatter(link, Feed(link, rx, chunks[0]), chunks[1..]);
      FeedTwice(link, rx, chunks[0], Flatten(chunks[1..]));
    }
  }

  // ----- what arrives -----

  /** The packets a receiver is to accept: those sent, without the empty ones that only keep the link alive. */
  function Accepted(ps: seq<Packet>): seq<Bytes> {
    if ps == [] then []
    else
      var p := ps[|ps| - 1];
      Accepted(ps[..|ps| - 1]) + if IsSent(p) && p.data != [] then [p.data] else []
  }

  /** Between packets, with both ciphers at position `pos`. */
  function Between(pos: nat, out: seq<Bytes>): Rx {
    Open(pos, [], None, out)
  }

  lemma SentSize(link: Link, p: Packet)
    requires IsSent(p) && WellSized(p)
    ensures WireSize(p) == |p.data| + 64 == |Payload(link, p)| && |Frame(link, p)| == WireSize(p) + 4
  {
    hide Payload, Le32;
    var size := |p.data| + 64;
    assert WireSize(p) == if size < WRAP then size else size - WRAP;
  }

  /** The length of a frame is read back once four of its bytes are there. */
  lemma LengthArrives(link: Link, pos: nat, out: seq<Bytes>, p: Packet, t: nat)
    requires IsSent(p) && WellSized(p) && 4 <= t <= |Frame(link, p)|
    ensures var rx := Open(pos, Crypt(link.ks, pos, Frame(link, p))[..t], None, out);
            ReadLength(link, rx) ==
              Open(pos + 4, Crypt(link.ks, pos + 4, Payload(link, p))[..t - 4], Some(|Payload(link, p)|), out)
  {
    hide Payload, Le32, FromLe32, Xor;
    SentSize(link, p);
    var l, body := Le32(WireSize(p)), Payload(link, p);
    CryptConcat(link.ks, pos, l, body);
    CryptTwice(link.ks, pos, l);
    Le32RoundTrip(WireSize(p));
    var c := Crypt(link.ks, pos, Frame(link, p));
    assert c[..t][..4] == Crypt(link.ks, pos, l);
    assert c[..t][4..] == Crypt(link.ks, pos + 4, body)[..t - 4];
  }

  lemma BodyArrives(link: Link, pos: nat, out: seq<Bytes>, p: Packet)
    requires IsSent(p) && WellSized(p)
    ensures |Payload(link, p)| >= 64
    ensures var body := Payload(link, p);
            ReadBody(link, Open(pos, Crypt(link.ks, pos, body), Some(|body|), out)) ==
              Between(pos + |body|, out + if p.data != [] then [p.data] else [])
  {
    hide Crypt;
    var body := Payload(link, p);
    CryptTwice(link.ks, pos, body);
    assert Crypt(link.ks, pos, body)[..|body|] == Crypt(link.ks, pos, body);
    assert body[..|body| - 32] == p.nonce + p.data;
    assert body[|body| - 32..] == link.sha(p.nonce + p.data);
    assert (p.nonce + p.data)[32..] == p.data;
  }

  lemma FrameArrives(link: Link, pos: nat, out: seq<Bytes>, p: Packet)
    requires WellSized(p)
    ensures Feed(link, Between(pos, out), Crypt(link.ks, pos, Frame(link, p))) ==
            Between(pos + |Frame(link, p)|, out + if IsSent(p) && p.data != [] then [p.data] else [])
  {
    hide Crypt, Payload, ReadLength, ReadBody, Frame;
    var c := Crypt(link.ks, pos, Frame(link, p));
    assert [] + c == c;
    if IsSent(p) {
      SentSize(link, p);
      LengthArrives(link, pos, out, p, |c|);
      BodyArrives(link, pos + 4, out, p);
      assert c[..|c|] == c;
      var d := Crypt(link.ks, pos + 4, Payload(link, p));
      assert d[..|c| - 4] == d;
      assert Receive(link, Open(pos, c, None, out)) ==
             (Between(pos + |c|, out + if p.data != [] then [p.data] else []), false);
      BetweenIdle(link, pos + |c|, out + if p.data != [] then [p.data] else []);
    } else {
      NotSent(link, p);
      assert c == [];
    }
  }

  lemma BetweenIdle(link: Link, pos: nat, out: seq<Bytes>)
    ensures Drain(link, Between(pos, out)) == Between(pos, out)
  {}

  lemma NotSent(link: Link, p: Packet)
    requires !IsSent(p)
    ensures Frame(link, p) == []
  {}

  /** A frame that is not complete is not accepted. */
  lemma PartOfFrame(link: Link, pos: nat, out: seq<Bytes>, p: Packet, t: nat)
    requires WellSized(p) && t < |Frame(link, p)|
    ensures var r := Feed(link, Between(pos, out), Crypt(link.ks, pos, Frame(link, p))[..t]);
            r.Open? && r.out == out && r.pos + |r.buf| == pos + t && r.pos == pos + if t < 4 then 0 else 4
  {
    hide Crypt, Payload, ReadLength, ReadBody, Frame;
    var c := Crypt(link.ks, pos, Frame(link, p))[..t];
    assert [] + c == c;
    if IsSent(p) {
      SentSize(link, p);
      if t >= 4 {
        LengthArrives(link, pos, out, p, t);
      }
    } else {
      NotSent(link, p);
    }
  }

  lemma {:induction false} AllArrive(link: Link, ps: seq<Packet>)
    requires forall i :: 0 <= i < |ps| ==> WellSized(ps[i])
    ensures Feed(link, START, SendAll(link, ps)) == Between(|SendAll(link, ps)|, Accepted(ps))
  {
    hide Frame, Crypt, WellSized, IsSent;
    if ps != [] {
      var p, sent := ps[|ps| - 1], SendAll(link, ps[..|ps| - 1]);
      AllArrive(link, ps[..|ps| - 1]);
      FrameArrives(link, |sent|, Accepted(ps[..|ps| - 1]), p);
      FeedTwice(link, START, sent, Crypt(link.ks, |sent|, Frame(link, p)));
    }
  }

  lemma {:induction false} SendPrefix(link: Link, ps: seq<Packet>, j: nat)
    requires j < |ps|
    ensures var sent, frame := SendAll(link, ps[..j]), Frame(link, ps[j]);
            && |SendAll(link, ps[..j + 1])| == |sent| + |frame|
            && sent + Crypt(link.ks, |sent|, frame) <= SendAll(link, ps)
  {
    hide Frame, Crypt;
    var n := |ps| - 1;
    assert ps[..j + 1][..j] == ps[..j];
    if j < n {
      assert ps[..n][..j] == ps[..j];
      SendPrefix(link, ps[..n], j);
    }
  }

  /**
    The stream is chunk-independent: however the first `n` bytes on the wire are split, the packets
    accepted are exactly those whose frames have fully arrived, in order, and sender and receiver
    cipher positions agree.
  */
  lemma StreamDelivers(link: Link, ps: seq<Packet>, chunks: seq<Bytes>, j: nat)
    requires forall i :: 0 <= i < |ps| ==> WellSized(ps[i])
    requires Flatten(chunks) <= SendAll(link, ps) && j <= |ps|
    requires |SendAll(link, ps[..j])| <= |Flatten(chunks)|
    requires j < |ps| ==> |Flatten(chunks)| < |SendAll(link, ps[..j + 1])|
    ensures var rx, n, sent := FeedAll(link, START, chunks), |Flatten(chunks)|, |SendAll(link, ps[..j])|;
            && rx.Open? && rx.out == Accepted(ps[..j])
            && rx.pos + |rx.buf| == n && rx.pos == sent + if n < sent + 4 then 0 else 4
  {
    hide Frame, Crypt, WellSized, Receive;
    StartIdle(link);
    ChunksDoNotMatter(link, START, chunks);
    var bytes, sent := Flatten(chunks), SendAll(link, ps[..j]);
    AllArrive(link, ps[..j]);
    if j == |ps| {
      assert ps[..j] == ps && bytes == sent;
    } else {
      SendPrefix(link, ps, j);
      var c := Crypt(link.ks, |sent|, Frame(link, ps[j]));
      var t := |bytes| - |sent|;
      assert bytes == sent + c[..t];
      FeedTwice(link, START, sent, c[..t]);
      PartOfFrame(link, |sent|, Accepted(ps[..j]), ps[j], t);
    }
  }

  lemma StartIdle(link: Link)
    ensures Idle(link, START)
  {}

  // ----- any bytes at all -----

  /** The plain stream starts with a complete frame of at least 64 bytes and a right hash; it is `size` long. */
  predicate StartsGood(link: Link, p: Bytes, size: nat) {
    68 <= size <= |p| && FromLe32(p[..4]) == size - 4 <= MAX_PACKET && HashedAt(link, p, size)
  }

  /** Behind the length, the first `size` bytes end with the hash of the rest. */
  predicate HashedAt(link: Link, p: Bytes, size: nat)
    requires 36 <= size <= |p|
  {
    link.sha(p[4..size - 32]) == p[size - 32..size]
  }

  lemma HashedMeans(link: Link, p: Bytes, size: nat)
    requires 36 <= size <= |p|
    ensures HashedAt(link, p, size) <==> RightDigest(link, p[4..size])
  {
    assert p[4..size][..size - 36] == p[4..size - 32] && p[4..size][size - 36..] == p[size - 32..size];
  }

  function FirstSize(p: Bytes): nat {
    if |p| < 4 then 0 else FromLe32(p[..4]) + 4
  }

  /** How far the plain stream consists of good frames. */
  function GoodPrefix(link: Link, p: Bytes): (k: nat)
    ensures k <= |p|
    decreases |p|
  {
    var n := FirstSize(p);
    if StartsGood(link, p, n) then n + GoodPrefix(link, p[n..]) else 0
  }

  /** The data of the good frames, without the empty ones. */
  function Bodies(link: Link, p: Bytes): seq<Bytes>
    decreases |p|
  {
    var n := FirstSize(p);
    if StartsGood(link, p, n) then (if n > 68 then [p[36..n - 32]] else []) + Bodies(link, p[n..]) else []
  }

  /** A complete packet of 32 to 63 bytes with a right hash. */
  predicate Aborting(link: Link, p: Bytes) {
    FirstSize(p) < 68 && Complete(link, p, FirstSize(p), true)
  }

  /** The first frame is `size` long and there, and its hash is right or not. */
  predicate Complete(link: Link, p: Bytes, size: nat, right: bool) {
    36 <= size <= |p| && HashedAt(link, p, size) == right
  }

  /** A length that is not allowed, or a complete packet with a wrong hash. */
  predicate Failing(link: Link, p: Bytes) {
    && |p| >= 4
    && (FirstSize(p) < 36 || FirstSize(p) > MAX_PACKET + 4 || Complete(link, p, FirstSize(p), false))
  }

  /** What one call of `receive` sees between packets, in terms of the plain bytes. */
  lemma ReceivePlain(link: Link, pos: nat, c: Bytes, out: seq<Bytes>)
    ensures var p, n := Crypt(link.ks, pos, c), FirstSize(Crypt(link.ks, pos, c));
            var (r, exit) := Receive(link, Open(pos, c, None, out));
            && (r.Aborted? <==> Aborting(link, p)) && (r.Failed? <==> Failing(link, p))
            && (StartsGood(link, p, n) ==>
                  !exit && r == Between(pos + n, out + if n > 68 then [p[36..n - 32]] else []).(buf := c[n..]))
            && (r.Open? && !StartsGood(link, p, n) ==> exit && r.out == out)
            && (!r.Open? ==> r.out == out && !exit)
  {
    hide FromLe32, Xor, HashedAt, RightDigest;
    var p := Crypt(link.ks, pos, c);
    var n := FirstSize(p);
    if |c| >= 4 {
      assert Crypt(link.ks, pos, c[..4]) == p[..4];
      if 36 <= n <= |c| {
        HashedMeans(link, p, n);
        assert Crypt(link.ks, pos + 4, c[4..][..n - 4]) == p[4..n];
        assert c[4..][n - 4..] == c[n..];
        assert |p[4..n]| == n - 4;
        if n >= 68 {
          Middle(p, n);
        }
      }
    }
  }

  lemma Middle(p: Bytes, n: nat)
    requires 68 <= n <= |p|
    ensures p[4..n][..n - 36][32..] == p[36..n - 32]
  {
    var q, r := p[4..n][..n - 36][32..], p[36..n - 32];
    assert |q| == |r|;
    forall i | 0 <= i < |q| ensures q[i] == r[i] {
      assert q[i] == p[4..n][..n - 36][32 + i] == p[4..n][32 + i] == p[36 + i];
    }
  }

  lemma {:induction false} DrainPlain(link: Link, pos: nat, c: Bytes, out: seq<Bytes>)
    ensures var p, d := Crypt(link.ks, pos, c), Drain(link, Open(pos, c, None, out));
            && (d.Aborted? <==> Aborting(link, p[GoodPrefix(link, p)..]))
            && (d.Failed? <==> Failing(link, p[GoodPrefix(link, p)..]))
            && d.out == out + Bodies(link, p)
    decreases |c|
  {
    hide Receive, Crypt, Aborting, Failing, StartsGood, GoodPrefix, Bodies;
    var p := Crypt(link.ks, pos, c);
    var n := FirstSize(p);
    ReceivePlain(link, pos, c, out);
    if StartsGood(link, p, n) {
      GoodStep(link, p, n);
      assert c == c[..n] + c[n..];
      CryptConcat(link.ks, pos, c[..n], c[n..]);
      assert p[n..] == Crypt(link.ks, pos + n, c[n..]);
      DrainPlain(link, pos + n, c[n..], out + if n > 68 then [p[36..n - 32]] else []);
    } else {
      GoodEnd(link, p);
      DrainEnd(link, Open(pos, c, None, out));
    }
  }

  lemma GoodStep(link: Link, p: Bytes, n: nat)
    requires n == FirstSize(p) && StartsGood(link, p, n)
    ensures 68 <= n <= |p| && p[GoodPrefix(link, p)..] == p[n..][GoodPrefix(link, p[n..])..]
    ensures Bodies(link, p) == (if n > 68 then [p[36..n - 32]] else []) + Bodies(link, p[n..])
  {
    hide HashedAt, FromLe32;
  }

  lemma GoodEnd(link: Link, p: Bytes)
    requires !StartsGood(link, p, FirstSize(p))
    ensures p[GoodPrefix(link, p)..] == p && Bodies(link, p) == []
  {
    assert p[0..] == p;
  }

  lemma DrainEnd(link: Link, rx: Rx)
    requires rx.Open? && Sane(rx) && (Receive(link, rx).1 || !Receive(link, rx).0.Open?)
    ensures Drain(link, rx) == Receive(link, rx).0
  {
    hide Receive;
  }

  /**
    For any bytes whatever: the data accepted is that of the good frames the plain stream starts with; the
    connection is closed exactly if what follows has a forbidden length or is complete with a wrong hash,
    and the program is aborted exactly if it is a complete packet of 32 to 63 bytes with a right hash.
  */
  lemma StreamOutcome(link: Link, c: Bytes)
    ensures var p, rx := Crypt(link.ks, 0, c), Feed(link, START, c);
            && (rx.Aborted? <==> Aborting(link, p[GoodPrefix(link, p)..]))
            && (rx.Failed? <==> Failing(link, p[GoodPrefix(link, p)..]))
            && rx.out == Bodies(link, p)
  {
    assert [] + c == c;
    DrainPlain(link, 0, c, []);
    hide Crypt, Drain, Aborting, Failing;
  }

  /** For example the frame of an empty packet: its length, 32, and the hash of nothing. */
  lemma EmptyPacketAborts(link: Link)
    ensures Feed(link, START, Crypt(link.ks, 0, [FromNat(32), FromNat(0), FromNat(0), FromNat(0)] + link.sha([]))).Aborted?
  {
    hide FromLe32, FromNat;
    assert Le32(32) == [FromNat(32), FromNat(0), FromNat(0), FromNat(0)];
    var p := Le32(32) + link.sha([]);
    var c := Crypt(link.ks, 0, p);
    CryptTwice(link.ks, 0, p);
    Le32RoundTrip(32);
    assert p[..4] == Le32(32) && p[4..36] == link.sha([]);
    assert link.sha([])[..0] == [] && link.sha([])[0..] == link.sha([]);
    assert p[0..] == p;
    StreamOutcome(link, c);
  }

  // ----- keys -----

  /** The cipher states of one end: key and initial vector for each direction. */
  datatype Ciphers = Ciphers(inKey: Bytes, inIv: Bytes, outKey: Bytes, outIv: Bytes)

  /** `init_crypto`: 96 shared bytes give two keys and two vectors; client and server use them crosswise. */
  function InitCrypto(s: Bytes, isClient: bool): Option<Ciphers> {
    if |s| < 96 then None
    else
      var s1, s2, v1, v2 := s[..32], s[32..64], s[64..80], s[80..96];
      Some(if isClient then Ciphers(s1, v1, s2, v2) else Ciphers(s2, v2, s1, v1))
  }

  /**
    The two ends mirror each other: what one encrypts with, the other decrypts with.  The shared bytes are, in
    order, the key the client reads with, the one the server reads with, and the two vectors likewise.
  */
  lemma CiphersMirror(s: Bytes)
    ensures InitCrypto(s, true).Some? <==> |s| >= 96
    ensures InitCrypto(s, false).Some? <==> |s| >= 96
    ensures |s| >= 96 ==>
              var c, d := InitCrypto(s, true).value, InitCrypto(s, false).value;
              c.inKey == d.outKey && c.inIv == d.outIv && c.outKey == d.inKey && c.outIv == d.inIv &&
              |c.inKey| == |c.outKey| == 32 && |c.inIv| == |c.outIv| == 16 &&
              s[..96] == c.inKey + d.inKey + c.inIv + d.inIv
  {}
}
