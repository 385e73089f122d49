/** An external connection as an object: `send`, `receive` and the receive loop. */
module AdnlConnection {
  import opened Options
  import opened AdnlStream

  /** One end of a connection whose ciphers are set up. */
  class Connection {
    const outLink: Link
    const inLink: Link
    var outPos: nat
    var output: Bytes
    var inPos: nat
    var input: Bytes
    var readLen: bool
    var len: nat
    var accepted: seq<Bytes>
    var failed: bool
    var aborted: bool
    ghost var sent: seq<Packet>

    ghost function Rx(): Rx
      reads this
    {
      if aborted then Aborted(accepted) else if failed then Failed(accepted) else Open(inPos, input, if readLen then Some(len) else None, accepted)
    }

    ghost predicate Valid()
      reads this
    {
      Idle(inLink, Rx()) && output == SendAll(outLink, sent) && outPos == |output|
    }

    constructor (outLink: Link, inLink: Link)
      ensures Valid() && sent == [] && Rx() == START
    {
      this.outLink, this.inLink := outLink, inLink;
      outPos, output, inPos, input, readLen, len := 0, [], 0, [], false, 0;
      accepted, failed, aborted, sent := [], false, false, [];
      new;
      StartIdle(inLink);
    }

    /** `send`; a size that does not fit in 32 bits aborts the program. */
    method Send(nonce: Block, data: Bytes)
      requires Valid() && |data| < WRAP
      modifies this
      ensures Valid() && sent == old(sent) + [Packet(nonce, data)] && Rx() == old(Rx())
    {
      hide Idle, Crypt, Le32;
      var size := (|data| + 64) % WRAP;
      if 32 <= size <= MAX_PACKET {
        var d := Le32(size) + (nonce + data + outLink.sha(nonce + data));
        output := output + Crypt(outLink.ks, outPos, d);
        outPos := outPos + |d|;
      } else {
        assert Crypt(outLink.ks, outPos, []) == [];
      }
      sent := sent + [Packet(nonce, data)];
      assert sent[..|sent| - 1] == old(sent);
    }

    /** `receive`: at most one packet per call. */
    method Receive() returns (exit: bool)
      requires !failed && !aborted && Sane(Rx())
      modifies this`inPos, this`input, this`readLen, this`len, this`accepted, this`failed, this`aborted
      ensures (Rx(), exit) == AdnlStream.Receive(inLink, old(Rx()))
    {
      hide Crypt, FromLe32;
      if !readLen {
        if |input| < 4 {
          return true;
        }
        len := FromLe32(Crypt(inLink.ks, inPos, input[..4]));
        inPos, input := inPos + 4, input[4..];
        if len > MAX_PACKET || len < 32 {
          failed := true;
          return false;
        }
        readLen := true;
      }
      if |input| < len {
        return true;
      }
      var data := Crypt(inLink.ks, inPos, input[..len]);
      inPos, input, readLen := inPos + len, input[len..], false;
      var body, digest := data[..|data| - 32], data[|data| - 32..];
      if inLink.sha(body) != digest {
        failed := true;
      } else if |body| < 32 {
        aborted := true;
      } else if |body| > 32 {
        accepted := accepted + [body[32..]];
      }
      return false;
    }

    /** `loop` after the socket delivered `chunk`. */
    method OnNet(chunk: Bytes)
      requires Valid()
      modifies this
      ensures Valid() && Rx() == Feed(inLink, old(Rx()), chunk) && sent == old(sent) && output == old(output)
    {
      hide AdnlStream.Receive, Idle;
      if failed || aborted {
        return;
      }
      IdleSane(inLink, Rx());
      input := input + chunk;
      ghost var start := Rx();
      DrainIsIdle(inLink, start);
      var exit := false;
      while !exit && !failed && !aborted
        invariant Sane(Rx()) && Drain(inLink, start) == if exit then Rx() else Drain(inLink, Rx())
        invariant sent == old(sent) && output == old(output) && outPos == old(outPos)
        decreases if exit || failed || aborted then 0 else |input| + 1
      {
        exit := Receive();
      }
    }
  }

  lemma IdleSane(link: Link, rx: Rx)
    requires Idle(link, rx)
    ensures Sane(rx)
  {}
}
