/** The wire format: a 32-bit big-endian length, a type byte, a payload. */
module Protocol {
  import opened Bytes
  import opened ByteBuffers
  import opened Sockets
  import opened Sums

  // RequestType and ResponseType
  const COMMAND: byte := 0
  const DOWNLOAD: byte := 1
  const DOWNLOAD_INFO: byte := 2
  const PLAIN_TEXT: byte := 0
  const BINARY: byte := 1
  const DOWNLOAD_INFO_REPLY: byte := 2

  datatype Message = Message(tag: byte, payload: seq<byte>)

  datatype Decoded = Incomplete | Packet(msg: Message, rest: seq<byte>)

  /** What sendRequest and sendResponse put on the wire; the length is a uint32_t. */
  function Frame(m: Message): (f: seq<byte>)
    ensures |f| == 5 + |m.payload|
  {
    BigEndian((1 + |m.payload|) % TWO32, 4) + [m.tag] + m.payload
  }

  /** Receive buffers are whole multiples of the read unit (64 KiB, 1 MiB and 64 MiB). */
  predicate BufferSize(size: nat) { size > 0 && size % READ_UNIT == 0 }

  /** One packet read off a stream by two Socket::read calls, each of whose kernel reads
      returns min(requested, available). `rest` is what the two calls leave behind. */
  function Decode(stream: seq<byte>, size: nat): (d: Decoded)
    requires BufferSize(size)
    ensures d.Packet? ==> |d.rest| < |stream|
  {
    if |stream| < 4 then Incomplete
    else
      var tail := stream[4..];
      var n := Greedy(|tail|, 0, EffectiveLimit(FromBigEndian(stream[..4]), size));
      if n == 0 then Incomplete
      else Packet(Message(tail[0], tail[1..n]), tail[n..])
  }

  function Encode(ms: seq<Message>): seq<byte> {
    if ms == [] then [] else Frame(ms[0]) + Encode(ms[1..])
  }

  function DecodeAll(stream: seq<byte>, size: nat): seq<Message>
    requires BufferSize(size)
    decreases |stream|
  {
    match Decode(stream, size)
    case Incomplete => []
    case Packet(m, rest) => [m] + DecodeAll(rest, size)
  }

  /** The packet fits the receive buffer and its length fits 32 bits. */
  predicate Fits(m: Message, size: nat) { 1 + |m.payload| <= size && 1 + |m.payload| < TWO32 }

  /** The first length read of a packet always takes exactly four bytes. */
  lemma LengthReadIsFour(avail: nat)
    requires avail >= 4
    ensures Greedy(avail, 0, 4) == 4
  {
    GreedyExactIff(4, avail);
  }

  lemma SplitAtFour(head: seq<byte>, tag: byte, payload: seq<byte>, behind: seq<byte>)
    requires |head| == 4
    ensures (head + [tag] + payload + behind)[..4] == head
    ensures (head + [tag] + payload + behind)[4..] == [tag] + payload + behind
  {
  }

  lemma FrameParts(m: Message, behind: seq<byte>)
    requires 1 + |m.payload| < TWO32
    ensures |Frame(m) + behind| >= 5
    ensures FromBigEndian((Frame(m) + behind)[..4]) == 1 + |m.payload|
    ensures (Frame(m) + behind)[4..] == [m.tag] + m.payload + behind
  {
    hide BigEndian, FromBigEndian, Range;
    var len := 1 + |m.payload|;
    Ranges();
    BigEndianRoundTrip(len, 4);
    SplitAtFour(BigEndian(len, 4), m.tag, m.payload, behind);
  }

  /** A frame decodes to its own message, leaving what is queued behind it untouched,
      exactly when its body length is tidy or nothing is queued behind it. */
  lemma DecodeFrame(m: Message, behind: seq<byte>, size: nat)
    requires BufferSize(size) && Fits(m, size)
    ensures Decode(Frame(m) + behind, size).Packet?
    ensures Decode(Frame(m) + behind, size) == Packet(m, behind)
       <==> Tidy(1 + |m.payload|) || behind == []
    ensures Decode(Frame(m) + behind, size).msg == m ==> Tidy(1 + |m.payload|) || behind == []
  {
    FrameParts(m, behind);
    var len := 1 + |m.payload|;
    var tail := (Frame(m) + behind)[4..];
    GreedyExactIff(len, |tail|);
    var n := Greedy(|tail|, 0, len);
    if n == len {
      assert tail[1..n] == m.payload;
      assert tail[n..] == behind;
    } else {
      assert |tail[1..n]| > |m.payload|;
    }
  }

  predicate TidyButLast(ms: seq<Message>) {
    forall i :: 0 <= i < |ms| - 1 ==> Tidy(1 + |ms[i].payload|)
  }

  lemma TidyCons(ms: seq<Message>)
    requires |ms| >= 2
    ensures TidyButLast(ms) <==> Tidy(1 + |ms[0].payload|) && TidyButLast(ms[1..])
  {
    var tail := ms[1..];
    if Tidy(1 + |ms[0].payload|) && TidyButLast(tail) {
      forall i | 0 <= i < |ms| - 1 ensures Tidy(1 + |ms[i].payload|) {
        if i > 0 { assert ms[i] == tail[i - 1]; }
      }
    }
    if TidyButLast(ms) {
      forall i | 0 <= i < |tail| - 1 ensures Tidy(1 + |tail[i].payload|) {
        assert tail[i] == ms[i + 1];
      }
    }
  }

  /** Framing round trip: a stream of responses decodes to the same responses in order
      exactly when every body but the last has a tidy length. */
  lemma {:induction false} FramingRoundTrip(ms: seq<Message>, size: nat)
    requires BufferSize(size)
    requires forall m :: m in ms ==> Fits(m, size)
    ensures DecodeAll(Encode(ms), size) == ms <==> TidyButLast(ms)
    decreases |ms|
  {
    if ms == [] {
      assert DecodeAll([], size) == [];
    } else {
      var m, tail := ms[0], ms[1..];
      var behind := Encode(tail);
      DecodeFrame(m, behind, size);
      if tail == [] {
        assert Encode(ms) == Frame(m) + behind;
        assert DecodeAll(behind, size) == [];
      } else if Tidy(1 + |m.payload|) {
        FramingRoundTrip(tail, size);
        TidyCons(ms);
        assert DecodeAll(Encode(ms), size) == [m] + DecodeAll(behind, size);
        assert ms == [m] + tail;
        assert ([m] + DecodeAll(behind, size))[1..] == DecodeAll(behind, size);
      } else {
        TidyCons(ms);
        assert behind == Frame(tail[0]) + Encode(tail[1..]);
        assert DecodeAll(Encode(ms), size)[0] == Decode(Frame(m) + behind, size).msg;
      }
    }
  }

  // ProtocolHelper

  /** What receiveResponse gives back: nothing, a packet, or a failed assertion in slice. */
  datatype Received = NoReply | Reply(msg: Message) | SliceFails

  /** sendRequest hands over exactly the frame of the request, or reports failure after a
      proper prefix of it. */
  method SendRequest(socket: Socket, tag: byte, data: ByteBuffer) returns (ok: bool, ghost sent: nat)
    modifies socket`outgoing
    ensures var frame := Frame(Message(tag, data.bytes));
            && sent <= |frame| && socket.outgoing == old(socket.outgoing) + frame[..sent]
            && (ok <==> sent == |frame|) && (socket.roomy ==> ok)
  {
    var sendBuffer := new ByteBuffer([]);
    sendBuffer.WriteUInt((1 + |data.bytes|) % TWO32);
    sendBuffer.PushBack([tag]);
    sendBuffer := sendBuffer.Plus(data);
    assert sendBuffer.bytes == Frame(Message(tag, data.bytes));
    var n;
    n, sent := socket.Write(sendBuffer.bytes);
    ok := n == |sendBuffer.bytes|;
  }

  /** A call of Socket::read that filled the buffer from the start of the stream. */
  lemma FilledPrefix(stream: seq<byte>, mem: seq<byte>, incoming: seq<byte>, bytes: seq<byte>, got: nat, n: nat)
    requires Filled(stream, mem, incoming, bytes, got) && n <= got && n <= |mem|
    ensures |bytes| == |mem| && bytes[..n] == stream[..n] && incoming == stream[got..]
  {
    assert stream[..got][..n] == stream[..n];
    OverlayPrefix(mem, stream[..got], n);
  }

  /** A prompt read of the length takes all four bytes when they are there. */
  lemma LengthRead(avail: nat)
    ensures Greedy(avail, 0, 4) == Min(avail, 4)
  {
    if avail >= 4 {
      GreedyExactIff(4, avail);
    } else if avail > 0 {
      assert Greedy(avail, 0, 4) == Greedy(0, avail, 4);
    }
  }

  /** The packet a pair of reads delivers: `a` bytes taken for the length, `b` for the body. */
  lemma DecodedPacket(stream: seq<byte>, size: nat, a: nat, b: nat)
    requires BufferSize(size) && a == Min(|stream|, 4)
    requires |stream| >= 4 ==> b == Greedy(|stream| - 4, 0, EffectiveLimit(FromBigEndian(stream[..4]), size))
    requires |stream| < 4 ==> b == 0
    ensures a + b <= |stream| && b <= size
    ensures Decode(stream, size) == if b == 0 then Incomplete
                                   else Packet(Message(stream[a..][0], stream[a..][1..b]), stream[a..][b..])
  {
    hide FromBigEndian, Greedy, EffectiveLimit, Decode;
    DecodeUnfolds(stream, size);
    if |stream| >= 4 {
      LimitInRange(FromBigEndian(stream[..4]), size);
      GreedyFits(|stream| - 4, EffectiveLimit(FromBigEndian(stream[..4]), size), size);
    }
  }

  lemma DecodeUnfolds(stream: seq<byte>, size: nat)
    requires BufferSize(size)
    ensures |stream| < 4 ==> Decode(stream, size) == Incomplete
    ensures |stream| >= 4 ==>
      var tail := stream[4..];
      var n := Greedy(|stream| - 4, 0, EffectiveLimit(FromBigEndian(stream[..4]), size));
      && n <= |tail|
      && Decode(stream, size) == if n == 0 then Incomplete else Packet(Message(tail[0], tail[1..n]), tail[n..])
  {
    hide FromBigEndian, Greedy, EffectiveLimit;
  }

  lemma LimitInRange(limit: nat, size: nat)
    requires size > 0
    ensures 1 <= EffectiveLimit(limit, size) <= size
  {
  }

  /** The two reads with which either side takes a packet: `a` bytes for the length, `b` for
      the body, which is left at the start of the buffer. The end of the stream is reported
      exactly if the second read ends with it (`last` is the kernel's last result), what the
      first one comes to is not looked at. On a prompt socket the two are Decode, and the end
      is reported exactly when the peer has closed and less than a whole body was there. */
  method ReadPacket(socket: Socket, buffer: ByteBuffer)
    returns (readLen: int, ghost a: nat, ghost b: nat, ghost last: int)
    requires BufferSize(|buffer.bytes|)
    modifies socket`incoming, buffer
    ensures |buffer.bytes| == |old(buffer.bytes)|
    ensures a < 8 && a + b <= |old(socket.incoming)| && socket.incoming == old(socket.incoming)[a + b..]
    ensures readLen == if last == 0 then -1 else b
    ensures last == 0 ==> socket.incoming == [] && socket.ended
    ensures last > 0 ==> b > 0
    ensures var n := Min(b, |buffer.bytes|); buffer.bytes[..n] == old(socket.incoming)[a..a + n]
    ensures socket.prompt ==>
              && b <= |buffer.bytes|
              && Decode(old(socket.incoming), |buffer.bytes|) ==
                   (if b == 0 then Incomplete
                    else Packet(Message(buffer.bytes[0], buffer.bytes[1..b]), socket.incoming))
              && (b == 0 ==> (last == 0 <==> socket.ended))
              && (b > 0 ==>
                    var whole := EffectiveLimit(FromBigEndian(old(socket.incoming)[..4]), |buffer.bytes|);
                    last == 0 <==> socket.ended && b < whole)
  {
    hide Filled, Reads, Greedy, Decode, FromBigEndian, Overlay, Sum, EffectiveLimit, Unit, BufferSize;
    ghost var stream, mem := socket.incoming, buffer.bytes;
    LengthFits(|buffer.bytes|);
    ghost var c1, c2, last1;
    var n;
    n, c1, last1 := socket.Read(buffer, 4);
    a := Sum(c1);
    FilledSize(stream, mem, socket.incoming, buffer.bytes, a);
    var packetLen := buffer.ReadUInt(0);
    ghost var tail, mem1 := socket.incoming, buffer.bytes;
    readLen, c2, last := socket.Read(buffer, packetLen);
    b := Sum(c2);
    ReadBound(c1, 0, 4, |stream|);
    TwoReads(stream, mem, tail, mem1, socket.incoming, buffer.bytes, a, b, Min(b, |mem|));
    LimitInRange(packetLen, |mem|);
    if socket.prompt {
      PromptReads(stream, mem, tail, mem1, socket.incoming, buffer.bytes, a, b);
    }
  }

  lemma LengthFits(size: nat)
    requires BufferSize(size)
    ensures Unit(4) == 4 == EffectiveLimit(4, size) && size >= 4
  {
  }

  lemma FilledSize(stream: seq<byte>, mem: seq<byte>, incoming: seq<byte>, bytes: seq<byte>, got: nat)
    requires Filled(stream, mem, incoming, bytes, got)
    ensures |bytes| == |mem|
  {
  }

  lemma TwoReads(stream: seq<byte>, mem: seq<byte>, tail: seq<byte>, mem1: seq<byte>,
                 incoming: seq<byte>, bytes: seq<byte>, a: nat, b: nat, n: nat)
    requires Filled(stream, mem, tail, mem1, a) && Filled(tail, mem1, incoming, bytes, b)
    requires n <= b && n <= |mem|
    ensures |bytes| == |mem| && a + b <= |stream| && incoming == stream[a + b..] && bytes[..n] == stream[a..a + n]
  {
    FilledEnds(stream, mem, tail, mem1, a);
    FilledEnds(tail, mem1, incoming, bytes, b);
    hide *;
    FilledPrefix(tail, mem1, incoming, bytes, b, n);
    TailParts(stream, a, b, n);
  }

  lemma PromptReads(stream: seq<byte>, mem: seq<byte>, tail: seq<byte>, mem1: seq<byte>,
                    incoming: seq<byte>, bytes: seq<byte>, a: nat, b: nat)
    requires BufferSize(|mem|) && Filled(stream, mem, tail, mem1, a) && Filled(tail, mem1, incoming, bytes, b)
    requires |mem1| == |mem| && a == Greedy(|stream|, 0, 4)
    requires b == Greedy(|tail|, 0, EffectiveLimit(FromBigEndian(mem1[0..4]), |mem|))
    ensures |bytes| == |mem| && b <= |mem| && (|stream| >= 4 ==> mem1[0..4] == stream[..4]) && (b > 0 ==> |stream| >= 4)
    ensures Decode(stream, |mem|) ==
              (if b == 0 then Incomplete else Packet(Message(bytes[0], bytes[1..b]), incoming))
  {
    hide Greedy, FromBigEndian, Decode, Overlay, Filled;
    var limit := EffectiveLimit(FromBigEndian(mem1[0..4]), |mem|);
    LengthRead(|stream|);
    FilledEnds(stream, mem, tail, mem1, a);
    FilledEnds(tail, mem1, incoming, bytes, b);
    GreedyStep(|tail|, 0, limit);
    GreedyFits(|tail|, limit, |mem|);
    FilledPrefix(tail, mem1, incoming, bytes, b, b);
    if |stream| >= 4 {
      FilledPrefix(stream, mem, tail, mem1, a, 4);
    }
    hide EffectiveLimit, BufferSize;
    DecodedPacket(stream, |mem|, a, b);
    SamePacket(bytes, tail, b);
  }

  lemma FilledEnds(stream: seq<byte>, mem: seq<byte>, incoming: seq<byte>, bytes: seq<byte>, got: nat)
    requires Filled(stream, mem, incoming, bytes, got)
    ensures |bytes| == |mem| && got <= |stream| && incoming == stream[got..]
  {
  }

  lemma SamePacket(xs: seq<byte>, ys: seq<byte>, n: nat)
    requires n <= |xs| && n <= |ys| && xs[..n] == ys[..n]
    ensures n > 0 ==> xs[0] == ys[0] && xs[1..n] == ys[1..n]
  {
    if n > 0 {
      assert xs[..n][0] == xs[0] && ys[..n][0] == ys[0];
      assert xs[..n][1..] == xs[1..n] && ys[..n][1..] == ys[1..n];
    }
  }

  lemma TailParts(stream: seq<byte>, a: nat, b: nat, n: nat)
    requires a + b <= |stream| && n <= b
    ensures stream[a..][b..] == stream[a + b..] && stream[a..][..n] == stream[a..a + n]
  {
  }

  /** receiveResponse delivers exactly the body it took off the stream, whatever the chunking,
      unless that is empty or the read of it ends with the end of the stream. On a prompt
      socket what is delivered is Decode, and nothing is delivered exactly when there is no
      packet or the peer has closed inside its body. */
  method ReceiveResponse(socket: Socket, buffer: ByteBuffer)
    returns (resp: Received, ghost a: nat, ghost b: nat, ghost last: int)
    requires BufferSize(|buffer.bytes|)
    modifies socket`incoming, buffer
    ensures |buffer.bytes| == |old(buffer.bytes)|
    ensures a < 8 && a + b <= |old(socket.incoming)| && socket.incoming == old(socket.incoming)[a + b..]
    ensures resp.NoReply? <==> last == 0 || b == 0
    ensures last == 0 ==> socket.incoming == [] && socket.ended
    ensures resp.SliceFails? ==> b > |buffer.bytes|
    ensures resp.Reply? ==> b > 0 && [resp.msg.tag] + resp.msg.payload == old(socket.incoming)[a..a + b]
    ensures socket.prompt ==>
              match Decode(old(socket.incoming), |buffer.bytes|)
              case Incomplete => resp.NoReply?
              case Packet(m, rest) =>
                && socket.incoming == rest
                && resp == if socket.ended && 1 + |m.payload| <
                             EffectiveLimit(FromBigEndian(old(socket.incoming)[..4]), |buffer.bytes|)
                           then NoReply else Reply(m)
  {
    hide Decode, FromBigEndian, EffectiveLimit, Slice;
    var readLen;
    readLen, a, b, last := ReadPacket(socket, buffer);
    if readLen <= 0 {
      resp := NoReply;
    } else {
      var data := Slice(buffer.bytes, 1, readLen);
      SliceFrom1(buffer.bytes, b);
      resp := if data.Sliced? then Reply(Message(buffer.bytes[0], data.bytes)) else SliceFails;
    }
  }

  lemma SliceFrom1(bytes: seq<byte>, n: nat)
    requires |bytes| > 1 && n > 0
    ensures Slice(bytes, 1, n) == if n <= |bytes| then Sliced(bytes[1..n]) else AssertionFails
    ensures n <= |bytes| ==> [bytes[0]] + bytes[1..n] == bytes[..n]
  {
  }
}
