/** Socket::read and Socket::write. `Read` keeps asking the kernel for min(limit, 256)
    bytes, never for the remainder, so it can consume more than `limit`; the lemmas say
    exactly when it does not. */
module Sockets {
  import opened Bytes
  import opened ByteBuffers
  import opened Sums

  const READ_UNIT: nat := 256

  /** How many bytes each kernel read asks for. */
  function Unit(limit: nat): nat { if limit < READ_UNIT then limit else READ_UNIT }

  /** The limit actually used: 0 means the whole buffer, and never more than the buffer. */
  function EffectiveLimit(limit: nat, size: nat): nat {
    if limit == 0 || limit > size then size else limit
  }

  /** `chunks` can be the results of the successive kernel reads of one call that has `got`
      bytes already, when `avail` more bytes are outstanding. */
  ghost predicate Reads(chunks: seq<nat>, got: nat, limit: nat, avail: nat)
    decreases |chunks|
  {
    chunks == [] ||
    (got < limit && 1 <= chunks[0] <= Unit(limit) && chunks[0] <= avail
     && Reads(chunks[1..], got + chunks[0], limit, avail - chunks[0]))
  }

  lemma {:induction false} ReadsAppend(chunks: seq<nat>, got: nat, limit: nat, avail: nat, c: nat)
    requires Reads(chunks, got, limit, avail)
    requires got + Sum(chunks) < limit && 1 <= c <= Unit(limit) && Sum(chunks) + c <= avail
    ensures Reads(chunks + [c], got, limit, avail)
    ensures Sum(chunks + [c]) == Sum(chunks) + c
    decreases |chunks|
  {
    if chunks == [] {
      assert (chunks + [c])[1..] == [];
    } else {
      ReadsAppend(chunks[1..], got + chunks[0], limit, avail - chunks[0], c);
      assert (chunks + [c])[1..] == chunks[1..] + [c];
    }
  }

  /** Over-read bound: whatever the chunking, less than one extra unit is consumed. */
  lemma {:induction false} ReadBound(chunks: seq<nat>, got: nat, limit: nat, avail: nat)
    requires Reads(chunks, got, limit, avail)
    ensures Sum(chunks) <= avail
    ensures chunks != [] ==> got + Sum(chunks) < limit + Unit(limit)
    decreases |chunks|
  {
    if chunks != [] {
      ReadBound(chunks[1..], got + chunks[0], limit, avail - chunks[0]);
      if chunks[1..] == [] {
        assert Sum(chunks) == chunks[0];
      }
    }
  }

  /** n one-byte reads. */
  function Ones(n: nat): (s: seq<nat>)
    ensures |s| == n
  {
    if n == 0 then [] else [1] + Ones(n - 1)
  }

  lemma {:induction false} OnesThen(n: nat, c: nat, got: nat, limit: nat, avail: nat)
    requires got + n < limit && 1 <= c <= Unit(limit) && n + c <= avail
    ensures Reads(Ones(n) + [c], got, limit, avail)
    ensures Sum(Ones(n) + [c]) == n + c
    decreases n
  {
    var s := Ones(n) + [c];
    if n == 0 {
      assert s == [c] && s[1..] == [];
    } else {
      OnesThen(n - 1, c, got + 1, limit, avail - 1);
      assert s[1..] == Ones(n - 1) + [c];
    }
  }

  /** Every chunking that reaches the limit consumes exactly `limit` bytes. */
  ghost predicate AlwaysExact(limit: nat, avail: nat) {
    forall chunks: seq<nat> {:trigger Reads(chunks, 0, limit, avail)} ::
      Reads(chunks, 0, limit, avail) && Sum(chunks) >= limit ==> Sum(chunks) == limit
  }

  /** A read is exact under every chunking just when one byte is asked for or nothing is
      queued behind the requested bytes. */
  lemma ExactIff(limit: nat, avail: nat)
    requires 1 <= limit
    ensures AlwaysExact(limit, avail) <==> limit == 1 || avail <= limit
  {
    forall chunks: seq<nat> | (limit == 1 || avail <= limit) && Reads(chunks, 0, limit, avail) && Sum(chunks) >= limit
      ensures Sum(chunks) == limit
    {
      ReadBound(chunks, 0, limit, avail);
    }
    if limit > 1 && avail > limit {
      OnesThen(limit - 1, 2, 0, limit, avail);
      assert Sum(Ones(limit - 1) + [2]) == limit + 1;
    }
  }

  /** The bound of ReadBound is attained: up to Unit(limit) - 1 bytes too many. */
  lemma BoundIsTight(limit: nat, avail: nat)
    requires 1 <= limit && limit + Unit(limit) - 1 <= avail
    ensures exists chunks: seq<nat> :: Reads(chunks, 0, limit, avail) && Sum(chunks) == limit + Unit(limit) - 1
  {
    OnesThen(limit - 1, Unit(limit), 0, limit, avail);
  }

  /** No chunking writes past a buffer of `size` bytes. */
  ghost predicate AlwaysInside(limit: nat, size: nat, avail: nat) {
    forall chunks: seq<nat> {:trigger Reads(chunks, 0, limit, avail)} ::
      Reads(chunks, 0, limit, avail) ==> Sum(chunks) <= size
  }

  /** A read stays inside its buffer under every chunking just when the buffer has room for
      the largest possible over-read, or for all there is. */
  lemma InsideIff(limit: nat, size: nat, avail: nat)
    requires 1 <= limit <= size
    ensures AlwaysInside(limit, size, avail) <==> limit + Unit(limit) - 1 <= size || avail <= size
  {
    forall chunks: seq<nat> | (limit + Unit(limit) - 1 <= size || avail <= size) && Reads(chunks, 0, limit, avail)
      ensures Sum(chunks) <= size
    {
      ReadBound(chunks, 0, limit, avail);
    }
    if limit + Unit(limit) - 1 > size && avail > size {
      OnesThen(limit - 1, size - limit + 2, 0, limit, avail);
      assert Sum(Ones(limit - 1) + [size - limit + 2]) == size + 1;
    }
  }

  /** Bytes consumed when every kernel read returns min(requested, available) and the call
      stops at the limit or when nothing more is queued. */
  function Greedy(avail: nat, got: nat, limit: nat): (n: nat)
    ensures got <= n <= got + avail
    decreases avail
  {
    if got >= limit || avail == 0 then got
    else
      var c := Min(Unit(limit), avail);
      Greedy(avail - c, got + c, limit)
  }

  /** Body lengths that a full-chunk reader never overshoots. */
  predicate Tidy(limit: nat) { limit <= READ_UNIT || limit % READ_UNIT == 0 }

  lemma {:induction false} GreedySteps(avail: nat, got: nat, limit: nat)
    requires got % READ_UNIT == 0 && got <= limit && READ_UNIT < limit <= got + avail
    ensures Greedy(avail, got, limit)
         == if limit % READ_UNIT == 0 then limit
            else Min(got + avail, (limit / READ_UNIT + 1) * READ_UNIT)
    decreases avail
  {
    if got < limit {
      var c := Min(READ_UNIT, avail);
      if got + c < limit {
        GreedySteps(avail - c, got + c, limit);
      } else if limit % READ_UNIT == 0 {
        assert got + READ_UNIT <= limit;
      } else {
        assert limit / READ_UNIT == got / READ_UNIT;
      }
    }
  }

  /** With full chunks the read is exact just for tidy lengths, or with nothing queued behind. */
  lemma GreedyExactIff(limit: nat, avail: nat)
    requires 1 <= limit <= avail
    ensures Greedy(avail, 0, limit) >= limit
    ensures Greedy(avail, 0, limit) == limit <==> Tidy(limit) || avail == limit
  {
    if limit > READ_UNIT {
      GreedySteps(avail, 0, limit);
    } else {
      assert Greedy(avail - limit, limit, limit) == limit;
    }
  }

  /** Full-chunk reads stay inside a buffer whose size is a multiple of the read unit. */
  lemma GreedyFits(avail: nat, limit: nat, size: nat)
    requires 1 <= limit <= size && size % READ_UNIT == 0
    ensures Greedy(avail, 0, limit) <= size
  {
    if limit > avail {
    } else if limit > READ_UNIT {
      GreedySteps(avail, 0, limit);
      assert limit % READ_UNIT != 0 ==> limit / READ_UNIT < size / READ_UNIT;
    } else {
      assert Greedy(avail - limit, limit, limit) == limit;
    }
  }

  /** A read without a limit, or with one above the size of the buffer, goes on until the buffer
      is full. */
  lemma WholeBuffer(limit: nat, size: nat, avail: nat)
    requires limit == 0 || limit > size
    ensures avail >= size ==> Greedy(avail, 0, EffectiveLimit(limit, size)) >= size
    ensures forall chunks: seq<nat> :: Reads(chunks, 0, EffectiveLimit(limit, size), avail) ==>
              Sum(chunks) < size + Unit(size) || chunks == []
  {
    if 1 <= size <= avail { GreedyExactIff(size, avail); }
    forall chunks: seq<nat> | Reads(chunks, 0, size, avail) ensures Sum(chunks) < size + Unit(size) || chunks == [] {
      ReadBound(chunks, 0, size, avail);
    }
  }

  /** The first `got` bytes of `stream` are off the stream and at the start of the memory. */
  ghost predicate Filled(stream: seq<byte>, mem: seq<byte>, incoming: seq<byte>, bytes: seq<byte>, got: nat) {
    got <= |stream| && incoming == stream[got..] && bytes == Overlay(mem, 0, stream[..got])
  }

  lemma FillStart(stream: seq<byte>, mem: seq<byte>)
    ensures Filled(stream, mem, stream, mem, 0)
  {
  }

  lemma FillMore(stream: seq<byte>, mem: seq<byte>, incoming: seq<byte>, bytes: seq<byte>, got: nat, n: nat)
    requires Filled(stream, mem, incoming, bytes, got) && n <= |incoming|
    ensures |incoming| == |stream| - got
    ensures Filled(stream, mem, incoming[n..], Overlay(bytes, got, incoming[..n]), got + n)
  {
    OverlayTwice(mem, stream[..got], incoming[..n]);
    assert stream[..got] + incoming[..n] == stream[..got + n];
  }

  /** Nothing read leaves everything as it is. */
  lemma FillNone(incoming: seq<byte>, bytes: seq<byte>, at: nat)
    ensures incoming[0..] == incoming && Overlay(bytes, at, incoming[..0]) == bytes
  {
  }

  lemma GreedyStep(avail: nat, got: nat, limit: nat)
    ensures got >= limit || avail == 0 ==> Greedy(avail, got, limit) == got
    ensures got < limit && avail > 0 ==>
      var c := Min(Unit(limit), avail);
      Greedy(avail, got, limit) == Greedy(avail - c, got + c, limit)
  {
  }

  /** Between two kernel reads of one call: what they have given, and on a prompt socket what
      they are still to give. */
  ghost predicate Midway(stream: seq<byte>, mem: seq<byte>, incoming: seq<byte>, bytes: seq<byte>,
                         chunks: seq<nat>, got: nat, most: nat, prompt: bool) {
    && Reads(chunks, 0, most, |stream|) && got == Sum(chunks)
    && Filled(stream, mem, incoming, bytes, got)
    && (prompt ==> Greedy(|stream|, 0, most) == Greedy(|incoming|, got, most))
  }

  /** One turn of the loop. */
  lemma OneMore(stream: seq<byte>, mem: seq<byte>, incoming: seq<byte>, bytes: seq<byte>,
                chunks: seq<nat>, got: nat, most: nat, prompt: bool, n: nat)
    requires Midway(stream, mem, incoming, bytes, chunks, got, most, prompt) && got < most
    requires 1 <= n <= Min(Min(most, READ_UNIT), |incoming|) && (prompt ==> n == Min(Min(most, READ_UNIT), |incoming|))
    ensures Midway(stream, mem, incoming[n..], Overlay(bytes, got, incoming[..n]), chunks + [n], got + n, most, prompt)
  {
    hide Reads, Sum, Greedy, Filled, Overlay;
    FillMore(stream, mem, incoming, bytes, got, n);
    ReadsAppend(chunks, 0, most, |stream|, n);
    GreedyStep(|incoming|, got, most);
  }

  /** What is known when the loop is left. */
  lemma Stops(stream: seq<byte>, mem: seq<byte>, incoming: seq<byte>, bytes: seq<byte>,
              chunks: seq<nat>, got: nat, most: nat, prompt: bool)
    requires Midway(stream, mem, incoming, bytes, chunks, got, most, prompt)
    ensures Reads(chunks, 0, most, |stream|) && got == Sum(chunks) && Filled(stream, mem, incoming, bytes, got)
    ensures most > 0 ==> got < most + Unit(most)
    ensures prompt && (|incoming| == 0 || got >= most) ==> got == Greedy(|stream|, 0, most)
  {
    ReadBound(chunks, 0, most, |stream|);
    hide Reads, Greedy, Filled;
    GreedyStep(|incoming|, got, most);
  }

  /** A connected socket: `incoming` is what the peer has sent or will send and has not been
      read, `outgoing` what was handed to the kernel. A `prompt` socket gives every read
      min(requested, available) bytes, a `roomy` one takes every write whole. After `incoming`
      the peer closes the connection if `ended`. */
  class Socket {
    var incoming: seq<byte>
    var outgoing: seq<byte>
    const prompt: bool
    const roomy: bool
    const ended: bool

    constructor (incoming: seq<byte>, prompt: bool, roomy: bool, ended: bool)
      ensures this.incoming == incoming && outgoing == []
      ensures this.prompt == prompt && this.roomy == roomy && this.ended == ended
    {
      this.incoming := incoming;
      this.prompt, this.roomy, this.ended := prompt, roomy, ended;
      outgoing := [];
    }

    /** ::read of up to n bytes to position `at` of the buffer's memory: a count, 0 at the end
        of the stream, or -1 (nothing there now, or an error). */
    method RawRead(buffer: ByteBuffer, at: nat, n: nat) returns (ret: int)
      modifies this`incoming, buffer
      ensures -1 <= ret <= Min(n, |old(incoming)|)
      ensures n > 0 && ret == 0 ==> old(incoming) == [] && ended
      ensures prompt && n > 0 ==>
                ret == if old(incoming) != [] then Min(n, |old(incoming)|) else if ended then 0 else -1
      ensures var got := if ret < 0 then 0 else ret;
              && incoming == old(incoming)[got..]
              && buffer.bytes == Overlay(old(buffer.bytes), at, old(incoming)[..got])
    {
      var most := Min(n, |incoming|);
      var fails: bool := *;
      var some: int := *;
      if most == 0 {
        ret := if (n == 0 || ended) && (prompt || !fails) then 0 else -1;
      } else {
        ret := if prompt then most else if 1 <= some <= most then some else -1;
      }
      var got := if ret < 0 then 0 else ret;
      buffer.bytes := Overlay(buffer.bytes, at, incoming[..got]);
      incoming := incoming[got..];
    }

    /** Reads into the buffer from its start. Whatever the kernel does, the bytes taken off
        the stream are in the buffer in order. `chunks` are the kernel's successive counts and
        `last` is its last result: the call goes on until it has as much as it wants, and its
        own result is what it has, or -1 at the end of the stream even if it has something. */
    method Read(buffer: ByteBuffer, limit: nat) returns (n: int, ghost chunks: seq<nat>, ghost last: int)
      modifies this`incoming, buffer
      ensures var most := EffectiveLimit(limit, |old(buffer.bytes)|);
              && Reads(chunks, 0, most, |old(incoming)|)
              && n == (if last == 0 then -1 else Sum(chunks))
              && (if last > 0 then Sum(chunks) >= most else Sum(chunks) < most || Sum(chunks) == most == 0)
              && (most > 0 ==> n < most + Unit(most))
              && (most > 0 && last == 0 ==> incoming == [] && ended)
              && (prompt ==> Sum(chunks) == Greedy(|old(incoming)|, 0, most))
              && (prompt && most > 0 ==> (last == 0 <==> ended && Sum(chunks) < most))
      ensures Filled(old(incoming), old(buffer.bytes), incoming, buffer.bytes, Sum(chunks))
    {
      var most := EffectiveLimit(limit, |buffer.bytes|);
      ghost var stream, mem := incoming, buffer.bytes;
      var sizeRead := 0;
      chunks := [];
      FillStart(stream, mem);
      assert Midway(stream, mem, incoming, buffer.bytes, [], 0, most, prompt);
      hide Midway, Overlay, Greedy, Reads, Sum, Filled, EffectiveLimit, Unit;
      while true
        invariant Midway(stream, mem, incoming, buffer.bytes, chunks, sizeRead, most, prompt)
        invariant sizeRead < most || sizeRead == most == 0
        decreases |incoming|
      {
        ghost var before, was := incoming, buffer.bytes;
        var ret := RawRead(buffer, sizeRead, Min(most, READ_UNIT));
        last := ret;
        FillNone(before, was, sizeRead);
        if ret < 0 {
          Stops(stream, mem, before, was, chunks, sizeRead, most, prompt);
          break;
        } else if ret == 0 {
          Stops(stream, mem, before, was, chunks, sizeRead, most, prompt);
          return -1, chunks, last;
        } else {
          OneMore(stream, mem, before, was, chunks, sizeRead, most, prompt, ret);
          chunks := chunks + [ret];
          sizeRead := sizeRead + ret;
          if sizeRead >= most {
            Stops(stream, mem, incoming, buffer.bytes, chunks, sizeRead, most, prompt);
            break;
          }
        }
      }
      n := sizeRead;
    }

    /** ::write: a count, or not positive on failure. */
    method RawWrite(data: seq<byte>) returns (ret: int)
      modifies this`outgoing
      ensures -1 <= ret <= |data| && (roomy ==> ret == |data|)
      ensures outgoing == old(outgoing) + if ret < 0 then [] else data[..ret]
    {
      ret := *;
      if roomy || !(-1 <= ret <= |data|) {
        ret := |data|;
      }
      outgoing := outgoing + if ret < 0 then [] else data[..ret];
    }

    /** rio_writen: everything is handed over, or the result is 0 and only a proper prefix is. */
    method Write(data: seq<byte>) returns (n: nat, ghost sent: nat)
      modifies this`outgoing
      ensures sent <= |data| && outgoing == old(outgoing) + data[..sent]
      ensures n == if sent == |data| then |data| else 0
      ensures roomy ==> sent == |data|
    {
      var left := |data|;
      var at := 0;
      assert data[..0] == [];
      while left > 0
        invariant 0 <= at <= |data| && at + left == |data|
        invariant outgoing == old(outgoing) + data[..at]
      {
        var written := RawWrite(data[at..]);
        if written <= 0 {
          assert (if written < 0 then [] else data[at..][..written]) == [];
          return 0, at;
        }
        assert data[..at] + data[at..][..written] == data[..at + written];
        left := left - written;
        at := at + written;
      }
      assert data[..at] == data[..|data|];
      n, sent := |data|, |data|;
    }
  }
}
