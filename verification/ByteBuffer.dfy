/** ByteBuffer: a growable list of bytes that integers are appended to in big-endian order. */
module ByteBuffers {
  import opened Bytes

  /** Memory `bytes` after `data` has been copied over it from position `at`; what does not
      fit is not part of the buffer. */
  function Overlay(bytes: seq<byte>, at: nat, data: seq<byte>): (r: seq<byte>)
    ensures |r| == |bytes|
    ensures forall i :: 0 <= i < |r| ==> r[i] == if at <= i < at + |data| then data[i - at] else bytes[i]
  {
    seq(|bytes|, i requires 0 <= i < |bytes| => if at <= i < at + |data| then data[i - at] else bytes[i])
  }

  lemma OverlayPrefix(bytes: seq<byte>, data: seq<byte>, n: nat)
    requires n <= |data| && n <= |bytes|
    ensures Overlay(bytes, 0, data)[..n] == data[..n]
  {
  }

  /** Filling in two goes is filling once with both. */
  lemma OverlayTwice(bytes: seq<byte>, xs: seq<byte>, ys: seq<byte>)
    ensures Overlay(Overlay(bytes, 0, xs), |xs|, ys) == Overlay(bytes, 0, xs + ys)
  {
  }

  /** slice's treatment of an index: negative ones count from the end. */
  function Resolve(ind: int, size: nat): int { if ind < 0 then ind + size else ind }

  /** What slice comes to: a new buffer, a failed assertion, or the construction of a vector
      from an end that lies before its start, which is not defined. */
  datatype Sliced = Sliced(bytes: seq<byte>) | AssertionFails | NotDefined

  function Slice(bytes: seq<byte>, start: int, end: int): (r: Sliced)
    ensures r.Sliced? ==> |r.bytes| <= |bytes|
  {
    var from, to := Resolve(start, |bytes|), Resolve(end, |bytes|);
    if !(0 <= from < |bytes|) || !(0 < to <= |bytes|) then AssertionFails
    else if from > to then NotDefined
    else Sliced(bytes[from..to])
  }

  /** Cutting a buffer inside gives two slices that join to it, also with the cut counted
      from the end. The assertions fail for a slice that would be empty at the end of the
      buffer or that ends at 0; an end before the start passes them. */
  lemma SlicePieces(bytes: seq<byte>, k: nat)
    requires 0 < k < |bytes|
    ensures Slice(bytes, 0, k).Sliced? && Slice(bytes, k, |bytes|).Sliced?
    ensures Slice(bytes, 0, k).bytes + Slice(bytes, k, |bytes|).bytes == bytes
    ensures Slice(bytes, 0, k - |bytes|) == Slice(bytes, 0, k)
    ensures Slice(bytes, k - |bytes|, |bytes|) == Slice(bytes, k, |bytes|)
    ensures Slice(bytes, |bytes|, |bytes|) == Slice(bytes, 0, 0) == AssertionFails
    ensures forall j :: 0 < j < k ==> Slice(bytes, k, j) == NotDefined
    ensures forall j :: k < j < |bytes| ==>
              Slice(bytes, k, j).Sliced?
              && Slice(bytes, 0, k).bytes + Slice(bytes, k, j).bytes == Slice(bytes, 0, j).bytes
  {
    assert bytes[..k] + bytes[k..] == bytes;
    forall j | k < j < |bytes| ensures bytes[..k] + bytes[k..j] == bytes[..j] {
    }
  }

  function Word(a: nat, b: nat, c: nat, d: nat): nat {
    0x100_0000 * a + 0x1_0000 * b + 0x100 * c + d
  }

  class ByteBuffer {
    var bytes: seq<byte>

    constructor (data: seq<byte>)
      ensures bytes == data
    {
      bytes := data;
    }

    method PushBack(data: seq<byte>)
      modifies this
      ensures bytes == old(bytes) + data
    {
      bytes := bytes + data;
    }

    /** write(UShort): the bytes of the host integer, last one first. */
    method WriteUShort(v: nat)
      modifies this
      ensures bytes == old(bytes) + BigEndian(v, 2)
    {
      var data := LittleEndian(v, 2);
      PushBack([data[1]]);
      PushBack([data[0]]);
      ghost var added := [data[1], data[0]];
      assert forall i | 0 <= i < 2 :: added[i] == data[1 - i];
      Reversed(v, 2, added);
      assert bytes == old(bytes) + added;
    }

    /** write(UInt) */
    method WriteUInt(v: nat)
      modifies this
      ensures bytes == old(bytes) + BigEndian(v, 4)
    {
      var data := LittleEndian(v, 4);
      PushBack([data[3]]);
      PushBack([data[2]]);
      PushBack([data[1]]);
      PushBack([data[0]]);
      ghost var added := [data[3], data[2], data[1], data[0]];
      Reversed(v, 4, added);
      assert bytes == old(bytes) + added;
    }

    /** write(ULong) */
    method WriteULong(v: nat)
      modifies this
      ensures bytes == old(bytes) + BigEndian(v, 8)
    {
      var data := LittleEndian(v, 8);
      PushBack([data[7]]);
      PushBack([data[6]]);
      PushBack([data[5]]);
      PushBack([data[4]]);
      PushBack([data[3]]);
      PushBack([data[2]]);
      PushBack([data[1]]);
      PushBack([data[0]]);
      ghost var added := [data[7], data[6], data[5], data[4], data[3], data[2], data[1], data[0]];
      Reversed(v, 8, added);
      assert bytes == old(bytes) + added;
    }

    method Allocate(n: nat)
      modifies this
      ensures |bytes| == n && forall i :: 0 <= i < n ==> bytes[i] == 0
    {
      bytes := seq(n, _ => 0);
    }

    /** operator+ makes a new buffer and leaves both operands alone. */
    method Plus(other: ByteBuffer) returns (sum: ByteBuffer)
      ensures fresh(sum) && sum.bytes == bytes + other.bytes
    {
      sum := new ByteBuffer(bytes + other.bytes);
    }

    /** readUInt: four bytes shifted into place; |= of disjoint bytes is addition. */
    function ReadUInt(pos: nat): (v: nat)
      reads this
      requires pos + 4 <= |bytes|
      ensures v == FromBigEndian(bytes[pos..pos + 4]) < TWO32
    {
      FromFour(bytes[pos..pos + 4]);
      Word(bytes[pos], bytes[pos + 1], bytes[pos + 2], bytes[pos + 3])
    }
  }

  lemma Reversed(v: nat, k: nat, bs: seq<byte>)
    requires |bs| == k && forall i :: 0 <= i < k ==> bs[i] == LittleEndian(v, k)[k - 1 - i]
    ensures bs == BigEndian(v, k)
  {
    forall i | 0 <= i < k ensures bs[i] == BigEndian(v, k)[i] {
      BigEndianReversesLittle(v, k, i);
    }
  }

  lemma FromFour(bs: seq<byte>)
    requires |bs| == 4
    ensures FromBigEndian(bs) == Word(bs[0], bs[1], bs[2], bs[3]) < TWO32
  {
    var b3, b2, b1 := bs[..3], bs[..2], bs[..1];
    assert b3[..2] == b2 && b2[..1] == b1 && b1[..0] == [];
    assert FromBigEndian(b1) == bs[0];
    assert FromBigEndian(b2) == 256 * FromBigEndian(b1) + bs[1];
    assert FromBigEndian(b3) == 256 * FromBigEndian(b2) + bs[2];
  }

  /** readUInt is the inverse of write(UInt), at every position of the buffer. */
  lemma ReadsBackUInt(front: seq<byte>, v: nat, behind: seq<byte>)
    requires v < TWO32
    ensures FromBigEndian((front + BigEndian(v, 4) + behind)[|front|..|front| + 4]) == v
  {
    Ranges();
    BigEndianRoundTrip(v, 4);
    assert (front + BigEndian(v, 4) + behind)[|front|..|front| + 4] == BigEndian(v, 4);
  }
}
