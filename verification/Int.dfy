/** UInt32 and UInt16: an unsigned integer kept as big-endian bytes. */
module Ints {
  import opened Bytes

  lemma {:induction false} PrependByte(b: byte, bs: seq<byte>)
    ensures FromBigEndian([b] + bs) == b as nat * Range(|bs|) + FromBigEndian(bs)
  {
    if bs == [] {
      assert [b] + bs == [b] && [b][..0] == [];
    } else {
      var init := bs[..|bs| - 1];
      PrependByte(b, init);
      assert ([b] + bs)[..|bs|] == [b] + init;
      ScaleOnce(b, Range(|init|));
    }
  }

  lemma ScaleOnce(b: nat, r: nat)
    ensures 256 * (b * r) == b * (256 * r)
  {
  }

  lemma MoveByte(v: nat, k: nat, tail: seq<byte>)
    requires k > 0
    ensures BigEndian(v, k) + tail == BigEndian(v / 256, k - 1) + ([v % 256] + tail)
  {
  }

  lemma NoBytes(v: nat, tail: seq<byte>)
    ensures BigEndian(v, 0) + tail == tail
  {
  }

  /** uintToBytes, for 4 or 2 bytes: the low bytes, filled in from the last position. */
  method UintToBytes(val: nat, bytes: array<byte>)
    requires bytes.Length == 4 || bytes.Length == 2
    modifies bytes
    ensures bytes[..] == BigEndian(val, bytes.Length)
  {
    var n := bytes.Length;
    var v := val;
    ghost var done: seq<byte> := [];
    assert BigEndian(v, n) + [] == BigEndian(v, n);
    hide *;
    for i := 0 to n
      invariant |done| == i && forall k :: n - i <= k < n ==> bytes[k] == done[k - (n - i)]
      invariant BigEndian(v, n - i) + done == BigEndian(val, n)
    {
      MoveByte(v, n - i, done);
      bytes[n - 1 - i] := v % 256;
      done := [v % 256] + done;
      v := v / 256;
    }
    NoBytes(v, done);
    assert bytes[..] == done;
  }

  /** byteToUint, for 4 or 2 bytes: each byte is shifted to its place and or-ed in, which for
      places not yet filled is addition. */
  method ByteToUint(bytes: array<byte>) returns (val: nat)
    requires bytes.Length == 4 || bytes.Length == 2
    ensures val == FromBigEndian(bytes[..]) < Range(bytes.Length)
  {
    var n := bytes.Length;
    val := 0;
    ghost var done: seq<byte> := [];
    assert FromBigEndian(done) == 0;
    hide *;
    for i := 0 to n
      invariant |done| == i && forall k :: n - i <= k < n ==> bytes[k] == done[k - (n - i)]
      invariant val == FromBigEndian(done)
    {
      PrependByte(bytes[n - 1 - i], done);
      val := val + bytes[n - 1 - i] as nat * Range(i);
      done := [bytes[n - 1 - i]] + done;
    }
    assert bytes[..] == done;
    FromBigEndianRange(done);
  }

  /** Assigning an integer to a UInt32 or UInt16 and reading it back. */
  method StoreLoad(val: nat, bytes: array<byte>) returns (back: nat)
    requires bytes.Length == 4 || bytes.Length == 2
    modifies bytes
    ensures back == val % Range(bytes.Length)
  {
    UintToBytes(val, bytes);
    back := ByteToUint(bytes);
    LowBytes(val, bytes.Length);
  }

  /** The big-endian bytes of any integer, wide or not, are its value modulo 256^k. */
  lemma {:induction false} LowBytes(v: nat, k: nat)
    ensures FromBigEndian(BigEndian(v, k)) == v % Range(k)
  {
    if k > 0 {
      LowBytes(v / 256, k - 1);
      assert BigEndian(v, k)[..k - 1] == BigEndian(v / 256, k - 1);
      NestedMod(v, Range(k - 1));
    }
  }

  lemma NestedMod(v: nat, r: nat)
    requires r > 0
    ensures v % (256 * r) == 256 * (v / 256 % r) + v % 256
  {
    var q := v / 256;
    var e := q / r;
    assert q == e * r + q % r;
    assert v == 256 * q + v % 256;
    assert v == (256 * r) * e + (256 * (q % r) + v % 256) by {
      assert 256 * (e * r) == (256 * r) * e;
    }
    ModUnique(v, 256 * r, e, 256 * (q % r) + v % 256);
  }

  lemma ModUnique(v: nat, m: nat, e: nat, x: nat)
    requires m > 0 && v == m * e + x && x < m
    ensures v % m == x
  {
    var d := v / m - e;
    assert v == m * (v / m) + v % m;
    assert m * d == x - v % m by {
      assert m * d == m * (v / m) - m * e;
    }
  }
}
