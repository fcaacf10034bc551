/** Printing a ByteBuffer (operator<<) and reading it back (ByteBuffer::hex). */
module Hex {
  import opened Bytes
  import opened ByteBuffers
  import opened Options

  const DIGITS: string := "0123456789abcdef"

  /** The digits in order, letters in lower case. */
  lemma DigitsInOrder(d: nat)
    requires d < 16
    ensures |DIGITS| == 16 && DIGITS[d] as int == if d < 10 then '0' as int + d else 'a' as int + d - 10
  {
  }

  /** toHexString: two lower-case digits, zero filled. */
  function HexByte(b: byte): (s: string)
    ensures |s| == 2
  {
    [DIGITS[b / 16], DIGITS[b % 16]]
  }

  function HexText(bs: seq<byte>): string {
    if bs == [] then "" else if |bs| == 1 then HexByte(bs[0]) else HexByte(bs[0]) + " " + HexText(bs[1..])
  }

  lemma {:induction false} HexTextAppend(bs: seq<byte>, b: byte)
    ensures HexText(bs + [b]) == HexText(bs) + (if bs == [] then "" else " ") + HexByte(b)
  {
    hide HexByte;
    if bs == [] {
      assert bs + [b] == [b];
    } else {
      HexTextAppend(bs[1..], b);
      assert (bs + [b])[0] == bs[0] && (bs + [b])[1..] == bs[1..] + [b];
    }
  }

  /** Printed text, place by place: two digits a byte, single spaces between. */
  lemma {:induction false} HexTextAt(bs: seq<byte>)
    ensures |HexText(bs)| == if bs == [] then 0 else 3 * |bs| - 1
    ensures forall i :: 0 <= i < |bs| ==>
              && HexText(bs)[3 * i] == DIGITS[bs[i] / 16] && HexText(bs)[3 * i + 1] == DIGITS[bs[i] % 16]
              && (i > 0 ==> HexText(bs)[3 * i - 1] == ' ')
  {
    if |bs| > 1 {
      HexTextAt(bs[1..]);
      var text, tail := HexText(bs), HexText(bs[1..]);
      forall i | 1 <= i < |bs|
        ensures text[3 * i] == DIGITS[bs[i] / 16] && text[3 * i + 1] == DIGITS[bs[i] % 16] && text[3 * i - 1] == ' '
      {
        assert bs[1..][i - 1] == bs[i];
        assert text[3 * i] == tail[3 * (i - 1)] && text[3 * i + 1] == tail[3 * (i - 1) + 1];
        if i > 1 {
          assert text[3 * i - 1] == tail[3 * (i - 1) - 1];
        }
      }
    }
  }

  /** operator<< */
  method Print(buffer: ByteBuffer) returns (out: string)
    ensures out == HexText(buffer.bytes)
  {
    out := "";
    for i := 0 to |buffer.bytes|
      invariant out == HexText(buffer.bytes[..i])
    {
      if i > 0 {
        out := out + " ";
      }
      out := out + HexByte(buffer.bytes[i]);
      HexTextAppend(buffer.bytes[..i], buffer.bytes[i]);
      assert buffer.bytes[..i] + [buffer.bytes[i]] == buffer.bytes[..i + 1];
    }
    assert buffer.bytes[..|buffer.bytes|] == buffer.bytes;
  }

  // stringstream >> std::hex >> UInt

  predicate IsSpace(c: char) { c == ' ' || '\t' <= c <= '\r' }

  function SkipSpace(s: string): (t: string)
    ensures |t| <= |s|
  {
    if s != "" && IsSpace(s[0]) then SkipSpace(s[1..]) else s
  }

  predicate IsHex(c: char) { '0' <= c <= '9' || 'a' <= c <= 'f' || 'A' <= c <= 'F' }

  function DigitValue(c: char): nat
    requires IsHex(c)
  {
    if c <= '9' then c as int - '0' as int
    else if c <= 'F' then c as int - 'A' as int + 10
    else c as int - 'a' as int + 10
  }

  function HexRun(s: string): (n: nat)
    ensures n <= |s| && forall i :: 0 <= i < n ==> IsHex(s[i])
  {
    if s == "" || !IsHex(s[0]) then 0 else 1 + HexRun(s[1..])
  }

  function HexValue(s: string): nat
    requires forall i :: 0 <= i < |s| ==> IsHex(s[i])
  {
    if s == "" then 0 else 16 * HexValue(s[..|s| - 1]) + DigitValue(s[|s| - 1])
  }

  predicate Signed(s: string) { s != "" && (s[0] == '+' || s[0] == '-') }
  predicate Prefixed(s: string) { |s| >= 2 && s[0] == '0' && (s[1] == 'x' || s[1] == 'X') }

  /** One extraction: white space, an optional sign and 0x, then digits. It fails without
      digits or past 32 bits; a minus sign negates modulo 2^32. */
  function Extract(s: string): (r: Option<(nat, string)>)
    ensures r.Some? ==> |r.value.1| < |s|
  {
    var t := SkipSpace(s);
    var unsigned := if Signed(t) then t[1..] else t;
    var digits := if Prefixed(unsigned) then unsigned[2..] else unsigned;
    var n := HexRun(digits);
    if n == 0 || HexValue(digits[..n]) >= TWO32 then None
    else
      var v := HexValue(digits[..n]);
      Some((if Signed(t) && t[0] == '-' then (TWO32 - v) % TWO32 else v, digits[n..]))
  }

  /** The low bytes of the numbers in s, up to the first thing that is not a number. */
  function HexParse(s: string): seq<byte>
    decreases |s|
  {
    match Extract(s)
    case None => []
    case Some((v, rest)) => [v % 256] + HexParse(rest)
  }

  /** ByteBuffer::hex */
  method Parse(str: string) returns (result: ByteBuffer)
    ensures fresh(result) && result.bytes == HexParse(str)
  {
    hide Extract;
    result := new ByteBuffer([]);
    var stream := str;
    var cur := Extract(stream);
    while cur.Some?
      invariant cur == Extract(stream)
      invariant fresh(result) && result.bytes + HexParse(stream) == HexParse(str)
      decreases |stream|
    {
      result.PushBack([cur.value.0 % 256]);
      stream := cur.value.1;
      cur := Extract(stream);
    }
  }

  // The round trip

  lemma {:induction false} RunOfDigits(digits: string, tail: string)
    requires forall i :: 0 <= i < |digits| ==> IsHex(digits[i])
    requires tail == "" || !IsHex(tail[0])
    ensures HexRun(digits + tail) == |digits|
  {
    if digits == "" {
      assert digits + tail == tail;
    } else {
      RunOfDigits(digits[1..], tail);
      assert (digits + tail)[1..] == digits[1..] + tail;
    }
  }

  lemma ByteValue(b: byte)
    ensures forall i :: 0 <= i < 2 ==> IsHex(HexByte(b)[i])
    ensures HexValue(HexByte(b)) == b
  {
    var s := HexByte(b);
    assert s[..1] == [s[0]] && s[..1][..0] == "";
    assert HexValue(s[..1]) == DigitValue(s[0]);
    assert DigitValue(s[0]) == b / 16 && DigitValue(s[1]) == b % 16;
  }

  lemma {:induction false} SkipsSpaces(spaces: string, s: string)
    requires forall i :: 0 <= i < |spaces| ==> IsSpace(spaces[i])
    requires s != "" && !IsSpace(s[0])
    ensures SkipSpace(spaces + s) == s
  {
    if spaces == "" {
      assert spaces + s == s;
    } else {
      SkipsSpaces(spaces[1..], s);
      assert (spaces + s)[1..] == spaces[1..] + s;
    }
  }

  /** The value of a digit, whichever its case. */
  lemma DigitValues(d: nat)
    requires d < 16
    ensures d < 10 ==> IsHex(('0' as int + d) as char) && DigitValue(('0' as int + d) as char) == d
    ensures d >= 10 ==>
              && IsHex(('a' as int + d - 10) as char) && DigitValue(('a' as int + d - 10) as char) == d
              && IsHex(('A' as int + d - 10) as char) && DigitValue(('A' as int + d - 10) as char) == d
  {
  }

  /** No sign, and 0x exactly if it was put there. */
  lemma NumberStart(prefix: string, digits: string, tail: string)
    requires prefix == "" || prefix == "0x" || prefix == "0X"
    requires digits != "" && forall i :: 0 <= i < |digits| ==> IsHex(digits[i])
    requires tail == "" || (tail[0] != 'x' && tail[0] != 'X')
    ensures var s := prefix + (digits + tail);
            && s != "" && !IsSpace(s[0]) && !Signed(s)
            && (Prefixed(s) <==> prefix != "") && (Prefixed(s) ==> s[2..] == digits + tail)
            && (prefix == "" ==> s == digits + tail)
  {
    var s := prefix + (digits + tail);
    if prefix == "" {
      assert s == digits + tail && s[0] == digits[0];
      assert |s| >= 2 ==> s[1] == if |digits| >= 2 then digits[1] else tail[0];
      assert |digits| >= 2 ==> IsHex(digits[1]);
    } else {
      assert s[0] == prefix[0] && s[1] == prefix[1] && s[2..] == digits + tail;
    }
  }

  lemma DigitsAndTail(digits: string, tail: string)
    ensures (digits + tail)[..|digits|] == digits && (digits + tail)[|digits|..] == tail
  {
  }

  /** The first digit counts most. */
  lemma {:induction false} FirstDigit(c: char, s: string)
    requires IsHex(c) && forall i :: 0 <= i < |s| ==> IsHex(s[i])
    ensures forall i :: 0 <= i < |[c] + s| ==> IsHex(([c] + s)[i])
    ensures HexValue([c] + s) == DigitValue(c) * Power16(|s|) + HexValue(s)
    decreases |s|
  {
    hide DigitValue;
    if s == "" {
      assert [c] + s == [c] && [c][..0] == "";
      assert HexValue([c]) == 16 * HexValue("") + DigitValue(c);
    } else {
      var init := s[..|s| - 1];
      FirstDigit(c, init);
      assert ([c] + s)[..|s|] == [c] + init;
      var d, p := DigitValue(c), Power16(|init|);
      assert 16 * (d * p) == d * (16 * p);
    }
  }

  function Power16(n: nat): nat { if n == 0 then 1 else 16 * Power16(n - 1) }

  /** A number is extracted with the white space before it, in any case of its digits and with an
      optional sign and 0x, up to the first character that is no digit. It has to fit 32 bits,
      and a minus sign negates it modulo 2^32. */
  lemma ExtractNumber(spaces: string, sign: string, prefix: string, digits: string, tail: string)
    requires forall i :: 0 <= i < |spaces| ==> IsSpace(spaces[i])
    requires sign in {"", "+", "-"} && prefix in {"", "0x", "0X"}
    requires digits != "" && forall i :: 0 <= i < |digits| ==> IsHex(digits[i])
    requires tail == "" || (!IsHex(tail[0]) && tail[0] != 'x' && tail[0] != 'X')
    ensures var v := HexValue(digits);
            Extract(spaces + (sign + (prefix + (digits + tail)))) ==
              if v >= TWO32 then None else Some((if sign == "-" then (TWO32 - v) % TWO32 else v, tail))
  {
    hide *;
    var number := prefix + (digits + tail);
    NumberStart(prefix, digits, tail);
    SignFirst(sign, number);
    SkipsSpaces(spaces, sign + number);
    RunOfDigits(digits, tail);
    ExtractParts(spaces + (sign + number), sign + number, number, digits, tail);
  }

  lemma ExtractParts(s: string, t: string, number: string, digits: string, tail: string)
    requires SkipSpace(s) == t && number == (if Signed(t) then t[1..] else t)
    requires (if Prefixed(number) then number[2..] else number) == digits + tail
    requires digits != "" && (forall i :: 0 <= i < |digits| ==> IsHex(digits[i])) && HexRun(digits + tail) == |digits|
    ensures Extract(s) ==
              var v := HexValue(digits);
              if v >= TWO32 then None else Some((if Signed(t) && t[0] == '-' then (TWO32 - v) % TWO32 else v, tail))
  {
    hide HexRun, HexValue, SkipSpace, IsSpace, IsHex;
    DigitsAndTail(digits, tail);
  }

  lemma SignFirst(sign: string, s: string)
    requires sign in {"", "+", "-"} && s != "" && !IsSpace(s[0]) && !Signed(s)
    ensures sign + s != "" && !IsSpace((sign + s)[0])
    ensures Signed(sign + s) <==> sign != ""
    ensures sign == "" ==> sign + s == s
    ensures sign != "" ==> (sign + s)[1..] == s && (sign + s)[0] == sign[0]
  {
    if sign == "" {
      assert sign + s == s;
    }
  }

  /** Where no number begins nothing is extracted. */
  lemma ExtractNothing(spaces: string, tail: string)
    requires forall i :: 0 <= i < |spaces| ==> IsSpace(spaces[i])
    requires tail == "" || (!IsSpace(tail[0]) && !Signed(tail) && !IsHex(tail[0]))
    ensures Extract(spaces + tail) == None && HexParse(spaces + tail) == []
  {
    if tail == "" {
      OnlySpaces(spaces);
      assert spaces + tail == spaces;
    } else {
      SkipsSpaces(spaces, tail);
    }
  }

  lemma {:induction false} OnlySpaces(spaces: string)
    requires forall i :: 0 <= i < |spaces| ==> IsSpace(spaces[i])
    ensures SkipSpace(spaces) == ""
  {
    if spaces != "" {
      OnlySpaces(spaces[1..]);
    }
  }

  /** Of a number only the low byte is kept, and parsing goes on behind it. */
  lemma ParseNumber(spaces: string, sign: string, prefix: string, digits: string, tail: string)
    requires forall i :: 0 <= i < |spaces| ==> IsSpace(spaces[i])
    requires sign in {"", "+", "-"} && prefix in {"", "0x", "0X"}
    requires digits != "" && forall i :: 0 <= i < |digits| ==> IsHex(digits[i])
    requires tail == "" || (!IsHex(tail[0]) && tail[0] != 'x' && tail[0] != 'X')
    ensures HexParse(spaces + (sign + (prefix + (digits + tail)))) ==
              if HexValue(digits) >= TWO32 then []
              else [if sign == "-" then (256 - HexValue(digits) % 256) % 256 else HexValue(digits) % 256]
                   + HexParse(tail)
  {
    ExtractNumber(spaces, sign, prefix, digits, tail);
    hide Extract, HexValue, IsSpace, IsHex;
    if sign == "-" && HexValue(digits) < TWO32 {
      LowByteOfNegative(HexValue(digits));
    }
  }

  lemma LowByteOfNegative(v: nat)
    requires v < TWO32
    ensures (TWO32 - v) % TWO32 % 256 == (256 - v % 256) % 256
  {
  }

  lemma ExtractByte(b: byte, tail: string)
    requires tail == "" || tail[0] == ' '
    ensures Extract(HexByte(b) + tail) == Some((b as nat, tail))
  {
    var digits := HexByte(b);
    var s := digits + tail;
    ByteValue(b);
    RunOfDigits(digits, tail);
    assert s[0] == digits[0] && s[1] == digits[1];
    assert s[..2] == digits && s[2..] == tail;
    hide HexByte, HexRun, HexValue;
  }

  lemma SkipLeading(s: string)
    ensures SkipSpace(" " + s) == SkipSpace(s)
  {
    assert (" " + s)[1..] == s;
  }

  lemma LeadingSpace(s: string)
    ensures HexParse(" " + s) == HexParse(s)
  {
    SkipLeading(s);
    hide SkipSpace, HexRun, HexValue;
    assert Extract(" " + s) == Extract(s);
  }

  lemma ParseStep(s: string, v: nat, rest: string)
    requires |rest| < |s| && Extract(s) == Some((v, rest))
    ensures HexParse(s) == [v % 256] + HexParse(rest)
  {
    hide Extract;
  }

  lemma ParseByte(b: byte, tail: string)
    requires tail == "" || tail[0] == ' '
    ensures HexParse(HexByte(b) + tail) == [b] + HexParse(tail)
  {
    hide *;
    ExtractByte(b, tail);
    ParseStep(HexByte(b) + tail, b, tail);
  }

  /** Hex round trip: what operator<< prints, hex reads back, for every buffer. */
  lemma {:induction false} PrintParse(bs: seq<byte>)
    ensures HexParse(HexText(bs)) == bs
  {
    if |bs| == 1 {
      ParseByte(bs[0], "");
      hide HexByte, Extract;
      assert HexByte(bs[0]) + "" == HexByte(bs[0]);
    } else if |bs| > 1 {
      PrintParse(bs[1..]);
      var tail := " " + HexText(bs[1..]);
      assert HexText(bs) == HexByte(bs[0]) + tail;
      hide *;
      ParseByte(bs[0], tail);
      LeadingSpace(HexText(bs[1..]));
    }
  }
}
