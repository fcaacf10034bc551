/** What becomes of a reply and the file data behind it when its header is read in pieces. */
module ReplyHeaders {
  import opened Bytes
  import opened Options
  import opened Sums
  import opened Parts
  import opened Protocol
  import opened Requests
  import opened Sockets
  import opened Download

  lemma {:induction false} LittleBytes(bs: seq<byte>)
    ensures LittleEndian(FromLittleEndian(bs), |bs|) == bs
  {
    if bs != [] {
      LittleBytes(bs[1..]);
    }
  }

  lemma {:induction false} HighBytes(v: nat, k: nat, j: nat, i: nat)
    requires v < Range(j) && j <= i < k
    ensures LittleEndian(v, k)[i] == 0
    decreases k
  {
    if i > 0 {
      HighBytes(v / 256, k - 1, if j == 0 then 0 else j - 1, i - 1);
    }
  }

  lemma {:induction false} Zeros(bs: seq<byte>)
    requires forall i :: 0 <= i < |bs| ==> bs[i] == 0
    ensures FromLittleEndian(bs) == 0
  {
    if bs != [] {
      Zeros(bs[1..]);
    }
  }

  /** The reply to a request of at most one part, and where its bytes are. */
  lemma HeaderBytes(size: nat, data: seq<byte>)
    requires 0 < size <= PART_SIZE
    ensures var stream, s := ReplyFrame(size) + data, InfoPayload(size);
            && |stream| == 13 + |data| && FromBigEndian(stream[..4]) == 9
            && (forall i :: 0 <= i < 8 ==> stream[5 + i] == s[i]) && s[4] == s[5] == s[6] == s[7] == 0
            && stream[13..] == data
  {
    var m := Message(BINARY, InfoPayload(size));
    FrameParts(m, data);
    var stream := ReplyFrame(size) + data;
    hide FromBigEndian;
    Ranges();
    forall i | 4 <= i < 8 ensures InfoPayload(size)[i] == 0 {
      HighBytes(size, 8, 4, i);
    }
    forall i | 0 <= i < 8 ensures stream[5 + i] == InfoPayload(size)[i] {
      assert stream[4..][1 + i] == InfoPayload(size)[i];
    }
  }

  /** A size field that repeats itself a few bytes further on is 0. */
  lemma ShiftedSize(s: seq<byte>, e: nat)
    requires |s| == 8 && s[4] == s[5] == s[6] == s[7] == 0 && 1 <= e <= 3
    requires forall i :: 0 <= i < 8 - e ==> s[i + e] == s[i]
    ensures FromLittleEndian(s) == 0
  {
    assert s[3 + e] == s[3] && s[2 + e] == s[2] && s[1 + e] == s[1] && s[0 + e] == s[0];
    Zeros(s);
  }

  lemma SizeField(size: nat, data: seq<byte>, a: nat, b: nat)
    requires 0 < size <= PART_SIZE && 4 <= a < 8 && 9 <= b && a + b <= 13 + |data|
    ensures var stream := ReplyFrame(size) + data;
            ReplySize(Message(stream[a], stream[a + 1..a + b])) == Some(size) <==> a == 4
  {
    hide ReplyFrame, InfoPayload, FromLittleEndian, LittleEndian, FromBigEndian;
    HeaderBytes(size, data);
    InfoRoundTrip(size);
    var stream, s := ReplyFrame(size) + data, InfoPayload(size);
    var field := stream[a + 1..a + b][..8];
    assert forall i :: 0 <= i < 8 ==> field[i] == stream[a + 1 + i];
    if a == 4 {
      assert field == s;
    } else if FromLittleEndian(field) == size {
      LittleBytes(field);
      LittleBytes(s);
      assert field == s;
      forall i | 0 <= i < 12 - a ensures s[i + (a - 4)] == s[i] {
        assert stream[5 + (i + (a - 4))] == s[i + (a - 4)];
      }
      ShiftedSize(s, a - 4);
    }
  }

  /** `chunks` are the results of the kernel reads of one call that reaches its limit. */
  ghost predicate Takes(chunks: seq<nat>, limit: nat, avail: int) {
    avail >= 0 && Reads(chunks, 0, limit, avail) && Sum(chunks) >= limit
  }

  /** receiveResponse on a reply with file data behind it, its two reads chunked in any way and
      taking a and b bytes: the size comparison passes exactly when the length was read without
      taking too much, and what is left is the file data exactly when the body was, too. An
      over-read of the body passes the comparison and swallows b - 9 bytes of the file. */
  lemma ChunkedHeader(size: nat, data: seq<byte>, lengthReads: seq<nat>, bodyReads: seq<nat>)
    requires 0 < size <= PART_SIZE && Takes(lengthReads, 4, 13 + |data|)
    requires Takes(bodyReads, 9, 13 + |data| - Sum(lengthReads))
    ensures var stream, a, b := ReplyFrame(size) + data, Sum(lengthReads), Sum(bodyReads);
            && 4 <= a < 8 && 9 <= b < 18 && a + b <= |stream| && FromBigEndian(stream[..4]) == 9
            && var passes := ReplySize(Message(stream[a], stream[a + 1..a + b])) == Some(size);
            && (passes <==> a == 4)
            && (a == 4 ==> stream[a + b..] == data[b - 9..])
            && (passes && stream[a + b..] == data <==> a == 4 && b == 9)
  {
    var stream, a, b := ReplyFrame(size) + data, Sum(lengthReads), Sum(bodyReads);
    ReadBound(lengthReads, 0, 4, 13 + |data|);
    ReadBound(bodyReads, 0, 9, 13 + |data| - a);
    hide *;
    HeaderBytes(size, data);
    SizeField(size, data, a, b);
    BehindHeader(stream, data, a + b);
  }

  lemma BehindHeader(stream: seq<byte>, data: seq<byte>, n: nat)
    requires |stream| == 13 + |data| && stream[13..] == data && 13 <= n <= |stream|
    ensures stream[n..] == data[n - 13..] && (stream[n..] == data <==> n == 13)
  {
    assert stream[n..] == stream[13..][n - 13..];
  }

  /** Neither can be excluded: whatever the file data, some chunking takes too much for the
      length; and some takes too much for the body exactly when there is file data. */
  lemma ChunkingCanSpoil(data: seq<byte>)
    ensures exists chunks :: Takes(chunks, 4, 13 + |data|) && Sum(chunks) == 5
    ensures data != [] <==> exists chunks :: Takes(chunks, 9, 9 + |data|) && Sum(chunks) > 9
  {
    OnesThen(3, 2, 0, 4, 13 + |data|);
    assert Takes(Ones(3) + [2], 4, 13 + |data|);
    if data != [] {
      OnesThen(8, 2, 0, 9, 9 + |data|);
      assert Takes(Ones(8) + [2], 9, 9 + |data|);
    } else if chunks: seq<nat> :| Takes(chunks, 9, 9) && Sum(chunks) > 9 {
      ReadBound(chunks, 0, 9, 9);
    }
  }

  /** What the client would do about a reply with another size, which costs the connection and
      gives the part back as it is. */
  lemma OtherReply(p: Part, th: Thread)
    requires th.pc.AwaitingReply? && HasReply(th.link)
    requires ReplySize(Decode(th.link.down, READ_BUFFER_PER_THREAD).msg) != Some(th.rest)
    ensures DoReply(p, th) == th.(pc := Releasing, link := NoLink)
  {
    hide Decode;
  }
}
