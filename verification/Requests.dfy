/** DOWNLOAD requests: the structures both sides exchange and the server's decision. */
module Requests {
  import opened Bytes
  import opened Protocol

  /** DownloadRequestPacket followed by the file path. */
  function RequestPayload(offset: nat, size: nat, path: seq<byte>): (p: seq<byte>)
    ensures |p| == 16 + |path|
  {
    LittleEndian(offset, 8) + LittleEndian(size, 8) + path
  }

  /** DownloadInfoPacket. */
  function InfoPayload(size: nat): (p: seq<byte>)
    ensures |p| == 8
  {
    LittleEndian(size, 8)
  }

  /** A C string: everything before the first NUL. */
  function CString(bs: seq<byte>): (s: seq<byte>)
  {
    if bs == [] || bs[0] == 0 then [] else [bs[0]] + CString(bs[1..])
  }

  function Text(s: string): seq<byte> {
    seq(|s|, i requires 0 <= i < |s| => s[i] as int % 256)
  }

  function Say(s: string): seq<byte> { Frame(Message(PLAIN_TEXT, Text(s))) }

  /** The server's 64-bit range check, wrap-around included. */
  predicate InRange(offset: nat, size: nat, fileSize: nat) {
    offset <= fileSize && size <= fileSize && (offset + size) % TWO64 <= fileSize
  }

  /** What processDownload does with a packet: nothing, a text reply, or a header followed
      (unless only the information was asked for) by `size` bytes of `file` from `offset`. */
  datatype Answer =
    | Ignored
    | Refused(reply: seq<byte>)
    | Accepted(reply: seq<byte>, file: seq<byte>, offset: nat, size: nat)

  type Files = map<seq<byte>, seq<byte>>

  function AnswerDownload(payload: seq<byte>, infoOnly: bool, files: Files): Answer {
    if |payload| < 16 then Ignored
    else
      var offset := FromLittleEndian(payload[..8]);
      var asked := FromLittleEndian(payload[8..16]);
      var path := CString(payload[16..]);
      if path !in files then Refused(Say("File not exist\n"))
      else
        var file := files[path];
        var size := if asked == 0 then |file| else asked;
        if !InRange(offset, size, |file|) then Refused(Say("Bad file size\n"))
        else
          Accepted(Frame(Message(if infoOnly then DOWNLOAD_INFO_REPLY else BINARY, InfoPayload(size))),
                   file, offset, size)
  }

  /** A C string is what stands before the first NUL, or everything if there is none. */
  lemma {:induction false} CStringIff(bs: seq<byte>, s: seq<byte>)
    ensures s == CString(bs) <==> s <= bs && 0 !in s && (|s| == |bs| || bs[|s|] == 0)
  {
    if bs == [] || bs[0] == 0 {
      if s != [] && s <= bs {
        assert s[0] in s;
      }
    } else if s != [] {
      CStringIff(bs[1..], s[1..]);
      assert s <= bs <==> s[0] == bs[0] && s[1..] <= bs[1..] by {
        if s[0] == bs[0] && s[1..] <= bs[1..] {
          assert s == [bs[0]] + s[1..] && bs == [bs[0]] + bs[1..];
        }
      }
      assert 0 in s <==> s[0] == 0 || 0 in s[1..];
      assert s == [s[0]] + s[1..];
    }
  }

  lemma {:induction false} CStringWhole(s: seq<byte>)
    requires 0 !in s
    ensures CString(s) == s
  {
    if s != [] {
      assert 0 !in s[1..];
      CStringWhole(s[1..]);
    }
  }

  lemma InfoRoundTrip(size: nat)
    requires size < TWO64
    ensures FromLittleEndian(InfoPayload(size)) == size
  {
    Ranges();
    LittleEndianRoundTrip(size, 8);
  }

  lemma RequestFields(offset: nat, size: nat, path: seq<byte>)
    requires offset < TWO64 && size < TWO64 && 0 !in path
    ensures FromLittleEndian(RequestPayload(offset, size, path)[..8]) == offset
    ensures FromLittleEndian(RequestPayload(offset, size, path)[8..16]) == size
    ensures CString(RequestPayload(offset, size, path)[16..]) == path
  {
    Ranges();
    LittleEndianRoundTrip(offset, 8);
    LittleEndianRoundTrip(size, 8);
    CStringWhole(path);
    var p := RequestPayload(offset, size, path);
    assert p[..8] == LittleEndian(offset, 8);
    assert p[8..16] == LittleEndian(size, 8);
    assert p[16..] == path;
  }

  /** A nonempty in-range request is accepted and echoed: it never means "size 0 = whole
      file" and the header carries the requested size. */
  lemma RequestAccepted(offset: nat, size: nat, path: seq<byte>, files: Files)
    requires 0 !in path && path in files && |files[path]| < TWO63
    requires 0 < size && offset + size <= |files[path]|
    ensures AnswerDownload(RequestPayload(offset, size, path), false, files)
         == Accepted(Frame(Message(BINARY, InfoPayload(size))), files[path], offset, size)
  {
    RequestFields(offset, size, path);
    hide RequestPayload, CString, FromLittleEndian, Frame, Text;
  }

  /** The whole answer to every packet, without machine arithmetic. A packet too short for the
      structure gets none; a path that names no readable file and a range that is not inside
      the file get a refusal each; otherwise the header says how much was asked for, which for
      size 0 is the whole file, and only its type depends on whether just that was wanted. */
  lemma AnswerIs(payload: seq<byte>, infoOnly: bool, files: Files)
    requires forall path :: path in files ==> |files[path]| < TWO63
    ensures AnswerDownload(payload, infoOnly, files) == Ignored <==> |payload| < 16
    ensures |payload| >= 16 ==>
              var offset, asked, path :=
                FromLittleEndian(payload[..8]), FromLittleEndian(payload[8..16]), CString(payload[16..]);
              if path !in files then
                AnswerDownload(payload, infoOnly, files)
                == Refused(Frame(Message(PLAIN_TEXT, Text("File not exist\n"))))
              else
                var size := if asked == 0 then |files[path]| else asked;
                AnswerDownload(payload, infoOnly, files) ==
                  if offset + size > |files[path]| then Refused(Frame(Message(PLAIN_TEXT, Text("Bad file size\n"))))
                  else Accepted(Frame(Message(if infoOnly then DOWNLOAD_INFO_REPLY else BINARY, LittleEndian(size, 8))),
                                files[path], offset, size)
  {
    if |payload| >= 16 {
      FieldInRange(payload[..8]);
      FieldInRange(payload[8..16]);
    }
    hide CString, FromLittleEndian, LittleEndian, Frame, Text;
  }

  lemma FieldInRange(bs: seq<byte>)
    requires |bs| == 8
    ensures FromLittleEndian(bs) < TWO64
  {
    Ranges();
    LittleInRange(bs);
  }

  lemma {:induction false} LittleInRange(bs: seq<byte>)
    ensures FromLittleEndian(bs) < Range(|bs|)
  {
    if bs != [] {
      LittleInRange(bs[1..]);
    }
  }

  /** What the server answers for a readable file, stated without machine arithmetic: a
      request is accepted exactly when it is a nonempty range inside the file, or is the
      whole file asked for as (0, 0). */
  lemma AcceptedIff(offset: nat, size: nat, path: seq<byte>, infoOnly: bool, files: Files)
    requires offset < TWO64 && size < TWO64
    requires 0 !in path && path in files && |files[path]| < TWO63
    ensures AnswerDownload(RequestPayload(offset, size, path), infoOnly, files).Accepted?
       <==> if size == 0 then offset == 0 else offset + size <= |files[path]|
  {
    RequestFields(offset, size, path);
    hide RequestPayload, CString, FromLittleEndian, Frame, Text;
    var fileSize := |files[path]|;
    var asked := if size == 0 then fileSize else size;
    assert InRange(offset, asked, fileSize) <==> offset + asked <= fileSize;
  }

  /** The wrapped check equals the mathematical one for every request just when the file is
      shorter than 2^63 bytes. */
  lemma RangeCheckIff(fileSize: nat)
    requires fileSize < TWO64
    ensures (forall offset: nat, size: nat | offset < TWO64 && size < TWO64 ::
              InRange(offset, size, fileSize) <==> offset + size <= fileSize)
       <==> fileSize < TWO63
  {
    if fileSize >= TWO63 {
      assert InRange(TWO63, TWO63, fileSize);
    }
  }

  /** The size a client reads from the answer to "everything of path" is the file's length. */
  lemma InfoIsLength(path: seq<byte>, infoOnly: bool, files: Files, size: nat)
    requires BufferSize(size) && size >= 256
    requires 0 !in path && path in files && forall p :: p in files ==> |files[p]| < TWO63
    ensures var answer := AnswerDownload(RequestPayload(0, 0, path), infoOnly, files);
            && answer.Accepted? && answer.file == files[path] && answer.offset == 0 && answer.size == |files[path]|
            && var d := Decode(answer.reply, size);
            && d.Packet? && d.rest == [] && d.msg.tag == (if infoOnly then DOWNLOAD_INFO_REPLY else BINARY)
            && |d.msg.payload| == 8 && FromLittleEndian(d.msg.payload) == |files[path]|
  {
    RequestFields(0, 0, path);
    AnswerIs(RequestPayload(0, 0, path), infoOnly, files);
    var m := Message(if infoOnly then DOWNLOAD_INFO_REPLY else BINARY, InfoPayload(|files[path]|));
    InfoRoundTrip(|files[path]|);
    hide RequestPayload, CString, FromLittleEndian, LittleEndian, Frame, Text, AnswerDownload, Decode;
    DecodeFrame(m, [], size);
    assert Frame(m) + [] == Frame(m);
  }
}
