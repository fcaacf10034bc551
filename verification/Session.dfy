/** The server side of one connection: Session, and the listener that epoll wakes for it. */
module Sessions {
  import opened Bytes
  import opened ByteBuffers
  import opened Options
  import opened Protocol
  import opened Requests
  import opened Sockets
  import opened StringUtil
  import opened Transfers

  /** FileProcess: an open file, its position, and the bytes still to send. */
  datatype FileProcess = FileProcess(file: seq<byte>, pos: nat, rest: nat) {
    predicate Sound() { pos + rest <= |file| }
  }

  datatype Interest = In | Out

  /** The events a session waits for between calls. */
  function InterestOf(status: Status): Option<Interest> {
    match status
    case READING => Some(In)
    case WRITING => Some(Out)
    case END => None
  }

  /** What the session does about a packet. */
  datatype Effect =
    | Hangs                              // not a packet of the protocol: END, nothing sent
    | Talks(bye: bool, said: Option<seq<byte>>) // a text, known but for listings; END only for quit
    | Crashes                            // a command without a word: cmds[0] does not exist
    | Does(answer: Answer, info: bool)   // a DOWNLOAD or DOWNLOAD_INFO

  function TextOf(bs: seq<byte>): string {
    seq(|bs|, i requires 0 <= i < |bs| => bs[i] as char)
  }

  predicate IsQuit(cmd: string) { cmd == "quit" || cmd == "q" }

  predicate IsList(word: string) { word == "ls" || word == "list" }

  function CommandEffect(payload: seq<byte>): Effect {
    var cmd := TextOf(CString(payload));
    var cmds := Words(cmd, " ");
    if IsQuit(cmd) then Talks(true, Some(Say("Bye\n")))
    else if cmds == [] then Crashes
    else if IsList(cmds[0]) then
      Talks(false, if |cmds| != 2 then Some(Say("list command takes exact 1 params!\n")) else None)
    else if cmd == "shutdown" then Talks(false, Some(Say("Shutdown server...\n")))
    else Talks(false, Some(Say("Unrecognised command: " + cmd + "\n")))
  }

  function EffectOf(m: Message, files: Files): Effect {
    if m.tag == COMMAND then CommandEffect(m.payload)
    else if m.tag == DOWNLOAD then Does(AnswerDownload(m.payload, false, files), false)
    else if m.tag == DOWNLOAD_INFO then Does(AnswerDownload(m.payload, true, files), true)
    else Hangs
  }

  /** `out` continues `before` with a prefix of `reply`: a write can fail half way and its
      result is ignored. It is the whole reply if the socket has room. */
  ghost predicate SentSome(roomy: bool, before: seq<byte>, out: seq<byte>, reply: seq<byte>) {
    if roomy then out == before + reply else exists k: nat :: k <= |reply| && out == before + reply[..k]
  }

  /** The session after an effect: its status, its transfer and what was sent. */
  ghost predicate Took(roomy: bool, e: Effect, process: Option<FileProcess>, before: seq<byte>,
                       status: Status, process': Option<FileProcess>, out: seq<byte>)
  {
    match e
    case Hangs => status == END && process' == process && out == before
    case Talks(bye, said) =>
      && status == (if bye then END else READING) && process' == process
      && (if said.Some? then SentSome(roomy, before, out, said.value) else before < out || (before == out && !roomy))
    case Crashes => true
    case Does(Ignored, _) => status == READING && process' == process && out == before
    case Does(Refused(reply), _) => status == READING && process' == process && SentSome(roomy, before, out, reply)
    case Does(Accepted(reply, file, offset, size), info) =>
      && SentSome(roomy, before, out, reply)
      && if info then status == READING && process' == process
         else status == WRITING && process' == Some(FileProcess(file, offset, size))
  }

  // The server's end of a connection of the download machine

  function ReplyOf(answer: Answer): seq<byte> {
    match answer
    case Ignored => []
    case Refused(reply) => reply
    case Accepted(reply, _, _, _) => reply
  }

  /** What a session in this state is to the client's connection. */
  function LinkAfter(up: seq<byte>, out: seq<byte>, status: Status, process: Option<FileProcess>): Download.Link {
    Download.LiveLink(up, out,
      if status == WRITING && process.Some? && process.value.rest > 0
      then Download.Sending(process.value.pos, process.value.rest) else Download.Reading)
  }

  /** Acting on a DOWNLOAD packet with the reply sent whole is the Serve step of the download
      machine. */
  lemma ServeIsReact(roomy: bool, l: Download.Link, job: Download.Job, process: Option<FileProcess>,
                     status: Status, process': Option<FileProcess>, out: seq<byte>)
    requires Download.HasRequest(l)
    requires var e := EffectOf(Decode(l.up, Download.SERVER_READ_BUFFER).msg, map[job.path := job.src]);
             e.Does? && Took(roomy, e, process, l.down, status, process', out) && out == l.down + ReplyOf(e.answer)
    ensures Download.React(l, job) == LinkAfter(Decode(l.up, Download.SERVER_READ_BUFFER).rest, out, status, process')
  {
    hide AnswerDownload, SentSome, Decode;
    assert l.down + [] == l.down;
  }

  // What a packet means, in the protocol's own terms

  /** What was sent since `before`: the frame, or with a socket short of room a prefix of it. */
  ghost predicate Framed(roomy: bool, before: seq<byte>, out: seq<byte>, tag: byte, payload: seq<byte>) {
    var frame := Frame(Message(tag, payload));
    before <= out && if roomy then out == before + frame else out <= before + frame
  }

  lemma SentFrame(roomy: bool, before: seq<byte>, out: seq<byte>, tag: byte, payload: seq<byte>)
    requires SentSome(roomy, before, out, Frame(Message(tag, payload)))
    ensures Framed(roomy, before, out, tag, payload)
  {
    hide Frame;
    var reply := Frame(Message(tag, payload));
    if !roomy {
      var k: nat :| k <= |reply| && out == before + reply[..k];
      assert before + reply == before + reply[..k] + reply[k..];
    }
  }

  /** A packet with a request for a range of a readable file: DOWNLOAD starts the transfer of
      exactly that range, DOWNLOAD_INFO only says how long it is; size 0 means the whole file.
      Outside the file there is a refusal and no transfer. */
  lemma FilePacket(roomy: bool, m: Message, files: Files, process: Option<FileProcess>, before: seq<byte>,
                   status: Status, process': Option<FileProcess>, out: seq<byte>)
    requires forall path :: path in files ==> |files[path]| < TWO63
    requires (m.tag == 1 || m.tag == 2) && |m.payload| >= 16 && CString(m.payload[16..]) in files
    requires Took(roomy, EffectOf(m, files), process, before, status, process', out)
    ensures var offset, asked := FromLittleEndian(m.payload[..8]), FromLittleEndian(m.payload[8..16]);
            var file := files[CString(m.payload[16..])];
            var size := if asked == 0 then |file| else asked;
            && before <= out
            && (offset + size <= |file| ==> Framed(roomy, before, out, m.tag, LittleEndian(size, 8)))
            && (offset + size <= |file| && m.tag == 1 ==>
                  status == WRITING && process' == Some(FileProcess(file, offset, size)))
            && (offset + size > |file| || m.tag == 2 ==> status == READING && process' == process)
            && (offset + size > |file| ==> Framed(roomy, before, out, 0, Text("Bad file size\n")))
  {
    AnswerIs(m.payload, m.tag == 2, files);
    hide AnswerDownload, CString, FromLittleEndian, LittleEndian, Text, SentSome, Frame, CommandEffect, Framed;
    var offset, asked := FromLittleEndian(m.payload[..8]), FromLittleEndian(m.payload[8..16]);
    var file := files[CString(m.payload[16..])];
    var size := if asked == 0 then |file| else asked;
    if offset + size <= |file| {
      SentFrame(roomy, before, out, m.tag, LittleEndian(size, 8));
    } else {
      SentFrame(roomy, before, out, 0, Text("Bad file size\n"));
    }
  }

  /** The other packets: one without a structure is passed over, a file that is not there is
      refused, and a packet of another type ends the session. */
  lemma OtherPacket(roomy: bool, m: Message, files: Files, process: Option<FileProcess>, before: seq<byte>,
                    status: Status, process': Option<FileProcess>, out: seq<byte>)
    requires forall path :: path in files ==> |files[path]| < TWO63
    requires m.tag != 0 && Took(roomy, EffectOf(m, files), process, before, status, process', out)
    ensures m.tag > 2 ==> status == END && process' == process && out == before
    ensures m.tag <= 2 && |m.payload| < 16 ==> status == READING && process' == process && out == before
    ensures m.tag <= 2 && |m.payload| >= 16 && CString(m.payload[16..]) !in files ==>
              && status == READING && process' == process && before <= out
              && Framed(roomy, before, out, 0, Text("File not exist\n"))
  {
    AnswerIs(m.payload, m.tag == 2, files);
    hide AnswerDownload, CString, FromLittleEndian, LittleEndian, Text, SentSome, Frame, CommandEffect, Framed;
    if m.tag <= 2 && |m.payload| >= 16 && CString(m.payload[16..]) !in files {
      SentFrame(roomy, before, out, 0, Text("File not exist\n"));
    }
  }

  /** Commands that a client can type: bytes without NUL. */
  predicate Plain(cmd: string) {
    forall i :: 0 <= i < |cmd| ==> 0 < cmd[i] as int < 256
  }

  lemma TextRoundTrip(cmd: string)
    requires Plain(cmd)
    ensures TextOf(CString(Text(cmd))) == cmd
    ensures |Text(cmd)| == |cmd| && forall i :: 0 <= i < |cmd| ==> Text(cmd)[i] == cmd[i] as int
  {
    CStringWhole(Text(cmd));
  }

  /** What a COMMAND does, by what was typed: quit and q end the session, nothing else does. */
  lemma CommandPacket(roomy: bool, cmd: string, files: Files, process: Option<FileProcess>, before: seq<byte>,
                      status: Status, process': Option<FileProcess>, out: seq<byte>)
    requires Plain(cmd)
    requires var e := EffectOf(Message(0, Text(cmd)), files);
             !e.Crashes? && Took(roomy, e, process, before, status, process', out)
    ensures process' == process && before <= out
    ensures status == if cmd == "quit" || cmd == "q" then END else READING
    ensures cmd == "quit" || cmd == "q" ==> Framed(roomy, before, out, 0, Text("Bye\n"))
    ensures cmd == "shutdown" ==> Framed(roomy, before, out, 0, Text("Shutdown server...\n"))
    ensures var cmds := Words(cmd, " ");
            cmd !in {"quit", "q", "shutdown"} && cmds != [] && cmds[0] !in {"ls", "list"} ==>
              Framed(roomy, before, out, 0, Text("Unrecognised command: " + cmd + "\n"))
    ensures var cmds := Words(cmd, " ");
            cmd !in {"quit", "q"} && cmds != [] && cmds[0] in {"ls", "list"} && |cmds| != 2 ==>
              Framed(roomy, before, out, 0, Text("list command takes exact 1 params!\n"))
  {
    TextRoundTrip(cmd);
    hide AnswerDownload, CString, Text, SentSome, Frame, Words, TextOf, Framed;
    var e := EffectOf(Message(0, Text(cmd)), files);
    if e.said.Some? {
      SaidSome(roomy, before, out, e.said.value);
    }
    if cmd == "quit" || cmd == "q" {
      SentFrame(roomy, before, out, 0, Text("Bye\n"));
    } else if cmd == "shutdown" {
      OneWord();
      SentFrame(roomy, before, out, 0, Text("Shutdown server...\n"));
    } else if !IsList(Words(cmd, " ")[0]) {
      SentFrame(roomy, before, out, 0, Text("Unrecognised command: " + cmd + "\n"));
    } else if |Words(cmd, " ")| != 2 {
      SentFrame(roomy, before, out, 0, Text("list command takes exact 1 params!\n"));
    }
  }

  /** The command without a word that the server stumbles over: nothing but spaces. */
  lemma CrashIff(cmd: string, files: Files)
    requires Plain(cmd)
    ensures EffectOf(Message(0, Text(cmd)), files).Crashes? <==> forall c :: c in cmd ==> c == ' '
  {
    TextRoundTrip(cmd);
    NoWords(cmd, " ");
    hide CString, Text, Words, TextOf, AnswerDownload;
    if IsQuit(cmd) {
      assert 'q' in cmd by { assert cmd[0] == 'q'; }
    }
    assert forall c :: c in " " <==> c == ' ';
  }

  lemma SaidSome(roomy: bool, before: seq<byte>, out: seq<byte>, reply: seq<byte>)
    requires SentSome(roomy, before, out, reply)
    ensures before <= out
  {
  }

  lemma Longer(text: string)
    ensures Say(text) != []
  {
  }

  lemma OneWord()
    ensures Words("shutdown", " ") == ["shutdown"]
  {
    JoinSplitIff(["shutdown"]);
    assert Join(["shutdown"]) == "shutdown";
  }

  /** A session and its connection as values. */
  datatype Snapshot = Snapshot(status: Status, process: Option<FileProcess>, incoming: seq<byte>, outgoing: seq<byte>) {
    /** The fields of a transfer. */
    function Transfer(): Transfer
      requires process.Some?
    {
      Transfers.Transfer.Transfer(process.value.file, process.value.pos, process.value.rest, status, outgoing)
    }
  }

  /** The READING half of handle with a buffer of `size` bytes: at most one packet is taken and
      acted on. It is made of the bytes taken last off the connection. `crashed` is a failed
      assertion of slice, which takes more bytes than the buffer holds, or the first word of a
      command that has none. Without a packet the session ends exactly at the end of the stream
      (`last` is the kernel's last result) and otherwise goes on reading. With full-chunk reads
      the packet is Decode, the end is met exactly when the peer has closed and less than a whole
      body is there, and a crash is a command without a word. */
  ghost predicate HandledPacket(socket: Socket, files: Files, size: nat, v: Snapshot, v': Snapshot,
                                crashed: bool, packet: Option<Message>, last: int)
    requires BufferSize(size)
  {
    && (last == 0 ==> packet == None && !crashed && v'.incoming == [] && socket.ended)
    && (packet.None? ==>
          && v'.process == v.process && v'.outgoing == v.outgoing
          && v'.status == (if last == 0 then END else READING)
          && (crashed ==> |v.incoming| > |v'.incoming| + size))
    && (packet.Some? ==>
          && (crashed <==> EffectOf(packet.value, files).Crashes?)
          && (!crashed ==> Took(socket.roomy, EffectOf(packet.value, files), v.process, v.outgoing,
                                v'.status, v'.process, v'.outgoing))
          && (packet.value.tag <= 2 ==> EndsWith(v.incoming, v'.incoming, [packet.value.tag] + packet.value.payload)))
    && (socket.prompt ==>
          && (crashed ==> packet.Some?)
          && match Decode(v.incoming, size)
             case Incomplete => packet == None && (last == 0 <==> socket.ended)
             case Packet(m, rest) =>
               && v'.incoming == rest
               && var whole := EffectiveLimit(FromBigEndian(v.incoming[..4]), size);
               && (last == 0 <==> socket.ended && 1 + |m.payload| < whole)
               && packet == if last == 0 then None else Some(m))
  }

  /** What was taken off the stream is a length, which is less than eight bytes, and `body`. */
  ghost predicate EndsWith(stream: seq<byte>, rest: seq<byte>, body: seq<byte>) {
    var n := |stream| - |rest|;
    |body| <= n < |body| + 8 && rest == stream[n..] && body == stream[n - |body|..n]
  }

  lemma TakenLast(stream: seq<byte>, rest: seq<byte>, a: nat, bytes: seq<byte>, n: nat)
    requires a < 8 && 0 < n <= |bytes| && a + n <= |stream|
    requires rest == stream[a + n..] && bytes[..n] == stream[a..a + n]
    ensures EndsWith(stream, rest, [bytes[0]] + bytes[1..n])
  {
    assert [bytes[0]] + bytes[1..n] == bytes[..n];
  }

  /** One handle. */
  ghost predicate HandledOnce(socket: Socket, files: Files, size: nat, v: Snapshot, v': Snapshot,
                              crashed: bool, packet: Option<Message>, last: int, results: seq<SendResult>)
    requires BufferSize(size)
  {
    match v.status
    case END => v' == v && !crashed
    case READING => HandledPacket(socket, files, size, v, v', crashed, packet, last)
    case WRITING =>
      && !crashed && v.process.Some? && v'.process.Some? && v'.incoming == v.incoming
      && v.process.value.Sound() && Answers(v.process.value.rest, results)
      && HandleWriting(v.Transfer(), results) == v'.Transfer()
      && (socket.roomy ==> v'.status == READING)
  }

  class Session {
    var status: Status
    const socket: Socket
    const files: Files
    var readBuffer: ByteBuffer?
    var fileProcess: Option<FileProcess>

    /** A session that is writing has a file to write, and a range of it; file sizes are
        off_t values. */
    ghost predicate Valid()
      reads this
    {
      && (forall path :: path in files ==> |files[path]| < TWO63)
      && (status == WRITING ==> fileProcess.Some? && fileProcess.value.Sound())
    }

    ghost function View(): (v: Snapshot)
      reads this, socket
    {
      Snapshot(status, fileProcess, socket.incoming, socket.outgoing)
    }

    /** The transfer under way, as Transfers sees it. */
    ghost function Sending(): Transfer
      reads this, socket
      requires Valid() && status == WRITING
    {
      Current()
    }

    /** The fields of a transfer, whatever the status. */
    ghost function Current(): Transfer
      reads this, socket
      requires fileProcess.Some?
    {
      Transfer(fileProcess.value.file, fileProcess.value.pos, fileProcess.value.rest, status, socket.outgoing)
    }

    constructor (socket: Socket, files: Files)
      requires forall path :: path in files ==> |files[path]| < TWO63
      ensures Valid() && status == READING && readBuffer == null && fileProcess == None
      ensures this.socket == socket && this.files == files
    {
      this.socket := socket;
      this.files := files;
      status := READING;
      readBuffer := null;
      fileProcess := None;
    }

    method Then(status': Status)
      modifies this`status
      ensures status == status'
    {
      status := status';
    }

    method AttachBuffer(buf: ByteBuffer)
      modifies this`readBuffer
      ensures readBuffer == buf
    {
      readBuffer := buf;
    }

    method DetachBuffer()
      modifies this`readBuffer
      ensures readBuffer == null
    {
      readBuffer := null;
    }

    method SendResponse(tag: byte, data: seq<byte>) returns (ok: bool)
      modifies socket`outgoing
      ensures SentSome(socket.roomy, old(socket.outgoing), socket.outgoing, Frame(Message(tag, data)))
      ensures ok ==> socket.outgoing == old(socket.outgoing) + Frame(Message(tag, data))
      ensures socket.roomy ==> ok
    {
      var sendBuffer := new ByteBuffer([]);
      sendBuffer.WriteUInt((1 + |data|) % TWO32);
      sendBuffer.PushBack([tag]);
      var buffer := new ByteBuffer(data);
      sendBuffer := sendBuffer.Plus(buffer);
      ghost var frame := Frame(Message(tag, data));
      assert sendBuffer.bytes == frame;
      var n, sent := socket.Write(sendBuffer.bytes);
      assert frame[..|frame|] == frame;
      ok := n == |sendBuffer.bytes|;
    }

    method Reply(str: string)
      modifies socket`outgoing
      ensures SentSome(socket.roomy, old(socket.outgoing), socket.outgoing, Say(str))
    {
      var ok := SendResponse(PLAIN_TEXT, Text(str));
    }

    /** processCommand. What listing a directory says is up to the operating system; a command
        without a word has no first one to look at. */
    method ProcessCommand(payload: seq<byte>) returns (crashed: bool)
      requires status == READING
      modifies this`status, socket`outgoing
      ensures crashed <==> CommandEffect(payload).Crashes?
      ensures !crashed ==> CommandEffect(payload).Talks?
      ensures crashed ==> status == READING && socket.outgoing == old(socket.outgoing)
      ensures !crashed ==>
                Took(socket.roomy, CommandEffect(payload), fileProcess, old(socket.outgoing),
                     status, fileProcess, socket.outgoing)
    {
      hide Say, SentSome, CString, TextOf;
      crashed := false;
      var cmd := TextOf(CString(payload));
      var cmds := Split(cmd, " ");
      if IsQuit(cmd) {
        Reply("Bye\n");
        Then(END);
      } else if cmds == [] {
        crashed := true;
      } else if IsList(cmds[0]) {
        if |cmds| != 2 {
          Reply("list command takes exact 1 params!\n");
          return;
        }
        ListDirectory();
      } else if cmd == "shutdown" {
        Reply("Shutdown server...\n");
      } else {
        Reply("Unrecognised command: " + cmd + "\n");
      }
    }

    /** Lines 82-96: a refusal or the output of ls, as far as it is sent. */
    method ListDirectory()
      modifies socket`outgoing
      ensures old(socket.outgoing) <= socket.outgoing
      ensures socket.roomy ==> old(socket.outgoing) < socket.outgoing
    {
      hide Frame;
      var text: string := *;
      Reply(text);
      Longer(text);
    }

    /** processDownload on the packet at the start of the buffer. */
    method ProcessDownload(payload: seq<byte>, infoOnly: bool)
      requires status == READING && Valid()
      modifies this`status, this`fileProcess, socket`outgoing
      ensures Valid()
      ensures Took(socket.roomy, Does(AnswerDownload(payload, infoOnly, files), infoOnly), old(fileProcess),
                   old(socket.outgoing), status, fileProcess, socket.outgoing)
    {
      hide Frame, Say, CString, FromLittleEndian, LittleEndian, SentSome;
      if |payload| < 16 {
        return;
      }
      var offset := FromLittleEndian(payload[..8]);
      var size := FromLittleEndian(payload[8..16]);
      var path := CString(payload[16..]);
      if path !in files {
        Reply("File not exist\n");
        return;
      }
      var file := files[path];
      if size == 0 {
        size := |file|;
      }
      if !InRange(offset, size, |file|) {
        Reply("Bad file size\n");
        return;
      }
      var ok := SendResponse(if infoOnly then DOWNLOAD_INFO_REPLY else BINARY, InfoPayload(size));
      if !infoOnly {
        fileProcess := Some(FileProcess(file, offset, size));
        Then(WRITING);
      }
    }

    /** One sendfile of up to `rest` bytes from the file's position; at the end of the file it
        transfers nothing. A socket with room takes something of what is there. */
    method SendFile(rest: nat) returns (result: SendResult)
      requires rest > 0 && fileProcess.Some?
      modifies this`fileProcess, socket`outgoing
      ensures fileProcess.Some?
      ensures var p, p' := old(fileProcess.value), fileProcess.value;
              if result.Moved? then
                && 1 <= result.n <= rest && p.pos + result.n <= |p.file|
                && p' == p.(pos := p.pos + result.n)
                && socket.outgoing == old(socket.outgoing) + p.file[p.pos..p.pos + result.n]
              else p' == p && socket.outgoing == old(socket.outgoing)
      ensures socket.roomy && old(fileProcess.value).pos < |old(fileProcess.value).file| ==> result.Moved?
    {
      var p := fileProcess.value;
      var n: nat := *;
      if socket.roomy && p.pos < |p.file| && !(1 <= n <= rest && p.pos + n <= |p.file|) {
        n := 1;
      }
      if 1 <= n <= rest && p.pos + n <= |p.file| {
        socket.outgoing := socket.outgoing + p.file[p.pos..p.pos + n];
        fileProcess := Some(p.(pos := p.pos + n));
        result := Moved(n);
      } else {
        result :| !result.Moved?;
      }
    }

    /** handleWriting is HandleWriting of what sendfile returned. The branch for a session
        with no file (Session.cpp:192-196) is dead. */
    method HandleWriting() returns (ghost results: seq<SendResult>)
      requires Valid() && status == WRITING
      modifies this`status, this`fileProcess, socket`outgoing
      ensures Valid() && fileProcess.Some?
      ensures Answers(old(fileProcess.value.rest), results)
      ensures Transfers.HandleWriting(old(Sending()), results)
           == Current()
      ensures socket.roomy ==> status == READING
    {
      if fileProcess.None? {
        assert false;
      }
      hide Answers, Transfers.HandleWriting, Underway;
      ghost var start := Sending();
      var rest := fileProcess.value.rest;
      results := [];
      UnderwayStart(start);
      while rest > 0
        invariant rest >= 0 && status == WRITING && fileProcess.Some?
        invariant fileProcess.value.rest == start.rest && Underway(start, Current(), rest, results)
        decreases rest
      {
        ghost var now := Current();
        var transferred := SendFile(rest);
        if transferred.WouldBlock? {
          UnderwayFits(start, now, rest, results);
          UnderwayEnds(start, now, rest, results, transferred);
          results := results + [transferred];
          break;
        } else if !transferred.Moved? {
          UnderwayEnds(start, now, rest, results, transferred);
          results := results + [transferred];
          Then(END);
          return;
        }
        UnderwayMore(start, now, rest, results, transferred.n);
        results := results + [transferred];
        rest := rest - transferred.n;
      }
      if rest == 0 {
        UnderwayDone(start, Current(), results);
        Then(READING);
      } else {
        fileProcess := Some(fileProcess.value.(rest := rest));
      }
    }

    /** The READING half of handle. */
    method HandlePacket() returns (crashed: bool, ghost packet: Option<Message>, ghost last: int)
      requires Valid() && status == READING && readBuffer != null && BufferSize(|readBuffer.bytes|)
      modifies this`status, this`fileProcess, socket, readBuffer
      ensures Valid() && |readBuffer.bytes| == |old(readBuffer.bytes)|
      ensures HandledPacket(socket, files, |readBuffer.bytes|, old(View()), View(), crashed, packet, last)
    {
      hide Decode, FromBigEndian, AnswerDownload, CommandEffect, SentSome, EffectiveLimit, EndsWith;
      crashed, packet := false, None;
      var readLen;
      ghost var stream := socket.incoming;
      ghost var a, b;
      readLen, a, b, last := ReadPacket(socket, readBuffer);
      if readLen <= 0 {
        if readLen == -1 {
          Then(END);
        }
        return;
      }
      var tag := readBuffer.bytes[0];
      var data := if readLen <= |readBuffer.bytes| then readBuffer.bytes[1..readLen] else [];
      if readLen > |readBuffer.bytes| && (tag == COMMAND || tag == DOWNLOAD || tag == DOWNLOAD_INFO) {
        crashed := true;
        return;
      }
      packet := Some(Message(tag, data));
      if b <= |readBuffer.bytes| { TakenLast(stream, socket.incoming, a, readBuffer.bytes, b); }
      if tag == COMMAND {
        crashed := ProcessCommand(data);
      } else if tag == DOWNLOAD {
        ProcessDownload(data, false);
      } else if tag == DOWNLOAD_INFO {
        ProcessDownload(data, true);
      } else {
        Then(END);
      }
    }

    /** handle */
    method Handle() returns (crashed: bool, ghost packet: Option<Message>, ghost last: int,
                             ghost results: seq<SendResult>)
      requires Valid() && readBuffer != null && BufferSize(|readBuffer.bytes|)
      modifies this`status, this`fileProcess, socket, readBuffer
      ensures Valid() && |readBuffer.bytes| == |old(readBuffer.bytes)|
      ensures HandledOnce(socket, files, |readBuffer.bytes|, old(View()), View(), crashed, packet, last, results)
    {
      hide HandledPacket, Answers, Transfers.HandleWriting;
      crashed, packet, last, results := false, None, 1, [];
      if status == READING {
        crashed, packet, last := HandlePacket();
      } else if status == WRITING {
        results := HandleWriting();
      }
    }
  }

  /** ConnectionListener: a session and its one-shot registration with epoll. */
  class ConnectionListener {
    const session: Session
    const sound: bool // epoll_ctl does not fail on it
    var registered: Option<Interest>

    /** attach registers for readable events; if that fails nothing will ever wake it. */
    constructor (socket: Socket, files: Files, sound: bool, attached: bool)
      requires sound ==> attached
      requires forall path :: path in files ==> |files[path]| < TWO63
      ensures fresh(session) && session.Valid() && session.status == READING && session.readBuffer == null
      ensures session.socket == socket && session.files == files && this.sound == sound
      ensures registered == if attached then Some(In) else None
    {
      session := new Session(socket, files);
      this.sound := sound;
      registered := if attached then Some(In) else None;
    }

    /** modifyTo */
    method ModifyTo(events: Interest) returns (ok: bool)
      modifies this
      ensures registered == if ok then Some(events) else old(registered)
      ensures sound ==> ok
    {
      ok := *;
      ok := ok || sound;
      if ok {
        registered := Some(events);
      }
    }

    /** onEvent, which epoll triggers after disarming the registration: the worker's buffer is
        attached just for the call; afterwards the registration, if it could be renewed, waits
        for what the session's status needs, and a finished session asks to be deleted. */
    method OnEvent(localReadBuffer: ByteBuffer)
      returns (reserve: bool, crashed: bool, ok: bool,
               ghost packet: Option<Message>, ghost last: int, ghost results: seq<SendResult>)
      requires session.Valid() && registered == None && BufferSize(|localReadBuffer.bytes|)
      modifies this, session, session.socket, localReadBuffer
      ensures session.Valid() && session.readBuffer == null
      ensures |localReadBuffer.bytes| == |old(localReadBuffer.bytes)|
      ensures HandledOnce(session.socket, session.files, |localReadBuffer.bytes|, old(session.View()), session.View(),
                          crashed, packet, last, results)
      ensures !crashed ==>
                && (reserve <==> session.status != END)
                && (ok ==> (session.status == READING && registered == Some(In))
                           || (session.status == WRITING && registered == Some(Out)))
                && (!ok ==> registered == None)
                && (sound && session.status != END ==> ok)
    {
      hide HandledOnce;
      reserve, ok := false, false;
      session.AttachBuffer(localReadBuffer);
      crashed, packet, last, results := session.Handle();
      session.DetachBuffer();
      if crashed {
        return;
      }
      match session.status {
        case READING =>
          ok := ModifyTo(In);
        case WRITING =>
          ok := ModifyTo(Out);
        case END =>
          return;
      }
      reserve := true;
    }
  }

  // A download, from the request to the last byte

  /** One handle of a session at whose end a whole request waits, with nothing in the way: the
      request alone is taken, and the session is about to send the range asked for. */
  lemma RequestTaken(socket: Socket, files: Files, size: nat, m: Message, behind: seq<byte>, v: Snapshot, v1: Snapshot,
                     crashed: bool, packet: Option<Message>, last: int, results: seq<SendResult>)
    requires BufferSize(size) && socket.prompt && v.status == READING && v.incoming == Frame(m) + behind
    requires Fits(m, size) && (Tidy(1 + |m.payload|) || behind == [])
    requires HandledOnce(socket, files, size, v, v1, crashed, packet, last, results)
    ensures packet == Some(m) && v1.incoming == behind
    ensures crashed <==> EffectOf(m, files).Crashes?
    ensures !crashed ==> Took(socket.roomy, EffectOf(m, files), v.process, v.outgoing,
                              v1.status, v1.process, v1.outgoing)
  {
    DecodeFrame(m, behind, size);
    FrameParts(m, behind);
    hide Decode, Frame, FromBigEndian, EffectOf, Took, EndsWith;
  }

  /** A DOWNLOAD request for a range of a readable file is answered, over a connection that is not
      in the way, by the header and exactly the bytes of that range, in two calls of handle; then
      the session reads on behind the request. Size 0 means the whole file. */
  lemma DownloadServed(socket: Socket, files: Files, size: nat, offset: nat, asked: nat, path: seq<byte>,
                       behind: seq<byte>, v: Snapshot, v1: Snapshot, v2: Snapshot, crashed: bool, crashed': bool,
                       packet: Option<Message>, packet': Option<Message>, last: int, last': int,
                       results: seq<SendResult>, results': seq<SendResult>)
    requires BufferSize(size) && socket.prompt && socket.roomy && v.status == READING
    requires forall p :: p in files ==> |files[p]| < TWO63
    requires offset < TWO64 && asked < TWO64 && 0 !in path && path in files
    requires v.incoming == Frame(Message(DOWNLOAD, RequestPayload(offset, asked, path))) + behind
    requires 17 + |path| <= size && 17 + |path| < TWO32 && (Tidy(17 + |path|) || behind == [])
    requires var length := if asked == 0 then |files[path]| else asked; offset + length <= |files[path]|
    requires HandledOnce(socket, files, size, v, v1, crashed, packet, last, results)
    requires HandledOnce(socket, files, size, v1, v2, crashed', packet', last', results')
    ensures var file := files[path];
            var length := if asked == 0 then |file| else asked;
            && !crashed && !crashed' && v1.status == WRITING
            && v2.status == READING && v2.incoming == behind
            && v2.outgoing == v.outgoing + Frame(Message(1, LittleEndian(length, 8))) + file[offset..offset + length]
  {
    var m := Message(DOWNLOAD, RequestPayload(offset, asked, path));
    RequestFields(offset, asked, path);
    hide Frame, RequestPayload, CString, FromLittleEndian, LittleEndian, AnswerDownload, HandledPacket, Took, Answers,
      Transfers.HandleWriting, Tidy;
    RequestTaken(socket, files, size, m, behind, v, v1, crashed, packet, last, results);
    FilePacket(socket.roomy, m, files, v.process, v.outgoing, v1.status, v1.process, v1.outgoing);
    WrittenWhole(v1.Transfer(), results');
  }

  lemma WrittenWhole(t: Transfer, results: seq<SendResult>)
    requires t.status == WRITING && t.pos + t.rest <= |t.file| && Answers(t.rest, results)
    requires HandleWriting(t, results).status == READING
    ensures HandleWriting(t, results).out == t.out + t.file[t.pos..t.pos + t.rest]
  {
    OneCall(t, t.rest, results);
  }
}
