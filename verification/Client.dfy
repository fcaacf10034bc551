/** The command session of the client: what a typed command sends, and what an answer does. */
module Clients {
  import opened Bytes
  import opened ByteBuffers
  import opened Options
  import opened Protocol
  import opened Requests
  import opened Sockets
  import opened StringUtil
  import opened Transfers
  import opened Sessions

  const CLIENT_RECV_SIZE: nat := 1048576

  /** The packet a typed command is sent as; for an empty line and a download without exactly a
      source and a destination there is none. */
  function RequestOf(command: string): Option<Message> {
    var cmds := Words(command, " ");
    if cmds == [] then None
    else if cmds[0] == "download" || cmds[0] == "dl" then
      if |cmds| != 3 then None else Some(Message(DOWNLOAD_INFO, RequestPayload(0, 0, Text(cmds[1]))))
    else Some(Message(COMMAND, Text(command)))
  }

  predicate Leaves(command: string) { command == "quit" || command == "q" || command == "shutdown" }

  /** What an answer leads to: text is printed up to its first NUL, file data in the command
      session ends the client, the length of a file starts its download. Too much read for the
      buffer fails an assertion of slice. */
  datatype Outcome = Prints(text: seq<byte>) | Exits | Downloads(size: nat) | ShortInfo | Unknown | Asserts

  function OutcomeOf(m: Message): Outcome {
    if m.tag == PLAIN_TEXT then Prints(CString(m.payload))
    else if m.tag == BINARY then Exits
    else if m.tag == DOWNLOAD_INFO_REPLY then
      if |m.payload| < 8 then ShortInfo else Downloads(FromLittleEndian(m.payload[..8]))
    else Unknown
  }

  class Client {
    const socket: Socket
    const readBuffer: ByteBuffer
    var active: bool
    var srcFile: string

    constructor (socket: Socket)
      ensures active && this.socket == socket && fresh(readBuffer) && |readBuffer.bytes| == CLIENT_RECV_SIZE
    {
      this.socket := socket;
      active, srcFile := true, "";
      readBuffer := new ByteBuffer([]);
      new;
      readBuffer.Allocate(CLIENT_RECV_SIZE);
    }

    /** sendCommand; `hasDest` says whether the destination file could be opened. */
    method SendCommand(command: string, hasDest: bool) returns (ok: bool)
      modifies this, socket`outgoing
      ensures ok ==> RequestOf(command).Some?
                     && socket.outgoing == old(socket.outgoing) + Frame(RequestOf(command).value)
      ensures RequestOf(command).None? ==> !ok && socket.outgoing == old(socket.outgoing)
      ensures old(socket.outgoing) <= socket.outgoing
      ensures socket.roomy && RequestOf(command).Some? && hasDest ==> ok
      ensures active == (old(active) && !Leaves(command))
      ensures RequestOf(command).Some? && RequestOf(command).value.tag == DOWNLOAD_INFO ==>
                srcFile == Words(command, " ")[1] && (!hasDest ==> !ok && socket.outgoing == old(socket.outgoing))
    {
      hide Words, Frame, RequestPayload, Text;
      var cmds := Split(command, " ");
      if cmds == [] {
        LeavesWords(command);
        return false;
      }
      if cmds[0] == "download" || cmds[0] == "dl" {
        LeavesWords(command);
        if |cmds| != 3 {
          return false;
        }
        srcFile := cmds[1];
        if !hasDest {
          return false;
        }
        ok := Send(DOWNLOAD_INFO, RequestPayload(0, 0, Text(srcFile)));
        return;
      }
      if Leaves(command) {
        active := false;
      }
      ok := Send(COMMAND, Text(command));
    }

    method Send(tag: byte, payload: seq<byte>) returns (ok: bool)
      modifies socket`outgoing
      ensures old(socket.outgoing) <= socket.outgoing
      ensures ok ==> socket.outgoing == old(socket.outgoing) + Frame(Message(tag, payload))
      ensures socket.roomy ==> ok
    {
      hide Frame;
      var data := new ByteBuffer(payload);
      ghost var sent;
      ok, sent := SendRequest(socket, tag, data);
      if ok {
        WholeFrame(Frame(Message(tag, payload)));
      }
    }

    /** handleResponse; nothing received ends the client. */
    method HandleResponse() returns (outcome: Outcome, ghost resp: Received)
      requires |readBuffer.bytes| == CLIENT_RECV_SIZE
      modifies this`active, socket, readBuffer
      ensures |readBuffer.bytes| == CLIENT_RECV_SIZE
      ensures resp.NoReply? ==> outcome == Exits && !active
      ensures resp.SliceFails? <==> outcome == Asserts
      ensures resp.Reply? ==> outcome == OutcomeOf(resp.msg) && active == old(active)
      ensures socket.prompt && !socket.ended ==>
                match Decode(old(socket.incoming), CLIENT_RECV_SIZE)
                case Incomplete => resp.NoReply?
                case Packet(m, rest) => resp == Reply(m) && socket.incoming == rest
    {
      hide Decode, CString, FromLittleEndian;
      var received;
      ghost var a, b, last;
      received, a, b, last := ReceiveResponse(socket, readBuffer);
      resp := received;
      if received.NoReply? {
        active := false;
        return Exits, resp;
      }
      if received.SliceFails? {
        return Asserts, resp;
      }
      var data := received.msg.payload;
      match received.msg.tag {
        case 0 => outcome := Prints(CString(data));
        case 1 => outcome := Exits;
        case 2 => outcome := if |data| < 8 then ShortInfo else Downloads(FromLittleEndian(data[..8]));
        case _ => outcome := Unknown;
      }
    }
  }

  lemma WholeFrame(frame: seq<byte>)
    ensures frame[..|frame|] == frame
  {
  }

  lemma LeavesWords(command: string)
    ensures Leaves(command) ==> Words(command, " ") == [command]
  {
    JoinSplitIff([command]);
    assert Join([command]) == command;
  }

  // The command session from end to end

  /** When nothing is sent, and that everything but a download is sent as it was typed. */
  lemma RequestIff(cmd: string)
    ensures RequestOf(cmd).None? <==>
              var words := Words(cmd, " ");
              words == [] || (words[0] in {"download", "dl"} && |words| != 3)
    ensures var words := Words(cmd, " ");
            words != [] && words[0] !in {"download", "dl"} ==> RequestOf(cmd) == Some(Message(0, Text(cmd)))
  {
    hide Words, Text;
  }

  /** What the server says is what the client prints; the header of file data, which it never
      asks for here, ends the client. */
  lemma AnswersShown(text: string, size: nat)
    requires Plain(text) && |text| < CLIENT_RECV_SIZE && size < TWO64
    ensures var d := Decode(Say(text), CLIENT_RECV_SIZE);
            d.Packet? && d.rest == [] && OutcomeOf(d.msg) == Prints(Text(text))
    ensures var d := Decode(Frame(Message(1, InfoPayload(size))), CLIENT_RECV_SIZE);
            d.Packet? && d.rest == [] && OutcomeOf(d.msg) == Exits
  {
    TextRoundTrip(text);
    CStringWhole(Text(text));
    hide Text, CString, Frame, Decode, FromLittleEndian, InfoPayload;
    var m, n := Message(PLAIN_TEXT, Text(text)), Message(1, InfoPayload(size));
    DecodeFrame(m, [], CLIENT_RECV_SIZE);
    DecodeFrame(n, [], CLIENT_RECV_SIZE);
    assert Frame(m) + [] == Frame(m) && Frame(n) + [] == Frame(n);
  }

  /** A download typed as arguments asks for everything of its source. */
  lemma TypedDownload(src: string, dest: string)
    requires src != "" && ' ' !in src && dest != "" && ' ' !in dest
    ensures RequestOf(Join(["download", src, dest])) == Some(Message(2, RequestPayload(0, 0, Text(src))))
    ensures RequestOf(Join(["dl", src, dest])) == Some(Message(2, RequestPayload(0, 0, Text(src))))
  {
    hide Words, Join, RequestPayload, Text;
    JoinSplitIff(["download", src, dest]);
    JoinSplitIff(["dl", src, dest]);
  }

  /** The length a download starts with is the length of the file: the request that the command
      sends is decoded by the server, whose answer tells the client so. */
  lemma InfoExchange(src: string, dest: string, files: Files)
    requires src != "" && ' ' !in src && dest != "" && ' ' !in dest && Plain(src)
    requires |src| < 32768 && Text(src) in files && forall path :: path in files ==> |files[path]| < TWO63
    ensures var request := RequestOf(Join(["download", src, dest]));
            && request.Some? && Decode(Frame(request.value), 65536) == Packet(request.value, [])
            && var e := EffectOf(request.value, files);
            && e.Does? && e.info && e.answer.Accepted?
            && var answer := Decode(e.answer.reply, CLIENT_RECV_SIZE);
            && answer.Packet? && answer.rest == [] && OutcomeOf(answer.msg) == Downloads(|files[Text(src)]|)
  {
    TypedDownload(src, dest);
    TextRoundTrip(src);
    var m := Message(DOWNLOAD_INFO, RequestPayload(0, 0, Text(src)));
    hide Words, Join, RequestPayload, Text, Frame, Decode, AnswerDownload, CString, FromLittleEndian, CommandEffect;
    DecodeFrame(m, [], 65536);
    assert Frame(m) + [] == Frame(m);
    InfoIsLength(Text(src), true, files, CLIENT_RECV_SIZE);
    WholePayload(Decode(AnswerDownload(m.payload, true, files).reply, CLIENT_RECV_SIZE).msg.payload);
  }

  lemma WholePayload(bs: seq<byte>)
    ensures |bs| == 8 ==> bs[..8] == bs
  {
  }

  /** Leaving the client ends its session at the server, but for shutdown, which only ends the
      client's side of it. */
  lemma LeavingEnds(roomy: bool, cmd: string, files: Files, process: Option<FileProcess>, before: seq<byte>,
                    status: Status, process': Option<FileProcess>, out: seq<byte>)
    requires Plain(cmd) && RequestOf(cmd).Some? && RequestOf(cmd).value.tag == COMMAND
    requires Took(roomy, EffectOf(RequestOf(cmd).value, files), process, before, status, process', out)
    ensures RequestOf(cmd).value.payload == Text(cmd) && !EffectOf(RequestOf(cmd).value, files).Crashes?
    ensures Leaves(cmd) <==> status == END || cmd == "shutdown"
  {
    TextRoundTrip(cmd);
    hide Words, Text, CString, TextOf, SentSome;
    NoCrash(cmd, files);
    CommandPacket(roomy, cmd, files, process, before, status, process', out);
  }

  /** What a client sends never makes the server look for a word that is not there. */
  lemma NoCrash(cmd: string, files: Files)
    requires Plain(cmd) && RequestOf(cmd).Some? && RequestOf(cmd).value.tag == COMMAND
    ensures !EffectOf(RequestOf(cmd).value, files).Crashes?
  {
    TextRoundTrip(cmd);
    hide Words, Text, CString, TextOf;
  }
}
