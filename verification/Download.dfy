/** The multi-threaded resumable download as a step machine: every thread of
    DownloadThread::run with its own server connection, over the state shared through
    DownloadManager, the destination file and the .dlinfo record file. Each action is one
    step of one thread, of the server on that thread's connection, or a lost connection. */
module Download {
  import opened Bytes
  import opened Options
  import opened Sums
  import opened Parts
  import opened Protocol
  import opened Requests
  import opened Sockets

  const READ_BUFFER_PER_THREAD: nat := 64 * 1048576
  const SERVER_READ_BUFFER: nat := 64 * 1024

  /** What is downloaded: the source file and the path the server knows it by. */
  datatype Job = Job(src: seq<byte>, path: seq<byte>) {
    predicate Ok() {
      |src| <= MAX_SIZE && 0 !in path && 17 + |path| <= SERVER_READ_BUFFER
    }
  }

  /** The server session of a connection: between requests, or `rest` bytes of the file
      from `pos` still to be handed to sendfile. */
  datatype Server = Reading | Sending(pos: nat, rest: nat)

  /** connSocket: null, a connection that has failed, or a working one with the bytes in
      flight in both directions and the session at the other end. A failed connection may
      still swallow a request, or refuse it. Once it has refused one there is no step for
      another: that write raises SIGPIPE, which ends the process. */
  datatype Link = NoLink | DeadLink(refuses: bool) | LiveLink(up: seq<byte>, down: seq<byte>, server: Server)

  predicate Refuses(l: Link) { l.DeadLink? && l.refuses }

  /** Program counters of DownloadThread::run and downloadPart. */
  datatype Pc =
    | Waiting                            // about to lock partsLock and look for a part
    | Scanning(i: nat, finish: bool)     // holding partsLock, about to look at parts[i]
    | Connecting                         // part claimed, lock released
    | Requesting                         // about to send the request
    | AwaitingReply
    | Receiving                          // at the head of the receive loop
    | Writing(data: seq<byte>)           // data read into the buffer, file not yet written
    | Storing(n: nat)                    // n bytes written, rest not yet reduced
    | Counting(n: nat)                   // rest stored, totalProgress not yet increased
    | Recording(n: nat)                  // totalProgress increased by n, record not yet saved
    | Releasing                          // about to lock partsLock and give the part back
    | Released                           // flag cleared, part still set
    | Returned

  datatype Thread = Thread(pc: Pc, startPart: nat, part: Option<nat>, rest: nat, pos: nat, link: Link) {
    /** Between claiming and releasing a part. */
    predicate Owning() {
      pc.Connecting? || pc.Requesting? || pc.AwaitingReply? || pc.Receiving? || pc.Writing?
      || pc.Storing? || pc.Counting? || pc.Recording? || pc.Releasing?
    }
    predicate Owns(i: nat) { Owning() && part == Some(i) }
    predicate HasPart() { Owning() || pc.Released? }
    /** Bytes accounted to the part but not yet to totalProgress. */
    function InFlight(): nat { if pc.Counting? then pc.n else 0 }
  }

  datatype State = State(
    job: Job, parts: seq<Part>, using: seq<bool>, lock: Option<nat>, threads: seq<Thread>,
    dest: seq<byte>, records: seq<Part>, progress: int)
  {
    function With(t: nat, th: Thread): State
      requires t < |threads|
    {
      this.(threads := threads[t := th])
    }
  }

  datatype Action =
    | Acquire(t: nat) | Scan(t: nat) | EndPass(t: nat)
    | Connect(t: nat) | Request(t: nat) | RequestFails(t: nat)
    | Serve(t: nat) | Send(t: nat, n: nat)
    | Reply(t: nat) | Receive(t: nat, n: nat) | HangUp(t: nat) | PartDone(t: nat)
    | Write(t: nat) | Store(t: nat) | Count(t: nat) | Record(t: nat)
    | Release(t: nat) | Advance(t: nat) | Drop(t: nat)

  predicate Shape(s: State) {
    && s.job.Ok()
    && Layout(s.parts, |s.job.src|)
    && |s.using| == |s.records| == |s.parts|
    && |s.job.src| <= |s.dest|
    && forall t :: 0 <= t < |s.threads| && s.threads[t].HasPart() ==>
         s.threads[t].part.Some? && s.threads[t].part.value < |s.parts|
  }

  /** pwrite-like effect of seek and write: bytes past the end extend the file. */
  function Splice(f: seq<byte>, pos: nat, data: seq<byte>): (g: seq<byte>) {
    var base := if pos <= |f| then f[..pos] else f + seq(pos - |f|, _ => 0);
    base + data + if pos + |data| <= |f| then f[pos + |data|..] else []
  }

  /** req.offset: where the missing bytes of p begin when `rest` of them are missing, in
      uint64_t arithmetic. */
  function Cursor(p: Part, rest: nat): (c: nat)
    ensures rest <= p.End() < TWO64 ==> c == p.End() - rest
  {
    (p.offset + p.size - rest) % TWO64
  }

  function RequestFrame(job: Job, offset: nat, size: nat): seq<byte> {
    Frame(Message(DOWNLOAD, RequestPayload(offset, size, job.path)))
  }

  function ReplyFrame(size: nat): (f: seq<byte>)
    ensures |f| == 13
  {
    Frame(Message(BINARY, InfoPayload(size)))
  }

  /** A DOWNLOAD packet is waiting at the server. */
  predicate HasRequest(l: Link) {
    l.LiveLink? && l.server.Reading?
    && var d := Decode(l.up, SERVER_READ_BUFFER); d.Packet? && d.msg.tag == DOWNLOAD
  }

  /** Session::handle on a DOWNLOAD packet. */
  function React(l: Link, job: Job): Link
    requires HasRequest(l)
  {
    var d := Decode(l.up, SERVER_READ_BUFFER);
    match AnswerDownload(d.msg.payload, false, map[job.path := job.src])
    case Ignored => l.(up := d.rest)
    case Refused(reply) => l.(up := d.rest, down := l.down + reply)
    case Accepted(reply, _, offset, size) =>
      LiveLink(d.rest, l.down + reply, if size == 0 then Reading else Sending(offset, size))
  }

  /** sendRequest; a failed connection may still accept the bytes, which are then lost. */
  function Submit(l: Link, frame: seq<byte>): Link {
    if l.LiveLink? then l.(up := l.up + frame) else l
  }

  /** One sendfile call that transfers n bytes. */
  function Transmit(l: Link, src: seq<byte>, n: nat): Link
    requires l.LiveLink? && l.server.Sending? && n <= l.server.rest && l.server.pos + n <= |src|
  {
    var Sending(pos, rest) := l.server;
    LiveLink(l.up, l.down + src[pos..pos + n], if rest == n then Reading else Sending(pos + n, rest - n))
  }

  /** A whole response packet has arrived. */
  predicate HasReply(l: Link) {
    l.LiveLink? && |l.down| >= 13 && Decode(l.down, READ_BUFFER_PER_THREAD).Packet?
  }

  function ReplySize(m: Message): Option<nat> {
    if |m.payload| < 8 then None else Some(FromLittleEndian(m.payload[..8]))
  }

  predicate Enabled(s: State, a: Action)
    requires Shape(s)
  {
    a.t < |s.threads| &&
    var th := s.threads[a.t];
    match a
    case Acquire(_) => th.pc.Waiting? && s.lock.None?
    case Scan(_) => th.pc.Scanning? && th.pc.i < |s.parts|
    case EndPass(_) => th.pc.Scanning? && th.pc.i >= |s.parts|
    case Connect(_) => th.pc.Connecting?
    case Request(_) => th.pc.Requesting? && !th.link.NoLink? && !Refuses(th.link)
    case RequestFails(_) => th.pc.Requesting? && th.link.DeadLink? && !Refuses(th.link)
    case Serve(_) => HasRequest(th.link)
    case Send(_, n) => th.link.LiveLink? && th.link.server.Sending? && 1 <= n <= th.link.server.rest
                       && th.link.server.pos + n <= |s.job.src|
    case Reply(_) => th.pc.AwaitingReply? && (th.link.DeadLink? || HasReply(th.link))
    case Receive(_, n) => th.pc.Receiving? && th.rest > 0
                          && (var limit := EffectiveLimit(Min(READ_BUFFER_PER_THREAD, th.rest), READ_BUFFER_PER_THREAD);
                              n < limit + Unit(limit))
                          && if th.link.LiveLink? then n <= |th.link.down| else th.link.DeadLink? && n == 0
    case HangUp(_) => th.pc.Receiving? && th.rest > 0 && th.link.DeadLink?
    case PartDone(_) => th.pc.Receiving? && th.rest == 0
    case Write(_) => th.pc.Writing?
    case Store(_) => th.pc.Storing?
    case Count(_) => th.pc.Counting?
    case Record(_) => th.pc.Recording?
    case Release(_) => th.pc.Releasing? && s.lock.None?
    case Advance(_) => th.pc.Released?
    case Drop(_) => th.link.LiveLink?
  }

  // The effect of each action

  function DoAcquire(s: State, t: nat): State
    requires t < |s.threads|
  {
    s.(lock := Some(t)).With(t, s.threads[t].(pc := Scanning(s.threads[t].startPart, true)))
  }

  function DoScan(s: State, t: nat): State
    requires Shape(s) && t < |s.threads| && s.threads[t].pc.Scanning? && s.threads[t].pc.i < |s.parts|
  {
    var th := s.threads[t];
    var cur := s.parts[th.pc.i];
    if cur.rest == 0 then
      s.With(t, th.(pc := Scanning(th.pc.i + 1, th.pc.finish)))
    else if s.using[cur.id] then
      s.With(t, th.(pc := Scanning(th.pc.i + 1, false)))
    else
      s.(using := s.using[cur.id := true], lock := None)
       .With(t, th.(pc := Connecting, part := Some(th.pc.i)))
  }

  function DoEndPass(s: State, t: nat): State
    requires t < |s.threads| && s.threads[t].pc.Scanning?
  {
    var th := s.threads[t];
    if th.pc.finish then s.(lock := None).With(t, th.(pc := Returned))
    else s.With(t, th.(pc := Scanning(th.startPart, true)))
  }

  function DoConnect(th: Thread): Thread {
    th.(pc := Requesting, link := if th.link.NoLink? then LiveLink([], [], Reading) else th.link)
  }

  function DoRequest(job: Job, p: Part, th: Thread): Thread {
    th.(pc := AwaitingReply, rest := p.rest,
        link := Submit(th.link, RequestFrame(job, Cursor(p, p.rest), p.rest)))
  }

  /** A failed send: connSocket is kept as it is. */
  function DoRefuse(p: Part, th: Thread): Thread {
    th.(pc := Releasing, rest := p.rest, link := DeadLink(true))
  }

  function DoReply(p: Part, th: Thread): Thread
    requires th.link.DeadLink? || HasReply(th.link)
  {
    if th.link.DeadLink? then th.(pc := Releasing, link := NoLink)
    else
      var d := Decode(th.link.down, READ_BUFFER_PER_THREAD);
      if ReplySize(d.msg) == Some(th.rest) then
        th.(pc := Receiving, pos := Cursor(p, th.rest), link := th.link.(down := d.rest))
      else th.(pc := Releasing, link := NoLink)
  }

  function DoReceive(th: Thread, n: nat): Thread
    requires if th.link.LiveLink? then n <= |th.link.down| else n == 0
  {
    if th.link.LiveLink?
    then th.(pc := Writing(th.link.down[..n]), link := th.link.(down := th.link.down[n..]))
    else th.(pc := Writing([]))
  }

  function DoWrite(s: State, t: nat): State
    requires t < |s.threads| && s.threads[t].pc.Writing?
  {
    var th := s.threads[t];
    s.(dest := Splice(s.dest, th.pos, th.pc.data))
     .With(t, th.(pc := Storing(|th.pc.data|), pos := th.pos + |th.pc.data|))
  }

  function DoStore(s: State, t: nat): State
    requires Shape(s) && t < |s.threads| && s.threads[t].pc.Storing?
  {
    var th := s.threads[t];
    var i := th.part.value;
    var rest := (th.rest - th.pc.n) % TWO64;
    s.(parts := s.parts[i := s.parts[i].(rest := rest)])
     .With(t, th.(pc := Counting(th.pc.n), rest := rest))
  }

  function DoCount(s: State, t: nat): State
    requires t < |s.threads| && s.threads[t].pc.Counting?
  {
    s.(progress := s.progress + s.threads[t].pc.n).With(t, s.threads[t].(pc := Recording(s.threads[t].pc.n)))
  }

  function DoRecord(s: State, t: nat): State
    requires Shape(s) && t < |s.threads| && s.threads[t].HasPart()
  {
    var p := s.parts[s.threads[t].part.value];
    s.(records := s.records[p.id := p]).With(t, s.threads[t].(pc := Receiving))
  }

  function DoRelease(s: State, t: nat): State
    requires Shape(s) && t < |s.threads| && s.threads[t].HasPart()
  {
    s.(using := s.using[s.parts[s.threads[t].part.value].id := false])
     .With(t, s.threads[t].(pc := Released))
  }

  function DoAdvance(s: State, t: nat): State
    requires Shape(s) && t < |s.threads| && s.threads[t].HasPart()
  {
    var th := s.threads[t];
    s.With(t, th.(pc := Waiting, startPart := (s.parts[th.part.value].id + 1) % |s.parts|, part := None))
  }

  function Apply(s: State, a: Action): State
    requires Shape(s) && Enabled(s, a)
  {
    var t, th := a.t, s.threads[a.t];
    match a
    case Acquire(_) => DoAcquire(s, t)
    case Scan(_) => DoScan(s, t)
    case EndPass(_) => DoEndPass(s, t)
    case Connect(_) => s.With(t, DoConnect(th))
    case Request(_) => s.With(t, DoRequest(s.job, s.parts[th.part.value], th))
    case RequestFails(_) => s.With(t, DoRefuse(s.parts[th.part.value], th))
    case Serve(_) => s.With(t, th.(link := React(th.link, s.job)))
    case Send(_, n) => s.With(t, th.(link := Transmit(th.link, s.job.src, n)))
    case Reply(_) => s.With(t, DoReply(s.parts[th.part.value], th))
    case Receive(_, n) => s.With(t, DoReceive(th, n))
    case HangUp(_) => s.With(t, th.(pc := Releasing, link := NoLink))
    case PartDone(_) => s.With(t, th.(pc := Releasing))
    case Write(_) => DoWrite(s, t)
    case Store(_) => DoStore(s, t)
    case Count(_) => DoCount(s, t)
    case Record(_) => DoRecord(s, t)
    case Release(_) => DoRelease(s, t)
    case Advance(_) => DoAdvance(s, t)
    case Drop(_) => s.With(t, th.(link := DeadLink(false)))
  }

  /** What no action touches: other threads, and anything its kind does not name. */
  lemma ApplyFrame(s: State, a: Action)
    requires Shape(s) && Enabled(s, a)
    ensures a.t < |s.threads|
    ensures var s' := Apply(s, a);
            && s'.job == s.job && |s'.parts| == |s.parts| && |s'.using| == |s.using| && |s'.records| == |s.records|
            && |s'.threads| == |s.threads| && s'.threads == s.threads[a.t := s'.threads[a.t]]
            && (!a.Write? ==> s'.dest == s.dest)
            && (!a.Store? ==> s'.parts == s.parts)
            && (!a.Record? ==> s'.records == s.records)
            && (!a.Scan? && !a.Release? ==> s'.using == s.using)
            && (!a.Acquire? && !a.Scan? && !a.EndPass? ==> s'.lock == s.lock)
            && (a.Store? ==> s'.parts == s.parts[s.threads[a.t].part.value := s'.parts[s.threads[a.t].part.value]])
  {
    hide React, HasRequest, HasReply, DoReply, DoRequest, DoReceive, Submit, Transmit, Splice, Cursor, PartCount;
  }

  /** A run: a sequence of actions each enabled where it is taken. */
  predicate Run(s: State, acts: seq<Action>)
    decreases |acts|
  {
    acts == [] || (Shape(s) && Enabled(s, acts[0]) && Run(Apply(s, acts[0]), acts[1..]))
  }

  function After(s: State, acts: seq<Action>): State
    requires Run(s, acts)
    decreases |acts|
  {
    if acts == [] then s else After(Apply(s, acts[0]), acts[1..])
  }

  lemma RunSingle(s: State, a: Action)
    requires Shape(s) && Enabled(s, a)
    ensures Run(s, [a]) && After(s, [a]) == Apply(s, a)
  {
    hide Enabled, Apply, Shape;
    assert [a][1..] == [];
  }

  lemma {:induction false} RunAppend(s: State, xs: seq<Action>, ys: seq<Action>)
    requires Run(s, xs) && Run(After(s, xs), ys)
    ensures Run(s, xs + ys) && After(s, xs + ys) == After(After(s, xs), ys)
    decreases |xs|
  {
    hide Enabled, Apply, Shape;
    if xs == [] {
      assert xs + ys == ys;
    } else {
      RunAppend(Apply(s, xs[0]), xs[1..], ys);
      assert (xs + ys)[1..] == xs[1..] + ys;
    }
  }

  /** Every thread has left run(). */
  predicate AllReturned(s: State) {
    forall t :: 0 <= t < |s.threads| ==> s.threads[t].pc.Returned?
  }

  // Starting states

  function NewThread(startPart: nat): Thread {
    Thread(Waiting, startPart, None, 0, 0, NoLink)
  }

  function NewThreads(nPart: nat, count: nat): (ths: seq<Thread>)
    ensures |ths| == count
    ensures forall t :: 0 <= t < count ==> ths[t] == NewThread(StartPart(t, nPart, count))
  {
    seq(count, t requires 0 <= t < count => NewThread(StartPart(t, nPart, count)))
  }

  /** fallocate: the file is extended with zeros, never shortened. */
  function Allocate(f: seq<byte>, size: nat): (g: seq<byte>)
    ensures |g| == if |f| < size then size else |f|
    ensures forall k :: 0 <= k < |g| ==> g[k] == if k < |f| then f[k] else 0
  {
    if |f| < size then f + seq(size - |f|, _ => 0) else f
  }

  function GotList(ps: seq<Part>): (xs: seq<nat>)
    ensures |xs| == |ps|
    ensures forall i :: 0 <= i < |ps| ==> xs[i] == if ps[i].rest <= ps[i].size then ps[i].Got() else 0
  {
    seq(|ps|, i requires 0 <= i < |ps| => if ps[i].rest <= ps[i].size then ps[i].Got() as nat else 0)
  }

  /** Bytes downloaded so far according to a list of parts. */
  function Downloaded(ps: seq<Part>): nat { Sum(GotList(ps)) }

  function Fresh(job: Job, dest: seq<byte>, count: nat): State {
    var ps := Partition(|job.src|);
    State(job, ps, seq(|ps|, _ => false), None, NewThreads(|ps|, count),
          Allocate(dest, |job.src|), ps, 0)
  }

  function Resume(job: Job, records: seq<Part>, dest: seq<byte>, count: nat): State {
    State(job, records, seq(|records|, _ => false), None, NewThreads(|records|, count),
          dest, records, Downloaded(records))
  }
}
