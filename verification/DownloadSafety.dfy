/** Safety of the download in every reachable state, lost connections included. */
module DownloadSafety {
  import opened Bytes
  import opened Options
  import opened Sums
  import opened Parts
  import opened Protocol
  import opened Requests
  import opened Sockets
  import opened Download

  /** The destination holds the source bytes [from, to). */
  ghost predicate Agrees(dest: seq<byte>, src: seq<byte>, from: nat, to: nat) {
    to <= |dest| && to <= |src| && forall k :: from <= k < to ==> dest[k] == src[k]
  }

  // What a connection carries

  ghost predicate LinkIdle(l: Link) {
    l.LiveLink? ==> l == LiveLink([], [], Reading)
  }

  /** A working connection carries exactly src[offset..offset + size): a first piece in
      flight, the rest still with the server. */
  ghost predicate Carries(l: Link, src: seq<byte>, offset: nat, size: nat) {
    l.LiveLink? ==>
      l.up == [] && offset + size <= |src| &&
      match l.server
      case Reading => l.down == src[offset..offset + size]
      case Sending(pos, rest) =>
        0 < rest && offset <= pos && pos + rest == offset + size && l.down == src[offset..pos]
  }

  ghost predicate Requested(l: Link, job: Job, offset: nat, size: nat) {
    l.LiveLink? && l == LiveLink(RequestFrame(job, offset, size), [], Reading)
  }

  ghost predicate Replied(l: Link, job: Job, offset: nat, size: nat) {
    l.LiveLink? && |l.down| >= 13 && l.down[..13] == ReplyFrame(size)
    && Carries(l.(down := l.down[13..]), job.src, offset, size)
  }

  lemma IdleWhenDone(l: Link, src: seq<byte>, offset: nat)
    requires Carries(l, src, offset, 0)
    ensures LinkIdle(l)
  {
  }

  lemma RequestIsBytes(l: Link)
    requires HasRequest(l)
    ensures l.LiveLink? && l.up != []
  {
    hide FromBigEndian, Greedy;
  }

  lemma ReplyIsBytes(l: Link)
    requires HasReply(l)
    ensures l.LiveLink? && |l.down| >= 13
  {
  }

  /** The request decodes to itself and the server accepts it and echoes its size. */
  lemma ServeLink(l: Link, job: Job, offset: nat, size: nat)
    requires job.Ok() && 0 < size && offset + size <= |job.src|
    requires Requested(l, job, offset, size)
    ensures HasRequest(l)
    ensures React(l, job) == LiveLink([], ReplyFrame(size), Sending(offset, size))
    ensures Replied(React(l, job), job, offset, size)
  {
    var m := Message(DOWNLOAD, RequestPayload(offset, size, job.path));
    DecodeFrame(m, [], SERVER_READ_BUFFER);
    assert Frame(m) + [] == Frame(m);
    RequestAccepted(offset, size, job.path, map[job.path := job.src]);
    assert [] + ReplyFrame(size) == ReplyFrame(size);
    assert ReplyFrame(size)[..13] == ReplyFrame(size);
    assert ReplyFrame(size)[13..] == [];
  }

  /** The reply decodes to the requested size and leaves exactly the file bytes behind. */
  lemma ReplyLink(l: Link, job: Job, offset: nat, size: nat)
    requires job.Ok() && Replied(l, job, offset, size)
    ensures HasReply(l)
    ensures var d := Decode(l.down, READ_BUFFER_PER_THREAD);
            ReplySize(d.msg) == Some(size) && d.rest == l.down[13..]
  {
    var m := Message(BINARY, InfoPayload(size));
    DecodeFrame(m, l.down[13..], READ_BUFFER_PER_THREAD);
    assert Frame(m) + l.down[13..] == l.down;
    InfoRoundTrip(size);
    assert InfoPayload(size)[..8] == InfoPayload(size);
  }

  lemma SendLink(l: Link, src: seq<byte>, offset: nat, size: nat, n: nat)
    requires l.LiveLink? && l.server.Sending? && Carries(l, src, offset, size) && 1 <= n <= l.server.rest
    ensures l.server.pos + n <= |src|
    ensures Carries(Transmit(l, src, n), src, offset, size)
  {
    var pos := l.server.pos;
    assert src[offset..pos] + src[pos..pos + n] == src[offset..pos + n];
  }

  lemma SendAfterReply(l: Link, job: Job, offset: nat, size: nat, n: nat)
    requires Replied(l, job, offset, size) && l.server.Sending? && 1 <= n <= l.server.rest
    ensures l.server.pos + n <= |job.src|
    ensures Replied(Transmit(l, job.src, n), job, offset, size)
  {
    var body := l.(down := l.down[13..]);
    SendLink(body, job.src, offset, size, n);
    var l' := Transmit(l, job.src, n);
    assert l'.down[..13] == l.down[..13];
    assert l'.(down := l'.down[13..]) == Transmit(body, job.src, n);
  }

  lemma ReceiveLink(l: Link, src: seq<byte>, offset: nat, size: nat, n: nat)
    requires l.LiveLink? && Carries(l, src, offset, size) && n <= |l.down|
    ensures n <= size && l.down[..n] == src[offset..offset + n]
    ensures Carries(l.(down := l.down[n..]), src, offset + n, size - n)
  {
    var to := offset + |l.down|;
    assert l.down == src[offset..to];
    assert src[offset..to][n..] == src[offset + n..to];
  }

  // The invariant

  /** Nothing claimable among parts [from, to). */
  ghost predicate Barren(parts: seq<Part>, using: seq<bool>, from: nat, to: nat) {
    |using| == |parts| && forall k :: from <= k < to && k < |parts| ==> parts[k].rest == 0 || using[k]
  }

  ghost predicate AllDone(parts: seq<Part>, from: nat, to: nat) {
    forall k :: from <= k < to && k < |parts| ==> parts[k].rest == 0
  }

  /** Between the reply and the release: the source bytes not yet taken off the
      connection are [WindowPos, WindowPos + WindowSize). */
  ghost predicate Transferring(th: Thread) {
    th.pc.Receiving? || th.pc.Writing? || th.pc.Storing? || th.pc.Counting? || th.pc.Recording?
  }

  function WindowPos(th: Thread): nat {
    if th.pc.Writing? then th.pos + |th.pc.data| else th.pos
  }

  function WindowSize(th: Thread): int {
    if th.pc.Writing? then th.rest - |th.pc.data| else if th.pc.Storing? then th.rest - th.pc.n else th.rest
  }

  /** What holds of a thread between claiming part p and releasing it. */
  ghost predicate PhaseOk(job: Job, p: Part, dest: seq<byte>, th: Thread) {
    && p.rest <= p.size && p.End() <= |job.src|
    && (th.pc.Connecting? || th.pc.Requesting? ==> p.rest > 0 && LinkIdle(th.link))
    && (th.pc.Requesting? ==> !th.link.NoLink?)
    && (th.pc.AwaitingReply? || Transferring(th) ==> !Refuses(th.link))
    && (th.pc.AwaitingReply? ==> AwaitOk(job, p, th))
    && (Transferring(th) ==>
          && p.rest == th.rest && !th.link.NoLink? && WindowSize(th) >= 0
          && WindowPos(th) + WindowSize(th) == p.End()
          && Carries(th.link, job.src, WindowPos(th), WindowSize(th)))
    && (th.pc.Writing? ==> th.pc.data == job.src[th.pos..th.pos + |th.pc.data|])
    && (th.pc.Storing? ==> Agrees(dest, job.src, p.offset, th.pos))
    && (th.pc.Releasing? ==> LinkIdle(th.link) && (th.link.LiveLink? ==> p.rest == 0))
  }

  ghost predicate AwaitOk(job: Job, p: Part, th: Thread) {
    && p.rest <= p.size
    && p.rest == th.rest > 0 && !th.link.NoLink?
    && (th.link.LiveLink? ==> Requested(th.link, job, p.End() - p.rest, p.rest)
                              || Replied(th.link, job, p.End() - p.rest, p.rest))
  }

  ghost predicate ThreadOk(job: Job, parts: seq<Part>, using: seq<bool>, dest: seq<byte>, th: Thread) {
    && |using| == |parts|
    && (if |parts| == 0 then th.startPart == 0 else th.startPart < |parts|)
    && (if th.HasPart() then th.part.Some? && th.part.value < |parts| else th.part.None?)
    && (if th.Owning() then using[th.part.value] && PhaseOk(job, parts[th.part.value], dest, th)
        else LinkIdle(th.link))
    && (th.pc.Scanning? ==>
          th.startPart <= th.pc.i <= |parts|
          && Barren(parts, using, th.startPart, th.pc.i)
          && (th.pc.finish ==> AllDone(parts, th.startPart, th.pc.i)))
  }

  /** usingOffsets[i] is set exactly while one thread owns part i. */
  ghost predicate Exclusive(using: seq<bool>, threads: seq<Thread>) {
    && (forall t, i :: 0 <= t < |threads| && 0 <= i < |using| && threads[t].Owns(i) ==> using[i])
    && (forall i :: 0 <= i < |using| && using[i] ==> exists t :: 0 <= t < |threads| && threads[t].Owns(i))
    && (forall t, u, i :: 0 <= t < |threads| && 0 <= u < |threads| && threads[t].Owns(i) && threads[u].Owns(i) ==>
          t == u)
  }

  ghost predicate LockOk(lock: Option<nat>, threads: seq<Thread>) {
    && (lock.Some? ==> lock.value < |threads| && threads[lock.value].pc.Scanning?)
    && forall t :: 0 <= t < |threads| && threads[t].pc.Scanning? ==> lock == Some(t)
  }

  /** The first size - rest bytes of every part are in the destination. */
  ghost predicate PrefixOk(src: seq<byte>, parts: seq<Part>, dest: seq<byte>) {
    forall i :: 0 <= i < |parts| ==> parts[i].rest <= parts[i].size
                                     && Agrees(dest, src, parts[i].offset, parts[i].End() - parts[i].rest)
  }

  /** A saved record never claims more than its part has. */
  ghost predicate RecordsOk(parts: seq<Part>, records: seq<Part>) {
    |records| == |parts| &&
    forall i :: 0 <= i < |parts| ==>
      records[i].(rest := parts[i].rest) == parts[i] && parts[i].rest <= records[i].rest <= records[i].size
  }

  function InFlightList(threads: seq<Thread>): (xs: seq<nat>)
    ensures |xs| == |threads|
    ensures forall t :: 0 <= t < |threads| ==> xs[t] == threads[t].InFlight()
  {
    seq(|threads|, t requires 0 <= t < |threads| => threads[t].InFlight())
  }

  /** totalProgress plus what is between "rest stored" and "progress added" is what the
      parts have. */
  ghost predicate Conserved(parts: seq<Part>, threads: seq<Thread>, progress: int) {
    progress + Sum(InFlightList(threads)) == Downloaded(parts)
  }

  ghost predicate ThreadsOk(s: State) {
    forall t :: 0 <= t < |s.threads| ==> ThreadOk(s.job, s.parts, s.using, s.dest, s.threads[t])
  }

  ghost predicate Inv(s: State) {
    && Shape(s)
    && ThreadsOk(s)
    && Exclusive(s.using, s.threads)
    && LockOk(s.lock, s.threads)
    && PrefixOk(s.job.src, s.parts, s.dest)
    && RecordsOk(s.parts, s.records)
    && Conserved(s.parts, s.threads, s.progress)
  }

  /** The invariant as one thread sees it. */
  lemma Seen(s: State, t: nat)
    requires Inv(s) && t < |s.threads|
    ensures Shape(s) && LockOk(s.lock, s.threads)
    ensures ThreadOk(s.job, s.parts, s.using, s.dest, s.threads[t])
  {
    hide ThreadOk, Shape, Exclusive, LockOk, PrefixOk, RecordsOk, Conserved;
  }

  lemma Shaped(s: State)
    requires Inv(s)
    ensures Shape(s) && LockOk(s.lock, s.threads) && (s.lock.Some? ==> s.lock.value < |s.threads|)
  {
    hide ThreadOk, Shape, Exclusive, PrefixOk, RecordsOk, Conserved;
  }

  // Preservation, piece by piece

  /** A thread that keeps what it owns leaves ownership as it is. */
  lemma ExclusiveKept(using: seq<bool>, threads: seq<Thread>, t: nat, th: Thread)
    requires Exclusive(using, threads) && t < |threads|
    requires th.Owning() == threads[t].Owning() && (th.Owning() ==> th.part == threads[t].part)
    ensures Exclusive(using, threads[t := th])
  {
    var threads' := threads[t := th];
    assert forall u, i :: 0 <= u < |threads| ==> threads'[u].Owns(i) == threads[u].Owns(i);
    forall i | 0 <= i < |using| && using[i]
      ensures exists u :: 0 <= u < |threads'| && threads'[u].Owns(i)
    {
      var u :| 0 <= u < |threads| && threads[u].Owns(i);
      assert threads'[u].Owns(i);
    }
  }

  lemma ExclusiveClaim(using: seq<bool>, threads: seq<Thread>, t: nat, th: Thread, i: nat)
    requires Exclusive(using, threads) && t < |threads| && i < |using| && !using[i]
    requires !threads[t].Owning() && th.Owns(i)
    ensures Exclusive(using[i := true], threads[t := th])
  {
    var threads', using' := threads[t := th], using[i := true];
    assert forall u, k :: 0 <= u < |threads| && u != t ==> threads'[u].Owns(k) == threads[u].Owns(k);
    forall k | 0 <= k < |using'| && using'[k]
      ensures exists u :: 0 <= u < |threads'| && threads'[u].Owns(k)
    {
      if k == i {
        assert threads'[t].Owns(k);
      } else {
        var u :| 0 <= u < |threads| && threads[u].Owns(k);
        assert threads'[u].Owns(k);
      }
    }
  }

  lemma ExclusiveRelease(using: seq<bool>, threads: seq<Thread>, t: nat, th: Thread, i: nat)
    requires Exclusive(using, threads) && t < |threads| && i < |using|
    requires threads[t].Owns(i) && !th.Owning()
    ensures Exclusive(using[i := false], threads[t := th])
  {
    var threads', using' := threads[t := th], using[i := false];
    assert forall u, k :: 0 <= u < |threads| && u != t ==> threads'[u].Owns(k) == threads[u].Owns(k);
    forall k | 0 <= k < |using'| && using'[k]
      ensures exists u :: 0 <= u < |threads'| && threads'[u].Owns(k)
    {
      var u :| 0 <= u < |threads| && threads[u].Owns(k);
      assert threads'[u].Owns(k);
    }
  }

  /** No other thread owns the part that t owns. */
  lemma OthersElsewhere(s: State, t: nat, u: nat)
    requires Inv(s) && t < |s.threads| && u < |s.threads| && t != u
    requires s.threads[t].Owning() && s.threads[u].Owning()
    ensures s.threads[u].part.value != s.threads[t].part.value
  {
    assert s.threads[t].Owns(s.threads[t].part.value);
    assert s.threads[u].Owns(s.threads[u].part.value);
  }

  lemma FlightUpdate(threads: seq<Thread>, t: nat, th: Thread)
    requires t < |threads|
    ensures Sum(InFlightList(threads[t := th])) == Sum(InFlightList(threads)) - threads[t].InFlight() + th.InFlight()
  {
    assert InFlightList(threads[t := th]) == InFlightList(threads)[t := th.InFlight()];
    SumUpdate(InFlightList(threads), t, th.InFlight());
  }

  /** A step that changes only thread t, keeping what it owns, holds and has in flight. */
  lemma LocalStep(s: State, t: nat, th: Thread)
    requires Inv(s) && t < |s.threads|
    requires ThreadOk(s.job, s.parts, s.using, s.dest, th)
    requires th.Owning() == s.threads[t].Owning() && (th.Owning() ==> th.part == s.threads[t].part)
    requires th.pc.Scanning? == s.threads[t].pc.Scanning?
    requires th.InFlight() == s.threads[t].InFlight()
    ensures Inv(s.With(t, th))
  {
    hide PhaseOk, Exclusive;
    ExclusiveKept(s.using, s.threads, t, th);
    FlightUpdate(s.threads, t, th);
  }

  lemma PhaseRequest(job: Job, p: Part, dest: seq<byte>, th: Thread)
    requires job.Ok() && PhaseOk(job, p, dest, th) && th.pc.Requesting? && !Refuses(th.link)
    ensures PhaseOk(job, p, dest, DoRequest(job, p, th))
  {
    hide RequestFrame, Carries, Replied, Agrees;
    var frame := RequestFrame(job, Cursor(p, p.rest), p.rest);
    assert [] + frame == frame;
  }

  lemma PhaseServe(job: Job, p: Part, dest: seq<byte>, th: Thread)
    requires job.Ok() && PhaseOk(job, p, dest, th) && th.Owning() && HasRequest(th.link)
    ensures th.pc.AwaitingReply?
    ensures React(th.link, job) == LiveLink([], ReplyFrame(p.rest), Sending(p.End() - p.rest, p.rest))
    ensures PhaseOk(job, p, dest, th.(link := React(th.link, job)))
  {
    assert th.link.up != [];
    assert !Replied(th.link, job, p.End() - p.rest, p.rest);
    ServeLink(th.link, job, p.End() - p.rest, p.rest);
  }

  lemma PhaseSend(job: Job, p: Part, dest: seq<byte>, th: Thread, n: nat)
    requires PhaseOk(job, p, dest, th) && th.Owning()
    requires th.link.LiveLink? && th.link.server.Sending? && 1 <= n <= th.link.server.rest
    ensures th.link.server.pos + n <= |job.src|
    ensures PhaseOk(job, p, dest, th.(link := Transmit(th.link, job.src, n)))
  {
    hide RequestFrame, ReplyFrame, Carries, Agrees;
    if th.pc.AwaitingReply? {
      SendAfterReply(th.link, job, p.End() - p.rest, p.rest, n);
    } else {
      SendLink(th.link, job.src, WindowPos(th), WindowSize(th), n);
    }
  }

  lemma PhaseReply(job: Job, p: Part, dest: seq<byte>, th: Thread)
    requires job.Ok() && PhaseOk(job, p, dest, th) && th.pc.AwaitingReply?
    requires th.link.DeadLink? || HasReply(th.link)
    ensures PhaseOk(job, p, dest, DoReply(p, th))
    ensures th.link.LiveLink? ==> DoReply(p, th).pc.Receiving?
  {
    hide RequestFrame, ReplyFrame, Carries, Agrees, HasReply;
    if th.link.LiveLink? {
      ReplyIsBytes(th.link);
      ReplyLink(th.link, job, p.End() - p.rest, p.rest);
    }
  }

  lemma PhaseReceive(job: Job, p: Part, dest: seq<byte>, th: Thread, n: nat)
    requires PhaseOk(job, p, dest, th) && th.pc.Receiving?
    requires if th.link.LiveLink? then n <= |th.link.down| else n == 0
    ensures n <= th.rest
    ensures PhaseOk(job, p, dest, DoReceive(th, n))
  {
    if th.link.LiveLink? {
      ReceiveLink(th.link, job.src, th.pos, th.rest, n);
    }
  }

  /** The remaining steps that only move a thread within its part. */
  lemma PhaseSimple(job: Job, p: Part, dest: seq<byte>, th: Thread)
    requires PhaseOk(job, p, dest, th) && th.Owning()
    ensures th.pc.Connecting? ==> PhaseOk(job, p, dest, DoConnect(th))
    ensures th.pc.Requesting? && th.link.DeadLink? ==>
              PhaseOk(job, p, dest, DoRefuse(p, th))
    ensures th.pc.Receiving? && th.link.DeadLink? ==>
              PhaseOk(job, p, dest, th.(pc := Releasing, link := NoLink))
    ensures th.pc.Receiving? && th.rest == 0 ==> PhaseOk(job, p, dest, th.(pc := Releasing))
    ensures th.link.LiveLink? ==> PhaseOk(job, p, dest, th.(link := DeadLink(false)))
  {
    if th.pc.Receiving? && th.rest == 0 {
      IdleWhenDone(th.link, job.src, th.pos);
    }
  }

  /** A step that only moves an owning thread within its part. */
  lemma OwnerStep(s: State, t: nat, th: Thread)
    requires Inv(s) && t < |s.threads| && s.threads[t].Owning()
    requires PhaseOk(s.job, s.parts[s.threads[t].part.value], s.dest, s.threads[t])
         ==> PhaseOk(s.job, s.parts[s.threads[t].part.value], s.dest, th)
    requires th.Owning() && th.part == s.threads[t].part && th.startPart == s.threads[t].startPart
    requires th.InFlight() == s.threads[t].InFlight()
    ensures Inv(s.With(t, th))
  {
    hide PhaseOk;
    assert ThreadOk(s.job, s.parts, s.using, s.dest, s.threads[t]);
    LocalStep(s, t, th);
  }

  lemma StepOwner(s: State, a: Action)
    requires Inv(s) && Enabled(s, a)
    requires a.Connect? || a.Request? || a.RequestFails? || a.Reply? || a.Receive? || a.HangUp? || a.PartDone?
    ensures Inv(Apply(s, a))
  {
    hide Inv, Layout, PhaseOk, React, HasRequest, HasReply, Submit, Transmit, Decode, ReplySize, RequestFrame;
    var t, th := a.t, s.threads[a.t];
    Seen(s, t);
    var p := s.parts[th.part.value];
    match a {
      case Request(_) => PhaseRequest(s.job, p, s.dest, th);
      case Reply(_) => PhaseReply(s.job, p, s.dest, th);
      case Receive(_, n) => PhaseReceive(s.job, p, s.dest, th, n);
      case _ => PhaseSimple(s.job, p, s.dest, th);
    }
    OwnerStep(s, t, Apply(s, a).threads[t]);
  }

  lemma StepServe(s: State, t: nat)
    requires Inv(s) && t < |s.threads| && HasRequest(s.threads[t].link)
    ensures s.threads[t].pc.AwaitingReply?
    ensures Inv(s.With(t, s.threads[t].(link := React(s.threads[t].link, s.job))))
  {
    var th := s.threads[t];
    assert th.link.up != [];
    assert ThreadOk(s.job, s.parts, s.using, s.dest, th);
    PhaseServe(s.job, s.parts[th.part.value], s.dest, th);
    hide PhaseOk, React, HasRequest, Decode;
    OwnerStep(s, t, th.(link := React(th.link, s.job)));
  }

  lemma StepSend(s: State, t: nat, n: nat)
    requires Inv(s) && t < |s.threads| && s.threads[t].link.LiveLink? && s.threads[t].link.server.Sending?
    requires 1 <= n <= s.threads[t].link.server.rest && s.threads[t].link.server.pos + n <= |s.job.src|
    ensures Inv(s.With(t, s.threads[t].(link := Transmit(s.threads[t].link, s.job.src, n))))
  {
    var th := s.threads[t];
    assert ThreadOk(s.job, s.parts, s.using, s.dest, th);
    assert th.Owning();
    PhaseSend(s.job, s.parts[th.part.value], s.dest, th, n);
    hide PhaseOk, Transmit;
    OwnerStep(s, t, th.(link := Transmit(th.link, s.job.src, n)));
  }

  /** A working connection may be lost at any time. */
  lemma StepDrop(s: State, t: nat)
    requires Inv(s) && t < |s.threads| && s.threads[t].link.LiveLink?
    ensures Inv(s.With(t, s.threads[t].(link := DeadLink(false))))
  {
    var th := s.threads[t];
    assert ThreadOk(s.job, s.parts, s.using, s.dest, th.(link := DeadLink(false))) by {
      assert ThreadOk(s.job, s.parts, s.using, s.dest, th);
      if th.Owning() {
        PhaseSimple(s.job, s.parts[th.part.value], s.dest, th);
        hide PhaseOk;
      }
    }
    hide ThreadOk;
    LocalStep(s, t, th.(link := DeadLink(false)));
  }

  lemma StepAdvance(s: State, t: nat)
    requires Inv(s) && t < |s.threads| && s.threads[t].pc.Released?
    ensures Inv(DoAdvance(s, t))
  {
    hide PhaseOk;
    assert ThreadOk(s.job, s.parts, s.using, s.dest, s.threads[t]);
    LocalStep(s, t, DoAdvance(s, t).threads[t]);
  }

  /** Taking or giving up partsLock without touching what it guards. */
  lemma LockStep(s: State, t: nat, th: Thread, lock: Option<nat>)
    requires Inv(s) && t < |s.threads| && (s.lock == None || s.lock == Some(t))
    requires lock == if th.pc.Scanning? then Some(t) else None
    requires ThreadOk(s.job, s.parts, s.using, s.dest, th)
    requires !th.HasPart() && !s.threads[t].HasPart()
    ensures Inv(s.(lock := lock).With(t, th))
  {
    hide PhaseOk, ThreadOk;
    ExclusiveKept(s.using, s.threads, t, th);
    FlightUpdate(s.threads, t, th);
  }

  lemma StepAcquire(s: State, t: nat)
    requires Inv(s) && t < |s.threads| && s.threads[t].pc.Waiting? && s.lock.None?
    ensures Inv(DoAcquire(s, t))
  {
    hide PhaseOk;
    assert ThreadOk(s.job, s.parts, s.using, s.dest, s.threads[t]);
    LockStep(s, t, DoAcquire(s, t).threads[t], Some(t));
  }

  lemma StepEndPass(s: State, t: nat)
    requires Inv(s) && t < |s.threads| && s.threads[t].pc.Scanning? && s.threads[t].pc.i >= |s.parts|
    ensures Inv(DoEndPass(s, t))
  {
    hide PhaseOk;
    var th := DoEndPass(s, t).threads[t];
    assert ThreadOk(s.job, s.parts, s.using, s.dest, s.threads[t]);
    LockStep(s, t, th, if th.pc.Scanning? then Some(t) else None);
  }

  lemma FrameClaim(s: State, t: nat, i: nat, u: nat)
    requires Inv(s) && t < |s.threads| && s.threads[t].pc.Scanning? && i < |s.parts|
    requires u < |s.threads| && u != t
    ensures ThreadOk(s.job, s.parts, s.using[i := true], s.dest, s.threads[u])
  {
    hide PhaseOk, LinkIdle;
    assert ThreadOk(s.job, s.parts, s.using, s.dest, s.threads[u]);
    assert !s.threads[u].pc.Scanning?;
  }

  lemma ClaimStep(s: State, t: nat, i: nat)
    requires Inv(s) && t < |s.threads| && s.threads[t].pc.Scanning?
    requires i < |s.parts| && s.parts[i].rest > 0 && !s.using[i]
    ensures Inv(s.(using := s.using[i := true], lock := None)
                 .With(t, s.threads[t].(pc := Connecting, part := Some(i))))
  {
    var th := s.threads[t].(pc := Connecting, part := Some(i));
    assert ThreadOk(s.job, s.parts, s.using[i := true], s.dest, th) by {
      assert ThreadOk(s.job, s.parts, s.using, s.dest, s.threads[t]);
      Disjoint(s.parts, |s.job.src|, i, i);
    }
    forall u | 0 <= u < |s.threads| && u != t
      ensures ThreadOk(s.job, s.parts, s.using[i := true], s.dest, s.threads[u])
    {
      FrameClaim(s, t, i, u);
    }
    hide ThreadOk, PhaseOk;
    ExclusiveClaim(s.using, s.threads, t, th, i);
    FlightUpdate(s.threads, t, th);
  }

  lemma PassOver(job: Job, parts: seq<Part>, using: seq<bool>, dest: seq<byte>, th: Thread)
    requires ThreadOk(job, parts, using, dest, th) && th.pc.Scanning? && th.pc.i < |parts|
    requires parts[th.pc.i].rest == 0 || using[th.pc.i]
    ensures ThreadOk(job, parts, using, dest,
                     th.(pc := Scanning(th.pc.i + 1, th.pc.finish && parts[th.pc.i].rest == 0)))
  {
    forall k | th.startPart <= k < th.pc.i + 1 ensures parts[k].rest == 0 || using[k] {
      assert k < th.pc.i || k == th.pc.i;
    }
  }

  lemma ScanEffect(s: State, t: nat)
    requires Shape(s) && t < |s.threads| && s.threads[t].pc.Scanning? && s.threads[t].pc.i < |s.parts|
    ensures var th := s.threads[t];
            var i := th.pc.i;
            DoScan(s, t) ==
              if s.parts[i].rest == 0 || s.using[i] then
                s.With(t, th.(pc := Scanning(i + 1, th.pc.finish && s.parts[i].rest == 0)))
              else
                s.(using := s.using[i := true], lock := None)
                 .With(t, th.(pc := Connecting, part := Some(i)))
  {
    assert s.parts[s.threads[t].pc.i].id == s.threads[t].pc.i;
  }

  lemma StepPassOver(s: State, t: nat)
    requires Inv(s) && t < |s.threads| && s.threads[t].pc.Scanning? && s.threads[t].pc.i < |s.parts|
    requires s.parts[s.threads[t].pc.i].rest == 0 || s.using[s.threads[t].pc.i]
    ensures var th := s.threads[t];
            Inv(s.With(t, th.(pc := Scanning(th.pc.i + 1, th.pc.finish && s.parts[th.pc.i].rest == 0))))
  {
    hide PhaseOk, Exclusive, PrefixOk, RecordsOk, Conserved;
    var th := s.threads[t];
    assert ThreadOk(s.job, s.parts, s.using, s.dest, th);
    PassOver(s.job, s.parts, s.using, s.dest, th);
    hide ThreadOk;
    LocalStep(s, t, th.(pc := Scanning(th.pc.i + 1, th.pc.finish && s.parts[th.pc.i].rest == 0)));
  }

  lemma StepScan(s: State, t: nat)
    requires Inv(s) && t < |s.threads| && s.threads[t].pc.Scanning? && s.threads[t].pc.i < |s.parts|
    ensures Inv(DoScan(s, t))
  {
    var i := s.threads[t].pc.i;
    ScanEffect(s, t);
    if s.parts[i].rest == 0 || s.using[i] {
      StepPassOver(s, t);
    } else {
      ClaimStep(s, t, i);
    }
    hide Inv, DoScan;
  }

  /** A write anywhere: the bytes written, the others as before, zeros in a gap. */
  lemma SpliceAnywhere(dest: seq<byte>, pos: nat, data: seq<byte>)
    ensures |Splice(dest, pos, data)| == if |dest| < pos + |data| then pos + |data| else |dest|
    ensures forall k :: 0 <= k < |Splice(dest, pos, data)| ==>
              Splice(dest, pos, data)[k] == if pos <= k < pos + |data| then data[k - pos]
                                            else if k < |dest| then dest[k] else 0
  {
  }

  /** Writing inside the file changes exactly the bytes written. */
  lemma SpliceEffect(dest: seq<byte>, pos: nat, data: seq<byte>)
    requires pos + |data| <= |dest|
    ensures |Splice(dest, pos, data)| == |dest|
    ensures forall k :: 0 <= k < |dest| ==>
              Splice(dest, pos, data)[k] == if pos <= k < pos + |data| then data[k - pos] else dest[k]
  {
  }

  /** The written bytes are the source's and lie inside the writer's own part. */
  lemma WriteEffect(job: Job, p: Part, dest: seq<byte>, th: Thread)
    requires PhaseOk(job, p, dest, th) && th.pc.Writing? && |job.src| <= |dest|
    ensures p.offset <= th.pos == p.End() - p.rest && th.pos + |th.pc.data| <= p.End() <= |job.src|
    ensures var dest' := Splice(dest, th.pos, th.pc.data);
            |dest'| == |dest| && forall k :: 0 <= k < |dest| ==>
              dest'[k] == if th.pos <= k < th.pos + |th.pc.data| then job.src[k] else dest[k]
  {
    var data := th.pc.data;
    SpliceEffect(dest, th.pos, data);
    forall k | th.pos <= k < th.pos + |data|
      ensures data[k - th.pos] == job.src[k]
    {
      assert data[k - th.pos] == job.src[th.pos..th.pos + |data|][k - th.pos];
    }
  }

  /** What thread t's pending write does to the destination: source bytes appear at the
      end of the downloaded prefix of t's own part, and nothing else changes. */
  lemma WriteInPlace(s: State, t: nat)
    requires Inv(s) && t < |s.threads| && s.threads[t].pc.Writing?
    ensures var th, dest' := s.threads[t], DoWrite(s, t).dest;
            var p, to := s.parts[th.part.value], th.pos + |th.pc.data|;
            && PhaseOk(s.job, p, s.dest, th)
            && p.offset <= th.pos == p.End() - p.rest && to <= p.End() <= |s.job.src|
            && |dest'| == |s.dest|
            && forall k :: 0 <= k < |s.dest| ==> dest'[k] == if th.pos <= k < to then s.job.src[k] else s.dest[k]
  {
    hide Inv, Layout, Carries, Agrees;
    Seen(s, t);
    WriteEffect(s.job, s.parts[s.threads[t].part.value], s.dest, s.threads[t]);
  }

  lemma FrameWrite(s: State, t: nat, u: nat)
    requires Inv(s) && t < |s.threads| && s.threads[t].pc.Writing? && u < |s.threads| && u != t
    ensures ThreadOk(s.job, s.parts, s.using, DoWrite(s, t).dest, s.threads[u])
  {
    var th, other := s.threads[t], s.threads[u];
    WriteInPlace(s, t);
    assert ThreadOk(s.job, s.parts, s.using, s.dest, other);
    hide Carries, AwaitOk, DoWrite;
    if other.Owning() {
      OthersElsewhere(s, t, u);
      Disjoint(s.parts, |s.job.src|, th.part.value, other.part.value);
    }
  }

  lemma WriterOk(job: Job, p: Part, dest: seq<byte>, dest': seq<byte>, th: Thread)
    requires PhaseOk(job, p, dest, th) && th.pc.Writing? && |dest'| == |dest| >= |job.src|
    requires Agrees(dest, job.src, p.offset, p.End() - p.rest)
    requires forall k :: 0 <= k < |dest| ==>
               dest'[k] == if th.pos <= k < th.pos + |th.pc.data| then job.src[k] else dest[k]
    ensures PhaseOk(job, p, dest', th.(pc := Storing(|th.pc.data|), pos := th.pos + |th.pc.data|))
  {
  }

  lemma PrefixWrite(s: State, t: nat)
    requires Inv(s) && t < |s.threads| && s.threads[t].pc.Writing?
    ensures PrefixOk(s.job.src, s.parts, DoWrite(s, t).dest)
  {
    WriteInPlace(s, t);
    hide DoWrite, ThreadOk, PhaseOk, Exclusive, RecordsOk, Conserved;
    forall j | 0 <= j < |s.parts|
      ensures Agrees(DoWrite(s, t).dest, s.job.src, s.parts[j].offset, s.parts[j].End() - s.parts[j].rest)
    {
      assert Agrees(s.dest, s.job.src, s.parts[j].offset, s.parts[j].End() - s.parts[j].rest);
    }
  }

  /** The invariant's pieces after writing, for the thread that writes and for the others. */
  lemma WritePieces(s: State, t: nat)
    requires Inv(s) && t < |s.threads| && s.threads[t].pc.Writing?
    ensures ThreadOk(s.job, s.parts, s.using, DoWrite(s, t).dest, DoWrite(s, t).threads[t])
  {
    hide Inv, Splice, PrefixOk, Carries;
    WriteInPlace(s, t);
    Seen(s, t);
    var th, i := s.threads[t], s.threads[t].part.value;
    Prefixes(s);
    PrefixAt(s.job.src, s.parts, s.dest, i);
    WriterOk(s.job, s.parts[i], s.dest, DoWrite(s, t).dest, th);
    hide PhaseOk;
  }

  lemma Prefixes(s: State)
    requires Inv(s)
    ensures PrefixOk(s.job.src, s.parts, s.dest) && RecordsOk(s.parts, s.records) && Exclusive(s.using, s.threads)
    ensures Conserved(s.parts, s.threads, s.progress) && Shape(s)
  {
    hide ThreadOk, Exclusive, PrefixOk, RecordsOk, Conserved;
  }

  lemma OthersWrite(s: State, t: nat)
    requires Inv(s) && t < |s.threads| && s.threads[t].pc.Writing?
    ensures forall u :: 0 <= u < |s.threads| && u != t ==>
              ThreadOk(s.job, s.parts, s.using, DoWrite(s, t).dest, s.threads[u])
  {
    hide Inv, DoWrite, ThreadOk;
    forall u | 0 <= u < |s.threads| && u != t
      ensures ThreadOk(s.job, s.parts, s.using, DoWrite(s, t).dest, s.threads[u])
    {
      FrameWrite(s, t, u);
    }
  }

  lemma StepWrite(s: State, t: nat)
    requires Inv(s) && t < |s.threads| && s.threads[t].pc.Writing?
    ensures Inv(DoWrite(s, t))
  {
    hide Inv, Layout, ThreadOk, PhaseOk, Exclusive, PrefixOk, RecordsOk, Conserved, Splice;
    var s' := DoWrite(s, t);
    Prefixes(s);
    WriteInPlace(s, t);
    PrefixWrite(s, t);
    WritePieces(s, t);
    OthersWrite(s, t);
    ExclusiveKept(s.using, s.threads, t, s'.threads[t]);
    FlightUpdate(s.threads, t, s'.threads[t]);
    StillConserved(s, s');
    Assemble(s, s', t);
  }

  lemma StillConserved(s: State, s': State)
    requires Conserved(s.parts, s.threads, s.progress) && s'.parts == s.parts && s'.progress == s.progress
    requires Sum(InFlightList(s'.threads)) == Sum(InFlightList(s.threads))
    ensures Conserved(s'.parts, s'.threads, s'.progress)
  {
  }

  lemma PrefixAt(src: seq<byte>, parts: seq<Part>, dest: seq<byte>, i: nat)
    requires PrefixOk(src, parts, dest) && i < |parts|
    ensures parts[i].rest <= parts[i].size && Agrees(dest, src, parts[i].offset, parts[i].End() - parts[i].rest)
  {
  }

  /** Inv from its parts for a step of thread t that keeps the flags and the lock. */
  lemma Assemble(s: State, s': State, t: nat)
    requires Inv(s) && t < |s.threads|
    requires s'.job == s.job && s'.lock == s.lock && s'.using == s.using
    requires |s'.threads| == |s.threads| && forall u :: 0 <= u < |s.threads| && u != t ==> s'.threads[u] == s.threads[u]
    requires s'.threads[t].pc.Scanning? == s.threads[t].pc.Scanning?
    requires |s'.dest| == |s.dest| && Layout(s'.parts, |s.job.src|)
    requires ThreadOk(s.job, s'.parts, s.using, s'.dest, s'.threads[t])
    requires forall u :: 0 <= u < |s.threads| && u != t ==> ThreadOk(s.job, s'.parts, s.using, s'.dest, s.threads[u])
    requires Exclusive(s.using, s'.threads)
    requires PrefixOk(s.job.src, s'.parts, s'.dest) && RecordsOk(s'.parts, s'.records)
    requires Conserved(s'.parts, s'.threads, s'.progress)
    ensures Inv(s')
  {
    hide PhaseOk, Exclusive, PrefixOk, Conserved;
  }

  lemma PhaseStore(job: Job, p: Part, dest: seq<byte>, th: Thread)
    requires job.Ok() && PhaseOk(job, p, dest, th) && th.pc.Storing?
    ensures th.pc.n <= th.rest == p.rest && (th.rest - th.pc.n) % TWO64 == th.rest - th.pc.n
    ensures Agrees(dest, job.src, p.offset, p.End() - (th.rest - th.pc.n))
    ensures PhaseOk(job, p.(rest := th.rest - th.pc.n), dest, th.(pc := Counting(th.pc.n), rest := th.rest - th.pc.n))
  {
  }

  lemma FrameStore(s: State, t: nat, p': Part, u: nat)
    requires Inv(s) && t < |s.threads| && s.threads[t].Owning() && u < |s.threads| && u != t
    requires p'.rest <= s.parts[s.threads[t].part.value].rest
    ensures ThreadOk(s.job, s.parts[s.threads[t].part.value := p'], s.using, s.dest, s.threads[u])
  {
    hide PhaseOk, LinkIdle;
    var other := s.threads[u];
    assert ThreadOk(s.job, s.parts, s.using, s.dest, other);
    if other.Owning() {
      OthersElsewhere(s, t, u);
    }
  }

  lemma GotUpdate(parts: seq<Part>, i: nat, rest: nat)
    requires i < |parts| && rest <= parts[i].rest <= parts[i].size
    ensures Downloaded(parts[i := parts[i].(rest := rest)]) == Downloaded(parts) + parts[i].rest - rest
  {
    var p' := parts[i].(rest := rest);
    assert GotList(parts[i := p']) == GotList(parts)[i := p'.Got()];
    SumUpdate(GotList(parts), i, p'.Got());
  }

  /** Storing the new rest reduces it by exactly the bytes written. */
  lemma StoreEffect(s: State, t: nat)
    requires Inv(s) && t < |s.threads| && s.threads[t].pc.Storing?
    ensures var th := s.threads[t];
            var i := th.part.value;
            var p' := s.parts[i].(rest := s.parts[i].rest - th.pc.n);
            && th.pc.n <= s.parts[i].rest == th.rest
            && DoStore(s, t) == s.(parts := s.parts[i := p']).With(t, th.(pc := Counting(th.pc.n), rest := p'.rest))
            && PhaseOk(s.job, p', s.dest, DoStore(s, t).threads[t])
            && Agrees(s.dest, s.job.src, p'.offset, p'.End() - p'.rest)
  {
    var th := s.threads[t];
    assert ThreadOk(s.job, s.parts, s.using, s.dest, th);
    PhaseStore(s.job, s.parts[th.part.value], s.dest, th);
  }

  /** The invariant's pieces after storing, for the thread that stores and the parts. */
  lemma StorePieces(s: State, t: nat)
    requires Inv(s) && t < |s.threads| && s.threads[t].pc.Storing?
    ensures var s' := DoStore(s, t);
            && ThreadOk(s.job, s'.parts, s.using, s.dest, s'.threads[t]) && Layout(s'.parts, |s.job.src|)
            && PrefixOk(s.job.src, s'.parts, s.dest) && RecordsOk(s'.parts, s.records)
  {
    StoreEffect(s, t);
    Seen(s, t);
    hide DoStore, PhaseOk, Exclusive, Conserved, LinkIdle;
  }

  lemma OthersStore(s: State, t: nat)
    requires Inv(s) && t < |s.threads| && s.threads[t].pc.Storing?
    ensures forall u :: 0 <= u < |s.threads| && u != t ==>
              ThreadOk(s.job, DoStore(s, t).parts, s.using, s.dest, s.threads[u])
  {
    StoreEffect(s, t);
    hide ThreadOk, DoStore, PhaseOk;
    forall u | 0 <= u < |s.threads| && u != t
      ensures ThreadOk(s.job, DoStore(s, t).parts, s.using, s.dest, s.threads[u])
    {
      FrameStore(s, t, DoStore(s, t).parts[s.threads[t].part.value], u);
    }
  }

  lemma OwnershipOf(s: State, t: nat)
    requires Inv(s) && t < |s.threads| && s.threads[t].pc.Storing?
    ensures Exclusive(s.using, s.threads) && Conserved(s.parts, s.threads, s.progress)
    ensures s.threads[t].part.Some? && s.threads[t].part.value < |s.parts|
    ensures s.parts[s.threads[t].part.value].rest <= s.parts[s.threads[t].part.value].size
  {
    hide ThreadOk, Exclusive, Conserved, PrefixOk, RecordsOk;
  }

  lemma StepStore(s: State, t: nat)
    requires Inv(s) && t < |s.threads| && s.threads[t].pc.Storing?
    ensures Inv(DoStore(s, t))
  {
    StorePieces(s, t);
    StoreEffect(s, t);
    OthersStore(s, t);
    hide Inv, Layout, DoStore, PhaseOk, ThreadOk, Exclusive, PrefixOk, RecordsOk;
    Shaped(s);
    OwnershipOf(s, t);
    var th, s' := s.threads[t], DoStore(s, t);
    var i := th.part.value;
    ExclusiveKept(s.using, s.threads, t, s'.threads[t]);
    FlightUpdate(s.threads, t, s'.threads[t]);
    GotUpdate(s.parts, i, th.rest - th.pc.n);
    Assemble(s, s', t);
  }

  lemma StepCount(s: State, t: nat)
    requires Inv(s) && t < |s.threads| && s.threads[t].pc.Counting?
    ensures Inv(DoCount(s, t))
  {
    hide Carries, AwaitOk;
    var th' := s.threads[t].(pc := Recording(s.threads[t].pc.n));
    assert ThreadOk(s.job, s.parts, s.using, s.dest, s.threads[t]);
    assert ThreadOk(s.job, s.parts, s.using, s.dest, th');
    hide ThreadOk, PhaseOk, Exclusive;
    ExclusiveKept(s.using, s.threads, t, th');
    FlightUpdate(s.threads, t, th');
    Assemble(s, DoCount(s, t), t);
  }

  lemma StepRecord(s: State, t: nat)
    requires Inv(s) && t < |s.threads| && s.threads[t].pc.Recording?
    ensures Inv(DoRecord(s, t))
  {
    hide Carries, AwaitOk;
    var th' := s.threads[t].(pc := Receiving);
    assert ThreadOk(s.job, s.parts, s.using, s.dest, s.threads[t]);
    assert ThreadOk(s.job, s.parts, s.using, s.dest, th');
    assert s.parts[th'.part.value].id == th'.part.value;
    hide ThreadOk, PhaseOk, Exclusive;
    ExclusiveKept(s.using, s.threads, t, th');
    FlightUpdate(s.threads, t, th');
    Assemble(s, DoRecord(s, t), t);
  }

  lemma FrameRelease(s: State, t: nat, u: nat)
    requires Inv(s) && t < |s.threads| && s.threads[t].Owning() && s.lock.None? && u < |s.threads| && u != t
    ensures ThreadOk(s.job, s.parts, s.using[s.threads[t].part.value := false], s.dest, s.threads[u])
  {
    hide PhaseOk, LinkIdle;
    assert ThreadOk(s.job, s.parts, s.using, s.dest, s.threads[u]);
    assert !s.threads[u].pc.Scanning?;
    if s.threads[u].Owning() { OthersElsewhere(s, t, u); }
  }

  lemma StepRelease(s: State, t: nat)
    requires Inv(s) && t < |s.threads| && s.threads[t].pc.Releasing? && s.lock.None?
    ensures Inv(DoRelease(s, t))
  {
    var th, s' := s.threads[t], DoRelease(s, t);
    var i := th.part.value;
    assert ThreadOk(s.job, s.parts, s.using, s.dest, th);
    assert s.parts[i].id == i;
    assert ThreadOk(s.job, s.parts, s'.using, s.dest, s'.threads[t]);
    forall u | 0 <= u < |s.threads| && u != t
      ensures ThreadOk(s.job, s.parts, s'.using, s.dest, s.threads[u])
    {
      FrameRelease(s, t, u);
    }
    hide ThreadOk, PhaseOk;
    ExclusiveRelease(s.using, s.threads, t, s'.threads[t], i);
    FlightUpdate(s.threads, t, s'.threads[t]);
  }

  /** Every step of every thread, of the servers and of the network keeps the invariant. */
  lemma StepInv(s: State, a: Action)
    requires Inv(s) && Enabled(s, a)
    ensures Inv(Apply(s, a))
  {
    hide ThreadOk, Exclusive, PrefixOk, RecordsOk, Conserved;
    match a {
      case Acquire(t) => StepAcquire(s, t);
      case Scan(t) => StepScan(s, t);
      case EndPass(t) => StepEndPass(s, t);
      case Serve(t) => StepServe(s, t);
      case Send(t, n) => StepSend(s, t, n);
      case Write(t) => StepWrite(s, t);
      case Store(t) => StepStore(s, t);
      case Count(t) => StepCount(s, t);
      case Record(t) => StepRecord(s, t);
      case Release(t) => StepRelease(s, t);
      case Advance(t) => StepAdvance(s, t);
      case Drop(t) => StepDrop(s, t);
      case _ => StepOwner(s, a);
    }
  }

  /** The invariant holds after every run. */
  lemma {:induction false} RunInv(s: State, acts: seq<Action>)
    requires Inv(s) && Run(s, acts)
    ensures Inv(After(s, acts))
    decreases |acts|
  {
    if acts != [] {
      StepInv(s, acts[0]);
      hide Inv, Enabled, Apply;
      RunInv(Apply(s, acts[0]), acts[1..]);
    }
  }
}
