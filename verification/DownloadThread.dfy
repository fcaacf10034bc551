/** DownloadThread as an object: run and downloadPart statement by statement. Every change a
    thread makes to the state it shares through its DownloadManager is a step of the step
    machine, recorded in `trace`; what the machine's runs keep, this code keeps. */
module DownloadThreads {
  import opened Bytes
  import opened Options
  import opened Sums
  import opened Parts
  import opened Protocol
  import opened Sockets
  import opened Download
  import opened DownloadSafety
  import opened DownloadMeasure
  import opened DownloadDoom
  import opened DownloadHope
  import opened DownloadLiveness
  import opened DownloadEnding
  import opened DownloadOutcome
  import opened DownloadTheorems
  import opened DownloadRecords
  import opened RecordFile
  import opened DownloadManagers

  /** How looking for a part ends: one is claimed, the thread is to return, or it is still
      going round with partsLock held. And how a thread's work can end besides: a second refused
      write over one connection raises SIGPIPE, which ends the process. */
  datatype Search = Claimed | Finished | Spinning | Killed

  datatype Sending = Sent | NotSent | ProcessEnds

  lemma Extend(s: State, trace: seq<Action>, a: Action)
    requires Inv(s) && Run(s, trace) && Inv(After(s, trace)) && Enabled(After(s, trace), a)
    ensures Run(s, trace + [a]) && After(s, trace + [a]) == Apply(After(s, trace), a) && Inv(After(s, trace + [a]))
  {
    hide Inv, Enabled, Apply, Run, After;
    StepInv(After(s, trace), a);
    Shaped(After(s, trace));
    RunSingle(After(s, trace), a);
    RunAppend(s, trace, [a]);
  }

  /** A thread waiting for a reply or receiving has a connection, working or failed. */
  lemma LinkPresent(s: State, t: nat)
    requires Inv(s) && t < |s.threads|
    requires s.threads[t].pc.Requesting? || s.threads[t].pc.AwaitingReply? || s.threads[t].pc.Receiving?
    ensures !s.threads[t].link.NoLink?
  {
    hide Inv, Layout, Carries, Requested, Replied, LinkIdle;
    Seen(s, t);
  }

  lemma HasReplyIsPacket(l: Link)
    requires HasReply(l)
    ensures l.LiveLink? && Decode(l.down, READ_BUFFER_PER_THREAD).Packet?
  {
  }

  lemma Served(l: Link, job: Job)
    requires HasRequest(l)
    ensures React(l, job).LiveLink?
  {
    hide Decode;
    RequestIsBytes(l);
  }

  lemma Transmitted(l: Link, src: seq<byte>, n: nat)
    requires l.LiveLink? && l.server.Sending? && n <= l.server.rest && l.server.pos + n <= |src|
    ensures Transmit(l, src, n).LiveLink?
  {
  }

  /** In a fault-free history a part is only given back finished. */
  lemma LeftFinished(s: State, trace: seq<Action>, t: nat)
    requires Inv(s) && Run(s, trace) && Inv(After(s, trace)) && t < |After(s, trace).threads|
    requires After(s, trace).threads[t].pc.Releasing?
    ensures var s', th := After(s, trace), After(s, trace).threads[t];
            && th.part.Some? && th.part.value < |s'.parts|
            && (Healthy(s) && FaultFree(trace) ==> s'.parts[th.part.value].rest == 0)
  {
    hide Inv, Run, After, Layout;
    Shaped(After(s, trace));
    if Healthy(s) && FaultFree(trace) {
      HealthyRun(s, trace);
    }
  }

  /** ... a connection that is there works ... */
  lemma StillLive(s: State, trace: seq<Action>, t: nat)
    requires Inv(s) && Run(s, trace) && Inv(After(s, trace)) && t < |After(s, trace).threads|
    requires Healthy(s) && FaultFree(trace)
    ensures !After(s, trace).threads[t].link.DeadLink?
  {
    hide Inv, Run, After;
    HealthyRun(s, trace);
  }

  /** ... the server answers a waiting request ... */
  lemma ReplyComes(s: State, t: nat)
    requires Inv(s) && t < |s.threads| && s.threads[t].pc.AwaitingReply? && s.threads[t].link.LiveLink?
    requires !HasReply(s.threads[t].link)
    ensures HasRequest(s.threads[t].link) && HasReply(React(s.threads[t].link, s.job))
  {
    hide Inv, Layout, HasReply, HasRequest, React, Carries, RequestFrame, ReplyFrame;
    Seen(s, t);
    var p := s.parts[s.threads[t].part.value];
    if Replied(s.threads[t].link, s.job, p.End() - p.rest, p.rest) {
      ReplyLink(s.threads[t].link, s.job, p.End() - p.rest, p.rest);
    }
    ServeLink(s.threads[t].link, s.job, p.End() - p.rest, p.rest);
    ReplyLink(React(s.threads[t].link, s.job), s.job, p.End() - p.rest, p.rest);
  }

  /** ... and sends what it has not sent yet ... */
  lemma DataComes(s: State, t: nat)
    requires Inv(s) && t < |s.threads| && s.threads[t].pc.Receiving? && s.threads[t].rest > 0
    requires s.threads[t].link.LiveLink? && s.threads[t].link.down == []
    ensures var l := s.threads[t].link;
            l.server.Sending? && l.server.rest > 0 && l.server.pos + l.server.rest <= |s.job.src|
  {
    hide Inv, Layout, AwaitOk, Agrees;
    Seen(s, t);
  }

  /** ... and no connection has come to refuse anything. */
  lemma NotRefusing(s: State, trace: seq<Action>, t: nat)
    requires Inv(s) && Run(s, trace) && Inv(After(s, trace)) && t < |After(s, trace).threads|
    requires Refuses(After(s, trace).threads[t].link)
    ensures !(Healthy(s) && FaultFree(trace))
  {
    hide Inv, Run, After;
    if Healthy(s) && FaultFree(trace) {
      HealthyRun(s, trace);
    }
  }

  /** A thread that ends the process so has left no way to end the download in it. */
  lemma KilledNeverEnds(s: State, t: nat)
    requires Inv(s) && Trapped(s, t)
    ensures !CanFinish(s)
  {
    hide Inv, Trapped, CanFinish, Starved;
    CanFinishIffNotDoomed(s);
  }

  predicate Missing(ps: seq<Part>, part: Option<nat>) {
    part.Some? && part.value < |ps| && ps[part.value].rest > 0
  }

  predicate Taken(using: seq<bool>, i: nat) { i < |using| && using[i] }

  lemma StillMissing(parts: seq<Part>, from: nat, k: nat)
    requires from <= k < |parts| && parts[k].rest > 0
    ensures !AllDone(parts, from, |parts|)
  {
  }

  predicate NoneGrew(ps: seq<Part>, ps': seq<Part>) {
    |ps'| == |ps| && forall i :: 0 <= i < |ps| ==> ps'[i].rest <= ps[i].rest
  }

  lemma FewerUnfinished(ps: seq<Part>, ps': seq<Part>, k: nat)
    requires NoneGrew(ps, ps') && k < |ps| && ps[k].rest > 0 && ps'[k].rest == 0
    ensures Unfinished(ps') + 1 <= Unfinished(ps)
  {
    SumReplace(UnfinishedList(ps), UnfinishedList(ps'), k);
  }

  lemma PrefixFaultFree(xs: seq<Action>, ys: seq<Action>)
    requires xs <= ys && FaultFree(ys)
    ensures FaultFree(xs)
  {
    forall i | 0 <= i < |xs| ensures !Faulty(xs[i]) {
      assert xs[i] == ys[i];
    }
  }

  class DownloadThread {
    const manager: DownloadManager
    const threadNo: nat
    const steady: bool // the network does not fail: no connection is lost, every read gives something
    var part: Option<nat>
    var startPart: nat
    var rest: nat
    var pos: nat
    var connSocket: Link
    ghost const origin: State
    ghost var trace: seq<Action>
    ghost var machine: State

    ghost predicate Traced()
      reads this
    {
      && Inv(origin) && Run(origin, trace) && machine == After(origin, trace) && Inv(machine) && Shape(machine)
      && threadNo < |machine.threads| == |origin.threads|
      && (steady ==> Healthy(origin) && FaultFree(trace))
    }

    /** Shared fields, own fields and program counter are what the machine says. */
    ghost predicate Coupled(pc: Pc)
      reads this, manager
    {
      && Traced() && manager.Shows(machine)
      && machine.threads[threadNo] == Thread(pc, startPart, part, rest, pos, connSocket)
    }

    /** A thread of the pool, in a state of the machine in which it has not begun. */
    constructor (manager: DownloadManager, threadNo: nat, startPart: nat, steady: bool, ghost s: State)
      requires Inv(s) && manager.Shows(s) && threadNo < |s.threads| && s.threads[threadNo] == NewThread(startPart)
      requires steady ==> Healthy(s)
      ensures this.manager == manager && this.threadNo == threadNo && this.steady == steady && Coupled(Waiting)
      ensures origin == machine == s && trace == []
    {
      hide Inv;
      this.manager := manager;
      this.threadNo := threadNo;
      this.steady := steady;
      this.startPart := startPart;
      part, rest, pos, connSocket := None, 0, 0, NoLink;
      origin, trace, machine := s, [], s;
      new;
      Shaped(s);
    }

    /** One more step of the machine. */
    ghost method Take(a: Action)
      requires Traced() && Enabled(machine, a) && (steady ==> !Faulty(a))
      modifies this`machine, this`trace
      ensures Traced() && machine == Apply(old(machine), a) && trace == old(trace) + [a]
    {
      hide Inv, Enabled, Apply, Run, After, Shape;
      Extend(origin, trace, a);
      Shaped(machine);
      ApplyFrame(machine, a);
      trace := trace + [a];
      machine := After(origin, trace);
      Shaped(machine);
    }

    // The server's end, and the network

    /** While this thread does nothing the server may serve it, send some bytes or lose the
        connection, any number of times. */
    method Meanwhile(ghost pc: Pc)
      requires Coupled(pc)
      modifies this`connSocket, this`trace, this`machine
      ensures Coupled(pc) && old(trace) <= trace && machine.lock == old(machine).lock
      ensures !old(connSocket).LiveLink? ==> connSocket == old(connSocket) && trace == old(trace)
      ensures old(connSocket).LiveLink? ==> !Refuses(connSocket)
    {
      hide Inv, Run, After, Healthy, FaultFree, HasRequest, React, Transmit;
      var times: nat :| times >= 0;
      for i := 0 to times
        invariant Coupled(pc) && old(trace) <= trace && machine.lock == old(machine).lock
        invariant !old(connSocket).LiveLink? ==> connSocket == old(connSocket) && trace == old(trace)
        invariant old(connSocket).LiveLink? ==> !Refuses(connSocket)
      {
        if connSocket.LiveLink? {
          OneTurn(pc);
        }
      }
    }

    method OneTurn(ghost pc: Pc)
      requires Coupled(pc) && connSocket.LiveLink?
      modifies this`connSocket, this`trace, this`machine
      ensures Coupled(pc) && old(trace) <= trace && machine.lock == old(machine).lock && !Refuses(connSocket)
    {
      hide Inv, Run, After, Healthy, FaultFree, HasRequest, React, Transmit;
      var n: nat := *;
      var fails: bool := *;
      if fails && !steady {
        Lose(pc);
      } else if HasRequest(connSocket) {
        Served(connSocket, manager.job);
        Take(Serve(threadNo));
        connSocket := React(connSocket, manager.job);
      } else if connSocket.server.Sending? && 1 <= n <= connSocket.server.rest
                && connSocket.server.pos + n <= |manager.job.src| {
        Transmitted(connSocket, manager.job.src, n);
        Take(Send(threadNo, n));
        connSocket := Transmit(connSocket, manager.job.src, n);
      }
    }

    method Lose(ghost pc: Pc)
      requires Coupled(pc) && !steady
      modifies this`connSocket, this`trace, this`machine
      ensures Coupled(pc) && old(trace) <= trace && machine.lock == old(machine).lock
      ensures !connSocket.LiveLink? && (old(connSocket).LiveLink? ==> !Refuses(connSocket))
    {
      hide Inv, Run, After, Healthy, FaultFree;
      if connSocket.LiveLink? {
        Take(Drop(threadNo));
        connSocket := DeadLink(false);
      }
    }

    // Looking for a part

    /** Lines 125-135: look at parts[i] and claim it exactly if it is unfinished and free. */
    method LookAt(i: nat, finish: bool) returns (claimed: bool, stillFinish: bool)
      requires Coupled(Scanning(i, finish)) && i < |manager.parts|
      modifies this`part, this`trace, this`machine, manager`usingOffsets
      ensures old(trace) <= trace
      ensures |manager.usingOffsets| == |manager.parts|
      ensures claimed <==> manager.parts[i].rest > 0 && !old(manager.usingOffsets)[i]
      ensures claimed ==> Coupled(Connecting) && machine.lock.None? && part == Some(i)
      ensures !claimed ==>
                && Coupled(Scanning(i + 1, stillFinish)) && manager.usingOffsets == old(manager.usingOffsets)
                && stillFinish == (finish && manager.parts[i].rest == 0)
      ensures !claimed && |origin.threads| == 1 ==> stillFinish == finish
    {
      hide Inv, Run, After, Healthy, FaultFree, DoScan;
      var cur := manager.parts[i];
      assert cur.id == i;
      ScanEffect(machine, threadNo);
      if |origin.threads| == 1 { AloneFlags(machine, threadNo); }
      Take(Scan(threadNo));
      stillFinish := finish;
      if cur.rest != 0 {
        stillFinish := false;
        if !manager.usingOffsets[cur.id] {
          manager.usingOffsets := manager.usingOffsets[cur.id := true];
          part := Some(i);
          return true, false;
        }
      }
      claimed := false;
    }

    /** One pass over the parts from startPart, partsLock held: the first unfinished part that
        is free is claimed; without one `finish` says whether all are finished. */
    method Pass() returns (found: bool, finish: bool)
      requires Coupled(Scanning(startPart, true))
      modifies this`part, this`trace, this`machine, manager`usingOffsets
      ensures old(trace) <= trace
      ensures found ==> Coupled(Connecting) && machine.lock.None? && Missing(manager.parts, part)
      ensures found ==> startPart <= part.value && !Taken(old(manager.usingOffsets), part.value)
                        && Barren(manager.parts, old(manager.usingOffsets), startPart, part.value)
      ensures !found ==> Coupled(Scanning(Max(startPart, |manager.parts|), finish))
      ensures !found ==> (finish <==> AllDone(manager.parts, startPart, |manager.parts|))
                         && manager.usingOffsets == old(manager.usingOffsets)
                         && Barren(manager.parts, manager.usingOffsets, startPart, |manager.parts|)
      ensures !found && |origin.threads| == 1 ==> finish
    {
      hide Traced;
      finish := true;
      var i := startPart;
      FlagsMatch();
      while i < |manager.parts|
        invariant startPart <= i <= Max(startPart, |manager.parts|)
        invariant Coupled(Scanning(i, finish)) && old(trace) <= trace
        invariant manager.usingOffsets == old(manager.usingOffsets)
        invariant Barren(manager.parts, manager.usingOffsets, startPart, i)
        invariant finish <==> AllDone(manager.parts, startPart, i)
        invariant |origin.threads| == 1 ==> finish
        decreases |manager.parts| - i
      {
        found, finish := LookAt(i, finish);
        if found {
          return;
        }
        i := i + 1;
      }
      found := false;
    }

    ghost method FlagsMatch()
      requires Traced() && manager.Shows(machine)
      ensures |manager.usingOffsets| == |manager.parts|
    {
    }

    /** Lines 120-142 of run: take partsLock and go round until a part is found or all from
        startPart on are finished. A thread that finds everything taken, but not everything
        finished, goes round any number of times; a lone thread never does. */
    method FindPart() returns (search: Search)
      requires Coupled(Waiting) && machine.lock.None?
      modifies this`part, this`trace, this`machine, manager`usingOffsets
      ensures old(trace) <= trace
      ensures !search.Killed? && (|origin.threads| == 1 ==> !search.Spinning?)
      ensures search.Claimed? ==> Coupled(Connecting) && machine.lock.None? && Missing(manager.parts, part)
      ensures search.Claimed? ==> startPart <= part.value && !Taken(old(manager.usingOffsets), part.value)
                                  && Barren(manager.parts, old(manager.usingOffsets), startPart, part.value)
      ensures search.Finished? ==> Coupled(Returned) && machine.lock.None?
      ensures search.Finished? <==> AllDone(manager.parts, startPart, |manager.parts|)
      ensures search.Spinning? ==> Coupled(Scanning(startPart, true))
                                   && Barren(manager.parts, manager.usingOffsets, startPart, |manager.parts|)
    {
      hide Traced, AllDone, Barren;
      TakeLock();
      var passes: nat :| passes >= 1;
      for i := 0 to passes
        invariant Coupled(Scanning(startPart, true)) && old(trace) <= trace
        invariant manager.usingOffsets == old(manager.usingOffsets)
        invariant i > 0 ==>
                    && !AllDone(manager.parts, startPart, |manager.parts|)
                    && Barren(manager.parts, manager.usingOffsets, startPart, |manager.parts|)
        invariant |origin.threads| == 1 ==> i == 0
      {
        var found, finish := Pass();
        if found {
          StillMissing(manager.parts, startPart, part.value);
          return Claimed;
        }
        EndOfPass(finish);
        if finish {
          return Finished;
        }
      }
      search := Spinning;
    }

    method TakeLock()
      requires Coupled(Waiting) && machine.lock.None?
      modifies this`trace, this`machine
      ensures Coupled(Scanning(startPart, true)) && old(trace) <= trace
    {
      hide Inv, Run, After, Healthy, FaultFree;
      Take(Acquire(threadNo));
    }

    /** Lines 138-141: return, or look again. */
    method EndOfPass(finish: bool)
      requires Coupled(Scanning(Max(startPart, |manager.parts|), finish))
      modifies this`trace, this`machine
      ensures old(trace) <= trace
      ensures if finish then Coupled(Returned) && machine.lock.None? else Coupled(Scanning(startPart, true))
    {
      hide Inv, Run, After, Healthy, FaultFree;
      Take(EndPass(threadNo));
    }

    method Connect()
      requires Coupled(Connecting)
      modifies this`connSocket, this`trace, this`machine
      ensures Coupled(Requesting) && old(trace) <= trace && machine.lock == old(machine).lock
      ensures connSocket == if old(connSocket).NoLink? then LiveLink([], [], Reading) else old(connSocket)
    {
      hide Inv, Run, After, Healthy, FaultFree;
      Take(Action.Connect(threadNo));
      if connSocket.NoLink? {
        connSocket := LiveLink([], [], Reading);
      }
    }

    // Downloading it

    /** Lines 163-174 of downloadPart: ask for what is missing of the part. The connection may be
        lost before. */
    method RequestPart() returns (sending: Sending)
      requires Coupled(Requesting)
      modifies this`rest, this`connSocket, this`trace, this`machine
      ensures old(trace) <= trace && machine.lock == old(machine).lock
      ensures sending.ProcessEnds? <==> Refuses(old(connSocket))
      ensures match sending
              case Sent => Coupled(AwaitingReply)
              case NotSent => Coupled(Releasing) && Refuses(connSocket)
              case ProcessEnds => Coupled(Requesting) && connSocket == old(connSocket) && trace == old(trace)
    {
      hide Inv, Run, After, Healthy, FaultFree, HasRequest, RequestFrame, Cursor;
      Meanwhile(Requesting);
      LinkPresent(machine, threadNo);
      if Refuses(connSocket) {
        return ProcessEnds;
      }
      var p := manager.parts[part.value];
      var offset, size := Cursor(p, p.rest), p.rest;
      var refused: bool := *;
      if steady { StillLive(origin, trace, threadNo); }
      if connSocket.DeadLink? && refused {
        Take(RequestFails(threadNo));
        rest := size;
        connSocket := DeadLink(true);
        return NotSent;
      }
      Take(Request(threadNo));
      rest := size;
      connSocket := Submit(connSocket, RequestFrame(manager.job, offset, size));
      sending := Sent;
    }

    /** Lines 176-191: take the header of the answer and position the file. */
    method ReceiveReply() returns (ok: bool)
      requires Coupled(AwaitingReply)
      modifies this`pos, this`connSocket, this`trace, this`machine
      ensures old(trace) <= trace && machine.lock == old(machine).lock
      ensures if ok then Coupled(Receiving) else Coupled(Releasing)
    {
      hide Inv, Run, After, Healthy, FaultFree, HasReply, HasRequest, Cursor, React, Transmit, Decode, ReplySize,
        Layout;
      Meanwhile(AwaitingReply);
      if !HasReply(connSocket) {
        if steady { ReplyArrives(); } else { Lose(AwaitingReply); }
      }
      LinkPresent(machine, threadNo);
      if connSocket.DeadLink? {
        Take(Action.Reply(threadNo));
        connSocket := NoLink;
        return false;
      }
      ok := TakeReply();
    }

    /** On a network that does not fail the server answers at last. */
    method ReplyArrives()
      requires Coupled(AwaitingReply) && steady && !HasReply(connSocket)
      modifies this`connSocket, this`trace, this`machine
      ensures Coupled(AwaitingReply) && HasReply(connSocket)
      ensures old(trace) <= trace && machine.lock == old(machine).lock
    {
      hide Inv, Run, After, Healthy, FaultFree, HasReply, HasRequest, React;
      LinkPresent(machine, threadNo);
      StillLive(origin, trace, threadNo);
      ReplyComes(machine, threadNo);
      Take(Serve(threadNo));
      connSocket := React(connSocket, manager.job);
    }

    method TakeReply() returns (ok: bool)
      requires Coupled(AwaitingReply) && HasReply(connSocket)
      modifies this`pos, this`connSocket, this`trace, this`machine
      ensures old(trace) <= trace && machine.lock == old(machine).lock
      ensures if ok then Coupled(Receiving) else Coupled(Releasing)
    {
      hide Inv, Run, After, Healthy, FaultFree, HasReply, HasRequest, Cursor, Decode, ReplySize, Layout;
      HasReplyIsPacket(connSocket);
      Take(Action.Reply(threadNo));
      var d := Decode(connSocket.down, READ_BUFFER_PER_THREAD);
      if ReplySize(d.msg) != Some(rest) {
        connSocket := NoLink;
        return false;
      }
      connSocket := connSocket.(down := d.rest);
      pos := Cursor(manager.parts[part.value], rest);
      ok := true;
    }

    /** The read of line 194: some bytes, none, or a closed connection. Reads without data use
        up `waits`. */
    method ReadSome(waits: nat) returns (receive: int, data: seq<byte>, left: nat)
      requires Coupled(Receiving) && rest > 0
      modifies this`connSocket, this`trace, this`machine
      ensures old(trace) <= trace && machine.lock == old(machine).lock
      ensures if receive < 0 then Coupled(Releasing) else receive == |data| && Coupled(Writing(data))
      ensures left <= waits && (receive == 0 ==> left < waits)
      ensures steady ==> receive > 0
    {
      hide Inv, Run, After, Healthy, FaultFree, HasReply, HasRequest, Cursor, React, Transmit, Layout;
      Meanwhile(Receiving);
      if steady { DataArrives(); }
      LinkPresent(machine, threadNo);
      var limit := EffectiveLimit(Min(READ_BUFFER_PER_THREAD, rest), READ_BUFFER_PER_THREAD);
      var n: nat := *;
      var error: bool := *;
      if steady && !(1 <= n <= |connSocket.down| && n < limit + Unit(limit)) {
        n := 1;
      }
      if connSocket.LiveLink? && 1 <= n <= |connSocket.down| && n < limit + Unit(limit) {
        data := ReadBytes(n);
        receive, left := n, waits;
      } else if waits > 0 && error && !steady {
        data := ReadBytes(0);
        receive, left := 0, waits - 1;
      } else {
        HangUpConnection();
        data, receive, left := [], -1, waits;
      }
    }

    /** On a network that does not fail the server sends at last. */
    method DataArrives()
      requires Coupled(Receiving) && steady && rest > 0
      modifies this`connSocket, this`trace, this`machine
      ensures Coupled(Receiving) && connSocket.LiveLink? && connSocket.down != []
      ensures old(trace) <= trace && machine.lock == old(machine).lock
    {
      hide Inv, Run, After, Healthy, FaultFree, HasReply, HasRequest, React;
      LinkPresent(machine, threadNo);
      StillLive(origin, trace, threadNo);
      if connSocket.down == [] {
        DataComes(machine, threadNo);
        var some: nat := *;
        var n := if 1 <= some <= connSocket.server.rest then some else connSocket.server.rest;
        Take(Send(threadNo, n));
        connSocket := Transmit(connSocket, manager.job.src, n);
      }
    }

    method ReadBytes(n: nat) returns (data: seq<byte>)
      requires Coupled(Receiving) && Enabled(machine, Receive(threadNo, n)) && (steady ==> n > 0)
      modifies this`connSocket, this`trace, this`machine
      ensures old(trace) <= trace && machine.lock == old(machine).lock
      ensures |data| == n && Coupled(Writing(data))
    {
      hide Inv, Run, After, Healthy, FaultFree, HasReply, HasRequest, Layout;
      Take(Receive(threadNo, n));
      data := [];
      if connSocket.LiveLink? {
        data := connSocket.down[..n];
        connSocket := connSocket.(down := connSocket.down[n..]);
      }
    }

    /** Lines 195-200: the connection is closed; if it is not known to be, it is lost now. */
    method HangUpConnection()
      requires Coupled(Receiving) && rest > 0 && !steady
      modifies this`connSocket, this`trace, this`machine
      ensures Coupled(Releasing) && old(trace) <= trace && machine.lock == old(machine).lock
    {
      hide Inv, Run, After, Healthy, FaultFree, HasReply, HasRequest, Layout;
      Lose(Receiving);
      LinkPresent(machine, threadNo);
      Take(HangUp(threadNo));
      connSocket := NoLink;
    }

    /** Lines 202-213: write the data, then account for it in the part, in totalProgress and
        in the record file, in this order. */
    method Account(data: seq<byte>)
      requires Coupled(Writing(data))
      modifies this`rest, this`pos, this`trace, this`machine
      modifies manager`destFile, manager`parts, manager`totalProgress, manager`partFile
      ensures Coupled(Receiving) && old(trace) <= trace && machine.lock == old(machine).lock
      ensures rest == old(rest) - |data| && NoneGrew(old(manager.parts), manager.parts)
    {
      hide Inv, Run, After, Healthy, FaultFree, Splice, Save, Layout;
      WriteData(data);
      StoreRest(|data|);
      Take(Count(threadNo));
      manager.totalProgress := manager.totalProgress + |data|;
      UpdateDownloadStatus(|data|);
    }

    method WriteData(data: seq<byte>)
      requires Coupled(Writing(data))
      modifies this`pos, this`trace, this`machine, manager`destFile
      ensures Coupled(Storing(|data|)) && old(trace) <= trace && machine.lock == old(machine).lock
      ensures pos == old(pos) + |data| && manager.destFile == Splice(old(manager.destFile), old(pos), data)
    {
      hide Inv, Run, After, Healthy, FaultFree, Splice, Save, Layout;
      Take(Write(threadNo));
      manager.destFile := Splice(manager.destFile, pos, data);
      pos := pos + |data|;
    }

    method StoreRest(n: nat)
      requires Coupled(Storing(n))
      modifies this`rest, this`trace, this`machine, manager`parts
      ensures Coupled(Counting(n)) && old(trace) <= trace && machine.lock == old(machine).lock
      ensures rest == old(rest) - n && NoneGrew(old(manager.parts), manager.parts)
    {
      hide Inv, Run, After, Healthy, FaultFree, Save;
      StoreEffect(machine, threadNo);
      Take(Store(threadNo));
      rest := (rest - n) % TWO64;
      manager.parts := manager.parts[part.value := manager.parts[part.value].(rest := rest)];
    }

    /** updateDownloadStatus: the part's structure over its slot of the record file, and nothing
        else of the file. */
    method UpdateDownloadStatus(ghost n: nat)
      requires Coupled(Recording(n))
      modifies this`trace, this`machine, manager`partFile
      ensures Coupled(Receiving) && old(trace) <= trace && machine.lock == old(machine).lock
      ensures manager.partFile == OverSlot(old(manager.partFile), part.value, EncodePart(manager.parts[part.value]))
    {
      hide Inv, Run, After, Healthy, FaultFree, Save, Splice, EncodePart;
      var p := manager.parts[part.value];
      SaveOne(machine.records, p.id, p);
      OneSlot(machine.records, part.value, p);
      Take(Record(threadNo));
      manager.partFile := Splice(manager.partFile, p.id * RECORD_SIZE, EncodePart(p));
    }

    /** downloadPart. It leaves only its own part, and in a healthy fault-free history it
        leaves that finished. */
    method DownloadPart() returns (alive: bool)
      requires Coupled(Requesting)
      modifies this`rest, this`pos, this`connSocket, this`trace, this`machine
      modifies manager`destFile, manager`parts, manager`totalProgress, manager`partFile
      ensures alive <==> !Refuses(old(connSocket))
      ensures Coupled(if alive then Releasing else Requesting) && (!alive ==> Refuses(connSocket))
      ensures old(trace) <= trace && machine.lock == old(machine).lock
      ensures NoneGrew(old(manager.parts), manager.parts)
      ensures Healthy(origin) && FaultFree(trace) ==> alive && manager.parts[part.value].rest == 0
    {
      hide Inv, Run, After, FaultFree, Layout, Healthy, HasReply, HasRequest, React;
      var sending := RequestPart();
      if sending.ProcessEnds? {
        NotRefusing(origin, trace, threadNo);
        return false;
      }
      if sending.Sent? {
        var ok := ReceiveReply();
        if ok {
          Transfer();
        }
      }
      LeftFinished(origin, trace, threadNo);
      alive := true;
    }

    /** The receive loop. It can only be kept going for ever by reads that give nothing, of
        which there are any finite number here. */
    method Transfer()
      requires Coupled(Receiving)
      modifies this`rest, this`pos, this`connSocket, this`trace, this`machine
      modifies manager`destFile, manager`parts, manager`totalProgress, manager`partFile
      ensures Coupled(Releasing) && old(trace) <= trace && machine.lock == old(machine).lock
      ensures NoneGrew(old(manager.parts), manager.parts)
    {
      hide Traced;
      var left: nat :| left >= 0;
      while rest > 0
        invariant Coupled(Receiving) && old(trace) <= trace && machine.lock == old(machine).lock
        invariant NoneGrew(old(manager.parts), manager.parts)
        decreases rest, left
      {
        var receive, data;
        receive, data, left := ReadSome(left);
        if receive < 0 {
          return;
        }
        Account(data);
      }
      LeaveLoop();
    }

    method LeaveLoop()
      requires Coupled(Receiving) && rest == 0
      modifies this`trace, this`machine
      ensures Coupled(Releasing) && old(trace) <= trace && machine.lock == old(machine).lock
    {
      hide Inv, Run, After, Healthy, FaultFree, Layout;
      Take(PartDone(threadNo));
    }

    /** Lines 151-157 of run. */
    method ReleasePart()
      requires Coupled(Releasing) && machine.lock.None?
      modifies this`startPart, this`part, this`trace, this`machine, manager`usingOffsets
      ensures Coupled(Waiting) && old(trace) <= trace && machine.lock.None?
    {
      hide Inv, Run, After, Healthy, FaultFree, Save;
      var i := part.value;
      Take(Release(threadNo));
      manager.usingOffsets := manager.usingOffsets[manager.parts[i].id := false];
      Take(Advance(threadNo));
      startPart := (manager.parts[i].id + 1) % |manager.parts|;
      part := None;
    }

    /** Lines 143-157 of run: one part, from the claim to the release. */
    method WorkOnPart() returns (alive: bool)
      requires Coupled(Connecting) && machine.lock.None? && Missing(manager.parts, part)
      modifies this, manager
      ensures alive <==> !Refuses(old(connSocket))
      ensures Coupled(if alive then Waiting else Requesting) && (!alive ==> Refuses(connSocket))
      ensures machine.lock.None? && old(trace) <= trace
      ensures Healthy(origin) && FaultFree(trace) ==>
                alive && Unfinished(manager.parts) + 1 <= Unfinished(old(manager.parts))
    {
      hide Inv, Run, After, Shape, Healthy, NoneGrew, Unfinished, FaultFree;
      ghost var before, k := manager.parts, part.value;
      Connect();
      alive := DownloadPart();
      if !alive {
        return;
      }
      ghost var done := trace;
      ReleasePart();
      if Healthy(origin) && FaultFree(trace) {
        PrefixFaultFree(done, trace);
        FewerUnfinished(before, manager.parts, k);
      }
    }

    /** run, for at most `rounds` parts. A lone thread without faults needs no more than there
        are unfinished parts, and one look more to return. */
    method RunThread(rounds: nat) returns (search: Search)
      requires Coupled(Waiting) && machine.lock.None?
      modifies this, manager
      ensures old(trace) <= trace && Traced() && manager.Shows(machine)
      ensures search.Finished? ==> Coupled(Returned) && machine.lock.None?
      ensures search.Killed? ==> Trapped(machine, threadNo)
      ensures search.Claimed? ==> Coupled(Waiting) && machine.lock.None?
      ensures search.Spinning? ==> Coupled(Scanning(startPart, true)) && |origin.threads| != 1
                                   && Barren(manager.parts, manager.usingOffsets, startPart, |manager.parts|)
      ensures |origin.threads| == 1 && Healthy(origin) && FaultFree(trace) ==>
                rounds > Unfinished(old(manager.parts)) ==> search.Finished?
    {
      hide Inv, Run, After, Shape, Healthy, NoneGrew, Unfinished, FaultFree;
      for i := 0 to rounds
        invariant Coupled(Waiting) && machine.lock.None? && old(trace) <= trace
        invariant Healthy(origin) && FaultFree(trace) ==>
                    i + Unfinished(manager.parts) <= Unfinished(old(manager.parts))
      {
        ghost var before := trace;
        search := FindPart();
        if search != Claimed {
          return;
        }
        var alive := WorkOnPart();
        if !alive {
          return Killed;
        }
        if FaultFree(trace) { PrefixFaultFree(before, trace); }
      }
      search := Claimed;
    }
  }

  /** The state a download starts from: new, or with the records of an earlier one. */
  function StartState(job: Job, records: Option<seq<Part>>, dest: seq<byte>): State {
    match records
    case None => Fresh(job, dest, 1)
    case Some(ps) => Resume(job, ps, dest, 1)
  }

  ghost predicate StartOk(job: Job, records: Option<seq<Part>>, dest: seq<byte>) {
    job.Ok() && (records.Some? ==>
      && Layout(records.value, |job.src|) && |records.value| < TWO31
      && |job.src| <= |dest| && PrefixOk(job.src, records.value, dest))
  }

  lemma AloneCompletes(job: Job, records: Option<seq<Part>>, dest: seq<byte>, trace: seq<Action>)
    requires StartOk(job, records, dest)
    ensures var s := StartState(job, records, dest);
            && Inv(s) && Healthy(s) && |s.threads| == 1 && s.threads[0] == NewThread(0) && s.lock.None?
            && (Run(s, trace) ==> |After(s, trace).threads| == 1)
            && (Run(s, trace) && FaultFree(trace) && AllReturned(After(s, trace)) ==>
                  && After(s, trace).dest == job.src + (if |job.src| <= |dest| then dest[|job.src|..] else [])
                  && After(s, trace).progress == |job.src|)
  {
    hide Inv, FrontOk, Healthy, Run, After, AllReturned, PrefixOk, Partition, Downloaded;
    var s := StartState(job, records, dest);
    StartInRange(0, |s.parts|, 1);
    if records.None? {
      FreshInv(job, dest, 1);
      ResumeFront(job, Partition(|job.src|), Allocate(dest, |job.src|), 1);
      assert s.dest[|job.src|..] == if |job.src| <= |dest| then dest[|job.src|..] else [];
    } else {
      ResumeInv(job, records.value, dest, 1);
      ResumeFront(job, records.value, dest, 1);
    }
    if Run(s, trace) {
      RunKeepsBytes(s, trace);
      if FaultFree(trace) && AllReturned(After(s, trace)) {
        FaultFreeIsClean(s, trace);
        Completion(s, trace);
      }
    }
  }

  lemma AloneSaves(job: Job, records: Option<seq<Part>>, dest: seq<byte>, trace: seq<Action>)
    requires StartOk(job, records, dest) && Run(StartState(job, records, dest), trace)
    requires AllReturned(After(StartState(job, records, dest), trace))
    ensures var s := After(StartState(job, records, dest), trace); s.records == s.parts
  {
    hide Run, After, AllReturned, PrefixOk, Partition, Layout, Resume, Fresh, Inv;
    if records.None? {
      FreshInv(job, dest, 1);
      StartIsSafe(job, dest);
      AllSavedAtEnd(job, Partition(|job.src|), Allocate(dest, |job.src|), 1, trace);
    } else {
      AllSavedAtEnd(job, records.value, dest, 1, trace);
    }
  }

  /** downloadWait with a single thread, new or resumed, up to the end of its threads: what it
      leaves is the end of a run of the machine. When the thread has returned the record file
      shows exactly what the parts are. On a network that does not fail the thread returns,
      after at most one round for every unfinished part and one more, and the destination is
      the source. */
  method DownloadAlone(job: Job, records: Option<seq<Part>>, dest: seq<byte>, steady: bool, rounds: nat)
    returns (manager: DownloadManager, search: Search, ghost trace: seq<Action>)
    requires StartOk(job, records, dest)
    ensures var s := StartState(job, records, dest);
            && Inv(s) && Run(s, trace) && manager.Shows(After(s, trace))
            && (search.Finished? ==> AllReturned(After(s, trace)))
            && (search.Killed? ==> !CanFinish(After(s, trace))) && !search.Spinning?
            && (FaultFree(trace) && rounds > Unfinished(s.parts) ==> search.Finished?)
            && (steady && rounds > Unfinished(s.parts) ==> search.Finished?)
    ensures search.Finished? ==> manager.partFile == Save(manager.parts)
    ensures search.Finished? && (steady || FaultFree(trace)) ==>
              && manager.destFile == job.src + (if |job.src| <= |dest| then dest[|job.src|..] else [])
              && manager.totalProgress == |job.src|
  {
    hide Inv, Run, After, PrefixOk, Partition, Layout, Save, Downloaded, Allocate, NewThreads, Unfinished, Healthy,
      CanFinish, Trapped, FaultFree;
    ghost var s := StartState(job, records, dest);
    AloneCompletes(job, records, dest, []);
    manager := new DownloadManager(job, dest);
    manager.Prepare(if records.None? then None else Some(Save(records.value)), 1);
    StartInRange(0, |manager.usingOffsets|, 1);
    var thread := new DownloadThread(manager, 0, manager.startParts[0], steady, s);
    search := thread.RunThread(rounds);
    trace := thread.trace;
    if search.Killed? { KilledNeverEnds(thread.machine, 0); }
    AloneCompletes(job, records, dest, trace);
    if search.Finished? { AloneSaves(job, records, dest, trace); }
  }

  function Max(a: nat, b: nat): nat { if a < b then b else a }
}
