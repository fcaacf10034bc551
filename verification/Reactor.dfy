/** The epoll driver of the server as a step machine: any number of worker threads waiting
    on one epoll instance, listeners armed for one event at a time, and the buffer that each
    worker lends to the session it is running. */
module Reactor {
  import opened Bytes
  import opened ByteBuffers
  import opened Options
  import opened Protocol
  import opened Requests
  import opened Sockets
  import opened Transfers
  import opened Sessions

  const MAX_EVENTS: nat := 64

  /** data.ptr of an epoll event: the listening socket's listener or a connection's. */
  datatype Ref = Listening | Conn(id: nat)

  /** A ConnectionListener: its one-shot registration, its session's status, the worker whose
      buffer is attached, how often it was deleted, and whether a failed epoll_ctl has left
      it unregistered for good. */
  datatype Listener = Listener(armed: Option<Interest>, status: Status, buffer: Option<nat>, freed: nat, lost: bool)

  /** Where a worker is with the first event of its batch. */
  datatype Stage = Ready | Accepting | Handling | Handled | Switching | Deleting

  /** A worker: what is left of its batch, the current event first. */
  datatype Worker = Worker(queue: seq<Ref>, stage: Stage)

  datatype State = State(conns: seq<Listener>, workers: seq<Worker>)

  /** A connection whose peer has sent something or closed (In), or has room for more (Out). */
  datatype Readiness = Readiness(id: nat, direction: Interest)

  datatype Step =
    | Wait(w: nat, batch: seq<Ref>, ready: set<Readiness>)
    | BeginAccept(w: nat) | Accept(w: nat, ok: bool) | AcceptDone(w: nat)
    | Begin(w: nat) | Handle(w: nat, status: Status) | Detach(w: nat)
    | Rearm(w: nat, ok: bool) | Finish(w: nat) | Delete(w: nat)

  /** What handle can make of a status. */
  predicate CanTurn(from: Status, to: Status) { from != END || to == END }

  /** epoll_wait: at most maxEvents events, no listener twice, and only connections that are
      armed for a direction they are ready in. */
  predicate Deliverable(conns: seq<Listener>, batch: seq<Ref>, ready: set<Readiness>) {
    && |batch| <= MAX_EVENTS
    && (forall i, j :: 0 <= i < j < |batch| ==> batch[i] != batch[j])
    && (forall i :: 0 <= i < |batch| && batch[i].Conn? ==>
          && batch[i].id < |conns| && conns[batch[i].id].armed.Some?
          && Readiness(batch[i].id, conns[batch[i].id].armed.value) in ready)
  }

  predicate AtConn(s: State, w: nat) {
    w < |s.workers| && s.workers[w].queue != [] && s.workers[w].queue[0].Conn?
    && s.workers[w].queue[0].id < |s.conns|
  }

  function Current(s: State, w: nat): nat
    requires AtConn(s, w)
  {
    s.workers[w].queue[0].id
  }

  predicate AtListening(s: State, w: nat) {
    w < |s.workers| && s.workers[w].queue != [] && s.workers[w].queue[0].Listening?
  }

  predicate Enabled(s: State, a: Step) {
    a.w < |s.workers| &&
    var stage := s.workers[a.w].stage;
    match a
    case Wait(w, batch, ready) => stage.Ready? && s.workers[w].queue == [] && Deliverable(s.conns, batch, ready)
    case BeginAccept(w) => stage.Ready? && AtListening(s, w)
    case Accept(w, _) => stage.Accepting?
    case AcceptDone(w) => stage.Accepting? && s.workers[w].queue != []
    case Begin(w) => stage.Ready? && AtConn(s, w)
    case Handle(w, status) => stage.Handling? && AtConn(s, w) && CanTurn(s.conns[Current(s, w)].status, status)
    case Detach(w) => stage.Handled? && AtConn(s, w)
    case Rearm(w, _) => stage.Switching? && AtConn(s, w) && s.conns[Current(s, w)].status != END
    case Finish(w) => stage.Switching? && AtConn(s, w) && s.conns[Current(s, w)].status == END
    case Delete(w) => stage.Deleting? && AtConn(s, w)
  }

  function Disarmed(conns: seq<Listener>, batch: seq<Ref>): (r: seq<Listener>)
    ensures |r| == |conns|
    ensures forall c :: 0 <= c < |conns| ==>
              r[c] == if Conn(c) in batch then conns[c].(armed := None) else conns[c]
  {
    seq(|conns|, c requires 0 <= c < |conns| => if Conn(c) in batch then conns[c].(armed := None) else conns[c])
  }

  function AtStage(s: State, w: nat, stage: Stage): State
    requires w < |s.workers|
  {
    s.(workers := s.workers[w := s.workers[w].(stage := stage)])
  }

  /** On to the next event of the batch. */
  function Popped(s: State, w: nat): State
    requires w < |s.workers| && s.workers[w].queue != []
  {
    s.(workers := s.workers[w := Worker(s.workers[w].queue[1..], Ready)])
  }

  function WithConn(s: State, c: nat, l: Listener): State
    requires c < |s.conns|
  {
    s.(conns := s.conns[c := l])
  }

  function Rearmed(l: Listener, ok: bool): Listener {
    if ok then l.(armed := InterestOf(l.status)) else l.(lost := true)
  }

  function Apply(s: State, a: Step): State
    requires Enabled(s, a)
  {
    match a
    case Wait(w, batch, _) => State(Disarmed(s.conns, batch), s.workers[w := Worker(batch, Ready)])
    case BeginAccept(w) => AtStage(s, w, Accepting)
    case Accept(w, ok) => s.(conns := s.conns + [Listener(if ok then Some(In) else None, READING, None, 0, !ok)])
    case AcceptDone(w) => Popped(s, w)
    case Begin(w) => var c := Current(s, w); AtStage(WithConn(s, c, s.conns[c].(buffer := Some(w))), w, Handling)
    case Handle(w, status) => var c := Current(s, w); AtStage(WithConn(s, c, s.conns[c].(status := status)), w, Handled)
    case Detach(w) => var c := Current(s, w); AtStage(WithConn(s, c, s.conns[c].(buffer := None)), w, Switching)
    case Rearm(w, ok) => var c := Current(s, w); Popped(WithConn(s, c, Rearmed(s.conns[c], ok)), w)
    case Finish(w) => AtStage(s, w, Deleting)
    case Delete(w) => var c := Current(s, w); Popped(WithConn(s, c, s.conns[c].(freed := s.conns[c].freed + 1)), w)
  }

  ghost predicate Run(s: State, steps: seq<Step>)
    decreases |steps|
  {
    steps == [] || (Enabled(s, steps[0]) && Run(Apply(s, steps[0]), steps[1..]))
  }

  ghost function After(s: State, steps: seq<Step>): State
    requires Run(s, steps)
    decreases |steps|
  {
    if steps == [] then s else After(Apply(s, steps[0]), steps[1..])
  }

  /** Server::init and start: no connection yet, every worker about to wait. */
  predicate Initial(s: State) {
    s.conns == [] && forall w :: 0 <= w < |s.workers| ==> s.workers[w] == Worker([], Ready)
  }

  // Counting who holds a listener

  /** How often connection c stands in a batch that is not worked off. */
  function InQueue(queue: seq<Ref>, c: nat): nat { multiset(queue)[Conn(c)] }

  function Held(workers: seq<Worker>, c: nat): nat {
    if workers == [] then 0 else InQueue(workers[0].queue, c) + Held(workers[1..], c)
  }

  lemma {:induction false} HeldUpdate(workers: seq<Worker>, w: nat, x: Worker, c: nat)
    requires w < |workers|
    ensures Held(workers[w := x], c) + InQueue(workers[w].queue, c) == Held(workers, c) + InQueue(x.queue, c)
  {
    if w == 0 {
      assert workers[0 := x][1..] == workers[1..];
    } else {
      HeldUpdate(workers[1..], w - 1, x, c);
      assert workers[w := x][1..] == workers[1..][w - 1 := x];
    }
  }

  lemma {:induction false} HeldNone(workers: seq<Worker>, c: nat)
    requires forall w :: 0 <= w < |workers| ==> InQueue(workers[w].queue, c) == 0
    ensures Held(workers, c) == 0
  {
    if workers != [] {
      HeldNone(workers[1..], c);
    }
  }

  /** Two workers' holdings are both part of the total. */
  lemma HeldByTwo(workers: seq<Worker>, v: nat, w: nat, c: nat)
    requires v < |workers| && w < |workers|
    ensures InQueue(workers[w].queue, c) <= Held(workers, c)
    ensures v != w ==> InQueue(workers[v].queue, c) + InQueue(workers[w].queue, c) <= Held(workers, c)
  {
    var free := Worker([], Ready);
    HeldUpdate(workers, w, free, c);
    HeldUpdate(workers[w := free], v, free, c);
  }

  lemma PopCount(queue: seq<Ref>, c: nat)
    requires queue != []
    ensures InQueue(queue, c) == InQueue(queue[1..], c) + if queue[0] == Conn(c) then 1 else 0
  {
    assert queue == [queue[0]] + queue[1..];
  }

  lemma {:induction false} DistinctCount(batch: seq<Ref>, c: nat)
    requires forall i, j :: 0 <= i < j < |batch| ==> batch[i] != batch[j]
    ensures InQueue(batch, c) == if Conn(c) in batch then 1 else 0
  {
    if batch != [] {
      PopCount(batch, c);
      var tail := batch[1..];
      forall i, j | 0 <= i < j < |tail| ensures tail[i] != tail[j] {
        assert tail[i] == batch[i + 1] && tail[j] == batch[j + 1];
      }
      DistinctCount(tail, c);
      assert Conn(c) in batch <==> batch[0] == Conn(c) || Conn(c) in tail;
    }
  }

  // The invariant

  function One(b: bool): nat { if b then 1 else 0 }

  /** Every listener ever made is in exactly one place: armed, in one place of one worker's
      batch, deleted once, or lost to a failed registration. */
  ghost predicate OnePlace(s: State, c: nat)
    requires c < |s.conns|
  {
    var l := s.conns[c];
    Held(s.workers, c) + One(l.armed.Some?) + l.freed + One(l.lost) == 1
  }

  predicate Running(s: State, w: nat) {
    AtConn(s, w) && (s.workers[w].stage.Handling? || s.workers[w].stage.Handled?)
  }

  ghost predicate WorkerOk(s: State, w: nat)
    requires w < |s.workers|
  {
    var x := s.workers[w];
    && (forall i :: 0 <= i < |x.queue| && x.queue[i].Conn? ==> x.queue[i].id < |s.conns|)
    && (x.stage.Accepting? ==> AtListening(s, w))
    && (!x.stage.Ready? && !x.stage.Accepting? ==> AtConn(s, w))
    && (x.stage.Deleting? ==> s.conns[Current(s, w)].status == END)
    && (Running(s, w) ==> s.conns[Current(s, w)].buffer == Some(w))
  }

  ghost predicate ConnOk(s: State, c: nat)
    requires c < |s.conns|
  {
    var l := s.conns[c];
    && OnePlace(s, c)
    && (l.armed.Some? ==> l.armed == InterestOf(l.status))
    && (l.buffer.Some? ==> Running(s, l.buffer.value) && Current(s, l.buffer.value) == c)
  }

  ghost predicate Inv(s: State) {
    && (forall c :: 0 <= c < |s.conns| ==> ConnOk(s, c))
    && (forall w :: 0 <= w < |s.workers| ==> WorkerOk(s, w))
  }

  lemma InitialInv(s: State)
    requires Initial(s)
    ensures Inv(s)
  {
  }

  /** A worker with connection c at the head of its batch is its only holder. */
  lemma SoleHolder(s: State, w: nat, v: nat)
    requires Inv(s) && AtConn(s, w) && v < |s.workers|
    ensures var c := Current(s, w);
            && s.conns[c].armed == None && s.conns[c].freed == 0 && !s.conns[c].lost
            && (v != w ==> InQueue(s.workers[v].queue, c) == 0)
            && InQueue(s.workers[w].queue, c) == 1
            && (v != w && AtConn(s, v) ==> Current(s, v) != c)
  {
    var c := Current(s, w);
    assert ConnOk(s, c);
    PopCount(s.workers[w].queue, c);
    HeldByTwo(s.workers, v, w, c);
    if v != w && AtConn(s, v) {
      PopCount(s.workers[v].queue, c);
    }
  }

  lemma NotYetHeld(s: State)
    requires forall w :: 0 <= w < |s.workers| ==> WorkerOk(s, w)
    ensures Held(s.workers, |s.conns|) == 0
  {
    forall w | 0 <= w < |s.workers| ensures InQueue(s.workers[w].queue, |s.conns|) == 0 {
      assert WorkerOk(s, w);
    }
    HeldNone(s.workers, |s.conns|);
  }

  /** The books balance after every step. */
  lemma StepPlace(s: State, a: Step, c: nat)
    requires Inv(s) && Enabled(s, a) && c < |Apply(s, a).conns|
    ensures OnePlace(Apply(s, a), c)
  {
    var w := a.w;
    var x, x' := s.workers[w], Apply(s, a).workers[w];
    if c < |s.conns| { assert ConnOk(s, c); }
    assert WorkerOk(s, w);
    if a.Accept? {
      NotYetHeld(s);
    } else {
      assert Apply(s, a).workers == s.workers[w := x'];
      HeldUpdate(s.workers, w, x', c);
      if a.Wait? {
        DistinctCount(a.batch, c);
        if Conn(c) in a.batch {
          var i :| 0 <= i < |a.batch| && a.batch[i] == Conn(c);
        }
      } else if x'.queue != x.queue {
        PopCount(x.queue, c);
        SoleHolderIfConn(s, w);
      }
    }
    hide Held, InQueue, Inv, ConnOk, WorkerOk;
  }

  lemma SoleHolderIfConn(s: State, w: nat)
    requires Inv(s)
    ensures AtConn(s, w) ==> s.conns[Current(s, w)].armed == None && !s.conns[Current(s, w)].lost
  {
    if AtConn(s, w) { SoleHolder(s, w, w); }
  }

  /** A step changes one worker, and apart from a wait at most the connection it is at. */
  lemma StepFrame(s: State, a: Step)
    requires Enabled(s, a)
    ensures var s' := Apply(s, a);
            && |s'.workers| == |s.workers| && |s.conns| <= |s'.conns|
            && (forall v :: 0 <= v < |s.workers| && v != a.w ==> s'.workers[v] == s.workers[v])
            && (forall c :: 0 <= c < |s.conns| && !(AtConn(s, a.w) && c == Current(s, a.w)) ==>
                  s'.conns[c] == s.conns[c] || (a.Wait? && s'.conns[c] == s.conns[c].(armed := None)))
  {
  }

  lemma WorkerIn(s: State, w: nat)
    requires Inv(s) && w < |s.workers|
    ensures WorkerOk(s, w)
  {
  }

  lemma StepWorker(s: State, a: Step, v: nat)
    requires Inv(s) && Enabled(s, a) && v < |s.workers|
    ensures v < |Apply(s, a).workers| && WorkerOk(Apply(s, a), v)
  {
    hide Inv, ConnOk, InQueue, Held;
    StepFrame(s, a);
    WorkerIn(s, v);
    WorkerIn(s, a.w);
    if v != a.w {
      hide Apply, Enabled;
      if AtConn(s, a.w) { SoleHolder(s, a.w, v); }
    }
  }

  lemma ConnIn(s: State, c: nat)
    requires Inv(s) && c < |s.conns|
    ensures ConnOk(s, c)
  {
  }

  lemma StepConn(s: State, a: Step, c: nat)
    requires Inv(s) && Enabled(s, a) && c < |Apply(s, a).conns|
    ensures ConnOk(Apply(s, a), c)
  {
    hide Inv, OnePlace, WorkerOk, Held, InQueue;
    StepPlace(s, a, c);
    StepFrame(s, a);
    if c < |s.conns| {
      ConnIn(s, c);
      if AtConn(s, a.w) {
        SoleHolder(s, a.w, a.w);
        var b := s.conns[c].buffer;
        if b.Some? && b.value < |s.workers| { SoleHolder(s, a.w, b.value); }
      }
    }
  }

  lemma StepInv(s: State, a: Step)
    requires Inv(s) && Enabled(s, a)
    ensures Inv(Apply(s, a))
  {
    var s' := Apply(s, a);
    StepFrame(s, a);
    forall c | 0 <= c < |s'.conns| ensures ConnOk(s', c) {
      StepConn(s, a, c);
    }
    forall v | 0 <= v < |s'.workers| ensures WorkerOk(s', v) {
      StepWorker(s, a, v);
    }
  }

  lemma {:induction false} RunInv(s: State, steps: seq<Step>)
    requires Inv(s) && Run(s, steps)
    ensures Inv(After(s, steps))
    decreases |steps|
  {
    if steps != [] {
      StepInv(s, steps[0]);
      hide Inv, Enabled, Apply;
      RunInv(Apply(s, steps[0]), steps[1..]);
    }
  }

  // The theorems

  /** One-shot ownership: however many workers and connections there are and however their
      steps interleave, a listener stands in at most one worker's batch and there once; while
      it does it is neither armed nor deleted, so no worker ever uses a deleted listener; it
      is deleted at most once; and unless a registration failed, a listener that is not
      deleted is either in somebody's hands or armed: for input while its session is READING,
      for output while it is WRITING. */
  lemma OneShotOwnership(s0: State, steps: seq<Step>, c: nat)
    requires Initial(s0) && Run(s0, steps) && c < |After(s0, steps).conns|
    ensures var s := After(s0, steps);
            var l := s.conns[c];
            && Held(s.workers, c) <= 1 && l.freed <= 1
            && (Held(s.workers, c) == 1 ==> l.armed == None && l.freed == 0)
            && (l.armed == Some(In) ==> l.freed == 0 && l.status == READING)
            && (l.armed == Some(Out) ==> l.freed == 0 && l.status == WRITING)
            && (l.freed == 0 && !l.lost ==> (l.armed.Some? <==> Held(s.workers, c) == 0))
  {
    InitialInv(s0);
    RunInv(s0, steps);
    assert ConnOk(After(s0, steps), c);
  }

  /** A session nobody is running is always woken for what it waits for: while READING an idle
      worker can be given its connection exactly when the peer has sent something or closed,
      while WRITING exactly when the peer has room. */
  lemma WokenIff(s0: State, steps: seq<Step>, c: nat, w: nat, ready: set<Readiness>)
    requires Initial(s0) && Run(s0, steps) && c < |After(s0, steps).conns| && w < |After(s0, steps).workers|
    requires var s := After(s0, steps);
             && Held(s.workers, c) == 0 && s.conns[c].freed == 0 && !s.conns[c].lost
             && s.workers[w] == Worker([], Ready)
    ensures var s := After(s0, steps);
            && s.conns[c].status != END
            && (s.conns[c].status == READING ==>
                  (Enabled(s, Wait(w, [Conn(c)], ready)) <==> Readiness(c, In) in ready))
            && (s.conns[c].status == WRITING ==>
                  (Enabled(s, Wait(w, [Conn(c)], ready)) <==> Readiness(c, Out) in ready))
  {
    OneShotOwnership(s0, steps, c);
    hide Run, After, Initial, Held;
    var s := After(s0, steps);
    SingleEvent(s, c, w, ready);
    match s.conns[c].armed.value {
      case In =>
      case Out =>
    }
  }

  lemma SingleEvent(s: State, c: nat, w: nat, ready: set<Readiness>)
    requires c < |s.conns| && w < |s.workers| && s.workers[w] == Worker([], Ready)
    ensures Enabled(s, Wait(w, [Conn(c)], ready)) <==>
              s.conns[c].armed.Some? && Readiness(c, s.conns[c].armed.value) in ready
  {
    assert [Conn(c)][0] == Conn(c);
  }

  /** Two workers never hold the same listener. */
  lemma HoldersDiffer(s0: State, steps: seq<Step>, v: nat, w: nat, c: nat)
    requires Initial(s0) && Run(s0, steps)
    requires var s := After(s0, steps);
             && v < |s.workers| && w < |s.workers| && c < |s.conns|
             && Conn(c) in s.workers[v].queue && Conn(c) in s.workers[w].queue
    ensures v == w
  {
    OneShotOwnership(s0, steps, c);
    HeldByTwo(After(s0, steps).workers, v, w, c);
  }

  /** A worker's buffer is attached exactly to the session whose handle the worker is in, so
      to at most one session, and no session has two. */
  lemma BufferAttachment(s0: State, steps: seq<Step>, w: nat, c: nat)
    requires Initial(s0) && Run(s0, steps)
    requires w < |After(s0, steps).workers| && c < |After(s0, steps).conns|
    ensures var s := After(s0, steps);
            s.conns[c].buffer == Some(w) <==> Running(s, w) && Current(s, w) == c
  {
    InitialInv(s0);
    RunInv(s0, steps);
    assert ConnOk(After(s0, steps), c) && WorkerOk(After(s0, steps), w);
  }

  /** A listener is only deleted in state END, unarmed, by the worker that alone holds it,
      with no buffer attached, and never a second time. */
  lemma DeleteIsSafe(s0: State, steps: seq<Step>, w: nat)
    requires Initial(s0) && Run(s0, steps) && Enabled(After(s0, steps), Delete(w))
    ensures var s := After(s0, steps);
            var l := s.conns[Current(s, w)];
            && l.status == END && l.armed == None && l.buffer == None && l.freed == 0
            && forall v :: 0 <= v < |s.workers| && v != w ==> Conn(Current(s, w)) !in s.workers[v].queue
  {
    InitialInv(s0);
    RunInv(s0, steps);
    var s := After(s0, steps);
    var c := Current(s, w);
    assert ConnOk(s, c) && WorkerOk(s, w);
    SoleHolder(s, w, w);
    forall v | 0 <= v < |s.workers| && v != w ensures Conn(c) !in s.workers[v].queue {
      SoleHolder(s, w, v);
    }
    if s.conns[c].buffer.Some? { SoleHolder(s, w, s.conns[c].buffer.value); }
  }

  predicate Fails(a: Step) { (a.Accept? || a.Rearm?) && !a.ok }

  /** A listener is lost only by a failed epoll_ctl. */
  lemma {:induction false} LostOnlyByFailure(s: State, steps: seq<Step>)
    requires Run(s, steps) && forall i :: 0 <= i < |steps| ==> !Fails(steps[i])
    requires forall c :: 0 <= c < |s.conns| ==> !s.conns[c].lost
    ensures forall c :: 0 <= c < |After(s, steps).conns| ==> !After(s, steps).conns[c].lost
    decreases |steps|
  {
    if steps != [] {
      assert !Fails(steps[0]);
      var s' := Apply(s, steps[0]);
      assert forall c :: 0 <= c < |s'.conns| ==> !s'.conns[c].lost;
      forall i | 0 <= i < |steps[1..]| ensures !Fails(steps[1..][i]) {
        assert steps[1..][i] == steps[i + 1];
      }
      hide Enabled, Apply;
      LostOnlyByFailure(s', steps[1..]);
    }
  }

  /** A finished session is never taken up again. */
  lemma {:induction false} EndIsFinal(s: State, steps: seq<Step>, c: nat)
    requires Run(s, steps) && c < |s.conns| && s.conns[c].status == END
    ensures c < |After(s, steps).conns| && After(s, steps).conns[c].status == END
    decreases |steps|
  {
    if steps != [] {
      StepFrame(s, steps[0]);
      var s' := Apply(s, steps[0]);
      assert s'.conns[c].status == END;
      hide Enabled, Apply;
      EndIsFinal(s', steps[1..], c);
    }
  }

  /** While a connection's worker is in its session nothing but that worker changes it. */
  lemma OthersKeepOff(s0: State, steps: seq<Step>, w: nat, a: Step)
    requires Initial(s0) && Run(s0, steps) && Running(After(s0, steps), w)
    requires Enabled(After(s0, steps), a) && a.w != w
    ensures var s := After(s0, steps);
            Apply(s, a).conns[Current(s, w)] == s.conns[Current(s, w)]
  {
    InitialInv(s0);
    RunInv(s0, steps);
    var s := After(s0, steps);
    SoleHolder(s, w, a.w);
    StepFrame(s, a);
  }

  // The machine's steps and the objects

  /** A listener object is what the machine has at c. */
  ghost predicate Mirrors(listener: ConnectionListener, l: Listener)
    reads listener, listener.session
  {
    && l.armed == listener.registered && l.status == listener.session.status
    && (l.buffer.Some? <==> listener.session.readBuffer != null)
  }

  /** The steps that worker w takes in one onEvent of a connection. */
  function EventSteps(w: nat, status: Status, ok: bool): seq<Step> {
    [Begin(w), Handle(w, status), Detach(w), SwitchStep(w, status, ok)]
  }

  lemma {:induction false} RunAppend(s: State, xs: seq<Step>, ys: seq<Step>)
    requires Run(s, xs) && Run(After(s, xs), ys)
    ensures Run(s, xs + ys) && After(s, xs + ys) == After(After(s, xs), ys)
    decreases |xs|
  {
    hide Enabled, Apply;
    if xs == [] {
      assert xs + ys == ys;
    } else {
      RunAppend(Apply(s, xs[0]), xs[1..], ys);
      assert (xs + ys)[1..] == xs[1..] + ys;
    }
  }

  lemma RunSingle(s: State, a: Step)
    requires Enabled(s, a)
    ensures Run(s, [a]) && After(s, [a]) == Apply(s, a)
  {
    hide Enabled, Apply;
    assert [a][1..] == [];
  }

  /** A worker and its connection mid-way through an event. */
  function Halfway(s: State, w: nat, l: Listener, stage: Stage): State
    requires AtConn(s, w)
  {
    AtStage(WithConn(s, Current(s, w), l), w, stage)
  }

  lemma HalfwayOn(s: State, w: nat, l: Listener, stage: Stage, l': Listener, stage': Stage)
    requires AtConn(s, w)
    ensures var s1 := Halfway(s, w, l, stage);
            AtConn(s1, w) && Current(s1, w) == Current(s, w) && s1.conns[Current(s, w)] == l
            && Halfway(s1, w, l', stage') == Halfway(s, w, l', stage')
            && Popped(WithConn(s1, Current(s, w), l'), w) == Popped(WithConn(s, Current(s, w), l'), w)
  {
    var s1 := Halfway(s, w, l, stage);
    assert s1.conns[Current(s, w) := l'] == s.conns[Current(s, w) := l'];
    assert s1.workers[w := s1.workers[w].(stage := stage')] == s.workers[w := s.workers[w].(stage := stage')];
  }

  lemma BeginIs(s: State, w: nat)
    requires Enabled(s, Begin(w))
    ensures Apply(s, Begin(w)) == Halfway(s, w, s.conns[Current(s, w)].(buffer := Some(w)), Handling)
  {
  }

  lemma HandleIs(s: State, w: nat, l: Listener, status: Status)
    requires AtConn(s, w) && CanTurn(l.status, status)
    ensures var s1 := Halfway(s, w, l, Handling);
            && Enabled(s1, Handle(w, status))
            && Apply(s1, Handle(w, status)) == Halfway(s, w, l.(status := status), Handled)
  {
    HalfwayOn(s, w, l, Handling, l.(status := status), Handled);
    hide Halfway;
    var s1 := Halfway(s, w, l, Handling);
    assert s1.workers[w].stage == Handling by { HalfwayStage(s, w, l, Handling); }
    assert Apply(s1, Handle(w, status)) == Halfway(s1, w, l.(status := status), Handled) by {
      HalfwayIs(s1, w, l.(status := status), Handled);
    }
  }

  lemma DetachIs(s: State, w: nat, l: Listener)
    requires AtConn(s, w)
    ensures var s1 := Halfway(s, w, l, Handled);
            Enabled(s1, Detach(w)) && Apply(s1, Detach(w)) == Halfway(s, w, l.(buffer := None), Switching)
  {
    HalfwayOn(s, w, l, Handled, l.(buffer := None), Switching);
    hide Halfway;
    var s1 := Halfway(s, w, l, Handled);
    assert s1.workers[w].stage == Handled by { HalfwayStage(s, w, l, Handled); }
    assert Apply(s1, Detach(w)) == Halfway(s1, w, l.(buffer := None), Switching) by {
      HalfwayIs(s1, w, l.(buffer := None), Switching);
    }
  }

  lemma HalfwayStage(s: State, w: nat, l: Listener, stage: Stage)
    requires AtConn(s, w)
    ensures w < |Halfway(s, w, l, stage).workers| && Halfway(s, w, l, stage).workers[w].stage == stage
  {
  }

  lemma HalfwayIs(s: State, w: nat, l: Listener, stage: Stage)
    requires AtConn(s, w)
    ensures Halfway(s, w, l, stage) == AtStage(WithConn(s, Current(s, w), l), w, stage)
  {
  }

  /** The switch on the status. */
  function SwitchStep(w: nat, status: Status, ok: bool): Step {
    if status == END then Finish(w) else Rearm(w, ok)
  }

  lemma SwitchIs(s: State, w: nat, l: Listener, ok: bool)
    requires AtConn(s, w)
    ensures var s1 := Halfway(s, w, l, Switching);
            var c := Current(s, w);
            var s2 := Apply(s1, SwitchStep(w, l.status, ok));
            && Enabled(s1, SwitchStep(w, l.status, ok))
            && c < |s2.conns| && s2.conns[c] == (if l.status == END then l else Rearmed(l, ok))
            && (l.status == END ==> Enabled(s2, Delete(w)))
  {
  }

  /** They can be taken one after the other, and leave the listener with its new status, no
      buffer, and armed or lost; a finished one is about to be deleted by the worker. */
  lemma EventRun(s: State, w: nat, status: Status, ok: bool)
    requires Inv(s) && Enabled(s, Begin(w)) && CanTurn(s.conns[Current(s, w)].status, status)
    ensures var c := Current(s, w);
            var steps := EventSteps(w, status, ok);
            && Run(s, steps) && c < |After(s, steps).conns|
            && After(s, steps).conns[c]
               == Listener(if !ok || status == END then None else Some(if status == READING then In else Out),
                           status, None, 0, status != END && !ok)
            && (status == END ==> Enabled(After(s, steps), Delete(w)))
  {
    var c := Current(s, w);
    SoleHolder(s, w, w);
    hide Inv, Run, After, Enabled, Apply, Halfway;
    var l := s.conns[c].(buffer := Some(w));
    BeginIs(s, w);
    RunSingle(s, Begin(w));
    HandleIs(s, w, l, status);
    RunOn(s, [Begin(w)], Handle(w, status));
    DetachIs(s, w, l.(status := status));
    RunOn(s, [Begin(w)] + [Handle(w, status)], Detach(w));
    SwitchIs(s, w, l.(status := status, buffer := None), ok);
    RunOn(s, [Begin(w)] + [Handle(w, status)] + [Detach(w)], SwitchStep(w, status, ok));
    assert EventSteps(w, status, ok) == [Begin(w)] + [Handle(w, status)] + [Detach(w)] + [SwitchStep(w, status, ok)];
  }

  lemma RunOn(s: State, steps: seq<Step>, a: Step)
    requires Run(s, steps) && Enabled(After(s, steps), a)
    ensures Run(s, steps + [a]) && After(s, steps + [a]) == Apply(After(s, steps), a)
  {
    hide Enabled, Apply, Run, After;
    RunSingle(After(s, steps), a);
    RunAppend(s, steps, [a]);
  }

  /** The loop body of a worker for a connection's event: calling onEvent is these steps, one
      handle of the session in them, and the object is afterwards what the machine says. */
  method Dispatch(listener: ConnectionListener, localReadBuffer: ByteBuffer, ghost s: State, ghost w: nat)
    returns (reserve: bool, crashed: bool, ok: bool, ghost steps: seq<Step>,
             ghost packet: Option<Message>, ghost last: int, ghost results: seq<SendResult>)
    requires Inv(s) && Enabled(s, Begin(w)) && Mirrors(listener, s.conns[Current(s, w)])
    requires listener.session.Valid() && BufferSize(|localReadBuffer.bytes|)
    modifies listener, listener.session, listener.session.socket, localReadBuffer
    ensures var session := listener.session;
            |localReadBuffer.bytes| == old(|localReadBuffer.bytes|) &&
            HandledOnce(session.socket, session.files, |localReadBuffer.bytes|, old(session.View()), session.View(),
                        crashed, packet, last, results)
    ensures !crashed ==>
              && steps == EventSteps(w, listener.session.status, ok)
              && Run(s, steps) && Current(s, w) < |After(s, steps).conns|
              && Mirrors(listener, After(s, steps).conns[Current(s, w)])
              && (!reserve ==> Enabled(After(s, steps), Delete(w)))
  {
    hide HandledPacket, Answers, Transfers.HandleWriting;
    SoleHolder(s, w, w);
    reserve, crashed, ok, packet, last, results := listener.OnEvent(localReadBuffer);
    steps := EventSteps(w, listener.session.status, ok);
    if !crashed {
      EventRun(s, w, listener.session.status, ok);
    }
  }

  // New connections

  /** The Accept steps of one onEvent of the listening socket. */
  function Accepts(w: nat, oks: seq<bool>): seq<Step> {
    if oks == [] then [] else [Accept(w, oks[0])] + Accepts(w, oks[1..])
  }

  /** The connections of `conns` with one more for each of `oks`: READING and waiting for input,
      or lost because it could not be registered. */
  ghost predicate Joined(conns: seq<Listener>, oks: seq<bool>, conns': seq<Listener>) {
    && |conns'| == |conns| + |oks| && conns'[..|conns|] == conns
    && forall i :: 0 <= i < |oks| ==>
         conns'[|conns| + i] == Listener(if oks[i] then Some(In) else None, READING, None, 0, !oks[i])
  }

  lemma JoinedMore(conns: seq<Listener>, oks: seq<bool>, l: Listener, conns': seq<Listener>)
    requires oks != [] && Joined(conns, [oks[0]], conns + [l]) && Joined(conns + [l], oks[1..], conns')
    ensures Joined(conns, oks, conns')
  {
    var longer := conns + [l];
    assert conns'[..|conns|] == conns'[..|longer|][..|conns|] == conns;
    forall i | 0 <= i < |oks|
      ensures conns'[|conns| + i] == Listener(if oks[i] then Some(In) else None, READING, None, 0, !oks[i])
    {
      if i == 0 {
        assert [oks[0]][0] == oks[0] && longer[|conns| + 0] == l;
        assert conns'[|conns|] == conns'[..|longer|][|conns|];
      } else {
        assert oks[i] == oks[1..][i - 1];
        assert conns'[|conns| + i] == conns'[|longer| + (i - 1)];
      }
    }
  }

  lemma {:induction false} AcceptEach(s: State, w: nat, oks: seq<bool>)
    requires w < |s.workers| && s.workers[w].stage.Accepting?
    ensures Run(s, Accepts(w, oks))
    ensures var s' := After(s, Accepts(w, oks)); s'.workers == s.workers && Joined(s.conns, oks, s'.conns)
    decreases |oks|
  {
    if oks != [] {
      var a := Accept(w, oks[0]);
      var s1, steps := Apply(s, a), Accepts(w, oks);
      AcceptEach(s1, w, oks[1..]);
      assert steps[0] == a && steps[1..] == Accepts(w, oks[1..]);
      assert Joined(s.conns, [oks[0]], s1.conns);
      JoinedMore(s.conns, oks, s1.conns[|s.conns|], After(s, steps).conns);
    }
  }

  /** All of them can be taken in order; then the worker goes on with its batch, and nothing has
      happened to the other workers and connections. */
  lemma AcceptRun(s: State, w: nat, oks: seq<bool>)
    requires Enabled(s, BeginAccept(w))
    ensures var steps := [BeginAccept(w)] + Accepts(w, oks) + [AcceptDone(w)];
            && Run(s, steps)
            && var s' := After(s, steps);
            && Joined(s.conns, oks, s'.conns)
            && s'.workers == s.workers[w := Worker(s.workers[w].queue[1..], Ready)]
  {
    hide Joined, Run, After;
    var s1 := Apply(s, BeginAccept(w));
    RunSingle(s, BeginAccept(w));
    AcceptEach(s1, w, oks);
    RunAppend(s, [BeginAccept(w)], Accepts(w, oks));
    RunOn(s, [BeginAccept(w)] + Accepts(w, oks), AcceptDone(w));
  }

  /** A worker's loop body for the listening socket: every connection that waits to be accepted
      gets a session of its own. */
  method AcceptAll(pending: seq<Socket>, files: Files, sound: bool, ghost s: State, ghost w: nat)
    returns (listeners: seq<ConnectionListener>, ghost steps: seq<Step>)
    requires Enabled(s, BeginAccept(w)) && forall path :: path in files ==> |files[path]| < TWO63
    ensures Run(s, steps)
    ensures |listeners| == |pending| && |After(s, steps).conns| == |s.conns| + |pending|
    ensures forall i :: 0 <= i < |s.conns| ==> After(s, steps).conns[i] == s.conns[i]
    ensures forall i :: 0 <= i < |pending| ==>
              && fresh(listeners[i]) && fresh(listeners[i].session) && listeners[i].session.Valid()
              && listeners[i].session.socket == pending[i] && listeners[i].session.files == files
              && Mirrors(listeners[i], After(s, steps).conns[|s.conns| + i])
              && listeners[i].session.status == READING && (sound ==> listeners[i].registered == Some(In))
  {
    listeners := [];
    ghost var oks: seq<bool> := [];
    for i := 0 to |pending|
      invariant |listeners| == |oks| == i
      invariant forall j :: 0 <= j < i ==>
                  && fresh(listeners[j]) && fresh(listeners[j].session) && listeners[j].session.Valid()
                  && listeners[j].session.socket == pending[j] && listeners[j].session.files == files
                  && listeners[j].session.status == READING && listeners[j].session.readBuffer == null
                  && listeners[j].registered == (if oks[j] then Some(In) else None) && (sound ==> oks[j])
    {
      var attached: bool := *;
      attached := attached || sound;
      var listener := new ConnectionListener(pending[i], files, sound, attached);
      listeners := listeners + [listener];
      oks := oks + [attached];
    }
    AcceptRun(s, w, oks);
    steps := [BeginAccept(w)] + Accepts(w, oks) + [AcceptDone(w)];
  }
}
