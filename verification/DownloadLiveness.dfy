/** When a download can end, and when it ends with the whole file. */
module DownloadLiveness {
  import opened Bytes
  import opened Options
  import opened Parts
  import opened Download
  import opened DownloadSafety
  import opened DownloadProgress
  import opened DownloadMeasure
  import opened DownloadDoom

  // A productive step for every owner

  lemma AwaitAction(s: State, u: nat) returns (a: Action)
    requires Inv(s) && u < |s.threads| && s.threads[u].pc.AwaitingReply?
    ensures a.t == u && (a.Serve? || a.Reply?) && Enabled(s, a)
  {
    hide Inv, Layout, Carries, Agrees, RequestFrame, ReplyFrame, HasRequest, HasReply, React, LinkIdle;
    var th := s.threads[u];
    Seen(s, u);
    var p := s.parts[th.part.value];
    if th.link.LiveLink? && Requested(th.link, s.job, p.End() - p.rest, p.rest) {
      ServeLink(th.link, s.job, p.End() - p.rest, p.rest);
      a := Serve(u);
    } else {
      if th.link.LiveLink? {
        ReplyLink(th.link, s.job, p.End() - p.rest, p.rest);
      }
      a := Reply(u);
    }
  }

  lemma ReceiveAction(s: State, u: nat) returns (a: Action)
    requires Inv(s) && u < |s.threads| && s.threads[u].pc.Receiving?
    ensures a.t == u && !a.Acquire? && !a.Scan? && !a.EndPass? && !Faulty(a) && Enabled(s, a)
  {
    var th := s.threads[u];
    assert ThreadOk(s.job, s.parts, s.using, s.dest, th);
    hide Exclusive, PrefixOk, RecordsOk, Conserved, Layout, React, HasRequest, HasReply;
    if th.rest == 0 {
      a := PartDone(u);
    } else if th.link.DeadLink? {
      a := HangUp(u);
    } else {
      var limit := Min(READ_BUFFER_PER_THREAD, th.rest);
      if |th.link.down| >= limit {
        a := Receive(u, limit);
      } else {
        a := Send(u, th.link.server.rest);
      }
    }
  }

  /** About to send another request over a connection that has refused one. */
  predicate Refused(th: Thread) { th.pc.Requesting? && Refuses(th.link) }

  /** An owner that neither waits for partsLock nor is about to end the process with another
      request over a refusing connection always has a productive step, of its own or of the
      server on its connection. */
  lemma OwnerAction(s: State, u: nat) returns (a: Action)
    requires Inv(s) && u < |s.threads| && s.threads[u].Owning() && !s.threads[u].pc.Releasing? && !Refused(s.threads[u])
    ensures a.t == u && !a.Acquire? && Enabled(s, a) && Productive(s, a)
  {
    var th := s.threads[u];
    match th.pc {
      case AwaitingReply => a := AwaitAction(s, u);
      case Receiving => a := ReceiveAction(s, u);
      case Connecting => a := Connect(u);
      case Requesting => a := Request(u);
        assert ThreadOk(s.job, s.parts, s.using, s.dest, th);
      case Writing(_) => a := Write(u);
      case Storing(_) => a := Store(u);
      case Counting(_) => a := Count(u);
      case Recording(_) => a := Record(u);
    }
  }

  /** And so it is exactly: a refused owner has no step at all. */
  lemma RefusedIsStuck(s: State, u: nat, a: Action)
    requires Inv(s) && u < |s.threads| && Refused(s.threads[u]) && Enabled(s, a)
    ensures a.t != u
  {
    hide Inv, Layout;
    Shaped(s);
    if a.t == u { RefusalStays(s, a); }
  }

  // The choice of a step

  /** No connection has failed and no part is being given back unfinished. */
  ghost predicate Healthy(s: State) {
    forall t :: 0 <= t < |s.threads| ==>
      !s.threads[t].link.DeadLink?
      && (s.threads[t].pc.Releasing? && s.threads[t].part.Some? && s.threads[t].part.value < |s.parts| ==>
            s.parts[s.threads[t].part.value].rest == 0)
  }

  /** What a spinning thread waits for is owned by a thread that can go on. */
  lemma AwaitedOwner(s: State, t: nat) returns (u: nat)
    requires Inv(s) && !Deadlocked(s) && s.lock == Some(t) && t < |s.threads|
    requires Barren(s.parts, s.using, s.threads[t].startPart, |s.parts|)
    requires !AllDone(s.parts, s.threads[t].startPart, |s.parts|)
    ensures u < |s.threads| && s.threads[u].Owning() && !s.threads[u].pc.Releasing? && !Refused(s.threads[u])
  {
    hide Layout, PrefixOk, RecordsOk, Conserved, LockOk, PhaseOk;
    var k: nat :| s.threads[t].startPart <= k < |s.parts| && s.parts[k].rest > 0;
    assert s.using[k];
    var v :| 0 <= v < |s.threads| && s.threads[v].Owns(k);
    u := v;
    assert !DoomedBy(s, t, u);
    assert Failed(s, t);
  }

  /** While t holds the lock. */
  lemma HolderChoice(s: State, t: nat) returns (a: Action)
    requires Inv(s) && !Deadlocked(s) && s.lock == Some(t)
    ensures Enabled(s, a) && Productive(s, a) && !a.Acquire?
  {
    hide Layout, Inv, PhaseOk, Deadlocked;
    Shaped(s);
    var th := s.threads[t];
    Seen(s, t);
    if Barren(s.parts, s.using, th.startPart, |s.parts|) && !AllDone(s.parts, th.startPart, |s.parts|) {
      var u := AwaitedOwner(s, t);
      a := OwnerAction(s, u);
    } else {
      a := if th.pc.i < |s.parts| then Scan(t) else EndPass(t);
    }
  }

  /** While nobody holds the lock and no connection refuses. */
  lemma FreeChoice(s: State) returns (a: Action)
    requires Inv(s) && Healthy(s) && s.lock == None && !AllReturned(s)
    ensures Enabled(s, a) && Productive(s, a)
  {
    hide Inv, Layout;
    Shaped(s);
    if u :| 0 <= u < |s.threads| && s.threads[u].Owning() {
      if s.threads[u].pc.Releasing? {
        a := Release(u);
      } else {
        a := OwnerAction(s, u);
      }
    } else {
      var u :| 0 <= u < |s.threads| && !s.threads[u].pc.Returned?;
      a := if s.threads[u].pc.Released? then Advance(u) else Acquire(u);
    }
  }

  // Fault-free runs

  lemma HealthyNotDoomed(s: State)
    requires Healthy(s)
    ensures !Doomed(s)
  {
    hide Failed;
  }

  lemma LinkBefore(s: State, a: Action)
    requires Inv(s) && Enabled(s, a) && !Faulty(a)
    ensures a.t < |Apply(s, a).threads|
    ensures Apply(s, a).threads[a.t].link.DeadLink? ==> s.threads[a.t].link.DeadLink?
  {
    if Locks(a) {
      hide Inv, Layout, DoScan;
      Shaped(s);
      if a.Scan? { ScanEffect(s, a.t); }
    } else {
      StaysOnItsWay(s, a);
      hide Inv, Layout, Enabled, Apply;
    }
  }

  lemma ActorHealthy(s: State, a: Action)
    requires Inv(s) && Healthy(s) && Enabled(s, a) && !Faulty(a) && !a.Store?
    ensures a.t < |Apply(s, a).threads|
    ensures var th := Apply(s, a).threads[a.t];
            !th.link.DeadLink? && (th.pc.Releasing? ==> th.part == s.threads[a.t].part && s.threads[a.t].Owning()
                                                        && s.parts[th.part.value].rest == 0)
  {
    hide Inv, Layout, Enabled, Apply, Undelivered, Delivers;
    Shaped(s);
    ApplyFrame(s, a);
    LinkBefore(s, a);
    if !s.threads[a.t].Owning() {
      NewOwner(s, a);
    } else if a.Release? {
      Releases(s, a);
    } else {
      OwnerAfter(s, a);
      OwnerLinks(s, a);
    }
  }

  lemma StoreHealthy(s: State, t: nat)
    requires Inv(s) && Enabled(s, Store(t))
    ensures var th := Apply(s, Store(t)).threads[t];
            th.link == s.threads[t].link && th.pc.Counting?
  {
  }

  lemma HealthyStays(s: State, a: Action)
    requires Inv(s) && Healthy(s) && Enabled(s, a) && !Faulty(a)
    ensures Healthy(Apply(s, a))
  {
    hide Inv, Layout, Enabled, DoStore, Apply;
    Shaped(s);
    ApplyFrame(s, a);
    OnlyOwnedFill(s, a);
    if a.Store? { StoreHealthy(s, a.t); } else { ActorHealthy(s, a); }
  }

  lemma {:induction false} HealthyRun(s: State, acts: seq<Action>)
    requires Inv(s) && Healthy(s) && Run(s, acts) && FaultFree(acts)
    ensures Inv(After(s, acts)) && Healthy(After(s, acts))
    decreases |acts|
  {
    if acts != [] {
      StepInv(s, acts[0]);
      HealthyStays(s, acts[0]);
      hide Inv, Enabled, Apply, Healthy;
      HealthyRun(Apply(s, acts[0]), acts[1..]);
    }
  }

  /** Progress: in a fault-free run no state is stuck. Until every thread has returned, some
      step that lowers the measure can be taken, even while a thread spins on partsLock. */
  lemma NeverStuck(s: State, acts: seq<Action>) returns (a: Action)
    requires Inv(s) && Healthy(s) && Run(s, acts) && FaultFree(acts)
    requires !AllReturned(After(s, acts))
    ensures Inv(After(s, acts)) && Enabled(After(s, acts), a) && !Faulty(a)
    ensures Inv(Apply(After(s, acts), a))
    ensures Measure(Apply(After(s, acts), a)) < Measure(After(s, acts))
  {
    hide Inv, Run, After, Healthy, Enabled, Apply, AllReturned;
    HealthyRun(s, acts);
    var s' := After(s, acts);
    HealthyNotDoomed(s');
    Shaped(s');
    if s'.lock.Some? { a := HolderChoice(s', s'.lock.value); } else { a := FreeChoice(s'); }
    MeasureFalls(s', a);
  }
}
