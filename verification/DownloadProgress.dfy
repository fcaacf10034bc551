/** Liveness of the download. A thread that finds nothing to claim spins while holding
    partsLock; the results say when that is harmless and when it is fatal. */
module DownloadProgress {
  import opened Options
  import opened Parts
  import opened Download
  import opened DownloadSafety
  import opened DownloadTheorems

  // A failed scan is final

  /** Thread t holds partsLock and nothing in its range can be claimed. */
  ghost predicate Failed(s: State, t: nat) {
    && t < |s.threads| && s.lock == Some(t)
    && Barren(s.parts, s.using, s.threads[t].startPart, |s.parts|)
  }

  /** While t holds partsLock no flag changes unless t itself claims. */
  lemma FlagsFrozen(s: State, a: Action, t: nat)
    requires Inv(s) && Enabled(s, a) && s.lock == Some(t)
    requires a.Scan? ==> s.parts[s.threads[t].pc.i].rest == 0 || s.using[s.threads[t].pc.i]
    ensures Apply(s, a).using == s.using && t < |Apply(s, a).threads|
    ensures Apply(s, a).lock == s.lock || Apply(s, a).threads[t].pc.Returned?
    ensures Apply(s, a).threads[t].startPart == s.threads[t].startPart
    ensures a.t != t ==> Apply(s, a).threads[t] == s.threads[t]
  {
    hide Inv, Layout, DoScan, DoReply, DoReceive, DoRequest, React, HasReply, HasRequest, Transmit, Splice;
    Shaped(s);
    if a.Scan? { ScanEffect(s, t); }
  }

  lemma FailedPersists(s: State, a: Action, t: nat)
    requires Inv(s) && Enabled(s, a) && Failed(s, t)
    ensures t < |Apply(s, a).threads|
    ensures Failed(Apply(s, a), t) || Apply(s, a).threads[t].pc.Returned?
  {
    hide Inv, Layout, Apply, Enabled, PhaseOk;
    Shaped(s);
    Seen(s, t);
    HolderKeeps(s, a, t);
    FlagsFrozen(s, a, t);
    StepWritesOwnPart(s, a);
  }

  /** A thread whose pass finds nothing does not claim what it looks at. */
  lemma HolderKeeps(s: State, a: Action, t: nat)
    requires Inv(s) && Enabled(s, a) && Failed(s, t)
    ensures a.Scan? ==> a.t == t && (s.parts[s.threads[t].pc.i].rest == 0 || s.using[s.threads[t].pc.i])
  {
    hide Layout, PhaseOk, PrefixOk, RecordsOk, Conserved, Exclusive;
    Seen(s, t);
  }

  lemma ReturnedStays(s: State, a: Action, t: nat)
    requires Inv(s) && Enabled(s, a) && t < |s.threads| && s.threads[t].pc.Returned?
    ensures t < |Apply(s, a).threads| && Apply(s, a).threads[t].pc.Returned?
  {
    hide ThreadOk, Exclusive, PrefixOk, RecordsOk, Conserved, React, HasReply;
  }

  lemma FailedAtEnd(s: State, t: nat)
    requires Inv(s) && Enabled(s, EndPass(t))
    ensures Failed(s, t)
  {
    assert ThreadOk(s.job, s.parts, s.using, s.dest, s.threads[t]);
  }

  /** Once a pass over the parts ends with nothing claimed, that thread never claims a part
      again, whatever happens: it keeps partsLock and its loop ends only by returning. */
  lemma {:induction false} FailedScanIsFinal(s: State, acts: seq<Action>, t: nat)
    requires Inv(s) && Run(s, acts) && t < |s.threads|
    requires Failed(s, t) || s.threads[t].pc.Returned? || Enabled(s, EndPass(t))
    ensures var s' := After(s, acts);
            && t < |s'.threads| && !s'.threads[t].HasPart()
            && (s'.threads[t].pc.Returned? || (Failed(s', t) && s'.threads[t].pc.Scanning?))
    decreases |acts|
  {
    hide Inv, Layout, Apply, Enabled, PhaseOk, Barren;
    Seen(s, t);
    if !s.threads[t].pc.Returned? && !Failed(s, t) {
      FailedAtEnd(s, t);
    }
    if acts != [] {
      StepInv(s, acts[0]);
      if s.threads[t].pc.Returned? {
        ReturnedStays(s, acts[0], t);
      } else {
        FailedPersists(s, acts[0], t);
      }
      FailedScanIsFinal(Apply(s, acts[0]), acts[1..], t);
    }
  }

  // When waiting is hopeless

  /** Bytes of its part a thread has still to take off its connection. */
  function Undelivered(p: Part, th: Thread): int {
    if th.pc.Writing? then th.rest - |th.pc.data|
    else if th.pc.Storing? then th.rest - th.pc.n
    else p.rest
  }

  /** The owner of an unfinished part that will give the part back unfinished: its
      connection has failed, or it is already waiting for partsLock to release it. */
  ghost predicate Bad(s: State, u: nat) {
    && u < |s.threads| && s.threads[u].Owning()
    && s.threads[u].part.Some? && s.threads[u].part.value < |s.parts|
    && Undelivered(s.parts[s.threads[u].part.value], s.threads[u]) > 0
    && (s.threads[u].link.DeadLink? || s.threads[u].pc.Releasing?)
  }

  /** Thread t spins holding partsLock, waiting for a part that its owner u cannot finish
      and, for want of the lock, cannot release. */
  ghost predicate DoomedBy(s: State, t: nat, u: nat) {
    Failed(s, t) && Bad(s, u) && s.threads[t].startPart <= s.threads[u].part.value
  }

  ghost predicate Deadlocked(s: State) {
    exists t: nat, u: nat :: DoomedBy(s, t, u)
  }

  /** A bad owner that moves stays bad while somebody else holds the lock. */
  lemma BadMoves(s: State, a: Action)
    requires Inv(s) && Enabled(s, a) && Bad(s, a.t) && s.lock.Some? && !a.Store?
    ensures Bad(Apply(s, a), a.t) && Apply(s, a).threads[a.t].part == s.threads[a.t].part
  {
    hide Inv, Layout, Carries, AwaitOk, React, DoScan, Splice, HasRequest, Agrees, LinkIdle;
    Seen(s, a.t);
    if a.Serve? { RequestIsBytes(s.threads[a.t].link); }
  }

  lemma BadStores(s: State, t: nat)
    requires Inv(s) && t < |s.threads| && s.threads[t].pc.Storing? && Bad(s, t)
    ensures Bad(DoStore(s, t), t) && DoStore(s, t).threads[t].part == s.threads[t].part
  {
    StoreEffect(s, t);
    hide DoStore, ThreadOk, Exclusive, PrefixOk, RecordsOk, Conserved, PhaseOk;
  }

  lemma BadStays(s: State, a: Action, u: nat)
    requires Inv(s) && Enabled(s, a) && Bad(s, u) && s.lock.Some?
    ensures Bad(Apply(s, a), u) && Apply(s, a).threads[u].part == s.threads[u].part
  {
    if a.t == u {
      if a.Store? { BadStores(s, u); } else { BadMoves(s, a); }
    } else {
      OthersKept(s, a, u);
    }
  }

  /** A step of one thread leaves every other thread and the part it owns alone. */
  lemma OthersKept(s: State, a: Action, u: nat)
    requires Inv(s) && Enabled(s, a) && u < |s.threads| && u != a.t
    ensures u < |Apply(s, a).threads| && Apply(s, a).threads[u] == s.threads[u]
    ensures |Apply(s, a).parts| == |s.parts|
    ensures s.threads[u].Owning() ==>
              Apply(s, a).parts[s.threads[u].part.value] == s.parts[s.threads[u].part.value]
  {
    ApplyFrame(s, a);
    if a.Store? && s.threads[u].Owning() {
      OthersElsewhere(s, a.t, u);
    }
    hide Inv, Apply, Enabled;
  }

  /** The holder of a failed scan does not return while its range has an unfinished part. */
  lemma SpinnerStays(s: State, a: Action, t: nat, k: nat)
    requires Inv(s) && Enabled(s, a) && Failed(s, t)
    requires s.threads[t].startPart <= k < |s.parts| && s.parts[k].rest > 0
    ensures Failed(Apply(s, a), t) && Apply(s, a).threads[t].startPart == s.threads[t].startPart
  {
    hide Inv, Layout, PhaseOk, DoScan, DoReply, DoReceive, DoRequest, React, HasReply, HasRequest, Transmit, Splice;
    Seen(s, t);
    FailedPersists(s, a, t);
    HolderKeeps(s, a, t);
    FlagsFrozen(s, a, t);
    if a.Scan? { ScanEffect(s, t); }
    if Apply(s, a).threads[t].pc.Returned? {
      assert false;
    }
  }

  lemma DoomStays(s: State, a: Action, t: nat, u: nat)
    requires Inv(s) && Enabled(s, a) && DoomedBy(s, t, u)
    ensures DoomedBy(Apply(s, a), t, u)
  {
    assert ThreadOk(s.job, s.parts, s.using, s.dest, s.threads[u]);
    SpinnerStays(s, a, t, s.threads[u].part.value);
    BadStays(s, a, u);
    hide Apply, Enabled;
  }

  /** A thread returns only with every part from its scan point on finished. */
  lemma NewlyReturned(s: State, a: Action)
    requires Inv(s) && Enabled(s, a)
    ensures a.t < |Apply(s, a).threads|
    ensures Apply(s, a).threads[a.t].pc.Returned? ==>
              s.threads[a.t].pc.Returned? || AllDone(s.parts, s.threads[a.t].startPart, |s.parts|)
  {
    hide Inv, Layout, PhaseOk, DoScan, React, HasRequest, HasReply, Submit, Transmit, Splice, Cursor, RequestFrame,
      ReplySize;
    Seen(s, a.t);
    if a.Scan? { ScanEffect(s, a.t); }
  }

  /** A refusing connection is kept, and nothing is requested or downloaded over it. */
  lemma RefusalStays(s: State, a: Action)
    requires Inv(s) && Enabled(s, a) && Refuses(s.threads[a.t].link)
    ensures a.t < |Apply(s, a).threads| && Refuses(Apply(s, a).threads[a.t].link)
    ensures a.Acquire? || a.Scan? || a.EndPass? || a.Connect? || a.Release? || a.Advance?
  {
    hide Inv, Layout, DoScan, HasReply, Submit, Splice, Cursor, RequestFrame, ReplySize, Carries, Agrees, AwaitOk,
      LinkIdle;
    Seen(s, a.t);
    if a.Scan? { ScanEffect(s, a.t); }
  }
}
