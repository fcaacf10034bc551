/** How downloads end: completion, interruption and resumption, and what a lost connection
    can do. */
module DownloadOutcome {
  import opened Bytes
  import opened Options
  import opened Parts
  import opened Download
  import opened DownloadSafety
  import opened DownloadTheorems
  import opened DownloadMeasure
  import opened DownloadLiveness
  import opened DownloadEnding

  // Completion

  /** No part is given back unfinished. */
  predicate Clean(s: State, acts: seq<Action>)
    requires Run(s, acts)
    decreases |acts|
  {
    acts == [] ||
    ((acts[0].Release? ==> s.parts[s.threads[acts[0].t].part.value].rest == 0)
     && Clean(Apply(s, acts[0]), acts[1..]))
  }

  /** How far thread 0 has got: parts it has looked at since its scan last began at 0. */
  function Front(th: Thread, n: nat): nat {
    if th.pc.Returned? then n
    else if th.Owning() && th.part.Some? then th.part.value
    else if th.pc.Released? && th.part.Some? then th.part.value + 1
    else th.startPart
  }

  /** Every part below thread 0's scan point is finished or owned. */
  ghost predicate FrontOk(s: State) {
    |s.threads| > 0 && Barren(s.parts, s.using, 0, Front(s.threads[0], |s.parts|))
  }

  lemma ScanFront(s: State, t: nat)
    requires Inv(s) && FrontOk(s) && t < |s.threads| && s.threads[t].pc.Scanning? && s.threads[t].pc.i < |s.parts|
    ensures FrontOk(DoScan(s, t))
  {
    hide Inv, DoScan, Layout, PhaseOk;
    Seen(s, t);
    ScanEffect(s, t);
    if t == 0 {
      var i := s.threads[0].pc.i;
      forall k | 0 <= k < i && k < |s.parts| ensures s.parts[k].rest == 0 || s.using[k] {
        if k >= s.threads[0].startPart { assert k < i; }
      }
    }
  }

  lemma EndPassFront(s: State, t: nat)
    requires Inv(s) && FrontOk(s) && t < |s.threads| && s.threads[t].pc.Scanning? && s.threads[t].pc.i >= |s.parts|
    ensures FrontOk(DoEndPass(s, t))
  {
    hide Inv, PhaseOk, Layout;
    Seen(s, t);
  }

  lemma ReleaseFront(s: State, t: nat)
    requires Inv(s) && FrontOk(s) && t < |s.threads| && s.threads[t].pc.Releasing?
    requires s.parts[s.threads[t].part.value].rest == 0
    ensures FrontOk(DoRelease(s, t))
  {
    hide Inv, PhaseOk;
    Shaped(s);
    assert s.parts[s.threads[t].part.value].id == s.threads[t].part.value;
  }

  lemma AdvanceFront(s: State, t: nat)
    requires Inv(s) && FrontOk(s) && t < |s.threads| && s.threads[t].pc.Released?
    ensures FrontOk(DoAdvance(s, t))
  {
    var i := s.threads[t].part.value;
    assert s.parts[i].id == i;
    NextStart(i, |s.parts|);
    var start := (i + 1) % |s.parts|;
    assert DoAdvance(s, t) == s.With(t, s.threads[t].(pc := Waiting, startPart := start, part := None));
    hide Inv, Layout, DoAdvance;
  }

  /** A step within a part does not move a thread's scan point. */
  lemma FrontKept(s: State, a: Action)
    requires Inv(s) && Enabled(s, a)
    requires !a.Scan? && !a.EndPass? && !a.Release? && !a.Advance?
    ensures a.t < |Apply(s, a).threads|
    ensures Front(Apply(s, a).threads[a.t], |s.parts|) == Front(s.threads[a.t], |s.parts|)
  {
    hide Inv, Layout, React, HasRequest, HasReply, Splice, Submit, Transmit, Cursor;
  }

  lemma FrontOther(s: State, a: Action)
    requires Inv(s) && FrontOk(s) && Enabled(s, a)
    requires !a.Scan? && !a.EndPass? && !a.Release? && !a.Advance?
    ensures FrontOk(Apply(s, a))
  {
    ApplyFrame(s, a);
    OnlyOwnedFill(s, a);
    FrontKept(s, a);
    assert |s.using| == |s.parts|;
    hide Inv, Shape, Layout, Apply, Enabled, Front;
    var s' := Apply(s, a);
    assert Front(s'.threads[0], |s'.parts|) == Front(s.threads[0], |s.parts|);
  }

  lemma FrontStays(s: State, a: Action)
    requires Inv(s) && FrontOk(s) && Enabled(s, a)
    requires a.Release? ==> s.parts[s.threads[a.t].part.value].rest == 0
    ensures FrontOk(Apply(s, a))
  {
    hide Inv, FrontOk;
    match a {
      case Scan(t) => ScanFront(s, t);
      case EndPass(t) => EndPassFront(s, t);
      case Release(t) => ReleaseFront(s, t);
      case Advance(t) => AdvanceFront(s, t);
      case _ => FrontOther(s, a);
    }
  }

  lemma {:induction false} FrontRun(s: State, acts: seq<Action>)
    requires Inv(s) && FrontOk(s) && Run(s, acts) && Clean(s, acts)
    ensures Inv(After(s, acts)) && FrontOk(After(s, acts))
    decreases |acts|
  {
    if acts != [] {
      StepInv(s, acts[0]);
      FrontStays(s, acts[0]);
      hide Inv, Enabled, Apply, FrontOk;
      FrontRun(Apply(s, acts[0]), acts[1..]);
    }
  }

  /** Once all threads have returned, nobody owns anything, so everything below thread 0's
      scan point is finished, and that is everything. */
  lemma AllDoneAtEnd(s: State)
    requires Inv(s) && FrontOk(s) && AllReturned(s)
    ensures AllDone(s.parts, 0, |s.parts|)
  {
    forall k | 0 <= k < |s.parts| ensures s.parts[k].rest == 0 {
      assert !s.using[k];
    }
  }

  /** Completion: in every interleaving of any number of threads in which no part is given
      back unfinished, once all threads have returned no part misses anything, the
      destination is the source (followed by what it held past the source's length), and
      totalProgress is the file size. */
  lemma Completion(s: State, acts: seq<Action>)
    requires Inv(s) && FrontOk(s) && Run(s, acts) && Clean(s, acts) && AllReturned(After(s, acts))
    ensures var s' := After(s, acts);
            && AllDone(s'.parts, 0, |s'.parts|)
            && s'.dest == s.job.src + s.dest[|s.job.src|..]
            && s'.progress == |s.job.src|
  {
    var s' := After(s, acts);
    FrontRun(s, acts);
    AllDoneAtEnd(s');
    WholeWhenDone(s');
    ProgressConserved(s, acts);
    RunKeepsBytes(s, acts);
    assert |s.job.src| <= |s.dest|;
    hide Inv, Run, After, Clean, FrontOk;
    SourceThenTail(s'.dest, s.job.src, s.dest);
  }

  lemma SourceThenTail(dest: seq<byte>, src: seq<byte>, before: seq<byte>)
    requires |src| <= |dest| == |before| && dest[..|src|] == src
    requires forall k :: |src| <= k < |dest| ==> dest[k] == before[k]
    ensures dest == src + before[|src|..]
  {
    assert dest == dest[..|src|] + dest[|src|..];
    assert dest[|src|..] == before[|src|..];
  }

  /** Fault-free runs are clean. */
  lemma {:induction false} FaultFreeIsClean(s: State, acts: seq<Action>)
    requires Inv(s) && Healthy(s) && Run(s, acts) && FaultFree(acts)
    ensures Clean(s, acts)
    decreases |acts|
  {
    if acts != [] {
      StepInv(s, acts[0]);
      HealthyStays(s, acts[0]);
      assert acts[0].Release? ==> s.parts[s.threads[acts[0].t].part.value].rest == 0;
      hide Inv, Enabled, Apply, Healthy;
      FaultFreeIsClean(Apply(s, acts[0]), acts[1..]);
    }
  }

  /** Thread 0 starts at part 0, so the scan-point invariant holds at the start. */
  lemma ResumeFront(job: Job, records: seq<Part>, dest: seq<byte>, count: nat)
    requires count > 0
    ensures FrontOk(Resume(job, records, dest, count)) && Healthy(Resume(job, records, dest, count))
  {
    StartInRange(0, |records|, count);
  }

  /** A new download by any positive number of threads without network faults ends with the
      source in the destination, and it can always go on to its end. */
  lemma FreshCompletes(job: Job, dest: seq<byte>, count: nat, acts: seq<Action>)
    requires job.Ok() && count > 0
    requires Run(Fresh(job, dest, count), acts) && FaultFree(acts)
    ensures CanFinish(After(Fresh(job, dest, count), acts))
    ensures AllReturned(After(Fresh(job, dest, count), acts)) ==>
              After(Fresh(job, dest, count), acts).dest
              == job.src + if |job.src| <= |dest| then dest[|job.src|..] else []
  {
    var s := Fresh(job, dest, count);
    FreshInv(job, dest, count);
    ResumeFront(job, Partition(|job.src|), Allocate(dest, |job.src|), count);
    HealthyRun(s, acts);
    HealthyNotDoomed(After(s, acts));
    CanFinishIffNotDoomed(After(s, acts));
    FaultFreeIsClean(s, acts);
    if AllReturned(After(s, acts)) {
      Completion(s, acts);
      assert s.dest[|job.src|..] == if |job.src| <= |dest| then dest[|job.src|..] else [];
    }
  }

  // Interruption and resumption

  /** A destination that can be found after the process dies in state s: any part of any
      write under way may have reached the disk. */
  ghost predicate Survives(s: State, dest: seq<byte>) {
    |dest| == |s.dest| &&
    forall k :: 0 <= k < |dest| ==>
      dest[k] == s.dest[k] || exists t :: 0 <= t < |s.threads| && BeingWritten(s.threads[t], k, dest[k])
  }

  predicate BeingWritten(th: Thread, k: nat, b: byte) {
    th.pc.Writing? && th.pos <= k < th.pos + |th.pc.data| && th.pc.data[k - th.pos] == b
  }

  lemma PendingIsSource(s: State, t: nat, k: nat, b: byte)
    requires Inv(s) && t < |s.threads| && BeingWritten(s.threads[t], k, b)
    ensures k < |s.job.src| && b == s.job.src[k]
  {
    var th := s.threads[t];
    assert ThreadOk(s.job, s.parts, s.using, s.dest, th);
    hide Layout, Exclusive, PrefixOk, RecordsOk, Conserved, Carries, AwaitOk;
    assert th.pc.data[k - th.pos] == s.job.src[th.pos..th.pos + |th.pc.data|][k - th.pos];
  }

  /** Resume safety: whenever the process dies, the .dlinfo records describe the same
      partition, and the bytes they claim are in the surviving destination. */
  lemma CutIsSafe(s: State, dest: seq<byte>)
    requires Inv(s) && Survives(s, dest)
    ensures Layout(s.records, |s.job.src|) && |s.job.src| <= |dest| == |s.dest|
    ensures PrefixOk(s.job.src, s.records, dest)
    ensures forall k :: |s.job.src| <= k < |dest| ==> dest[k] == s.dest[k]
  {
    forall k | 0 <= k < |dest|
      ensures dest[k] == s.dest[k] || (k < |s.job.src| && dest[k] == s.job.src[k])
    {
      if dest[k] != s.dest[k] {
        var t :| 0 <= t < |s.threads| && BeingWritten(s.threads[t], k, dest[k]);
        PendingIsSource(s, t, k, dest[k]);
      }
    }
    hide ThreadOk, Exclusive, Conserved, LockOk;
    forall i | 0 <= i < |s.parts|
      ensures Agrees(dest, s.job.src, s.records[i].offset, s.records[i].End() - s.records[i].rest)
    {
      assert Agrees(s.dest, s.job.src, s.parts[i].offset, s.parts[i].End() - s.parts[i].rest);
      assert s.records[i].(rest := s.parts[i].rest) == s.parts[i];
    }
  }

  /** One attempt that was interrupted: its threads, its steps, what the disk then held. */
  datatype Attempt = Attempt(count: nat, acts: seq<Action>, dest: seq<byte>)

  /** A history of interrupted attempts, each resuming from the records and the destination
      the one before left. */
  ghost predicate History(job: Job, records: seq<Part>, dest: seq<byte>, attempts: seq<Attempt>)
    decreases |attempts|
  {
    attempts == [] ||
    var a := attempts[0];
    var s := Resume(job, records, dest, a.count);
    Run(s, a.acts) && Survives(After(s, a.acts), a.dest)
    && History(job, After(s, a.acts).records, a.dest, attempts[1..])
  }

  ghost function FinalRecords(job: Job, records: seq<Part>, dest: seq<byte>, attempts: seq<Attempt>): seq<Part>
    requires History(job, records, dest, attempts)
    decreases |attempts|
  {
    if attempts == [] then records
    else
      var a := attempts[0];
      FinalRecords(job, After(Resume(job, records, dest, a.count), a.acts).records, a.dest, attempts[1..])
  }

  function FinalDest(dest: seq<byte>, attempts: seq<Attempt>): seq<byte> {
    if attempts == [] then dest else attempts[|attempts| - 1].dest
  }

  /** However often the download is interrupted, at whatever step, with whatever connections
      lost, the next attempt starts from records whose bytes are correct. */
  lemma {:induction false} HistoryIsSafe(job: Job, records: seq<Part>, dest: seq<byte>, attempts: seq<Attempt>)
    requires job.Ok() && Layout(records, |job.src|) && |job.src| <= |dest| && PrefixOk(job.src, records, dest)
    requires History(job, records, dest, attempts)
    ensures var records' := FinalRecords(job, records, dest, attempts);
            var dest' := FinalDest(dest, attempts);
            && Layout(records', |job.src|) && |dest'| == |dest| && PrefixOk(job.src, records', dest')
            && forall k :: |job.src| <= k < |dest| ==> dest'[k] == dest[k]
    decreases |attempts|
  {
    hide Inv, PrefixOk, Layout, Survives, Run, After;
    if attempts != [] {
      var a := attempts[0];
      var s := Resume(job, records, dest, a.count);
      ResumeInv(job, records, dest, a.count);
      RunInv(s, a.acts);
      RunKeepsBytes(s, a.acts);
      CutIsSafe(After(s, a.acts), a.dest);
      HistoryIsSafe(job, After(s, a.acts).records, a.dest, attempts[1..]);
      assert FinalDest(dest, attempts) == FinalDest(a.dest, attempts[1..]);
    }
  }

  lemma StartIsSafe(job: Job, dest: seq<byte>)
    requires job.Ok()
    ensures Layout(Partition(|job.src|), |job.src|) && |job.src| <= |Allocate(dest, |job.src|)|
    ensures PrefixOk(job.src, Partition(|job.src|), Allocate(dest, |job.src|))
  {
    PartitionIsLayout(|job.src|);
  }

  /** A new download of job into dest, interrupted as in `attempts` and then resumed. */
  ghost predicate Interrupted(job: Job, dest: seq<byte>, attempts: seq<Attempt>) {
    History(job, Partition(|job.src|), Allocate(dest, |job.src|), attempts)
  }

  ghost function Resumed(job: Job, dest: seq<byte>, attempts: seq<Attempt>, count: nat): State
    requires Interrupted(job, dest, attempts)
  {
    Resume(job, FinalRecords(job, Partition(|job.src|), Allocate(dest, |job.src|), attempts),
           FinalDest(Allocate(dest, |job.src|), attempts), count)
  }

  lemma ResumedIsSound(job: Job, dest: seq<byte>, attempts: seq<Attempt>, count: nat)
    requires job.Ok() && count > 0 && Interrupted(job, dest, attempts)
    ensures var s := Resumed(job, dest, attempts, count);
            && Inv(s) && FrontOk(s) && Healthy(s) && s.job == job
            && |job.src| <= |s.dest|
            && s.dest[|job.src|..] == if |job.src| <= |dest| then dest[|job.src|..] else []
  {
    var ps, start := Partition(|job.src|), Allocate(dest, |job.src|);
    StartIsSafe(job, dest);
    HistoryIsSafe(job, ps, start, attempts);
    var records, last := FinalRecords(job, ps, start, attempts), FinalDest(start, attempts);
    ResumeInv(job, records, last, count);
    ResumeFront(job, records, last, count);
    hide Inv, PrefixOk, Layout, FrontOk, Healthy, History, FinalRecords, FinalDest, NewThreads, Partition;
    TailKept(dest, |job.src|, last);
  }

  lemma TailKept(dest: seq<byte>, size: nat, last: seq<byte>)
    requires |last| == |Allocate(dest, size)|
    requires forall k :: size <= k < |last| ==> last[k] == Allocate(dest, size)[k]
    ensures size <= |last| && last[size..] == if size <= |dest| then dest[size..] else []
  {
  }

  /** A new download interrupted any number of times and then resumed by any positive number
      of threads can always go on to its end without network faults, and any clean run of it
      that has ended leaves the whole source in the destination. */
  lemma ResumedCompletes(job: Job, dest: seq<byte>, attempts: seq<Attempt>, count: nat, acts: seq<Action>)
    requires job.Ok() && count > 0 && Interrupted(job, dest, attempts)
    requires Run(Resumed(job, dest, attempts, count), acts)
    ensures var s := Resumed(job, dest, attempts, count);
            FaultFree(acts) ==> Clean(s, acts) && CanFinish(After(s, acts))
    ensures var s := Resumed(job, dest, attempts, count);
            Clean(s, acts) && AllReturned(After(s, acts)) ==>
              After(s, acts).dest == job.src + if |job.src| <= |dest| then dest[|job.src|..] else []
  {
    hide Inv, Run, After, Clean, FrontOk, Healthy, AllReturned, Resumed, FaultFree, CanFinish;
    ResumedIsSound(job, dest, attempts, count);
    var s := Resumed(job, dest, attempts, count);
    if FaultFree(acts) {
      FaultFreeIsClean(s, acts);
      HealthyRun(s, acts);
      HealthyNotDoomed(After(s, acts));
      CanFinishIffNotDoomed(After(s, acts));
    }
    if Clean(s, acts) && AllReturned(After(s, acts)) {
      Completion(s, acts);
    }
  }
}
