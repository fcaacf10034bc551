/** What lost connections can do: exactly which downloads, new or resumed, can return with a
    part missing. */
module DownloadFaults {
  import opened Bytes
  import opened Options
  import opened Parts
  import opened Download
  import opened DownloadSafety
  import opened DownloadTheorems
  import opened DownloadProgress
  import opened DownloadMeasure
  import opened DownloadLiveness
  import opened DownloadReach
  import opened DownloadOutcome

  // What one thread can do while the others do nothing

  /** Nobody is working on a part or holds partsLock, and no connection has failed. */
  ghost predicate Idle(s: State) {
    Calm(s) && forall u :: 0 <= u < |s.threads| ==> !s.threads[u].link.DeadLink?
  }

  lemma IdleFlags(s: State, k: nat)
    requires Idle(s) && k < |s.parts|
    ensures Shape(s) && k < |s.using| && !s.using[k] && s.parts[k].id == k && Healthy(s)
  {
    hide Inv;
    CalmFlags(s, k);
  }

  /** Losing the connection before the request sends a thread on to give its part back. */
  lemma Loses(s: State, t: nat)
    requires Inv(s) && t < |s.threads| && s.threads[t].pc.Connecting? && !s.threads[t].link.DeadLink?
    requires s.threads[t].part.Some? && s.threads[t].part.value < |s.parts|
    ensures var th := s.threads[t];
            Leads(s, s.With(t, th.(pc := Releasing, rest := s.parts[th.part.value].rest, link := NoLink)))
  {
    hide Inv, Layout, Cursor, RequestFrame, Leads, HasReply, HasRequest, React, Transmit, Splice;
    Shaped(s);
    LeadsNowhere(s);
    var th := s.threads[t];
    var th1 := th.(pc := Requesting, link := if th.link.NoLink? then LiveLink([], [], Reading) else th.link);
    var th2 := th1.(link := DeadLink(false));
    Then(s, s, Connect(t), s.With(t, th1));
    Then(s, s.With(t, th1), Drop(t), s.With(t, th2));
    Swallowed(s.With(t, th2), t);
    var th3 := th.(pc := Releasing, rest := s.parts[th.part.value].rest, link := NoLink);
    assert s.With(t, th2).With(t, th3) == s.With(t, th3);
    LeadsThrough(s, s.With(t, th2), s.With(t, th3));
  }

  /** A request that a failed connection swallows gets no reply. */
  lemma Swallowed(s: State, t: nat)
    requires Inv(s) && t < |s.threads| && s.threads[t].pc.Requesting? && s.threads[t].link == DeadLink(false)
    requires s.threads[t].part.Some? && s.threads[t].part.value < |s.parts|
    ensures var th := s.threads[t];
            Leads(s, s.With(t, th.(pc := Releasing, rest := s.parts[th.part.value].rest, link := NoLink)))
  {
    hide Inv, Layout, Cursor, RequestFrame, Leads, HasReply, HasRequest, React, Transmit, Splice;
    Shaped(s);
    LeadsNowhere(s);
    var th := s.threads[t];
    var th1 := th.(pc := AwaitingReply, rest := s.parts[th.part.value].rest);
    Then(s, s, Request(t), s.With(t, th1));
    Then(s, s.With(t, th1), Reply(t), s.With(t, th1.(pc := Releasing, link := NoLink)));
  }

  /** A part whose connection is lost before the request is given back as it was, and the
      thread moves on to look behind it. */
  lemma GivesUp(s: State, t: nat, k: nat)
    requires Idle(s) && t < |s.threads| && s.threads[t].pc.Waiting?
    requires FirstFrom(s.parts, s.threads[t].startPart, k)
    ensures var s' := s.With(t, Thread(Waiting, (k + 1) % |s.parts|, None, s.parts[k].rest, s.threads[t].pos, NoLink));
            Leads(s, s') && Idle(s')
  {
    hide Inv, Layout, Leads;
    IdleFlags(s, k);
    Claims(s, t, k);
    var th, used := s.threads[t], s.(using := s.using[k := true]);
    var s1 := used.With(t, th.(pc := Connecting, part := Some(k)));
    LeadsInv(s, s1);
    Loses(s1, t);
    var lost := th.(pc := Releasing, part := Some(k), rest := s.parts[k].rest, link := NoLink);
    var s2 := used.With(t, lost);
    assert s2 == s1.With(t, lost);
    LeadsThrough(s, s1, s2);
    LeadsInv(s, s2);
    HandsBack(s2, t, k);
    var s3 := s.With(t, Thread(Waiting, (k + 1) % |s.parts|, None, s.parts[k].rest, th.pos, NoLink));
    assert used.using[k := false] == s.using;
    assert s3 == s2.(using := s2.using[k := false])
                   .With(t, lost.(pc := Waiting, startPart := (k + 1) % |s.parts|, part := None));
    LeadsThrough(s, s2, s3);
    LeadsInv(s, s3);
  }

  /** Between claiming part k and giving it back, in a state where nothing has failed. */
  ghost predicate Working(s: State, t: nat, k: nat) {
    && Inv(s) && Healthy(s) && s.lock.None? && t < |s.threads| && k < |s.parts|
    && s.threads[t].Owning() && s.threads[t].part == Some(k)
  }

  /** s' differs from s at most in what thread t downloads of part k. */
  ghost predicate OnlyPart(s: State, s': State, t: nat, k: nat) {
    && s'.job == s.job && s'.using == s.using && s'.lock == s.lock
    && |s'.threads| == |s.threads| && |s'.parts| == |s.parts| && |s'.dest| == |s.dest|
    && (forall u :: 0 <= u < |s.threads| && u != t ==> s'.threads[u] == s.threads[u])
    && (forall i :: 0 <= i < |s.parts| && i != k ==> s'.parts[i] == s.parts[i])
    && t < |s.threads| && s'.threads[t].startPart == s.threads[t].startPart
  }

  lemma OwnerStays(s: State, a: Action)
    requires Inv(s) && Enabled(s, a) && s.threads[a.t].Owning() && !a.Release?
    ensures a.t < |Apply(s, a).threads| && Apply(s, a).threads[a.t].Owning()
    ensures Apply(s, a).threads[a.t].part == s.threads[a.t].part
    ensures Apply(s, a).threads[a.t].startPart == s.threads[a.t].startPart
  {
    hide Inv, Layout, React, HasRequest, HasReply, Submit, Transmit, Splice, Cursor, RequestFrame, ReplySize;
    Shaped(s);
  }

  lemma WorkStep(s: State, t: nat, k: nat, a: Action)
    requires Working(s, t, k) && Enabled(s, a) && a.t == t && !Faulty(a) && !a.Release?
    ensures Working(Apply(s, a), t, k) && OnlyPart(s, Apply(s, a), t, k)
  {
    hide Inv, Layout, Enabled, Apply, Healthy;
    Shaped(s);
    StepInv(s, a);
    HealthyStays(s, a);
    OwnerStays(s, a);
    ApplyFrame(s, a);
    StepWritesOwnPart(s, a);
    NotScanning(s, a);
  }

  lemma NotScanning(s: State, a: Action)
    requires Shape(s) && Enabled(s, a) && s.threads[a.t].Owning()
    ensures !a.Acquire? && !a.Scan? && !a.EndPass? && !a.Advance?
  {
  }

  /** Without faults an owner finishes its part. */
  lemma {:induction false} Finishes(s: State, t: nat, k: nat) returns (s': State)
    requires Working(s, t, k)
    ensures Leads(s, s') && Working(s', t, k) && OnlyPart(s, s', t, k)
    ensures s'.threads[t].pc.Releasing? && s'.parts[k].rest == 0
    decreases Measure(s)
  {
    hide Inv, Layout, Leads, Enabled, Apply, Measure;
    Shaped(s);
    LeadsNowhere(s);
    if s.threads[t].pc.Releasing? {
      s' := s;
    } else {
      var a := OwnerAction(s, t);
      NotReleasing(s, a);
      WorkStep(s, t, k, a);
      LeadsOn(s, s, a);
      MeasureFalls(s, a);
      s' := Finishes(Apply(s, a), t, k);
      LeadsThrough(s, Apply(s, a), s');
    }
  }

  lemma NotReleasing(s: State, a: Action)
    requires Shape(s) && Enabled(s, a) && !s.threads[a.t].pc.Releasing?
    ensures !a.Release?
  {
  }

  /** Thread t downloads part k, the first unfinished one it finds, and is done with it. */
  lemma Fetches(s: State, t: nat, k: nat) returns (s': State)
    requires Idle(s) && t < |s.threads| && s.threads[t].pc.Waiting?
    requires FirstFrom(s.parts, s.threads[t].startPart, k)
    ensures Leads(s, s') && Idle(s') && s'.job == s.job && |s'.parts| == |s.parts| && |s'.threads| == |s.threads|
    ensures forall u :: 0 <= u < |s.threads| && u != t ==> s'.threads[u] == s.threads[u]
    ensures s'.parts[k].rest == 0 && forall i :: 0 <= i < |s.parts| && i != k ==> s'.parts[i] == s.parts[i]
    ensures s'.threads[t].pc.Waiting? && s'.threads[t].startPart == (k + 1) % |s.parts|
  {
    hide Inv, Layout, Leads;
    IdleFlags(s, k);
    Claims(s, t, k);
    var s1 := s.(using := s.using[k := true]).With(t, s.threads[t].(pc := Connecting, part := Some(k)));
    LeadsInv(s, s1);
    var s2 := Finishes(s1, t, k);
    LeadsThrough(s, s1, s2);
    Shaped(s2);
    HandsBack(s2, t, k);
    s' := s2.(using := s2.using[k := false])
            .With(t, s2.threads[t].(pc := Waiting, startPart := (k + 1) % |s.parts|, part := None));
    LeadsThrough(s, s2, s');
    LeadsInv(s, s');
  }

  /** s' is s after thread t, alone, has downloaded what was missing of parts [from, end). */
  ghost predicate Fetched(s: State, s': State, t: nat, from: nat, end: nat) {
    && s'.job == s.job && |s'.parts| == |s.parts| && |s'.threads| == |s.threads|
    && (forall u :: 0 <= u < |s.threads| && u != t ==> s'.threads[u] == s.threads[u])
    && (forall i :: 0 <= i < |s.parts| ==> if from <= i < end then s'.parts[i].rest == 0 else s'.parts[i] == s.parts[i])
  }

  lemma FetchedJoin(s: State, s1: State, s2: State, t: nat, from: nat, mid: nat, end: nat)
    requires from <= mid <= end && Fetched(s, s1, t, from, mid) && Fetched(s1, s2, t, mid, end)
    ensures Fetched(s, s2, t, from, end)
  {
  }

  /** Thread t downloads what is missing of parts [from, end), one after the other. */
  lemma {:induction false} FetchRange(s: State, t: nat, from: nat, end: nat) returns (s': State)
    requires Idle(s) && t < |s.threads| && s.threads[t].pc.Waiting? && from <= end <= |s.parts|
    requires s.threads[t].startPart <= from && AllDone(s.parts, s.threads[t].startPart, from)
    ensures Leads(s, s') && Idle(s') && Fetched(s, s', t, from, end) && s'.threads[t].pc.Waiting?
    ensures end < |s.parts| ==> s'.threads[t].startPart <= end && AllDone(s'.parts, s'.threads[t].startPart, end)
    decreases end - from
  {
    hide Idle, Leads, Fetched;
    LeadsNowhere(s);
    if from == end {
      FetchedNothing(s, t, from);
      s' := s;
    } else if s.parts[from].rest == 0 {
      s' := FetchRange(s, t, from + 1, end);
      FetchedDone(s, t, from);
      FetchedJoin(s, s, s', t, from, from + 1, end);
    } else {
      var s1 := Fetches(s, t, from);
      FetchedOne(s, s1, t, from);
      NextStart(from, |s.parts|);
      if from + 1 == |s.parts| {
        s' := s1;
      } else {
        s' := FetchRange(s1, t, from + 1, end);
        LeadsThrough(s, s1, s');
        FetchedJoin(s, s1, s', t, from, from + 1, end);
      }
    }
  }

  lemma FetchedNothing(s: State, t: nat, from: nat)
    ensures Fetched(s, s, t, from, from)
  {
  }

  lemma FetchedDone(s: State, t: nat, k: nat)
    requires k < |s.parts| && s.parts[k].rest == 0
    ensures Fetched(s, s, t, k, k + 1)
  {
  }

  lemma FetchedOne(s: State, s': State, t: nat, k: nat)
    requires s'.job == s.job && |s'.parts| == |s.parts| && |s'.threads| == |s.threads| && k < |s.parts|
    requires forall u :: 0 <= u < |s.threads| && u != t ==> s'.threads[u] == s.threads[u]
    requires s'.parts[k].rest == 0 && forall i :: 0 <= i < |s.parts| && i != k ==> s'.parts[i] == s.parts[i]
    ensures Fetched(s, s', t, k, k + 1)
  {
  }

  // Where downloads start

  /** Records a download can be resumed from: they describe this file, and every byte they
      claim is in the destination. */
  ghost predicate Resumable(job: Job, records: seq<Part>, dest: seq<byte>) {
    job.Ok() && Layout(records, |job.src|) && |job.src| <= |dest| && PrefixOk(job.src, records, dest)
  }

  lemma UntouchedParts(total: nat)
    ensures var ps := Partition(total);
            && (forall i :: 0 <= i < |ps| ==> ps[i].rest > 0)
            && (|ps| == 0 <==> total == 0) && (|ps| <= 1 <==> total <= PART_SIZE)
  {
  }

  /** A new download is one resumed from untouched records. */
  lemma FreshIsResumed(job: Job, dest: seq<byte>, count: nat)
    requires job.Ok()
    ensures var ps := Partition(|job.src|);
            && Fresh(job, dest, count) == Resume(job, ps, Allocate(dest, |job.src|), count)
            && Resumable(job, ps, Allocate(dest, |job.src|))
  {
    hide Partition, Allocate, Layout, PrefixOk, Fresh, Resume, Inv;
    FreshInv(job, dest, count);
    StartIsSafe(job, dest);
  }

  lemma ResumeIdle(job: Job, records: seq<Part>, dest: seq<byte>, count: nat)
    requires Resumable(job, records, dest)
    ensures var s := Resume(job, records, dest, count);
            && Idle(s) && |s.threads| == count && s.parts == records
            && (forall t :: 0 <= t < count ==> s.threads[t] == NewThread(StartPart(t, |records|, count)))
            && (forall t :: 0 <= t < count ==> s.threads[t].startPart <= |records|)
            && (forall t :: 0 <= t < count && |records| > 0 ==> s.threads[t].startPart < |records|)
            && (count > 0 ==> s.threads[0].startPart == 0)
  {
    hide Inv, Layout, PrefixOk, StartPart;
    ResumeInv(job, records, dest, count);
    forall t | 0 <= t < count
      ensures (|records| > 0 ==> StartPart(t, |records|, count) < |records|) && StartPart(0, |records|, count) == 0
      ensures StartPart(t, |records|, count) <= |records|
    {
      StartInRange(t, |records|, count);
    }
  }

  lemma {:induction false} FirstMissing(parts: seq<Part>, from: nat) returns (k: nat)
    requires from <= |parts| && !AllDone(parts, from, |parts|)
    ensures FirstFrom(parts, from, k)
    decreases |parts| - from
  {
    if parts[from].rest > 0 {
      k := from;
    } else {
      k := FirstMissing(parts, from + 1);
    }
  }

  // A part can stay missing

  /** Everything but part j, not the last, is there. */
  ghost predicate OnlyMisses(parts: seq<Part>, j: nat) {
    j + 1 < |parts| && parts[j].rest > 0 && AllDone(parts, 0, j) && AllDone(parts, j + 1, |parts|)
  }

  /** A thread then returns without part j, losing a connection if it comes to that. */
  lemma Leaves(s: State, t: nat, j: nat) returns (s': State)
    requires Idle(s) && OnlyMisses(s.parts, j) && t < |s.threads| && s.threads[t].pc.Waiting?
    ensures Leads(s, s') && Idle(s') && s'.parts == s.parts && s'.job == s.job && |s'.threads| == |s.threads|
    ensures s'.threads[t].pc.Returned? && forall u :: 0 <= u < |s.threads| && u != t ==> s'.threads[u] == s.threads[u]
  {
    hide Inv, Layout, Leads;
    Seen(s, t);
    if s.threads[t].startPart <= j {
      GivesUp(s, t, j);
      NextStart(j, |s.parts|);
      var s1 := s.With(t, Thread(Waiting, j + 1, None, s.parts[j].rest, s.threads[t].pos, NoLink));
      Quits(s1, t);
      s' := s1.With(t, s1.threads[t].(pc := Returned));
      LeadsThrough(s, s1, s');
    } else {
      Quits(s, t);
      s' := s.With(t, s.threads[t].(pc := Returned));
    }
  }

  lemma {:induction false} AllLeave(s: State, from: nat, j: nat) returns (s': State)
    requires Idle(s) && OnlyMisses(s.parts, j) && from <= |s.threads|
    requires forall u :: 0 <= u < |s.threads| ==>
               if u < from then s.threads[u].pc.Returned? else s.threads[u].pc.Waiting?
    ensures Leads(s, s') && s'.parts == s.parts && AllReturned(s')
    decreases |s.threads| - from
  {
    hide Idle, Leads, OnlyMisses;
    LeadsNowhere(s);
    if from == |s.threads| {
      s' := s;
    } else {
      var s1 := Leaves(s, from, j);
      s' := AllLeave(s1, from + 1, j);
      LeadsThrough(s, s1, s');
    }
  }

  /** With a part missing that is not the last, lost connections can make every thread return
      with it missing. */
  lemma CanLosePart(job: Job, records: seq<Part>, dest: seq<byte>, count: nat, j: nat) returns (s': State)
    requires Resumable(job, records, dest) && count > 0 && FirstFrom(records, 0, j) && j + 1 < |records|
    ensures Leads(Resume(job, records, dest, count), s') && AllReturned(s') && !AllDone(s'.parts, 0, |s'.parts|)
  {
    hide Inv, Layout, Leads, PrefixOk, NewThreads, Idle;
    ResumeIdle(job, records, dest, count);
    var s := Resume(job, records, dest, count);
    GivesUp(s, 0, j);
    NextStart(j, |s.parts|);
    var s1 := s.With(0, Thread(Waiting, j + 1, None, s.parts[j].rest, s.threads[0].pos, NoLink));
    var s2 := FetchRange(s1, 0, j + 1, |s.parts|);
    LeadsThrough(s, s1, s2);
    s' := AllLeave(s2, 0, j);
    LeadsThrough(s, s2, s');
    assert s'.parts[j].rest > 0;
  }

  /** Nothing is missing but perhaps of the last part. */
  predicate LastAtMost(parts: seq<Part>) {
    forall k :: 0 <= k < |parts| - 1 ==> parts[k].rest == 0
  }

  /** Every pass covers the last part. */
  ghost predicate ReturnedWhole(s: State) {
    && LastAtMost(s.parts)
    && forall t :: 0 <= t < |s.threads| && s.threads[t].pc.Returned? ==> AllDone(s.parts, 0, |s.parts|)
  }

  lemma {:induction false} LastReturnsWhole(s: State, acts: seq<Action>)
    requires Inv(s) && ReturnedWhole(s) && Run(s, acts)
    ensures ReturnedWhole(After(s, acts))
    decreases |acts|
  {
    hide Inv, Layout, Enabled, Apply, PhaseOk;
    if acts != [] {
      var a := acts[0];
      Shaped(s);
      ApplyFrame(s, a);
      Seen(s, a.t);
      StepInv(s, a);
      StepWritesOwnPart(s, a);
      NewlyReturned(s, a);
      LastReturnsWhole(Apply(s, a), acts[1..]);
    }
  }

  lemma LastReturns(s: State, s': State)
    requires Inv(s) && ReturnedWhole(s) && Leads(s, s') && AllReturned(s') && |s.threads| > 0
    ensures AllDone(s'.parts, 0, |s'.parts|)
  {
    hide Inv, Run, After;
    var acts: seq<Action> :| Run(s, acts) && After(s, acts) == s';
    LastReturnsWhole(s, acts);
    RunKeepsBytes(s, acts);
    assert s'.threads[0].pc.Returned?;
  }

  /** Every run of s that returns all threads leaves nothing missing. */
  ghost predicate ReturnMeansWhole(s: State) {
    forall s' :: Leads(s, s') && AllReturned(s') ==> AllDone(s'.parts, 0, |s'.parts|)
  }

  /** Returning means complete, whatever connections are lost, exactly when nothing is missing
      at the start but perhaps of the last part. */
  lemma ResumedReturnIsWholeIff(job: Job, records: seq<Part>, dest: seq<byte>, count: nat)
    requires Resumable(job, records, dest) && count > 0
    ensures ReturnMeansWhole(Resume(job, records, dest, count)) <==> LastAtMost(records)
  {
    hide Leads, Inv, Layout, PrefixOk, NewThreads;
    ResumeIdle(job, records, dest, count);
    var s := Resume(job, records, dest, count);
    if LastAtMost(records) {
      forall s' | Leads(s, s') && AllReturned(s') ensures AllDone(s'.parts, 0, |s'.parts|) {
        LastReturns(s, s');
      }
    } else {
      var j := FirstMissing(records, 0);
      var s' := CanLosePart(job, records, dest, count, j);
    }
  }

  /** For a new download that is: exactly for files of at most one part. */
  lemma ReturnIsWholeIff(job: Job, dest: seq<byte>, count: nat)
    requires job.Ok() && count > 0
    ensures ReturnMeansWhole(Fresh(job, dest, count)) <==> |job.src| <= PART_SIZE
  {
    hide Partition, Fresh, Resume, Resumable, ReturnMeansWhole;
    var ps := Partition(|job.src|);
    FreshIsResumed(job, dest, count);
    UntouchedParts(|job.src|);
    ResumedReturnIsWholeIff(job, ps, Allocate(dest, |job.src|), count);
    assert |ps| > 1 ==> ps[0].rest > 0;
  }
}
