/** What lost connections and refused requests can do: exactly which downloads, new or resumed,
    can be left with a thread that spins for good, or with no way to end. */
module DownloadHangs {
  import opened Bytes
  import opened Options
  import opened Parts
  import opened Download
  import opened DownloadSafety
  import opened DownloadTheorems
  import opened DownloadProgress
  import opened DownloadMeasure
  import opened DownloadDoom
  import opened DownloadHope
  import opened DownloadReach
  import opened DownloadEnding
  import opened DownloadFaults

  lemma {:induction false} LastMissingPart(parts: seq<Part>, from: nat) returns (k: nat)
    requires from <= |parts| && !AllDone(parts, from, |parts|)
    ensures from <= k < |parts| && parts[k].rest > 0 && AllDone(parts, k + 1, |parts|)
    decreases |parts| - from
  {
    if AllDone(parts, from + 1, |parts|) {
      k := from;
    } else {
      k := LastMissingPart(parts, from + 1);
    }
  }

  // Spinning for good

  function ClaimedBy(s: State, t: nat, k: nat): State
    requires t < |s.threads| && k < |s.using|
  {
    s.(using := s.using[k := true]).With(t, s.threads[t].(pc := Connecting, part := Some(k)))
  }

  /** Thread t takes partsLock when nothing is left for it but what u has claimed, and then
      u's connection is lost. */
  lemma Hangs(s: State, s1: State, t: nat, u: nat, k: nat) returns (s': State)
    requires Inv(s) && Leads(s, s1) && s1.lock.None? && t < |s1.threads| && u < |s1.threads| && t != u
    requires s1.threads[t].pc.Waiting? && k < |s1.parts| == |s1.using| && s1.threads[t].startPart <= k
    requires AllDone(s1.parts, s1.threads[t].startPart, k) && AllDone(s1.parts, k + 1, |s1.parts|)
    requires s1.using[k] && s1.parts[k].rest > 0
    requires s1.threads[u].pc.Connecting? && s1.threads[u].part == Some(k) && !s1.threads[u].link.DeadLink?
    ensures Leads(s, s') && Inv(s') && Deadlocked(s')
  {
    hide Inv, Layout, Leads;
    LeadsInv(s, s1);
    Shaped(s1);
    var link := s1.threads[u].link;
    var th := s1.threads[u].(pc := Requesting, link := if link.NoLink? then LiveLink([], [], Reading) else link);
    var s2 := s1.With(u, th);
    Then(s, s1, Connect(u), s2);
    var s3 := s2.(lock := Some(t)).With(t, s2.threads[t].(pc := Scanning(s2.threads[t].startPart, true)));
    Then(s, s2, Acquire(t), s3);
    s' := s3.With(u, th.(link := DeadLink(false)));
    Then(s, s3, Drop(u), s');
    assert Failed(s', t);
    assert DoomedBy(s', t, u);
  }

  /** When some thread but the first looks at a missing part, a lost connection can leave a
      thread spinning for ever on the part another has given up. */
  lemma CanHang(job: Job, records: seq<Part>, dest: seq<byte>, count: nat, t: nat, k: nat) returns (s': State)
    requires Resumable(job, records, dest) && 1 <= t < count && k < |records|
    requires StartPart(t, |records|, count) <= k && records[k].rest > 0 && AllDone(records, k + 1, |records|)
    ensures Leads(Resume(job, records, dest, count), s') && Inv(s') && Deadlocked(s')
  {
    hide Inv, Layout, Leads, PrefixOk, NewThreads, StartPart, Deadlocked;
    ResumeIdle(job, records, dest, count);
    var s := Resume(job, records, dest, count);
    var s1 := FetchRange(s, 0, 0, k);
    IdleFlags(s1, k);
    Claims(s1, t, k);
    LeadsThrough(s, s1, ClaimedBy(s1, t, k));
    s' := Hangs(s, ClaimedBy(s1, t, k), 0, t, k);
  }

  /** Only thread 0 ever finds anything to download. */
  ghost predicate Solo(s: State) {
    forall t :: 1 <= t < |s.threads| ==>
      !s.threads[t].HasPart() && s.threads[t].link.NoLink? && AllDone(s.parts, s.threads[t].startPart, |s.parts|)
  }

  lemma SoloMoves(s: State, a: Action)
    requires Inv(s) && Solo(s) && Enabled(s, a) && a.t >= 1
    ensures a.t < |Apply(s, a).threads| && Apply(s, a).parts == s.parts
    ensures var th := Apply(s, a).threads[a.t];
            !th.HasPart() && th.link.NoLink? && th.startPart == s.threads[a.t].startPart
  {
    hide Inv, Layout, DoScan, React, HasReply, Submit, Transmit, Splice, PhaseOk;
    Seen(s, a.t);
    if a.Scan? { ScanEffect(s, a.t); }
    if a.Serve? { RequestIsBytes(s.threads[a.t].link); }
  }

  lemma SoloStays(s: State, a: Action)
    requires Inv(s) && Solo(s) && Enabled(s, a)
    ensures Solo(Apply(s, a))
  {
    hide Inv, Layout, Enabled, Apply;
    Shaped(s);
    ApplyFrame(s, a);
    OnlyOwnedFill(s, a);
    if a.t >= 1 { SoloMoves(s, a); }
  }

  lemma UndeliveredMissing(s: State, u: nat)
    requires Inv(s) && Bad(s, u)
    ensures s.parts[s.threads[u].part.value].rest > 0
  {
    hide Inv, Layout, Carries;
    Seen(s, u);
  }

  lemma SoloNeverSpins(s: State)
    requires Inv(s) && Solo(s)
    ensures !Deadlocked(s)
  {
    hide Inv, Layout;
    Shaped(s);
    if t: nat, u: nat :| DoomedBy(s, t, u) {
      UndeliveredMissing(s, u);
    }
  }

  lemma {:induction false} SoloRun(s: State, acts: seq<Action>)
    requires Inv(s) && Solo(s) && Run(s, acts)
    ensures Inv(After(s, acts)) && Solo(After(s, acts))
    decreases |acts|
  {
    hide Inv, Enabled, Apply, Solo;
    if acts != [] {
      StepInv(s, acts[0]);
      SoloStays(s, acts[0]);
      SoloRun(Apply(s, acts[0]), acts[1..]);
    }
  }

  /** No run of s leaves a thread spinning for good. */
  ghost predicate NeverSpins(s: State) {
    forall s' :: Leads(s, s') ==> !Deadlocked(s')
  }

  /** No thread ever spins for good, whatever connections are lost, exactly when all threads but
      the first start behind everything that is missing. */
  lemma ResumedNeverSpinsIff(job: Job, records: seq<Part>, dest: seq<byte>, count: nat)
    requires Resumable(job, records, dest) && count > 0
    ensures NeverSpins(Resume(job, records, dest, count))
       <==> forall t :: 1 <= t < count ==> AllDone(records, StartPart(t, |records|, count), |records|)
  {
    hide Inv, Layout, Leads, PrefixOk, NewThreads, StartPart, Deadlocked;
    ResumeIdle(job, records, dest, count);
    var s := Resume(job, records, dest, count);
    if t: nat :| 1 <= t < count && !AllDone(records, StartPart(t, |records|, count), |records|) {
      var k := LastMissingPart(records, StartPart(t, |records|, count));
      var s' := CanHang(job, records, dest, count, t, k);
    } else {
      assert Solo(s);
      forall s' | Leads(s, s') ensures !Deadlocked(s') {
        SoloLeads(s, s');
      }
    }
  }

  lemma SoloLeads(s: State, s': State)
    requires Inv(s) && Solo(s) && Leads(s, s')
    ensures !Deadlocked(s')
  {
    hide Inv, Run, After, Solo, Deadlocked;
    var acts: seq<Action> :| Run(s, acts) && After(s, acts) == s';
    SoloRun(s, acts);
    SoloNeverSpins(s');
  }

  /** For a new download that is: exactly with a single thread or nothing to download. */
  lemma NeverSpinsIff(job: Job, dest: seq<byte>, count: nat)
    requires job.Ok() && count > 0
    ensures NeverSpins(Fresh(job, dest, count)) <==> count == 1 || |job.src| == 0
  {
    hide Partition, Fresh, Resume, Resumable, NeverSpins, StartPart;
    var ps := Partition(|job.src|);
    FreshIsResumed(job, dest, count);
    UntouchedParts(|job.src|);
    ResumedNeverSpinsIff(job, ps, Allocate(dest, |job.src|), count);
    if count > 1 && |ps| > 0 {
      StartInRange(1, |ps|, count);
      assert ps[StartPart(1, |ps|, count)].rest > 0;
    }
  }

  // No way to end

  /** A thread whose connection is lost and then refuses its request gives its part back and
      keeps the connection. */
  lemma GetsRefused(s: State, t: nat, k: nat)
    requires Calm(s) && t < |s.threads| && s.threads[t].pc.Waiting? && s.threads[t].link.NoLink?
    requires FirstFrom(s.parts, s.threads[t].startPart, k)
    ensures var th := Thread(Waiting, (k + 1) % |s.parts|, None, s.parts[k].rest, s.threads[t].pos, DeadLink(true));
            var s' := s.With(t, th);
            Leads(s, s') && Calm(s')
  {
    hide Inv, Layout, Leads;
    CalmFlags(s, k);
    Claims(s, t, k);
    var th, used := s.threads[t], s.(using := s.using[k := true]);
    var s1 := used.With(t, th.(pc := Connecting, part := Some(k)));
    LeadsInv(s, s1);
    FirstRefusal(s1, t, k);
    var lost := th.(pc := Releasing, part := Some(k), rest := s.parts[k].rest, link := DeadLink(true));
    var s2 := used.With(t, lost);
    assert s2 == s1.With(t, lost);
    LeadsThrough(s, s1, s2);
    LeadsInv(s, s2);
    HandsBack(s2, t, k);
    var s3 := s.With(t, Thread(Waiting, (k + 1) % |s.parts|, None, s.parts[k].rest, th.pos, DeadLink(true)));
    assert used.using[k := false] == s.using;
    assert s3 == s2.(using := s2.using[k := false])
                   .With(t, lost.(pc := Waiting, startPart := (k + 1) % |s.parts|, part := None));
    LeadsThrough(s, s2, s3);
    LeadsInv(s, s3);
  }

  lemma FirstRefusal(s: State, t: nat, k: nat)
    requires Inv(s) && t < |s.threads| && s.threads[t].pc.Connecting? && s.threads[t].link.NoLink?
    requires s.threads[t].part == Some(k) && k < |s.parts|
    ensures Leads(s, s.With(t, s.threads[t].(pc := Releasing, rest := s.parts[k].rest, link := DeadLink(true))))
  {
    hide Inv, Layout, Leads, HasReply, HasRequest, React, Transmit, Splice, Submit;
    Shaped(s);
    LeadsNowhere(s);
    var th := s.threads[t];
    var th1 := th.(pc := Requesting, link := LiveLink([], [], Reading));
    var th2 := th1.(link := DeadLink(false));
    Then(s, s, Connect(t), s.With(t, th1));
    Then(s, s.With(t, th1), Drop(t), s.With(t, th2));
    Then(s, s.With(t, th2), RequestFails(t),
         s.With(t, th.(pc := Releasing, rest := s.parts[k].rest, link := DeadLink(true))));
  }

  /** When only the first thread finds anything missing, at f first and at k last, and there is
      something else or the last part to come back to, one refused request is enough. */
  lemma CanStarve(job: Job, records: seq<Part>, dest: seq<byte>, count: nat, f: nat, k: nat) returns (s': State)
    requires Resumable(job, records, dest) && count > 0
    requires FirstFrom(records, 0, f) && f <= k < |records| && (f < k || k == |records| - 1)
    requires records[k].rest > 0 && AllDone(records, k + 1, |records|)
    requires forall t :: 1 <= t < count ==> StartPart(t, |records|, count) > k
    ensures Leads(Resume(job, records, dest, count), s') && Inv(s') && Starved(s')
  {
    hide Inv, Layout, Leads, PrefixOk, NewThreads, StartPart;
    ResumeIdle(job, records, dest, count);
    var s := Resume(job, records, dest, count);
    GetsRefused(s, 0, f);
    var th := Thread(Waiting, (f + 1) % |s.parts|, None, s.parts[f].rest, s.threads[0].pos, DeadLink(true));
    s' := s.With(0, th);
    NextStart(f, |s.parts|);
    StarvesFirst(s', k);
  }

  lemma StarvesFirst(s: State, k: nat)
    requires Calm(s) && 0 < |s.threads| && k < |s.parts| && s.parts[k].rest > 0 && AllDone(s.parts, k + 1, |s.parts|)
    requires s.threads[0].pc.Waiting? && Refuses(s.threads[0].link) && s.threads[0].startPart <= k
    requires forall t :: 1 <= t < |s.threads| ==> k < s.threads[t].startPart < |s.parts| && s.threads[t].link.NoLink?
    ensures Starved(s)
  {
    hide Inv, Lacking;
    CalmLacks(s, k);
    CalmLacks(s, |s.parts| - 1);
    assert StarvedOf(s, 0, k);
  }

  lemma {:induction false} AllGetRefused(s: State, from: nat) returns (s': State)
    requires Calm(s) && from <= |s.threads| && LastMissing(s.parts)
    requires forall t :: 0 <= t < |s.threads| ==>
               s.threads[t].pc.Waiting? && if t < from then Refuses(s.threads[t].link) else s.threads[t].link.NoLink?
    ensures Leads(s, s') && Calm(s') && s'.parts == s.parts && |s'.threads| == |s.threads|
    ensures forall t :: 0 <= t < |s.threads| ==> s'.threads[t].pc.Waiting? && Refuses(s'.threads[t].link)
    decreases |s.threads| - from
  {
    hide Inv, Layout, Leads, Calm;
    LeadsNowhere(s);
    if from == |s.threads| {
      s' := s;
    } else {
      CalmStart(s, from);
      var k := FirstMissing(s.parts, s.threads[from].startPart);
      GetsRefused(s, from, k);
      var th := Thread(Waiting, (k + 1) % |s.parts|, None, s.parts[k].rest, s.threads[from].pos, DeadLink(true));
      var s1 := s.With(from, th);
      s' := AllGetRefused(s1, from + 1);
      LeadsThrough(s, s1, s');
    }
  }

  lemma CalmStart(s: State, t: nat)
    requires Calm(s) && |s.parts| > 0 && t < |s.threads|
    ensures s.threads[t].startPart < |s.parts|
  {
    hide Inv;
    Seen(s, t);
  }

  lemma NoneLeft(s: State)
    requires Calm(s) && |s.threads| > 0 && LastMissing(s.parts)
    requires forall t :: 0 <= t < |s.threads| ==> s.threads[t].pc.Waiting? && Refuses(s.threads[t].link)
    ensures Inv(s) && Starved(s)
  {
    CalmStart(s, 0);
    CalmLacks(s, |s.parts| - 1);
    hide Inv, Lacking;
    assert StarvedOf(s, 0, |s.parts| - 1);
  }

  /** With the last part missing, every thread can come to keep a connection that refuses
      requests, before it is downloaded. */
  lemma CanBeAbandoned(job: Job, records: seq<Part>, dest: seq<byte>, count: nat) returns (s': State)
    requires Resumable(job, records, dest) && count > 0 && LastMissing(records)
    ensures Leads(Resume(job, records, dest, count), s') && Inv(s') && LastMissing(s'.parts) && Starved(s')
    ensures forall t :: 0 <= t < |s'.threads| ==> Refuses(s'.threads[t].link)
  {
    hide Inv, Layout, Leads, PrefixOk, NewThreads, StartPart, Starved;
    ResumeIdle(job, records, dest, count);
    s' := AllGetRefused(Resume(job, records, dest, count), 0);
    NoneLeft(s');
  }

  /** With nothing missing nothing is hopeless. */
  lemma DoneNotDoomed(s: State)
    requires Inv(s) && AllDone(s.parts, 0, |s.parts|)
    ensures !Doomed(s)
  {
    hide Inv, Layout, Carries, AwaitOk, Reaches;
    if t: nat, u: nat :| DoomedBy(s, t, u) { UndeliveredMissing(s, u); }
    if u: nat :| Trapped(s, u) { Seen(s, u); }
  }

  /** All parts but j are finished, j is not the last, only thread 0 finds anything to do, and
      once its connection refuses it looks behind j. */
  ghost predicate Tame(s: State, j: nat) {
    && Solo(s) && |s.threads| > 0
    && j + 1 < |s.parts| && AllDone(s.parts, 0, j) && AllDone(s.parts, j + 1, |s.parts|)
    && (Refuses(s.threads[0].link) ==>
          !s.threads[0].pc.Connecting? && !s.threads[0].pc.Requesting? && LooksFrom(s.threads[0], |s.parts|) > j)
  }

  lemma TameFirst(s: State, a: Action, j: nat)
    requires Inv(s) && Tame(s, j) && Enabled(s, a) && a.t == 0 && Refuses(s.threads[0].link)
    ensures |Apply(s, a).threads| > 0
    ensures var th := Apply(s, a).threads[0];
            !th.pc.Connecting? && !th.pc.Requesting? && LooksFrom(th, |s.parts|) > j
  {
    hide Inv, PhaseOk, DoScan, Solo, React, HasRequest, HasReply, Transmit, Splice, Submit;
    Seen(s, 0);
    RefusalStays(s, a);
    if a.Scan? { ScanEffect(s, 0); }
    if a.Release? || a.Advance? { GivingBack(s, a); }
  }

  lemma TameRefusal(s: State, j: nat)
    requires Inv(s) && Tame(s, j) && Enabled(s, RequestFails(0))
    ensures |Apply(s, RequestFails(0)).threads| > 0
    ensures var th := Apply(s, RequestFails(0)).threads[0]; th.pc.Releasing? && LooksFrom(th, |s.parts|) > j
  {
    hide Inv, Layout, LinkIdle, Solo;
    Seen(s, 0);
    NextStart(j, |s.parts|);
  }

  lemma TameStays(s: State, a: Action, j: nat)
    requires Inv(s) && Tame(s, j) && Enabled(s, a)
    ensures Tame(Apply(s, a), j)
  {
    hide Inv, Layout, Enabled, Apply, Solo, Refuses;
    Shaped(s);
    ApplyFrame(s, a);
    OnlyOwnedFill(s, a);
    SoloStays(s, a);
    if a.t == 0 {
      if Refuses(s.threads[0].link) {
        TameFirst(s, a, j);
      } else if a.RequestFails? {
        TameRefusal(s, j);
      } else {
        RefusalBefore(s, a);
      }
    }
  }

  lemma TameNotDoomed(s: State, j: nat)
    requires Inv(s) && Tame(s, j)
    ensures !Doomed(s)
  {
    hide Inv, Layout, Reaches;
    Shaped(s);
    SoloNeverSpins(s);
    hide Deadlocked;
    if u: nat :| Trapped(s, u) { TameTraps(s, j, u); }
    if r: nat, k: nat :| Needs(s, r, k) { LackingRest(s, k); }
  }

  lemma TameTraps(s: State, j: nat, u: nat)
    requires Tame(s, j) && |s.using| == |s.parts|
    ensures !Trapped(s, u)
  {
  }

  lemma {:induction false} TameRun(s: State, acts: seq<Action>, j: nat)
    requires Inv(s) && Tame(s, j) && Run(s, acts)
    ensures Inv(After(s, acts)) && !Doomed(After(s, acts))
    decreases |acts|
  {
    hide Inv, Enabled, Apply, Tame, Doomed;
    if acts != [] {
      StepInv(s, acts[0]);
      TameStays(s, acts[0], j);
      TameRun(Apply(s, acts[0]), acts[1..], j);
    } else {
      TameNotDoomed(s, j);
    }
  }

  lemma TameLeads(s: State, s': State, j: nat)
    requires Inv(s) && Tame(s, j) && Leads(s, s')
    ensures CanFinish(s')
  {
    hide Inv, Run, After, Tame, CanFinish, Doomed;
    var acts: seq<Action> :| Run(s, acts) && After(s, acts) == s';
    TameRun(s, acts, j);
    CanFinishIffNotDoomed(s');
  }

  lemma DoneLeads(s: State, s': State)
    requires Inv(s) && AllDone(s.parts, 0, |s.parts|) && Leads(s, s')
    ensures CanFinish(s')
  {
    hide Inv, Run, After, CanFinish, Doomed;
    var acts: seq<Action> :| Run(s, acts) && After(s, acts) == s';
    RunInv(s, acts);
    RunKeepsBytes(s, acts);
    DoneNotDoomed(s');
    CanFinishIffNotDoomed(s');
  }

  /** From every state a run of s leads to, all threads can still return. */
  ghost predicate NeverHangs(s: State) {
    forall s' :: Leads(s, s') ==> CanFinish(s')
  }

  /** Nothing is missing, or a single part that is not the last and that only the first of
      count threads looks at. */
  predicate Safe(records: seq<Part>, count: nat)
    requires count > 0
  {
    || (forall k :: 0 <= k < |records| ==> records[k].rest == 0)
    || exists j: nat ::
         && j + 1 < |records| && records[j].rest > 0
         && (forall k :: 0 <= k < |records| && k != j ==> records[k].rest == 0)
         && forall t :: 1 <= t < count ==> StartPart(t, |records|, count) > j
  }

  lemma Unsafe(job: Job, records: seq<Part>, dest: seq<byte>, count: nat) returns (s': State)
    requires Resumable(job, records, dest) && count > 0 && !Safe(records, count)
    ensures Leads(Resume(job, records, dest, count), s') && Inv(s') && Doomed(s')
  {
    hide Inv, Layout, Leads, PrefixOk, NewThreads, StartPart, Deadlocked, Starved;
    var f := FirstMissing(records, 0);
    var k := LastMissingPart(records, 0);
    if t: nat :| 1 <= t < count && StartPart(t, |records|, count) <= k {
      s' := CanHang(job, records, dest, count, t, k);
    } else {
      s' := CanStarve(job, records, dest, count, f, k);
    }
  }

  /** Whatever connections are lost and requests refused all threads can still return, exactly
      when nothing is missing at the start, or a single part that is not the last and that only
      the first thread looks at. */
  lemma ResumedNeverHangsIff(job: Job, records: seq<Part>, dest: seq<byte>, count: nat)
    requires Resumable(job, records, dest) && count > 0
    ensures NeverHangs(Resume(job, records, dest, count)) <==> Safe(records, count)
  {
    hide Inv, Layout, Leads, PrefixOk, NewThreads, StartPart, CanFinish, Doomed;
    ResumeIdle(job, records, dest, count);
    var s := Resume(job, records, dest, count);
    if !Safe(records, count) {
      var s' := Unsafe(job, records, dest, count);
      CanFinishIffNotDoomed(s');
    } else if AllDone(records, 0, |records|) {
      forall s' | Leads(s, s') ensures CanFinish(s') {
        DoneLeads(s, s');
      }
    } else {
      var j := FirstMissing(records, 0);
      assert Tame(s, j);
      forall s' | Leads(s, s') ensures CanFinish(s') {
        TameLeads(s, s', j);
      }
    }
  }

  /** For a new download that is: exactly with nothing to download. */
  lemma NeverHangsIff(job: Job, dest: seq<byte>, count: nat)
    requires job.Ok() && count > 0
    ensures NeverHangs(Fresh(job, dest, count)) <==> |job.src| == 0
  {
    hide Partition, Fresh, Resume, Resumable, NeverHangs, StartPart;
    var ps := Partition(|job.src|);
    FreshIsResumed(job, dest, count);
    UntouchedParts(|job.src|);
    ResumedNeverHangsIff(job, ps, Allocate(dest, |job.src|), count);
    if |ps| > 0 {
      assert ps[0].rest > 0 && ps[|ps| - 1].rest > 0;
    }
  }
}
