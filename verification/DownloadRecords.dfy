/** The records of the .dlinfo file keep up with the download: what they do not show yet is
    exactly what threads have stored and are about to record. */
module DownloadRecords {
  import opened Bytes
  import opened Options
  import opened Sums
  import opened Parts
  import opened Download
  import opened DownloadSafety
  import opened DownloadTheorems

  /** Between storing the new rest of a part and saving its record. */
  predicate Unsaved(th: Thread) { th.pc.Counting? || th.pc.Recording? }

  /** Bytes a thread has taken off its part's rest that the record does not show yet. */
  function Lag(th: Thread): nat { if Unsaved(th) then th.pc.n else 0 }

  function LagList(threads: seq<Thread>): (xs: seq<nat>)
    ensures |xs| == |threads|
    ensures forall t :: 0 <= t < |threads| ==> xs[t] == Lag(threads[t])
  {
    seq(|threads|, t requires 0 <= t < |threads| => Lag(threads[t]))
  }

  /** The record of part i is the part as it is, less what its owner has not saved yet. */
  ghost predicate RecordOk(s: State, i: nat)
    requires i < |s.parts| == |s.records|
  {
    && (forall t :: 0 <= t < |s.threads| && s.threads[t].part == Some(i) && Unsaved(s.threads[t]) ==>
          s.records[i] == s.parts[i].(rest := s.parts[i].rest + s.threads[t].pc.n))
    && ((forall t :: 0 <= t < |s.threads| ==> !(s.threads[t].part == Some(i) && Unsaved(s.threads[t]))) ==>
          s.records[i] == s.parts[i])
  }

  ghost predicate KeepUp(s: State) {
    && |s.records| == |s.parts|
    && (forall i :: 0 <= i < |s.parts| ==> RecordOk(s, i))
    && Downloaded(s.records) + Sum(LagList(s.threads)) == Downloaded(s.parts)
  }

  /** A download starts with the records of its parts. */
  lemma StartKeepsUp(job: Job, records: seq<Part>, dest: seq<byte>, count: nat)
    ensures KeepUp(Resume(job, records, dest, count))
  {
    hide Downloaded, StartPart;
    SumZero(LagList(NewThreads(|records|, count)));
  }

  lemma LagUpdate(threads: seq<Thread>, t: nat, th: Thread)
    requires t < |threads|
    ensures Sum(LagList(threads[t := th])) == Sum(LagList(threads)) - Lag(threads[t]) + Lag(th)
  {
    assert LagList(threads[t := th]) == LagList(threads)[t := Lag(th)];
    SumUpdate(LagList(threads), t, Lag(th));
  }

  /** No step but storing, counting and recording concerns what is unsaved. */
  lemma LagKept(s: State, a: Action)
    requires Inv(s) && Enabled(s, a) && !a.Store? && !a.Count? && !a.Record?
    ensures a.t < |s.threads| == |Apply(s, a).threads|
    ensures var th, th' := s.threads[a.t], Apply(s, a).threads[a.t];
            (Unsaved(th) <==> Unsaved(th')) && (Unsaved(th) ==> th'.pc == th.pc && th'.part == th.part)
  {
    hide Inv, Layout, DoScan, React, HasReply, HasRequest, Submit, Transmit, Splice, Cursor, RequestFrame, ReplySize;
    Shaped(s);
    if a.Scan? { ScanEffect(s, a.t); }
  }

  lemma OtherStep(s: State, a: Action)
    requires Inv(s) && KeepUp(s) && Enabled(s, a) && !a.Store? && !a.Count? && !a.Record?
    ensures KeepUp(Apply(s, a))
  {
    hide Inv, Layout, Enabled, Apply, Downloaded, Sum;
    Shaped(s);
    ApplyFrame(s, a);
    LagKept(s, a);
    var s' := Apply(s, a);
    LagUpdate(s.threads, a.t, s'.threads[a.t]);
    forall i | 0 <= i < |s'.parts| ensures RecordOk(s', i) {
      assert RecordOk(s, i);
      SameUnsaved(s, s', i);
    }
  }

  lemma SameUnsaved(s: State, s': State, i: nat)
    requires i < |s.parts| == |s.records| && RecordOk(s, i)
    requires |s'.threads| == |s.threads| && s'.parts == s.parts && s'.records == s.records
    requires forall t :: 0 <= t < |s.threads| ==>
               && (Unsaved(s'.threads[t]) <==> Unsaved(s.threads[t]))
               && (Unsaved(s.threads[t]) ==>
                     s'.threads[t].pc.n == s.threads[t].pc.n && s'.threads[t].part == s.threads[t].part)
    ensures RecordOk(s', i)
  {
    if forall t :: 0 <= t < |s'.threads| ==> !(s'.threads[t].part == Some(i) && Unsaved(s'.threads[t])) {
      forall t | 0 <= t < |s.threads| ensures !(s.threads[t].part == Some(i) && Unsaved(s.threads[t])) {
        assert Unsaved(s.threads[t]) ==> s'.threads[t].part == s.threads[t].part;
      }
    }
  }

  lemma CountStep(s: State, t: nat)
    requires Inv(s) && KeepUp(s) && Enabled(s, Count(t))
    ensures KeepUp(Apply(s, Count(t)))
  {
    hide Inv, Layout, Downloaded, Sum;
    Shaped(s);
    var s' := Apply(s, Count(t));
    LagUpdate(s.threads, t, s'.threads[t]);
    forall i | 0 <= i < |s'.parts| ensures RecordOk(s', i) {
      assert RecordOk(s, i);
      SameUnsaved(s, s', i);
    }
  }

  /** Nobody but its owner has anything unsaved of a part. */
  lemma OwnerOnly(s: State, t: nat, u: nat)
    requires Inv(s) && t < |s.threads| && s.threads[t].Owning() && u < |s.threads| && u != t
    ensures s.threads[t].part.Some? && s.threads[t].part.value < |s.parts|
    ensures s.threads[u].part == s.threads[t].part ==> !Unsaved(s.threads[u])
  {
    if s.threads[u].Owning() { OthersElsewhere(s, t, u); }
    hide Layout, Exclusive, PrefixOk, RecordsOk, Conserved, PhaseOk;
    Seen(s, t);
  }

  lemma StoreTotals(s: State, t: nat)
    requires Inv(s) && KeepUp(s) && t < |s.threads| && s.threads[t].pc.Storing?
    ensures var s' := DoStore(s, t);
            Downloaded(s.records) + Sum(LagList(s'.threads)) == Downloaded(s'.parts)
  {
    StoreEffect(s, t);
    hide Inv, Layout, Downloaded, Sum, DoStore, PhaseOk, RecordOk;
    Shaped(s);
    OwnSize(s, t);
    var th, k := s.threads[t], s.threads[t].part.value;
    LagUpdate(s.threads, t, th.(pc := Counting(th.pc.n), rest := th.rest - th.pc.n));
    GotUpdate(s.parts, k, s.parts[k].rest - th.pc.n);
  }

  lemma StoreStep(s: State, t: nat)
    requires Inv(s) && KeepUp(s) && Enabled(s, Store(t))
    ensures KeepUp(Apply(s, Store(t)))
  {
    StoreEffect(s, t);
    StoreTotals(s, t);
    hide Inv, Layout, Downloaded, Sum, DoStore, PhaseOk, RecordOk;
    Shaped(s);
    OwnSize(s, t);
    var s' := DoStore(s, t);
    forall i: nat | i < |s'.parts| ensures RecordOk(s', i) {
      StoredRecord(s, s', t, i);
    }
  }

  lemma OwnSize(s: State, t: nat)
    requires Inv(s) && t < |s.threads| && s.threads[t].Owning()
    ensures s.threads[t].part.Some? && s.threads[t].part.value < |s.parts|
    ensures s.parts[s.threads[t].part.value].rest <= s.parts[s.threads[t].part.value].size
  {
    hide Layout, Exclusive, RecordsOk, Conserved, PhaseOk;
    Seen(s, t);
  }

  lemma StoredRecord(s: State, s': State, t: nat, i: nat)
    requires Inv(s) && t < |s.threads| && s.threads[t].pc.Storing? && i < |s.parts| == |s.records| && RecordOk(s, i)
    requires s.threads[t].part.Some? && s.threads[t].part.value < |s.parts|
    requires var k, n := s.threads[t].part.value, s.threads[t].pc.n;
             && n <= s.parts[k].rest
             && var p' := s.parts[k].(rest := s.parts[k].rest - n);
             s' == s.(parts := s.parts[k := p']).With(t, s.threads[t].(pc := Counting(n), rest := p'.rest))
    ensures RecordOk(s', i)
  {
    hide Inv;
    forall u: nat | u < |s.threads| && u != t
      ensures s.threads[u].part == s.threads[t].part ==> !Unsaved(s.threads[u])
    {
      OwnerOnly(s, t, u);
    }
    assert s'.threads[t].part == s.threads[t].part && Unsaved(s'.threads[t]);
    assert forall u :: 0 <= u < |s.threads| && u != t ==> s'.threads[u] == s.threads[u];
  }

  lemma RecordStep(s: State, t: nat)
    requires Inv(s) && KeepUp(s) && Enabled(s, Record(t))
    ensures KeepUp(Apply(s, Record(t)))
  {
    hide Inv, Downloaded, Sum;
    Shaped(s);
    OwnSize(s, t);
    var s', k := Apply(s, Record(t)), s.threads[t].part.value;
    assert s.parts[k].id == k;
    assert s' == s.(records := s.records[k := s.parts[k]]).With(t, s.threads[t].(pc := Receiving));
    LagUpdate(s.threads, t, s'.threads[t]);
    assert RecordOk(s, k);
    assert s.records[k] == s.parts[k].(rest := s.parts[k].rest + s.threads[t].pc.n);
    RecordFits(s, k);
    hide Layout;
    GotUpdate(s.records, k, s.parts[k].rest);
    assert s.records[k].(rest := s.parts[k].rest) == s.parts[k];
    forall i: nat | i < |s'.parts| ensures RecordOk(s', i) {
      assert RecordOk(s, i);
      SavedRecord(s, s', t, i);
    }
  }

  lemma RecordFits(s: State, k: nat)
    requires Inv(s) && k < |s.parts|
    ensures k < |s.records| && s.parts[k].rest <= s.records[k].rest <= s.records[k].size
  {
    hide Layout, Exclusive, PrefixOk, Conserved, ThreadOk;
  }

  lemma SavedRecord(s: State, s': State, t: nat, i: nat)
    requires Inv(s) && t < |s.threads| && s.threads[t].pc.Recording? && i < |s.parts| == |s.records| && RecordOk(s, i)
    requires s.threads[t].part.Some? && s.threads[t].part.value < |s.parts|
    requires var k := s.threads[t].part.value;
             s' == s.(records := s.records[k := s.parts[k]]).With(t, s.threads[t].(pc := Receiving))
    ensures RecordOk(s', i)
  {
    hide Inv;
    forall u: nat | u < |s.threads| && u != t
      ensures s.threads[u].part == s.threads[t].part ==> !Unsaved(s.threads[u])
    {
      OwnerOnly(s, t, u);
    }
    assert !Unsaved(s'.threads[t]);
    assert forall u :: 0 <= u < |s.threads| && u != t ==> s'.threads[u] == s.threads[u];
  }

  lemma StepKeepsUp(s: State, a: Action)
    requires Inv(s) && KeepUp(s) && Enabled(s, a)
    ensures KeepUp(Apply(s, a))
  {
    hide Inv, KeepUp, Apply, Enabled;
    match a {
      case Store(t) => StoreStep(s, t);
      case Count(t) => CountStep(s, t);
      case Record(t) => RecordStep(s, t);
      case _ => OtherStep(s, a);
    }
  }

  /** In every reachable state the record of a part is that part, less what its owner has
      stored and is about to record. */
  lemma {:induction false} RecordsKeepUp(s: State, acts: seq<Action>)
    requires Inv(s) && KeepUp(s) && Run(s, acts)
    ensures Inv(After(s, acts)) && KeepUp(After(s, acts))
    decreases |acts|
  {
    hide Inv, KeepUp, Enabled, Apply;
    if acts != [] {
      StepInv(s, acts[0]);
      StepKeepsUp(s, acts[0]);
      RecordsKeepUp(Apply(s, acts[0]), acts[1..]);
    }
  }

  /** Every starting state, new or resumed, and whatever happens from there. */
  lemma FromStart(job: Job, records: seq<Part>, dest: seq<byte>, count: nat, acts: seq<Action>)
    requires job.Ok() && Layout(records, |job.src|) && |job.src| <= |dest| && PrefixOk(job.src, records, dest)
    requires Run(Resume(job, records, dest, count), acts)
    ensures Inv(After(Resume(job, records, dest, count), acts))
    ensures KeepUp(After(Resume(job, records, dest, count), acts))
  {
    hide Inv, KeepUp, Layout, PrefixOk, Resume, Run, After;
    ResumeInv(job, records, dest, count);
    StartKeepsUp(job, records, dest, count);
    RecordsKeepUp(Resume(job, records, dest, count), acts);
  }

  /** When every thread has returned, whatever connections were lost on the way, the record
      file shows exactly what the parts are. */
  lemma AllSavedAtEnd(job: Job, records: seq<Part>, dest: seq<byte>, count: nat, acts: seq<Action>)
    requires job.Ok() && Layout(records, |job.src|) && |job.src| <= |dest| && PrefixOk(job.src, records, dest)
    requires Run(Resume(job, records, dest, count), acts)
    requires AllReturned(After(Resume(job, records, dest, count), acts))
    ensures var s := After(Resume(job, records, dest, count), acts); s.records == s.parts
  {
    FromStart(job, records, dest, count, acts);
    var s := After(Resume(job, records, dest, count), acts);
    hide Inv, Layout, PrefixOk, Resume, Run, After, Downloaded, Sum;
    forall i | 0 <= i < |s.parts| ensures s.records[i] == s.parts[i] {
      assert RecordOk(s, i);
    }
  }

  /** Bytes a thread has added to totalProgress and not yet recorded. */
  function Unrecorded(th: Thread): nat { if th.pc.Recording? then th.pc.n else 0 }

  function UnrecordedList(threads: seq<Thread>): (xs: seq<nat>)
    ensures |xs| == |threads|
    ensures forall t :: 0 <= t < |threads| ==> xs[t] == Unrecorded(threads[t])
  {
    seq(|threads|, t requires 0 <= t < |threads| => Unrecorded(threads[t]))
  }

  lemma LagParts(threads: seq<Thread>)
    ensures Sum(LagList(threads)) == Sum(InFlightList(threads)) + Sum(UnrecordedList(threads))
  {
    SumTimes(LagList(threads), InFlightList(threads), UnrecordedList(threads), 1, 1);
  }

  /** What an interruption costs: a download resumed from the records of any reachable state
      starts with totalProgress as it was, less what was counted and about to be recorded; and
      each part lacks in it what it lacked before, and what its owner had stored and was about
      to record. */
  lemma CutCostsUnsaved(job: Job, records: seq<Part>, dest: seq<byte>, count: nat, acts: seq<Action>,
                        dest': seq<byte>, count': nat)
    requires job.Ok() && Layout(records, |job.src|) && |job.src| <= |dest| && PrefixOk(job.src, records, dest)
    requires Run(Resume(job, records, dest, count), acts)
    ensures var s := After(Resume(job, records, dest, count), acts);
            var r := Resume(job, s.records, dest', count');
            && r.progress == s.progress - Sum(UnrecordedList(s.threads))
            && |s.records| == |s.parts| && forall i :: 0 <= i < |s.parts| ==> RecordOk(s, i)
  {
    FromStart(job, records, dest, count, acts);
    var s := After(Resume(job, records, dest, count), acts);
    hide Inv, Layout, PrefixOk, Run, After, Downloaded, Sum, NewThreads;
    LagParts(s.threads);
    StillCounted(s);
  }

  lemma StillCounted(s: State)
    requires Inv(s)
    ensures s.progress + Sum(InFlightList(s.threads)) == Downloaded(s.parts)
  {
    hide ThreadOk, Layout, Exclusive, PrefixOk, RecordsOk;
  }
}
