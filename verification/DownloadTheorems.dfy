/** Starting states, and what the safety invariant means for whole runs. */
module DownloadTheorems {
  import opened Bytes
  import opened Options
  import opened Sums
  import opened Parts
  import opened Download
  import opened DownloadSafety

  // Starting states

  lemma NewThreadsOk(job: Job, parts: seq<Part>, dest: seq<byte>, count: nat)
    ensures var using := seq(|parts|, _ => false);
            var threads := NewThreads(|parts|, count);
            && (forall t :: 0 <= t < count ==> ThreadOk(job, parts, using, dest, threads[t]))
            && Exclusive(using, threads) && LockOk(None, threads)
            && Sum(InFlightList(threads)) == 0
  {
    forall t | 0 <= t < count
      ensures ThreadOk(job, parts, seq(|parts|, _ => false), dest, NewThreads(|parts|, count)[t])
    {
      StartInRange(t, |parts|, count);
    }
    SumZero(InFlightList(NewThreads(|parts|, count)));
  }

  /** A resumed download starts in the invariant whenever the records describe this file
      and claim no byte the destination does not have; the resume loop's totalProgress is
      then exactly what the parts have. */
  lemma ResumeInv(job: Job, records: seq<Part>, dest: seq<byte>, count: nat)
    requires job.Ok() && Layout(records, |job.src|) && |job.src| <= |dest|
    requires PrefixOk(job.src, records, dest)
    ensures Inv(Resume(job, records, dest, count))
  {
    NewThreadsOk(job, records, dest, count);
    hide ThreadOk, Exclusive, LockOk;
  }

  /** A new download starts in the invariant, whatever was in the destination before. */
  lemma FreshInv(job: Job, dest: seq<byte>, count: nat)
    requires job.Ok()
    ensures Fresh(job, dest, count) == Resume(job, Partition(|job.src|), Allocate(dest, |job.src|), count)
    ensures Inv(Fresh(job, dest, count))
  {
    var ps := Partition(|job.src|);
    PartitionIsLayout(|job.src|);
    SumZero(GotList(ps));
    ResumeInv(job, ps, Allocate(dest, |job.src|), count);
  }

  // Written-prefix safety

  /** No step makes a part's rest grow; the only bytes of the destination a step changes
      are missing bytes of the part its thread owns, and they become the source's. */
  lemma StepWritesOwnPart(s: State, a: Action)
    requires Inv(s) && Enabled(s, a)
    ensures var s' := Apply(s, a);
            && s'.job == s.job && |s'.parts| == |s.parts| && |s'.threads| == |s.threads| && |s'.dest| == |s.dest|
            && (forall i :: 0 <= i < |s.parts| ==>
                  s'.parts[i].rest <= s.parts[i].rest && s'.parts[i].(rest := s.parts[i].rest) == s.parts[i])
            && forall k :: 0 <= k < |s.dest| && s'.dest[k] != s.dest[k] ==>
                 && k < |s.job.src| && s'.dest[k] == s.job.src[k]
                 && s.threads[a.t].Owning()
                 && var p := s.parts[s.threads[a.t].part.value]; p.End() - p.rest <= k < p.End()
  {
    hide Inv, Layout, DoScan, DoStore, DoReply, DoRequest, DoReceive, React, HasReply, HasRequest, Transmit;
    Shaped(s);
    if a.Write? {
      WriteInPlace(s, a.t);
    } else {
      hide DoWrite, Apply, Enabled;
      ApplyFrame(s, a);
      if a.Store? { StoreEffect(s, a.t); }
    }
  }

  /** Written-prefix safety over whole runs, lost connections included: every downloaded
      byte stays the source's, rests never grow, and nothing past the source is touched. */
  lemma {:induction false} RunKeepsBytes(s: State, acts: seq<Action>)
    requires Inv(s) && Run(s, acts)
    ensures var s' := After(s, acts);
            && s'.job == s.job && |s'.parts| == |s.parts| && |s'.threads| == |s.threads| && |s'.dest| == |s.dest|
            && (forall i :: 0 <= i < |s.parts| ==>
                  s'.parts[i].rest <= s.parts[i].rest && s'.parts[i].(rest := s.parts[i].rest) == s.parts[i])
            && (forall i, k :: 0 <= i < |s.parts| && s.parts[i].offset <= k < s.parts[i].End() - s'.parts[i].rest ==>
                  s'.dest[k] == s.job.src[k])
            && forall k :: |s.job.src| <= k < |s.dest| ==> s'.dest[k] == s.dest[k]
    decreases |acts|
  {
    RunInv(s, acts);
    if acts == [] {
      assert forall i :: 0 <= i < |s.parts| ==>
        Agrees(s.dest, s.job.src, s.parts[i].offset, s.parts[i].End() - s.parts[i].rest);
    } else {
      StepInv(s, acts[0]);
      StepWritesOwnPart(s, acts[0]);
      hide Inv, Enabled, Apply;
      RunKeepsBytes(Apply(s, acts[0]), acts[1..]);
    }
  }

  // Part exclusion

  /** usingOffsets[i] is set exactly when some thread is between claiming and releasing
      part i, and then that thread is the only one; partsLock has at most one holder. */
  lemma PartExclusion(s: State, acts: seq<Action>, i: nat)
    requires Inv(s) && Run(s, acts) && i < |s.parts|
    ensures var s' := After(s, acts);
            && |s'.using| == |s.parts|
            && (s'.using[i] <==> exists t :: 0 <= t < |s'.threads| && s'.threads[t].Owns(i))
            && (forall t, u | 0 <= t < |s'.threads| && 0 <= u < |s'.threads| ::
                  s'.threads[t].Owns(i) && s'.threads[u].Owns(i) ==> t == u)
            && forall t, u | 0 <= t < |s'.threads| && 0 <= u < |s'.threads| ::
                 s'.threads[t].pc.Scanning? && s'.threads[u].pc.Scanning? ==> t == u
  {
    RunInv(s, acts);
    RunKeepsBytes(s, acts);
  }

  // Conservation

  function RestList(ps: seq<Part>): (xs: seq<nat>)
    ensures |xs| == |ps|
    ensures forall i :: 0 <= i < |ps| ==> xs[i] == ps[i].rest
  {
    seq(|ps|, i requires 0 <= i < |ps| => ps[i].rest)
  }

  function UnfinishedList(ps: seq<Part>): (xs: seq<nat>)
    ensures |xs| == |ps|
    ensures forall i :: 0 <= i < |ps| ==> xs[i] == if ps[i].rest > 0 then 1 else 0
  {
    seq(|ps|, i requires 0 <= i < |ps| => if ps[i].rest > 0 then 1 else 0)
  }

  /** How many parts miss something. */
  function Unfinished(ps: seq<Part>): nat { Sum(UnfinishedList(ps)) }

  lemma {:induction false} SuffixTotal(ps: seq<Part>, total: nat, k: nat)
    requires Layout(ps, total) && k <= |ps|
    ensures Sum(GotList(ps)[k..]) + Sum(RestList(ps)[k..]) == total - Min(k * PART_SIZE, total)
    decreases |ps| - k
  {
    if k < |ps| {
      SuffixTotal(ps, total, k + 1);
      assert GotList(ps)[k..][1..] == GotList(ps)[k + 1..];
      assert RestList(ps)[k..][1..] == RestList(ps)[k + 1..];
    }
  }

  /** What the parts have and what they miss add up to the whole file. */
  lemma GotPlusRest(ps: seq<Part>, total: nat)
    requires Layout(ps, total)
    ensures Downloaded(ps) + Sum(RestList(ps)) == total
  {
    SuffixTotal(ps, total, 0);
    assert GotList(ps)[0..] == GotList(ps) && RestList(ps)[0..] == RestList(ps);
  }

  /** Conservation in every reachable state: totalProgress plus the bytes in flight between
      storing a rest and adding to the counter is the file size less everything still
      missing; so it never exceeds the size, and equals it when nothing is missing. */
  lemma ProgressConserved(s: State, acts: seq<Action>)
    requires Inv(s) && Run(s, acts)
    ensures var s' := After(s, acts);
            && s'.progress + Sum(InFlightList(s'.threads)) + Sum(RestList(s'.parts)) == |s.job.src|
            && s'.progress <= |s.job.src|
            && (AllReturned(s') && AllDone(s'.parts, 0, |s'.parts|) ==> s'.progress == |s.job.src|)
  {
    var s' := After(s, acts);
    RunInv(s, acts);
    RunKeepsBytes(s, acts);
    GotPlusRest(s'.parts, |s.job.src|);
    if AllReturned(s') && AllDone(s'.parts, 0, |s'.parts|) {
      SumZero(InFlightList(s'.threads));
      SumZero(RestList(s'.parts));
    }
  }

  /** When nothing is missing the destination is the source, followed by whatever the
      destination held past the source's length. */
  lemma WholeWhenDone(s: State)
    requires Inv(s) && AllDone(s.parts, 0, |s.parts|)
    ensures s.dest[..|s.job.src|] == s.job.src
  {
    WholeByParts(s.job.src, s.parts, s.dest);
  }

  lemma WholeByParts(src: seq<byte>, parts: seq<Part>, dest: seq<byte>)
    requires Layout(parts, |src|) && PrefixOk(src, parts, dest) && |src| <= |dest|
    requires AllDone(parts, 0, |parts|)
    ensures dest[..|src|] == src
  {
    forall k | 0 <= k < |src|
      ensures dest[k] == src[k]
    {
      var i := ByteInOnePart(parts, |src|, k);
      assert Agrees(dest, src, parts[i].offset, parts[i].End() - parts[i].rest);
    }
  }

  // Requests

  /** The request waiting at the server asks for a nonempty slice of an owned part, is
      accepted, and the server goes on to send exactly that slice. */
  ghost predicate Answered(s: State, t: nat)
    requires t < |s.threads| && HasRequest(s.threads[t].link)
  {
    var th := s.threads[t];
    && th.pc.AwaitingReply? && 0 < th.rest && th.part.Some? && th.part.value < |s.parts|
    && var p := s.parts[th.part.value];
    && th.rest == p.rest && Cursor(p, p.rest) == p.End() - p.rest
    && React(th.link, s.job) == LiveLink([], ReplyFrame(p.rest), Sending(Cursor(p, p.rest), p.rest))
  }

  lemma RequestOwner(s: State, t: nat)
    requires Inv(s) && t < |s.threads| && HasRequest(s.threads[t].link)
    ensures var th := s.threads[t];
            && th.Owning() && th.part.Some? && th.part.value < |s.parts|
            && PhaseOk(s.job, s.parts[th.part.value], s.dest, th)
  {
    hide HasRequest, PhaseOk, Layout, Exclusive, LockOk, PrefixOk, RecordsOk, Conserved;
    RequestIsBytes(s.threads[t].link);
    assert ThreadOk(s.job, s.parts, s.using, s.dest, s.threads[t]);
  }

  lemma RequestAnswered(s: State, t: nat)
    requires Inv(s) && t < |s.threads| && HasRequest(s.threads[t].link)
    ensures Answered(s, t)
  {
    hide HasRequest, React, Layout, Exclusive, LockOk, PrefixOk, RecordsOk, Conserved, ThreadsOk, Carries;
    var th := s.threads[t];
    RequestOwner(s, t);
    PhaseServe(s.job, s.parts[th.part.value], s.dest, th);
  }

  /** A reply that reaches a client carries the requested size, so the mismatch branch is
      never taken. */
  lemma ReplyMatches(s: State, t: nat)
    requires Inv(s) && Enabled(s, Reply(t)) && s.threads[t].link.LiveLink?
    ensures Apply(s, Reply(t)).threads[t].pc.Receiving?
  {
    var th := s.threads[t];
    assert ThreadOk(s.job, s.parts, s.using, s.dest, th);
    PhaseReply(s.job, s.parts[th.part.value], s.dest, th);
  }

  /** If a reply can be taken off a working connection, the client goes on to receive. */
  ghost predicate Matched(s: State, t: nat)
    requires Shape(s) && t < |s.threads|
  {
    Enabled(s, Reply(t)) && s.threads[t].link.LiveLink? ==> Apply(s, Reply(t)).threads[t].pc.Receiving?
  }

  /** Every request of every run is accepted and echoed. */
  lemma RequestsAccepted(s: State, acts: seq<Action>, t: nat)
    requires Inv(s) && Run(s, acts) && t < |After(s, acts).threads|
    ensures var s' := After(s, acts);
            && Shape(s')
            && (HasRequest(s'.threads[t].link) ==> Answered(s', t))
            && Matched(s', t)
  {
    hide Inv, Layout, Run, After, React, HasRequest, HasReply, Apply, Enabled, Answered;
    RunInv(s, acts);
    var s' := After(s, acts);
    Shaped(s');
    if HasRequest(s'.threads[t].link) {
      RequestAnswered(s', t);
    }
    if Enabled(s', Reply(t)) && s'.threads[t].link.LiveLink? {
      ReplyMatches(s', t);
    }
  }
}
