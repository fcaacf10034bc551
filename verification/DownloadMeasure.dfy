/** A measure that falls on every step that gets a download forward. */
module DownloadMeasure {
  import opened Bytes
  import opened Options
  import opened Sums
  import opened Parts
  import opened Download
  import opened DownloadSafety
  import opened DownloadTheorems
  import opened DownloadProgress

  // Weights, for a list of n parts

  /** What an unowned unfinished part costs besides its bytes, and what a failed
      connection costs: one whole claim. */
  function ClaimCost(n: nat): nat { 2 * n + 14 }

  function FreeWeight(parts: seq<Part>, using: seq<bool>, i: nat): nat
    requires |using| == |parts| && i < |parts|
  {
    if parts[i].rest > 0 && !using[i] then ClaimCost(|parts|) + 7 * parts[i].rest else 0
  }

  /** Bytes still to come over a connection; one in flight counts less than one unsent. */
  function LinkWeight(l: Link, undelivered: int): int {
    if l.LiveLink? then
      6 * |l.down| + if l.server.Sending? then 7 * l.server.rest else 0
    else 7 * undelivered
  }

  function AwaitWeight(th: Thread): int {
    if th.link.LiveLink? && th.link.up == [] then LinkWeight(th.link, 0) - 6 * 13 + 2
    else 7 * th.rest + 3
  }

  ghost function ScanWeight(parts: seq<Part>, using: seq<bool>, start: nat, i: nat, finish: bool): int {
    var n := |parts|;
    if !Barren(parts, using, start, n) then n - i + 1
    else if !AllDone(parts, start, n) then 2 * n + 4
    else if finish then n - i + 1
    else (n - i + 1) + (n - start + 2)
  }

  ghost function PhaseWeight(parts: seq<Part>, using: seq<bool>, th: Thread): int {
    var n := |parts|;
    if th.pc.Returned? then 0
    else if th.pc.Scanning? then ScanWeight(parts, using, th.startPart, th.pc.i, th.pc.finish)
    else if th.pc.Waiting? then 2 * n + 5
    else if th.pc.Released? then 2 * n + 6
    else if th.part.None? || th.part.value >= n then 0
    else
      var p := parts[th.part.value];
      var link := LinkWeight(th.link, Undelivered(p, th));
      match th.pc
      case Releasing => 2 * n + 7 + if p.rest > 0 then ClaimCost(n) + 7 * p.rest else 0
      case Receiving => 2 * n + 8 + link
      case Recording(_) => 2 * n + 9 + link
      case Counting(_) => 2 * n + 10 + link
      case Storing(_) => 2 * n + 11 + link
      case Writing(_) => 2 * n + 12 + link
      case AwaitingReply => 2 * n + 8 + AwaitWeight(th)
      case Requesting => 2 * n + 12 + 7 * p.rest
      case _ => 2 * n + 13 + 7 * p.rest
  }

  ghost function Weight(parts: seq<Part>, using: seq<bool>, th: Thread): int {
    PhaseWeight(parts, using, th) + if th.link.DeadLink? then ClaimCost(|parts|) else 0
  }

  lemma WeightNonNegative(job: Job, parts: seq<Part>, using: seq<bool>, dest: seq<byte>, th: Thread)
    requires ThreadOk(job, parts, using, dest, th)
    ensures Weight(parts, using, th) >= 0
  {
    hide Agrees;
  }

  ghost function WeightOf(s: State, t: nat): (w: nat)
    requires Inv(s) && t < |s.threads|
    ensures w == Weight(s.parts, s.using, s.threads[t])
  {
    WeightNonNegative(s.job, s.parts, s.using, s.dest, s.threads[t]);
    Weight(s.parts, s.using, s.threads[t])
  }

  ghost function Weights(s: State): (xs: seq<nat>)
    requires Inv(s)
    ensures |xs| == |s.threads|
  {
    seq(|s.threads|, t requires 0 <= t < |s.threads| => WeightOf(s, t))
  }

  function FreeWeights(parts: seq<Part>, using: seq<bool>): (xs: seq<nat>)
    requires |using| == |parts|
    ensures |xs| == |parts|
    ensures forall i :: 0 <= i < |parts| ==> xs[i] == FreeWeight(parts, using, i)
  {
    seq(|parts|, i requires 0 <= i < |parts| => FreeWeight(parts, using, i))
  }

  ghost function Measure(s: State): nat
    requires Inv(s)
  {
    Sum(Weights(s)) + Sum(FreeWeights(s.parts, s.using))
  }

  // Which steps count

  /** A step of a pass that can find nothing while something is still missing. */
  ghost predicate Spins(s: State, a: Action) {
    (a.Scan? || a.EndPass?) && Failed(s, a.t) && !AllDone(s.parts, s.threads[a.t].startPart, |s.parts|)
  }

  /** Steps caused by a failing network: a lost connection, a send refused by a failed
      connection, a read that returns nothing. */
  predicate Faulty(a: Action) {
    a.Drop? || a.RequestFails? || (a.Receive? && a.n == 0)
  }

  ghost predicate Productive(s: State, a: Action) { !Faulty(a) && !Spins(s, a) }

  // The measure falls

  /** A scan in progress grows no heavier while owned parts fill up. */
  lemma ScanNoHeavier(parts: seq<Part>, parts': seq<Part>, using: seq<bool>, start: nat, i: nat, finish: bool)
    requires |parts'| == |parts| == |using| && start <= i <= |parts|
    requires forall k :: 0 <= k < |parts| ==>
               parts'[k].rest <= parts[k].rest && (parts'[k].rest == parts[k].rest || using[k])
    ensures ScanWeight(parts', using, start, i, finish) <= ScanWeight(parts, using, start, i, finish)
  {
  }

  /** Rests only fall, and only in owned parts. */
  lemma OnlyOwnedFill(s: State, a: Action)
    requires Inv(s) && Enabled(s, a)
    ensures |Apply(s, a).parts| == |s.parts|
    ensures forall k :: 0 <= k < |s.parts| ==>
              Apply(s, a).parts[k].rest <= s.parts[k].rest
              && (Apply(s, a).parts[k].rest == s.parts[k].rest || s.using[k])
  {
    hide Inv, Layout, PhaseOk, Apply;
    StepWritesOwnPart(s, a);
    Shaped(s);
    ApplyFrame(s, a);
    if a.Store? { Seen(s, a.t); }
  }

  /** While a thread scans it holds partsLock, and nobody else scans. */
  lemma ScanIsHeld(s: State, a: Action, u: nat)
    requires Inv(s) && Enabled(s, a) && u < |s.threads| && s.threads[u].pc.Scanning?
    ensures s.lock.Some? && s.lock.value == u && (a.Scan? || a.EndPass? ==> a.t == u)
  {
    hide ThreadOk, Exclusive, PrefixOk, RecordsOk, Conserved, Layout;
  }

  lemma ScannerNoHeavier(s: State, a: Action, u: nat)
    requires Inv(s) && Enabled(s, a) && u < |s.threads| && u != a.t && s.threads[u].pc.Scanning?
    ensures u < |Apply(s, a).threads|
    ensures Weight(Apply(s, a).parts, Apply(s, a).using, Apply(s, a).threads[u])
         <= Weight(s.parts, s.using, s.threads[u])
  {
    hide Inv, Apply, Enabled, PhaseOk, Layout, ScanWeight, Barren, AllDone;
    Shaped(s);
    Seen(s, u);
    ScanIsHeld(s, a, u);
    var th := s.threads[u];
    OthersKept(s, a, u);
    FlagsFrozen(s, a, u);
    OnlyOwnedFill(s, a);
    ScanNoHeavier(s.parts, Apply(s, a).parts, s.using, th.startPart, th.pc.i, th.pc.finish);
  }

  /** Other threads grow no heavier. */
  lemma OthersNoHeavier(s: State, a: Action, u: nat)
    requires Inv(s) && Enabled(s, a) && u < |s.threads| && u != a.t
    ensures u < |Apply(s, a).threads|
    ensures Weight(Apply(s, a).parts, Apply(s, a).using, Apply(s, a).threads[u])
         <= Weight(s.parts, s.using, s.threads[u])
  {
    hide Inv, Layout, Apply, Enabled, LinkWeight, ScanWeight, AwaitWeight;
    if s.threads[u].pc.Scanning? {
      ScannerNoHeavier(s, a, u);
    } else {
      OthersKept(s, a, u);
    }
  }

  /** Bookkeeping: thread t's weight and the free parts fall together, the others do not
      rise. */
  lemma MeasureBy(s: State, s': State, t: nat, free: int)
    requires Inv(s) && Inv(s') && |s'.threads| == |s.threads| && t < |s.threads|
    requires forall u :: 0 <= u < |s.threads| && u != t ==>
               Weight(s'.parts, s'.using, s'.threads[u]) <= Weight(s.parts, s.using, s.threads[u])
    requires Sum(FreeWeights(s'.parts, s'.using)) == Sum(FreeWeights(s.parts, s.using)) + free
    ensures Measure(s') <= Measure(s) + free
              + Weight(s'.parts, s'.using, s'.threads[t]) - Weight(s.parts, s.using, s.threads[t])
  {
    hide Inv, Weight;
    SumReplace(Weights(s), Weights(s'), t);
  }

  // The actor's own weight

  lemma LinkWeightSend(l: Link, src: seq<byte>, n: nat, undelivered: int)
    requires l.LiveLink? && l.server.Sending? && 1 <= n <= l.server.rest && l.server.pos + n <= |src|
    ensures LinkWeight(Transmit(l, src, n), undelivered) == LinkWeight(l, undelivered) - n
  {
  }

  /** Steps of an owning thread that leave its connection's contents alone. */
  lemma InnerFalls(job: Job, parts: seq<Part>, using: seq<bool>, dest: seq<byte>, th: Thread)
    requires ThreadOk(job, parts, using, dest, th)
    ensures th.pc.Connecting? ==> Weight(parts, using, DoConnect(th)) < Weight(parts, using, th)
    ensures th.pc.Receiving? && th.rest == 0 ==>
              Weight(parts, using, th.(pc := Releasing)) < Weight(parts, using, th)
    ensures th.pc.Writing? ==>
              Weight(parts, using, th.(pc := Storing(|th.pc.data|), pos := th.pos + |th.pc.data|))
              < Weight(parts, using, th)
    ensures th.pc.Counting? ==> Weight(parts, using, th.(pc := Recording(th.pc.n))) < Weight(parts, using, th)
    ensures th.pc.Recording? ==> Weight(parts, using, th.(pc := Receiving)) < Weight(parts, using, th)
  {
    hide Agrees, AwaitOk, RequestFrame, ReplyFrame, ScanWeight, Barren, AllDone;
  }

  lemma RequestFalls(p: Part, parts: seq<Part>, using: seq<bool>, job: Job, dest: seq<byte>, th: Thread)
    requires ThreadOk(job, parts, using, dest, th) && th.pc.Requesting? && p == parts[th.part.value]
    ensures Weight(parts, using, DoRequest(job, p, th)) < Weight(parts, using, th)
  {
    assert th.link.LiveLink? ==> |Submit(th.link, RequestFrame(job, Cursor(p, p.rest), p.rest)).up| > 0;
  }

  lemma ReceiveFalls(parts: seq<Part>, using: seq<bool>, job: Job, dest: seq<byte>, th: Thread, n: nat)
    requires ThreadOk(job, parts, using, dest, th) && th.pc.Receiving? && n > 0
    requires th.link.LiveLink? && n <= |th.link.down|
    ensures Weight(parts, using, DoReceive(th, n)) < Weight(parts, using, th)
  {
    hide PhaseOk;
  }

  lemma HangUpFalls(parts: seq<Part>, using: seq<bool>, job: Job, dest: seq<byte>, th: Thread)
    requires ThreadOk(job, parts, using, dest, th) && th.pc.Receiving? && th.link.DeadLink?
    ensures Weight(parts, using, th.(pc := Releasing, link := NoLink)) < Weight(parts, using, th)
  {
  }

  lemma ServeFalls(s: State, t: nat)
    requires Inv(s) && Enabled(s, Serve(t))
    ensures Weight(s.parts, s.using, s.threads[t].(link := React(s.threads[t].link, s.job)))
          < Weight(s.parts, s.using, s.threads[t])
  {
    hide Inv, Layout, React, HasRequest, Cursor, ReplyFrame;
    RequestIsBytes(s.threads[t].link);
    RequestAnswered(s, t);
  }

  lemma SendFalls(s: State, t: nat, n: nat)
    requires Inv(s) && Enabled(s, Send(t, n))
    ensures Weight(s.parts, s.using, s.threads[t].(link := Transmit(s.threads[t].link, s.job.src, n)))
          < Weight(s.parts, s.using, s.threads[t])
  {
    hide Inv, Layout, LinkWeight, RequestFrame, ReplyFrame, Agrees;
    var th := s.threads[t];
    Seen(s, t);
    LinkWeightSend(th.link, s.job.src, n, 0);
    if th.part.Some? && th.part.value < |s.parts| {
      LinkWeightSend(th.link, s.job.src, n, Undelivered(s.parts[th.part.value], th));
    }
  }

  lemma ReplyFalls(s: State, t: nat)
    requires Inv(s) && Enabled(s, Reply(t))
    ensures Weight(s.parts, s.using, DoReply(s.parts[s.threads[t].part.value], s.threads[t]))
          < Weight(s.parts, s.using, s.threads[t])
  {
    hide Inv, Layout, HasReply, RequestFrame, ReplyFrame, Agrees;
    var th := s.threads[t];
    Seen(s, t);
    if th.link.LiveLink? {
      var p := s.parts[th.part.value];
      ReplyIsBytes(th.link);
      assert Replied(th.link, s.job, p.End() - p.rest, p.rest);
      ReplyLink(th.link, s.job, p.End() - p.rest, p.rest);
    }
  }

  lemma StoreFalls(s: State, t: nat)
    requires Inv(s) && t < |s.threads| && s.threads[t].pc.Storing?
    ensures FreeWeights(DoStore(s, t).parts, s.using) == FreeWeights(s.parts, s.using)
    ensures Weight(DoStore(s, t).parts, s.using, DoStore(s, t).threads[t])
          < Weight(s.parts, s.using, s.threads[t])
  {
    assert ThreadOk(s.job, s.parts, s.using, s.dest, s.threads[t]);
    StoreEffect(s, t);
    hide Inv, Layout, DoStore, PhaseOk, Agrees;
  }

  /** Looking at one more part in a pass that can still end well. */
  lemma ScanFalls(s: State, t: nat)
    requires Inv(s) && Enabled(s, Scan(t)) && !Spins(s, Scan(t))
    requires s.parts[s.threads[t].pc.i].rest == 0 || s.using[s.threads[t].pc.i]
    ensures var th := s.threads[t];
            Weight(s.parts, s.using, th.(pc := Scanning(th.pc.i + 1, th.pc.finish && s.parts[th.pc.i].rest == 0)))
            < Weight(s.parts, s.using, th)
  {
    assert ThreadOk(s.job, s.parts, s.using, s.dest, s.threads[t]);
    hide Layout, Exclusive, PrefixOk, RecordsOk, Conserved, PhaseOk, LinkWeight;
  }

  lemma EndPassFalls(s: State, t: nat)
    requires Inv(s) && Enabled(s, EndPass(t)) && !Spins(s, EndPass(t))
    ensures Weight(s.parts, s.using, DoEndPass(s, t).threads[t]) < Weight(s.parts, s.using, s.threads[t])
  {
    FailedAtEnd(s, t);
    assert ThreadOk(s.job, s.parts, s.using, s.dest, s.threads[t]);
    hide Layout, Exclusive, PrefixOk, RecordsOk, Conserved, PhaseOk, LinkWeight;
  }

  lemma AcquireFalls(s: State, t: nat)
    requires Inv(s) && t < |s.threads| && s.threads[t].pc.Waiting?
    ensures Weight(s.parts, s.using, DoAcquire(s, t).threads[t]) < Weight(s.parts, s.using, s.threads[t])
  {
    assert ThreadOk(s.job, s.parts, s.using, s.dest, s.threads[t]);
    hide Layout, Exclusive, PrefixOk, RecordsOk, Conserved, PhaseOk, LinkWeight;
  }

  lemma AdvanceFalls(s: State, t: nat)
    requires Inv(s) && t < |s.threads| && s.threads[t].pc.Released?
    ensures Weight(s.parts, s.using, DoAdvance(s, t).threads[t]) < Weight(s.parts, s.using, s.threads[t])
  {
    hide Layout, LinkWeight;
  }

  /** Claiming takes a part off the free list and pays for the whole download of it. */
  lemma ClaimFalls(s: State, t: nat, i: nat)
    requires Inv(s) && t < |s.threads| && s.threads[t].pc.Scanning? && s.threads[t].pc.i == i < |s.parts|
    requires s.parts[i].rest > 0 && !s.using[i]
    ensures var using := s.using[i := true];
            var th := s.threads[t].(pc := Connecting, part := Some(i));
            Sum(FreeWeights(s.parts, using)) + Weight(s.parts, using, th)
            < Sum(FreeWeights(s.parts, s.using)) + Weight(s.parts, s.using, s.threads[t])
  {
    assert ThreadOk(s.job, s.parts, s.using, s.dest, s.threads[t]);
    FreeUpdate(s.parts, s.using, i, true);
    hide Sum, FreeWeights, Layout, Exclusive, PrefixOk, RecordsOk, Conserved, PhaseOk, LinkWeight;
  }

  lemma FreeUpdate(parts: seq<Part>, using: seq<bool>, i: nat, b: bool)
    requires |using| == |parts| && i < |parts|
    ensures Sum(FreeWeights(parts, using[i := b]))
         == Sum(FreeWeights(parts, using)) - FreeWeight(parts, using, i) + FreeWeight(parts, using[i := b], i)
  {
    assert FreeWeights(parts, using[i := b]) == FreeWeights(parts, using)[i := FreeWeight(parts, using[i := b], i)];
    SumUpdate(FreeWeights(parts, using), i, FreeWeight(parts, using[i := b], i));
  }

  /** Giving an unfinished part back returns it to the free list, as already paid for. */
  lemma ReleaseFalls(s: State, t: nat)
    requires Inv(s) && t < |s.threads| && s.threads[t].pc.Releasing?
    ensures var s' := DoRelease(s, t);
            Sum(FreeWeights(s.parts, s'.using)) + Weight(s.parts, s'.using, s'.threads[t])
            < Sum(FreeWeights(s.parts, s.using)) + Weight(s.parts, s.using, s.threads[t])
  {
    hide Inv, LinkWeight, FreeWeights, Sum, LinkIdle, Agrees, Carries, AwaitOk;
    Shaped(s);
    Seen(s, t);
    var i := s.threads[t].part.value;
    assert s.parts[i].id == i;
    FreeUpdate(s.parts, s.using, i, false);
  }

  ghost predicate ActorLighter(s: State, s': State, t: nat)
    requires t < |s.threads| && |s.using| == |s.parts|
  {
    && t < |s'.threads| && |s'.using| == |s'.parts|
    && Sum(FreeWeights(s'.parts, s'.using)) + Weight(s'.parts, s'.using, s'.threads[t])
       < Sum(FreeWeights(s.parts, s.using)) + Weight(s.parts, s.using, s.threads[t])
  }

  lemma OwnerFalls(s: State, a: Action)
    requires Inv(s) && Enabled(s, a) && Productive(s, a)
    requires s.threads[a.t].Owning() && !a.Store? && !a.Release?
    ensures a.t < |Apply(s, a).threads|
    ensures Weight(s.parts, s.using, Apply(s, a).threads[a.t]) < Weight(s.parts, s.using, s.threads[a.t])
  {
    hide Inv, Layout, Weight, PhaseOk, DoReply, DoRequest, DoReceive, React, HasRequest, HasReply, DoScan,
      Transmit, Splice, Spins;
    var t, th := a.t, s.threads[a.t];
    Seen(s, t);
    match a {
      case Serve(_) => ServeFalls(s, t);
      case Send(_, n) => SendFalls(s, t, n);
      case Reply(_) => ReplyFalls(s, t);
      case Request(_) => RequestFalls(s.parts[th.part.value], s.parts, s.using, s.job, s.dest, th);
      case Receive(_, n) => ReceiveFalls(s.parts, s.using, s.job, s.dest, th, n);
      case HangUp(_) => HangUpFalls(s.parts, s.using, s.job, s.dest, th);
      case _ => InnerFalls(s.job, s.parts, s.using, s.dest, th);
    }
  }

  lemma ReleaseLighter(s: State, t: nat)
    requires Inv(s) && t < |s.threads| && s.threads[t].pc.Releasing?
    ensures ActorLighter(s, DoRelease(s, t), t)
  {
    hide Sum, FreeWeights, Weight, ThreadOk, Inv;
    Shaped(s);
    Seen(s, t);
    assert s.parts[s.threads[t].part.value].id < |s.using|;
    ReleaseFalls(s, t);
  }

  lemma LockFalls(s: State, a: Action)
    requires Inv(s) && Enabled(s, a) && Productive(s, a)
    requires a.Acquire? || a.Scan? || a.EndPass? || a.Store? || a.Release? || a.Advance?
    ensures ActorLighter(s, Apply(s, a), a.t)
  {
    hide Sum, FreeWeights, Layout, Weight, ThreadOk, Spins, DoScan;
    var t, th := a.t, s.threads[a.t];
    match a {
      case Acquire(_) => AcquireFalls(s, t);
      case Scan(_) =>
        ScanEffect(s, t);
        if s.parts[th.pc.i].rest == 0 || s.using[th.pc.i] { ScanFalls(s, t); } else { ClaimFalls(s, t, th.pc.i); }
      case EndPass(_) => EndPassFalls(s, t);
      case Store(_) => StoreFalls(s, t);
      case Release(_) => ReleaseLighter(s, t);
      case Advance(_) => AdvanceFalls(s, t);
    }
  }

  /** Only owning threads use their connections. */
  lemma TrafficIsOwned(s: State, a: Action)
    requires Inv(s) && Enabled(s, a) && (a.Serve? || a.Send?)
    ensures s.threads[a.t].Owning()
  {
    assert ThreadOk(s.job, s.parts, s.using, s.dest, s.threads[a.t]);
    if a.Serve? { RequestAnswered(s, a.t); }
  }

  lemma ActorFalls(s: State, a: Action)
    requires Inv(s) && Enabled(s, a) && Productive(s, a)
    ensures a.t < |s.threads| && ActorLighter(s, Apply(s, a), a.t)
  {
    if a.Acquire? || a.Scan? || a.EndPass? || a.Store? || a.Release? || a.Advance? {
      LockFalls(s, a);
    } else {
      if a.Serve? || a.Send? { TrafficIsOwned(s, a); }
      OwnerFalls(s, a);
    }
  }

  /** The measure falls on every step that is neither a fault nor a turn of a spin. */
  lemma MeasureFalls(s: State, a: Action)
    requires Inv(s) && Enabled(s, a) && Productive(s, a)
    ensures Inv(Apply(s, a)) && Measure(Apply(s, a)) < Measure(s)
  {
    hide Inv, Layout, Apply, Enabled, Weight, Spins, FreeWeights;
    Shaped(s);
    StepInv(s, a);
    ApplyFrame(s, a);
    ActorFalls(s, a);
    var s' := Apply(s, a);
    forall u | 0 <= u < |s.threads| && u != a.t
      ensures Weight(s'.parts, s'.using, s'.threads[u]) <= Weight(s.parts, s.using, s.threads[u])
    {
      OthersNoHeavier(s, a, u);
    }
    MeasureBy(s, s', a.t, Sum(FreeWeights(s'.parts, s'.using)) - Sum(FreeWeights(s.parts, s.using)));
  }

  /** A turn of a spin costs nothing. */
  lemma SpinIsFree(s: State, a: Action)
    requires Inv(s) && Enabled(s, a) && Spins(s, a)
    ensures Inv(Apply(s, a)) && Measure(Apply(s, a)) <= Measure(s)
  {
    hide Inv, Weight, Apply, Enabled, Spins, FreeWeights;
    var t := a.t;
    Shaped(s);
    StepInv(s, a);
    ApplyFrame(s, a);
    SpinInPlace(s, a);
    forall u | 0 <= u < |s.threads| && u != t
      ensures Weight(s.parts, s.using, Apply(s, a).threads[u]) <= Weight(s.parts, s.using, s.threads[u])
    {
    }
    MeasureBy(s, Apply(s, a), t, 0);
  }

  lemma SpinInPlace(s: State, a: Action)
    requires Inv(s) && Enabled(s, a) && Spins(s, a)
    ensures Apply(s, a).parts == s.parts && Apply(s, a).using == s.using
    ensures a.t < |Apply(s, a).threads|
    ensures Weight(s.parts, s.using, Apply(s, a).threads[a.t]) == Weight(s.parts, s.using, s.threads[a.t])
  {
    hide Inv, Layout, PhaseOk, LinkWeight, DoScan, AwaitWeight;
    Seen(s, a.t);
    if a.Scan? { ScanEffect(s, a.t); }
    assert !(s.threads[a.t].pc.finish && a.EndPass?);
  }

  // Whole runs

  /** How many steps of a run were productive. */
  ghost function Progressing(s: State, acts: seq<Action>): nat
    requires Run(s, acts)
    decreases |acts|
  {
    if acts == [] then 0
    else (if Productive(s, acts[0]) then 1 else 0) + Progressing(Apply(s, acts[0]), acts[1..])
  }

  predicate FaultFree(acts: seq<Action>) {
    forall i :: 0 <= i < |acts| ==> !Faulty(acts[i])
  }

  /** However threads, servers and network interleave, a fault-free run makes at most
      Measure(s) productive steps; all its other steps are turns of a spin. */
  lemma {:induction false} BoundedProgress(s: State, acts: seq<Action>)
    requires Inv(s) && Run(s, acts) && FaultFree(acts)
    ensures Inv(After(s, acts))
    ensures Progressing(s, acts) + Measure(After(s, acts)) <= Measure(s)
    decreases |acts|
  {
    RunInv(s, acts);
    if acts != [] {
      var a := acts[0];
      if Productive(s, a) { MeasureFalls(s, a); } else { SpinIsFree(s, a); }
      hide Inv, Enabled, Apply, Productive, Measure;
      BoundedProgress(Apply(s, a), acts[1..]);
    }
  }

  /** What a download costs at its start: a look and a return for each thread, a claim for each
      unfinished part, and seven steps at most for each missing byte. */
  function StartCost(records: seq<Part>, count: nat): nat {
    var n := |records|;
    count * (2 * n + 5) + Unfinished(records) * ClaimCost(n) + 7 * Sum(RestList(records))
  }

  lemma StartWeights(job: Job, records: seq<Part>, dest: seq<byte>, count: nat)
    requires Inv(Resume(job, records, dest, count))
    ensures Measure(Resume(job, records, dest, count)) == StartCost(records, count)
  {
    hide Inv, Sum, Downloaded;
    var s, n := Resume(job, records, dest, count), |records|;
    forall t | 0 <= t < count ensures Weights(s)[t] == 2 * n + 5 {
      assert s.threads[t] == NewThread(StartPart(t, n, count));
    }
    SumConstant(Weights(s), 2 * n + 5);
    SumTimes(FreeWeights(records, s.using), UnfinishedList(records), RestList(records), ClaimCost(n), 7);
  }

  /** A fault-free run of a resumed download makes no more productive steps than its records
      leave to do. */
  lemma ResumedProgress(job: Job, records: seq<Part>, dest: seq<byte>, count: nat, acts: seq<Action>)
    requires job.Ok() && Layout(records, |job.src|) && |job.src| <= |dest| && PrefixOk(job.src, records, dest)
    requires Run(Resume(job, records, dest, count), acts) && FaultFree(acts)
    ensures Progressing(Resume(job, records, dest, count), acts) <= StartCost(records, count)
  {
    hide Inv, Layout, PrefixOk, Run, Progressing, Measure, NewThreads, StartCost, FaultFree, After;
    ResumeInv(job, records, dest, count);
    StartWeights(job, records, dest, count);
    BoundedProgress(Resume(job, records, dest, count), acts);
  }

  lemma FreshRest(total: nat)
    requires total <= MAX_SIZE
    ensures var ps := Partition(total);
            |ps| == PartCount(total) && Unfinished(ps) == |ps| && Sum(RestList(ps)) == total
  {
    var ps := Partition(total);
    PartitionIsLayout(total);
    SumZero(GotList(ps));
    SumConstant(UnfinishedList(ps), 1);
    hide Partition, PartCount, Layout, Sum;
    GotPlusRest(ps, total);
  }

  lemma FreshCost(total: nat, count: nat)
    requires total <= MAX_SIZE
    ensures var n := PartCount(total);
            StartCost(Partition(total), count) == count * (2 * n + 5) + n * (2 * n + 14) + 7 * total
  {
    hide Partition, PartCount, Sum, RestList, Unfinished;
    FreshRest(total);
  }

  /** The bound for a new download, in its size, its number of parts and of threads. */
  lemma FreshProgress(job: Job, dest: seq<byte>, count: nat, acts: seq<Action>)
    requires job.Ok() && Run(Fresh(job, dest, count), acts) && FaultFree(acts)
    ensures var n := PartCount(|job.src|);
            Progressing(Fresh(job, dest, count), acts) <= count * (2 * n + 5) + n * (2 * n + 14) + 7 * |job.src|
  {
    hide Inv, Partition, Allocate, Run, Progressing, FaultFree, StartCost, Resume, Fresh, PartCount, After, Measure;
    FreshInv(job, dest, count);
    FreshCost(|job.src|, count);
    StartWeights(job, Partition(|job.src|), Allocate(dest, |job.src|), count);
    BoundedProgress(Fresh(job, dest, count), acts);
  }
}
