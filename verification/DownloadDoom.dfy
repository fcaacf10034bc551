/** Hopeless states of a download: what each thread can still get to, which states can
    therefore never end, and why no step leads out of them. */
module DownloadDoom {
  import opened Options
  import opened Parts
  import opened Download
  import opened DownloadSafety
  import opened DownloadTheorems
  import opened DownloadProgress
  import opened DownloadMeasure

  // What a thread can still get to

  /** Where a thread looks for a part once it has none, among n parts. */
  function LooksFrom(th: Thread, n: nat): nat {
    if th.HasPart() && th.part.Some? && n > 0 then (th.part.value + 1) % n else th.startPart
  }

  lemma LooksBehind(th: Thread, i: nat, n: nat)
    requires th.HasPart() && th.part == Some(i) && i < n
    ensures LooksFrom(th, n) == if i + 1 < n then i + 1 else 0
  {
    NextStart(i, n);
  }

  /** Bytes of part k are missing that nobody has received yet. */
  ghost predicate Lacking(s: State, k: nat) {
    && k < |s.parts| && s.parts[k].rest > 0
    && forall v :: 0 <= v < |s.threads| && s.threads[v].Owns(k) ==> Undelivered(s.parts[k], s.threads[v]) > 0
  }

  ghost predicate LacksBetween(s: State, from: nat, to: nat) {
    exists j: nat :: from <= j < to && Lacking(s, j)
  }

  /** Thread t is downloading its part, with bytes of it still to come. */
  ghost predicate Fetching(s: State, t: nat) {
    && t < |s.threads| && s.threads[t].Owning() && !s.threads[t].pc.Releasing?
    && s.threads[t].part.Some? && s.threads[t].part.value < |s.parts|
    && Undelivered(s.parts[s.threads[t].part.value], s.threads[t]) > 0
  }

  /** A part in [from, to) can be claimed. */
  ghost predicate Claimable(s: State, from: nat, to: nat) {
    |s.using| == |s.parts| && exists c: nat :: from <= c < to && c < |s.parts| && s.parts[c].rest > 0 && !s.using[c]
  }

  /** Thread t can still come to download something. */
  ghost predicate Able(s: State, t: nat) {
    && t < |s.threads| && !s.threads[t].pc.Returned? && !Refuses(s.threads[t].link)
    && !Failed(s, t)
  }

  /** Thread t can get to part k without going past the last part. A lost connection costs it
      the part it has or claims next. */
  ghost predicate Ahead(s: State, t: nat, k: nat)
    requires t < |s.threads|
  {
    var th, from := s.threads[t], LooksFrom(s.threads[t], |s.parts|);
    if th.pc.Scanning? then Claimable(s, th.pc.i, if th.link.DeadLink? then k else k + 1)
    else if th.link.DeadLink? then from <= k && (Fetching(s, t) || LacksBetween(s, from, k))
    else from <= k || (th.Owns(k) && !th.pc.Releasing?)
  }

  /** Thread t can get to part k: by going on, or by starting again from the first part, which
      only the release of the last part makes it do. */
  ghost predicate Reaches(s: State, t: nat, k: nat) {
    Able(s, t) && (Ahead(s, t, k) || (k < |s.parts| && Lacking(s, |s.parts| - 1)))
  }

  /** Thread r keeps a refusing connection, so it can only return, and cannot before part k
      is finished. */
  ghost predicate Needs(s: State, r: nat, k: nat) {
    && r < |s.threads| && Refuses(s.threads[r].link)
    && (s.threads[r].pc.Waiting? || s.threads[r].pc.Releasing? || s.threads[r].pc.Released?)
    && LooksFrom(s.threads[r], |s.parts|) <= k && Lacking(s, k)
  }

  /** Some thread needs part k, and nobody can get to it. */
  ghost predicate StarvedOf(s: State, r: nat, k: nat) {
    Needs(s, r, k) && forall t: nat :: !Reaches(s, t, k)
  }

  ghost predicate Starved(s: State) {
    exists r: nat, k: nat :: StarvedOf(s, r, k)
  }

  /** Thread u has claimed a part, or is about to, and has only a refusing connection to
      request it over: its next request ends the process. */
  ghost predicate Trapped(s: State, u: nat) {
    && u < |s.threads| && Refuses(s.threads[u].link)
    && (s.threads[u].pc.Connecting? || s.threads[u].pc.Requesting?
        || (s.threads[u].pc.Scanning? && !Barren(s.parts, s.using, s.threads[u].startPart, |s.parts|)))
  }

  ghost predicate SomeTrapped(s: State) {
    exists u: nat :: Trapped(s, u)
  }

  ghost predicate Doomed(s: State) { Deadlocked(s) || SomeTrapped(s) || Starved(s) }

  // One step, as its own thread sees it

  /** Bytes are read off a working connection. */
  predicate Delivers(s: State, a: Action) {
    a.Receive? && a.t < |s.threads| && s.threads[a.t].link.LiveLink?
  }

  /** What steps do to an owner, and to the part it owns. */
  ghost predicate OwnerMove(p: Part, th: Thread, p': Part, th': Thread, delivers: bool) {
    && th'.Owning() && th'.part == th.part
    && p'.rest <= p.rest
    && Undelivered(p', th') <= Undelivered(p, th)
    && (Undelivered(p', th') == Undelivered(p, th) || delivers)
  }

  lemma OwnerStores(s: State, t: nat)
    requires Inv(s) && Enabled(s, Store(t))
    ensures s.threads[t].part.Some? && s.threads[t].part.value < |s.parts|
    ensures var k, s' := s.threads[t].part.value, Apply(s, Store(t));
            OwnerMove(s.parts[k], s.threads[t], s'.parts[k], s'.threads[t], false)
  {
    StoreEffect(s, t);
    Seen(s, t);
    hide Inv, DoStore, PhaseOk;
  }

  lemma OwnerSteps(s: State, a: Action)
    requires Inv(s) && Enabled(s, a) && s.threads[a.t].Owning() && !a.Store? && !a.Release?
    ensures s.threads[a.t].part.Some? && s.threads[a.t].part.value < |s.parts| && a.t < |Apply(s, a).threads|
    ensures var p := s.parts[s.threads[a.t].part.value];
            OwnerMove(p, s.threads[a.t], p, Apply(s, a).threads[a.t], Delivers(s, a))
  {
    hide Inv, Layout, React, HasRequest, HasReply, Submit, Transmit, Splice, Cursor, RequestFrame, ReplySize, Carries,
      Agrees, AwaitOk, LinkIdle;
    Seen(s, a.t);
  }

  lemma OwnerAfter(s: State, a: Action)
    requires Inv(s) && Enabled(s, a) && s.threads[a.t].Owning() && !a.Release?
    ensures s.threads[a.t].part.Some? && s.threads[a.t].part.value < |s.parts| == |Apply(s, a).parts|
    ensures a.t < |Apply(s, a).threads|
    ensures var k, s' := s.threads[a.t].part.value, Apply(s, a);
            OwnerMove(s.parts[k], s.threads[a.t], s'.parts[k], s'.threads[a.t], Delivers(s, a))
  {
    hide Inv, Apply, Enabled, Undelivered;
    Shaped(s);
    ApplyFrame(s, a);
    if a.Store? { OwnerStores(s, a.t); } else { OwnerSteps(s, a); }
  }

  lemma Releases(s: State, a: Action)
    requires Inv(s) && Enabled(s, a) && a.Release?
    ensures s.threads[a.t].pc.Releasing? && Apply(s, a).parts == s.parts
    ensures a.t < |Apply(s, a).threads| && !Apply(s, a).threads[a.t].Owning()
  {
    hide Inv, Layout;
    Shaped(s);
  }

  /** A thread that comes to own a part has not begun with it. */
  lemma NewOwner(s: State, a: Action)
    requires Inv(s) && Enabled(s, a) && !s.threads[a.t].Owning()
    ensures a.t < |Apply(s, a).threads|
    ensures Apply(s, a).threads[a.t].Owning() ==> Apply(s, a).threads[a.t].pc.Connecting? && Apply(s, a).lock.None?
  {
    if a.Serve? || a.Send? { TrafficIsOwned(s, a); }
    hide Inv, Layout, React, HasRequest, HasReply, Submit, Transmit, Splice, Cursor, RequestFrame, ReplySize, DoScan;
    Shaped(s);
    if a.Scan? { ScanEffect(s, a.t); }
  }

  /** What nobody has received stays so in the past ... */
  lemma LackingBefore(s: State, a: Action, k: nat)
    requires Inv(s) && Enabled(s, a) && Lacking(Apply(s, a), k)
    ensures Lacking(s, k)
  {
    hide Inv, Layout, Enabled, Apply, Undelivered;
    OnlyOwnedFill(s, a);
    forall v: nat | v < |s.threads| && s.threads[v].Owns(k) ensures Undelivered(s.parts[k], s.threads[v]) > 0 {
      if v != a.t {
        OthersKept(s, a, v);
      } else if a.Release? {
        Releases(s, a);
        ReleasedRest(s.parts[k], s.threads[v]);
      } else {
        OwnerAfter(s, a);
      }
    }
  }

  lemma ReleasedRest(p: Part, th: Thread)
    requires th.pc.Releasing? || th.pc.Connecting? || th.pc.Counting?
    ensures Undelivered(p, th) == p.rest
  {
  }

  /** ... and in the future, unless it is received. */
  lemma LackingKept(s: State, a: Action, k: nat)
    requires Inv(s) && Enabled(s, a) && Lacking(s, k)
    requires Delivers(s, a) ==> !s.threads[a.t].Owns(k)
    ensures Lacking(Apply(s, a), k)
  {
    hide Inv, Layout, Enabled, Apply, Undelivered;
    Shaped(s);
    ApplyFrame(s, a);
    var s' := Apply(s, a);
    RestKept(s, a, k);
    forall v: nat | v < |s'.threads| && s'.threads[v].Owns(k) ensures Undelivered(s'.parts[k], s'.threads[v]) > 0 {
      if v != a.t {
        OthersKept(s, a, v);
      } else if a.Release? {
        Releases(s, a);
      } else if s.threads[v].Owning() {
        OwnerAfter(s, a);
      } else {
        NewOwner(s, a);
        ReleasedRest(s'.parts[k], s'.threads[v]);
      }
    }
  }

  lemma RestKept(s: State, a: Action, k: nat)
    requires Inv(s) && Enabled(s, a) && Lacking(s, k)
    ensures k < |Apply(s, a).parts| && Apply(s, a).parts[k].rest > 0
  {
    hide Inv, Layout, Undelivered, DoStore, Lacking;
    Shaped(s);
    ApplyFrame(s, a);
    if a.Store? && s.threads[a.t].part == Some(k) {
      StoreEffect(s, a.t);
      assert s.threads[a.t].Owns(k);
      OwnerStores(s, a.t);
      LackingOwner(s, a.t, k);
      ReleasedRest(Apply(s, a).parts[k], Apply(s, a).threads[a.t]);
    } else {
      hide Apply, Enabled;
      LackingRest(s, k);
    }
  }

  lemma LackingOwner(s: State, v: nat, k: nat)
    requires Lacking(s, k) && v < |s.threads| && s.threads[v].Owns(k)
    ensures Undelivered(s.parts[k], s.threads[v]) > 0
  {
  }

  lemma LackingRest(s: State, k: nat)
    requires Lacking(s, k)
    ensures k < |s.parts| && s.parts[k].rest > 0
  {
  }

  /** A failed connection is kept until a thread finds out about it, which costs it its part. */
  ghost predicate LinkMove(s: State, t: nat, th': Thread)
    requires t < |s.threads|
  {
    var th := s.threads[t];
    && th'.startPart == th.startPart && (th.pc.Releasing? ==> th'.pc.Releasing?)
    && (th'.link.DeadLink? ==> th'.link == th.link)
    && (th.link.DeadLink? && !th'.link.DeadLink? ==> Fetching(s, t) && th'.pc.Releasing?)
    && (th'.pc.Releasing? && !(th.link.DeadLink? && !th'.link.DeadLink?) && !th.pc.Releasing? ==>
          !Fetching(s, t) && th.part.Some? && th.part.value < |s.parts| && s.parts[th.part.value].rest == 0)
  }

  lemma OwnerLinks(s: State, a: Action)
    requires Inv(s) && Enabled(s, a) && s.threads[a.t].Owning() && !a.Drop? && !a.RequestFails? && !a.Release?
    ensures a.t < |Apply(s, a).threads| && LinkMove(s, a.t, Apply(s, a).threads[a.t])
  {
    hide Inv, Layout, React, HasRequest, Splice, Cursor, RequestFrame, HasReply, Carries,
      Agrees, LinkIdle, DoReply;
    Seen(s, a.t);
    if a.Reply? { ReplyLinks(s, a.t); }
    if a.Serve? {
      RequestIsBytes(s.threads[a.t].link);
      RequestAnswered(s, a.t);
    }
  }

  lemma ReplyLinks(s: State, t: nat)
    requires Inv(s) && Enabled(s, Reply(t))
    ensures var th := s.threads[t];
            var th' := DoReply(s.parts[th.part.value], th);
            && th'.startPart == th.startPart && th'.part == th.part
            && if th.link.DeadLink? then th'.pc.Releasing? && th'.link.NoLink?
               else th'.pc.Receiving? && th'.link.LiveLink?
  {
    hide Inv, Layout, HasReply, Carries, AwaitOk;
    Seen(s, t);
    if !s.threads[t].link.DeadLink? {
      ReplyIsBytes(s.threads[t].link);
      ReplyMatches(s, t);
    }
  }

  predicate Locks(a: Action) { a.Acquire? || a.Scan? || a.EndPass? }

  /** From s to s' thread t has stayed on its way: it neither looks for a part nor claims one,
      and a failed connection costs it nothing but the part it was fetching. */
  ghost predicate OnItsWay(s: State, s': State, t: nat) {
    t < |s.threads| && t < |s'.threads| &&
    var th, th' := s.threads[t], s'.threads[t];
    && !th.pc.Scanning? && !th'.pc.Scanning? && !th.pc.Returned? && !th'.pc.Returned?
    && LooksFrom(th', |s'.parts|) == LooksFrom(th, |s.parts|)
    && (th'.link.DeadLink? ==> th'.link == th.link && (Fetching(s', t) <==> Fetching(s, t)))
    && (th.link.DeadLink? && !th'.link.DeadLink? ==> Fetching(s, t) && th'.pc.Releasing?)
    && forall k: nat :: k < |s.parts| && s.parts[k].rest > 0 && !th'.link.DeadLink? && !th.link.DeadLink? ==>
         (th.Owns(k) && !th.pc.Releasing? <==> th'.Owns(k) && !th'.pc.Releasing?)
  }

  lemma OwnerOnItsWay(s: State, a: Action)
    requires Inv(s) && Enabled(s, a) && s.threads[a.t].Owning() && !a.Drop? && !a.RequestFails? && !a.Release?
    ensures OnItsWay(s, Apply(s, a), a.t)
  {
    hide Inv, Layout, Enabled, Apply, OwnerMove, LinkMove, Delivers, OnItsWay;
    Shaped(s);
    ApplyFrame(s, a);
    OwnerAfter(s, a);
    OwnerLinks(s, a);
    if s.threads[a.t].link.DeadLink? { FailedFetch(s, a); }
    TheWay(s, Apply(s, a), a.t, Delivers(s, a));
  }

  lemma TheWay(s: State, s': State, t: nat, delivers: bool)
    requires t < |s.threads| == |s'.threads| && |s'.parts| == |s.parts| && s.threads[t].Owning()
    requires s.threads[t].part.Some? && s.threads[t].part.value < |s.parts|
    requires var k := s.threads[t].part.value;
             OwnerMove(s.parts[k], s.threads[t], s'.parts[k], s'.threads[t], delivers)
    requires LinkMove(s, t, s'.threads[t]) && (s.threads[t].link.DeadLink? ==> !delivers)
    ensures OnItsWay(s, s', t)
  {
    hide Undelivered;
  }

  /** Nothing is received over a failed connection. */
  lemma FailedFetch(s: State, a: Action)
    requires Inv(s) && Enabled(s, a) && s.threads[a.t].link.DeadLink?
    ensures !Delivers(s, a)
  {
  }

  lemma GivingBack(s: State, a: Action)
    requires Inv(s) && Enabled(s, a) && (a.Release? || a.Advance?)
    ensures OnItsWay(s, Apply(s, a), a.t)
  {
    hide Inv, PhaseOk;
    Seen(s, a.t);
    assert s.parts[s.threads[a.t].part.value].id == s.threads[a.t].part.value;
  }

  lemma StaysOnItsWay(s: State, a: Action)
    requires Inv(s) && Enabled(s, a) && !Locks(a) && !a.Drop? && !a.RequestFails?
    ensures OnItsWay(s, Apply(s, a), a.t)
  {
    if a.Serve? || a.Send? { TrafficIsOwned(s, a); }
    hide Inv, Layout, Apply, OnItsWay, HasRequest, HasReply;
    Shaped(s);
    if a.Release? || a.Advance? { GivingBack(s, a); } else { OwnerOnItsWay(s, a); }
  }

  // No step brings a thread nearer to a part

  lemma AbleBefore(s: State, a: Action, t: nat)
    requires Inv(s) && Enabled(s, a) && Able(Apply(s, a), t)
    ensures Able(s, t)
  {
    hide Inv, Layout, Enabled, Apply, Failed;
    Shaped(s);
    ApplyFrame(s, a);
    if s.threads[t].pc.Returned? { ReturnedStays(s, a, t); }
    if Failed(s, t) { FailedPersists(s, a, t); }
    if t == a.t && Refuses(s.threads[t].link) { RefusalStays(s, a); }
  }

  lemma SameClaims(s: State, a: Action, from: nat, to: nat)
    requires Inv(s) && Enabled(s, a) && Apply(s, a).using == s.using
    ensures Claimable(Apply(s, a), from, to) <==> Claimable(s, from, to)
  {
    hide Inv, Layout, Enabled, Apply;
    OnlyOwnedFill(s, a);
    Shaped(s);
    var s' := Apply(s, a);
    if Claimable(s, from, to) {
      var c: nat :| from <= c < to && c < |s.parts| && s.parts[c].rest > 0 && !s.using[c];
      assert s'.parts[c].rest > 0;
    }
    if Claimable(s', from, to) {
      var c: nat :| from <= c < to && c < |s'.parts| && s'.parts[c].rest > 0 && !s.using[c];
      assert s.parts[c].rest > 0;
    }
  }

  /** While t scans, the steps of others leave what it can claim alone. */
  lemma OthersClaims(s: State, a: Action, t: nat, from: nat, to: nat)
    requires Inv(s) && Enabled(s, a) && t < |s.threads| && t != a.t && s.threads[t].pc.Scanning?
    ensures Claimable(Apply(s, a), from, to) <==> Claimable(s, from, to)
  {
    hide Inv, Layout, Enabled, Apply;
    ScanIsHeld(s, a, t);
    FlagsFrozen(s, a, t);
    SameClaims(s, a, from, to);
  }

  lemma FreeIsLacking(s: State, c: nat)
    requires Inv(s) && c < |s.parts| && s.parts[c].rest > 0 && c < |s.using| && !s.using[c]
    ensures Lacking(s, c)
  {
    hide Layout, ThreadOk, PrefixOk, RecordsOk, Conserved, LockOk;
  }

  lemma LacksBefore(s: State, a: Action, from: nat, to: nat)
    requires Inv(s) && Enabled(s, a) && LacksBetween(Apply(s, a), from, to)
    ensures LacksBetween(s, from, to)
  {
    hide Inv, Layout, Enabled, Apply, Lacking;
    Shaped(s);
    var j: nat :| from <= j < to && Lacking(Apply(s, a), j);
    LackingBefore(s, a, j);
  }

  lemma OtherBefore(s: State, a: Action, t: nat, k: nat)
    requires Inv(s) && Enabled(s, a) && t < |s.threads| && t != a.t
    requires t < |Apply(s, a).threads| && Ahead(Apply(s, a), t, k)
    ensures Ahead(s, t, k)
  {
    hide Inv, Layout, Enabled, Apply, LacksBetween, Claimable, Undelivered;
    Shaped(s);
    OthersKept(s, a, t);
    var th := s.threads[t];
    if th.pc.Scanning? {
      OthersClaims(s, a, t, th.pc.i, if th.link.DeadLink? then k else k + 1);
    } else if LacksBetween(Apply(s, a), LooksFrom(th, |s.parts|), k) {
      LacksBefore(s, a, LooksFrom(th, |s.parts|), k);
    }
  }

  lemma WayBefore(s: State, a: Action, k: nat)
    requires Inv(s) && Enabled(s, a) && OnItsWay(s, Apply(s, a), a.t) && Lacking(s, k)
    requires !Refuses(Apply(s, a).threads[a.t].link) && Ahead(Apply(s, a), a.t, k)
    ensures Ahead(s, a.t, k)
  {
    hide Inv, Layout, Enabled, Apply, LacksBetween, Fetching;
    Shaped(s);
    var from := LooksFrom(s.threads[a.t], |s.parts|);
    if LacksBetween(Apply(s, a), from, k) { LacksBefore(s, a, from, k); }
  }

  lemma AcquireBefore(s: State, t: nat, k: nat)
    requires Inv(s) && Enabled(s, Acquire(t)) && Ahead(Apply(s, Acquire(t)), t, k)
    ensures Ahead(s, t, k)
  {
    hide Inv, Layout, Lacking;
    Shaped(s);
    var th, s' := s.threads[t], Apply(s, Acquire(t));
    assert s'.threads[t] == th.(pc := Scanning(th.startPart, true));
    var c: nat :|
      && th.startPart <= c <= k && (th.link.DeadLink? ==> c < k)
      && c < |s.parts| && s.parts[c].rest > 0 && !s.using[c];
    FreeIsLacking(s, c);
  }

  lemma ClaimBefore(s: State, t: nat, i: nat, k: nat)
    requires t < |s.threads| && s.threads[t].pc.Scanning? && s.threads[t].pc.i == i < |s.parts| == |s.using|
    requires s.parts[i].rest > 0 && !s.using[i] && k < |s.parts|
    requires Ahead(s.(using := s.using[i := true], lock := None)
                     .With(t, s.threads[t].(pc := Connecting, part := Some(i))), t, k)
    ensures Ahead(s, t, k) || i == |s.parts| - 1
  {
    hide Lacking, LacksBetween, Fetching, LooksFrom;
    LooksBehind(s.threads[t].(pc := Connecting, part := Some(i)), i, |s.parts|);
  }

  lemma PassBefore(s: State, t: nat, finish: bool, k: nat)
    requires t < |s.threads| && s.threads[t].pc.Scanning?
    requires Ahead(s.With(t, s.threads[t].(pc := Scanning(s.threads[t].pc.i + 1, finish))), t, k)
    ensures Ahead(s, t, k)
  {
  }

  lemma ScanBefore(s: State, t: nat, k: nat)
    requires Inv(s) && Enabled(s, Scan(t)) && Ahead(Apply(s, Scan(t)), t, k) && Lacking(s, k)
    ensures Ahead(s, t, k) || Lacking(s, |s.parts| - 1)
  {
    hide Inv, Layout, Lacking, DoScan, Ahead;
    Shaped(s);
    LackingRest(s, k);
    ScanEffect(s, t);
    var i := s.threads[t].pc.i;
    if s.parts[i].rest > 0 && !s.using[i] {
      FreeIsLacking(s, i);
      ClaimBefore(s, t, i, k);
    } else {
      PassBefore(s, t, s.threads[t].pc.finish && s.parts[i].rest == 0, k);
    }
  }

  lemma DropBefore(s: State, t: nat, k: nat)
    requires Inv(s) && Enabled(s, Drop(t)) && Ahead(Apply(s, Drop(t)), t, k)
    ensures Ahead(s, t, k)
  {
    hide Inv, Layout, Lacking, Undelivered;
    Shaped(s);
  }

  lemma OwnBefore(s: State, a: Action, k: nat)
    requires Inv(s) && Enabled(s, a) && Lacking(s, k) && Able(Apply(s, a), a.t) && Ahead(Apply(s, a), a.t, k)
    ensures Ahead(s, a.t, k) || Lacking(s, |s.parts| - 1)
  {
    hide Inv, Layout, Lacking, Ahead, DoScan, OnItsWay;
    Shaped(s);
    match a {
      case Acquire(t) => AcquireBefore(s, t, k);
      case Scan(t) => ScanBefore(s, t, k);
      case EndPass(t) =>
        FailedAtEnd(s, t);
        AbleBefore(s, a, t);
      case Drop(t) => DropBefore(s, t, k);
      case RequestFails(_) =>
      case _ =>
        StaysOnItsWay(s, a);
        WayBefore(s, a, k);
    }
  }

  lemma ReachesBefore(s: State, a: Action, t: nat, k: nat)
    requires Inv(s) && Enabled(s, a) && Lacking(s, k) && Reaches(Apply(s, a), t, k)
    ensures Reaches(s, t, k)
  {
    hide Inv, Layout, Enabled, Apply, Lacking, Ahead, Able;
    Shaped(s);
    ApplyFrame(s, a);
    LackingRest(s, k);
    AbleBefore(s, a, t);
    AbleExists(s, t);
    if Lacking(Apply(s, a), |s.parts| - 1) {
      LackingBefore(s, a, |s.parts| - 1);
    } else if t == a.t {
      OwnBefore(s, a, k);
    } else {
      OtherBefore(s, a, t, k);
    }
  }

  lemma AbleExists(s: State, t: nat)
    requires Able(s, t)
    ensures t < |s.threads|
  {
  }

  // Hopeless states stay hopeless

  lemma TrapKept(s: State, a: Action, u: nat)
    requires Inv(s) && Enabled(s, a) && Trapped(s, u) && u != a.t
    ensures Trapped(Apply(s, a), u)
  {
    hide Inv, Layout, Enabled, Apply;
    Shaped(s);
    OthersKept(s, a, u);
    if s.threads[u].pc.Scanning? {
      ScanIsHeld(s, a, u);
      FlagsFrozen(s, a, u);
      OnlyOwnedFill(s, a);
    }
  }

  lemma TrapMoves(s: State, a: Action)
    requires Inv(s) && Enabled(s, a) && Trapped(s, a.t)
    ensures Trapped(Apply(s, a), a.t)
  {
    hide Inv, Layout, PhaseOk, DoScan, HasRequest, HasReply, React, Transmit, Splice, Submit;
    Seen(s, a.t);
    RefusalStays(s, a);
    if a.Scan? { ScanEffect(s, a.t); }
  }

  lemma TrapStays(s: State, a: Action, u: nat)
    requires Inv(s) && Enabled(s, a) && Trapped(s, u)
    ensures Trapped(Apply(s, a), u)
  {
    if u == a.t { TrapMoves(s, a); } else { TrapKept(s, a, u); }
  }

  /** A thread that needs a part goes on needing it, until it looks for parts. */
  lemma NeedKept(s: State, a: Action, r: nat, k: nat)
    requires Inv(s) && Enabled(s, a) && Needs(s, r, k) && Lacking(Apply(s, a), k) && !(a.Acquire? && a.t == r)
    ensures Needs(Apply(s, a), r, k)
  {
    hide Inv, Layout, Lacking, Enabled, Apply;
    Shaped(s);
    ApplyFrame(s, a);
    if a.t == r {
      RefusalStays(s, a);
      NeedMoves(s, a);
    } else {
      OthersKept(s, a, r);
    }
  }

  lemma NeedMoves(s: State, a: Action)
    requires Inv(s) && Enabled(s, a) && !a.Acquire? && Refuses(s.threads[a.t].link)
    requires var pc := s.threads[a.t].pc; pc.Waiting? || pc.Releasing? || pc.Released?
    ensures OnItsWay(s, Apply(s, a), a.t)
    ensures var pc := Apply(s, a).threads[a.t].pc; pc.Waiting? || pc.Releasing? || pc.Released?
  {
    hide Inv, Layout, OnItsWay;
    Shaped(s);
    RefusalStays(s, a);
    GivingBack(s, a);
  }

  /** Looking for parts over a refusing connection: the thread claims one, or it waits for an
      owner that cannot finish. */
  lemma LooksInVain(s: State, s': State, r: nat, k: nat)
    requires Inv(s) && StarvedOf(s, r, k) && Enabled(s, Acquire(r)) && s' == Apply(s, Acquire(r)) && Inv(s')
    ensures Trapped(s', r) || exists v: nat :: DoomedBy(s', r, v)
  {
    hide Inv, Layout, Reaches, Undelivered;
    Shaped(s);
    if Barren(s'.parts, s'.using, s'.threads[r].startPart, |s'.parts|) {
      var v := OwnerOf(s, k);
      CannotFinish(s, v, k);
      assert s'.threads[v] == s.threads[v];
      assert DoomedBy(s', r, v);
    }
  }

  lemma OwnerOf(s: State, k: nat) returns (v: nat)
    requires Inv(s) && k < |s.using| && s.using[k]
    ensures v < |s.threads| && s.threads[v].Owns(k)
  {
    hide Layout, ThreadOk, LockOk, PrefixOk, RecordsOk, Conserved;
    var u :| 0 <= u < |s.threads| && s.threads[u].Owns(k);
    v := u;
  }

  /** If nobody gets to a part, its owner gives it back unfinished. */
  lemma CannotFinish(s: State, v: nat, k: nat)
    requires Inv(s) && v < |s.threads| && s.threads[v].Owns(k) && Lacking(s, k) && !Reaches(s, v, k)
    ensures Bad(s, v)
  {
    hide Inv, Layout, Undelivered, PhaseOk;
    Seen(s, v);
    LackingOwner(s, v, k);
  }

  lemma StarvedStays(s: State, a: Action, r: nat, k: nat)
    requires Inv(s) && Enabled(s, a) && StarvedOf(s, r, k)
    ensures Inv(Apply(s, a))
    ensures StarvedOf(Apply(s, a), r, k) || Trapped(Apply(s, a), r) || exists v: nat :: DoomedBy(Apply(s, a), r, v)
  {
    hide Inv, Layout, Enabled, Apply, Lacking, Needs, Reaches, Trapped, DoomedBy;
    Shaped(s);
    ApplyFrame(s, a);
    StepInv(s, a);
    if a.Acquire? && a.t == r {
      LooksInVain(s, Apply(s, a), r, k);
    } else {
      NeedLacks(s, r, k);
      if Delivers(s, a) && s.threads[a.t].Owns(k) { DelivererReaches(s, a, k); }
      LackingKept(s, a, k);
      NeedKept(s, a, r, k);
      forall t: nat ensures !Reaches(Apply(s, a), t, k) {
        if Reaches(Apply(s, a), t, k) { ReachesBefore(s, a, t, k); }
      }
    }
  }

  lemma NeedLacks(s: State, r: nat, k: nat)
    requires Needs(s, r, k)
    ensures Lacking(s, k)
  {
  }

  lemma DelivererReaches(s: State, a: Action, k: nat)
    requires Inv(s) && Enabled(s, a) && Delivers(s, a) && s.threads[a.t].Owns(k)
    ensures Reaches(s, a.t, k)
  {
    hide Inv, Layout;
    Shaped(s);
  }

  lemma DoomKept(s: State, a: Action)
    requires Inv(s) && Enabled(s, a) && Doomed(s)
    ensures Inv(Apply(s, a)) && Doomed(Apply(s, a))
  {
    hide Inv, Layout, Enabled, Apply, DoomedBy, Trapped, StarvedOf;
    StepInv(s, a);
    if Deadlocked(s) {
      var t: nat, u: nat :| DoomedBy(s, t, u);
      DoomStays(s, a, t, u);
    } else if SomeTrapped(s) {
      var u: nat :| Trapped(s, u);
      TrapStays(s, a, u);
    } else {
      var r: nat, k: nat :| StarvedOf(s, r, k);
      StarvedStays(s, a, r, k);
    }
  }

  lemma DoomedGoOn(s: State)
    requires Inv(s) && Doomed(s)
    ensures !AllReturned(s)
  {
    hide Inv, Layout, Barren, Lacking, Reaches, Bad;
    Shaped(s);
  }

  /** A doomed download never ends, whatever happens. */
  lemma {:induction false} DoomIsForever(s: State, acts: seq<Action>)
    requires Inv(s) && Run(s, acts) && Doomed(s)
    ensures Doomed(After(s, acts)) && !AllReturned(After(s, acts))
    decreases |acts|
  {
    hide Inv, Enabled, Apply, Doomed, AllReturned;
    if acts != [] {
      DoomKept(s, acts[0]);
      DoomIsForever(Apply(s, acts[0]), acts[1..]);
    } else {
      DoomedGoOn(s);
    }
  }
}
