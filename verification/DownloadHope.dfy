/** No step but a fault, or taking partsLock at a bad time, makes a download hopeless: what
    the threads could get to, some thread still can. */
module DownloadHope {
  import opened Options
  import opened Parts
  import opened Download
  import opened DownloadSafety
  import opened DownloadTheorems
  import opened DownloadProgress
  import opened DownloadMeasure
  import opened DownloadDoom

  /** All threads but t wait or have returned. */
  ghost predicate Alone(s: State, t: nat) {
    && t < |s.threads|
    && forall u :: 0 <= u < |s.threads| && u != t ==> s.threads[u].pc.Waiting? || s.threads[u].pc.Returned?
  }

  /** Nothing is claimed while the only thread that moves owns nothing. */
  lemma AloneFlags(s: State, t: nat)
    requires Inv(s) && Alone(s, t)
    ensures Shape(s)
    ensures s.lock.Some? ==> s.lock == Some(t) && s.threads[t].pc.Scanning?
    ensures !s.threads[t].Owning() ==> forall k :: 0 <= k < |s.using| ==> !s.using[k]
  {
    hide ThreadOk, PrefixOk, RecordsOk, Conserved, Layout;
  }

  /** A fault-free step that may take partsLock only for a thread that can go on, with nobody
      else at work. */
  ghost predicate Careful(s: State, a: Action) {
    !Faulty(a) && (a.Acquire? ==> Alone(s, a.t) && !Refuses(s.threads[a.t].link))
  }

  // No new deadlock

  lemma BadBefore(s: State, a: Action)
    requires Inv(s) && Enabled(s, a) && !Faulty(a) && Bad(Apply(s, a), a.t) && Apply(s, a).lock.Some?
    ensures Bad(s, a.t) && s.threads[a.t].part == Apply(s, a).threads[a.t].part
  {
    hide Inv, Layout, Enabled, Apply, Undelivered, Delivers;
    Shaped(s);
    ApplyFrame(s, a);
    if !s.threads[a.t].Owning() {
      NewOwner(s, a);
    } else if a.Release? {
      Releases(s, a);
    } else {
      OwnerAfter(s, a);
      OwnerLinks(s, a);
      var k := s.threads[a.t].part.value;
      if Apply(s, a).threads[a.t].pc.Releasing? { ReleasedRest(Apply(s, a).parts[k], Apply(s, a).threads[a.t]); }
    }
  }

  lemma BadWasBad(s: State, a: Action, u: nat)
    requires Inv(s) && Enabled(s, a) && !Faulty(a) && Apply(s, a).lock.Some? && Bad(Apply(s, a), u)
    ensures Bad(s, u) && s.threads[u].part == Apply(s, a).threads[u].part
  {
    hide Inv, Layout, Enabled, Apply, Undelivered;
    Shaped(s);
    ApplyFrame(s, a);
    if a.t == u { BadBefore(s, a); } else { OthersKept(s, a, u); }
  }

  lemma FailedBefore(s: State, a: Action, t: nat)
    requires Inv(s) && Enabled(s, a) && !a.Acquire? && Failed(Apply(s, a), t)
    ensures Failed(s, t) && s.threads[t].startPart == Apply(s, a).threads[t].startPart
  {
    hide Inv, Layout, Enabled, Apply;
    Shaped(s);
    ApplyFrame(s, a);
    LockKept(s, a);
    ScanIsHeld(s, a, t);
    if a.Scan? { LooksAt(s, a, t); }
    FlagsFrozen(s, a, t);
    OnlyOwnedFill(s, a);
  }

  lemma LockKept(s: State, a: Action)
    requires Inv(s) && Enabled(s, a) && !a.Acquire? && Apply(s, a).lock.Some?
    ensures s.lock == Apply(s, a).lock && s.lock.value < |s.threads| && s.threads[s.lock.value].pc.Scanning?
  {
    hide Inv, Layout, DoScan;
    Shaped(s);
    if a.Scan? { ScanEffect(s, a.t); }
  }

  /** A scan that keeps the lock has claimed nothing. */
  lemma LooksAt(s: State, a: Action, t: nat)
    requires Inv(s) && Enabled(s, a) && a.Scan? && a.t == t && Apply(s, a).lock.Some?
    ensures s.parts[s.threads[t].pc.i].rest == 0 || s.using[s.threads[t].pc.i]
  {
    hide Inv, Layout, DoScan;
    Shaped(s);
    ScanEffect(s, a.t);
  }

  lemma DeadlockedBefore(s: State, a: Action, t: nat, u: nat)
    requires Inv(s) && Enabled(s, a) && Careful(s, a) && DoomedBy(Apply(s, a), t, u)
    ensures DoomedBy(s, t, u)
  {
    hide Inv, Layout, Enabled, Apply, Failed;
    Shaped(s);
    FailedHolds(Apply(s, a), t);
    BadWasBad(s, a, u);
    if a.Acquire? { NobodyOwns(s, a.t, u); }
    FailedBefore(s, a, t);
  }

  lemma FailedHolds(s: State, t: nat)
    requires Failed(s, t)
    ensures s.lock == Some(t)
  {
  }

  lemma NobodyOwns(s: State, t: nat, u: nat)
    requires Inv(s) && Enabled(s, Acquire(t)) && Alone(s, t) && u < |s.threads|
    ensures !s.threads[u].Owning()
  {
    hide Inv, Layout;
  }

  // No new trap

  /** A connection comes to refuse only by refusing. */
  lemma RefusalBefore(s: State, a: Action)
    requires Inv(s) && Enabled(s, a) && !a.RequestFails?
    ensures a.t < |Apply(s, a).threads|
    ensures Refuses(Apply(s, a).threads[a.t].link) ==> Refuses(s.threads[a.t].link)
  {
    hide Inv, Layout, DoScan, React, HasReply, HasRequest, Splice, Cursor, RequestFrame, ReplySize, PhaseOk;
    Shaped(s);
    if a.Scan? { ScanEffect(s, a.t); }
    if a.Serve? { RequestAnswered(s, a.t); }
  }

  lemma TrapBefore(s: State, a: Action)
    requires Inv(s) && Enabled(s, a) && Careful(s, a) && Trapped(Apply(s, a), a.t)
    ensures Trapped(s, a.t)
  {
    RefusalBefore(s, a);
    hide Inv, Layout, PhaseOk, DoScan, HasRequest, HasReply, React, Transmit, Splice, Submit;
    Seen(s, a.t);
    RefusalStays(s, a);
    if a.Scan? { ScanEffect(s, a.t); }
  }

  lemma TrappedBefore(s: State, a: Action, u: nat)
    requires Inv(s) && Enabled(s, a) && Careful(s, a) && Trapped(Apply(s, a), u)
    ensures Trapped(s, u)
  {
    if u == a.t {
      TrapBefore(s, a);
    } else {
      hide Inv, Layout, Enabled, Apply;
      Shaped(s);
      ApplyFrame(s, a);
      OthersKept(s, a, u);
      if s.threads[u].pc.Scanning? {
        ScanIsHeld(s, a, u);
        FlagsFrozen(s, a, u);
        OnlyOwnedFill(s, a);
      }
    }
  }

  // Nobody is starved anew

  lemma AbleKept(s: State, a: Action, t: nat)
    requires Inv(s) && Enabled(s, a) && !Faulty(a) && !a.Acquire? && Able(s, t)
    ensures Able(Apply(s, a), t)
  {
    hide Inv, Layout, Enabled, Apply, Failed;
    Shaped(s);
    ApplyFrame(s, a);
    RefusalBefore(s, a);
    ReturnsFailed(s, a);
    if Failed(Apply(s, a), t) { FailedBefore(s, a, t); }
  }

  /** Returning is the end of a pass that found nothing. */
  lemma ReturnsFailed(s: State, a: Action)
    requires Inv(s) && Enabled(s, a)
    ensures a.t < |Apply(s, a).threads|
    ensures Apply(s, a).threads[a.t].pc.Returned? ==> s.threads[a.t].pc.Returned? || Failed(s, a.t)
  {
    hide Inv, Layout, Enabled, Apply, Failed, OnItsWay;
    Shaped(s);
    ApplyFrame(s, a);
    match a {
      case EndPass(t) => FailedAtEnd(s, t);
      case Acquire(_) => LooksOn(s, a);
      case Scan(_) => LooksOn(s, a);
      case Drop(t) => DroppedStays(s, t);
      case RequestFails(t) => RefusedStays(s, t);
      case _ =>
        StaysOnItsWay(s, a);
        WayGoesOn(s, Apply(s, a), a.t);
    }
  }

  lemma LooksOn(s: State, a: Action)
    requires Inv(s) && Enabled(s, a) && (a.Acquire? || a.Scan?)
    ensures a.t < |Apply(s, a).threads| && !Apply(s, a).threads[a.t].pc.Returned?
  {
    hide Inv, Layout, DoScan;
    Shaped(s);
    if a.Scan? { ScanEffect(s, a.t); }
  }

  lemma DroppedStays(s: State, t: nat)
    requires Inv(s) && Enabled(s, Drop(t))
    ensures t < |s.threads| == |Apply(s, Drop(t)).threads| && Apply(s, Drop(t)).threads[t].pc == s.threads[t].pc
  {
    hide Inv, Layout;
    Shaped(s);
  }

  lemma RefusedStays(s: State, t: nat)
    requires Inv(s) && Enabled(s, RequestFails(t))
    ensures t < |Apply(s, RequestFails(t)).threads| && Apply(s, RequestFails(t)).threads[t].pc.Releasing?
  {
    hide Inv, Layout;
    Shaped(s);
  }

  lemma WayGoesOn(s: State, s': State, t: nat)
    requires OnItsWay(s, s', t)
    ensures t < |s'.threads| && !s'.threads[t].pc.Returned?
  {
    hide Fetching, LooksFrom;
  }

  lemma DelivererStays(s: State, a: Action)
    requires Inv(s) && Enabled(s, a) && Delivers(s, a)
    ensures s.threads[a.t].Owning() && a.t < |Apply(s, a).threads|
    ensures Apply(s, a).threads[a.t].link.LiveLink? && Apply(s, a).threads[a.t].pc.Writing?
    ensures Apply(s, a).threads[a.t].part == s.threads[a.t].part && Apply(s, a).lock != Some(a.t)
  {
    hide Inv, Layout;
    Shaped(s);
  }

  /** Who receives part j will look behind it. */
  lemma DelivererGoesOn(s: State, a: Action, j: nat, k: nat)
    requires Inv(s) && Enabled(s, a) && Delivers(s, a) && s.threads[a.t].Owns(j) && k < |s.parts|
    requires j < k || j == |s.parts| - 1
    ensures Reaches(Apply(s, a), a.t, k)
  {
    hide Inv, Layout, Enabled, Apply, Reaches, Delivers;
    Shaped(s);
    ApplyFrame(s, a);
    DelivererStays(s, a);
    ReachesBehind(Apply(s, a), a.t, j, k);
  }

  lemma ReachesBehind(s: State, t: nat, j: nat, k: nat)
    requires t < |s.threads| && s.threads[t].Owns(j) && s.threads[t].pc.Writing? && s.threads[t].link.LiveLink?
    requires s.lock != Some(t) && k < |s.parts| && (j < k || j == |s.parts| - 1)
    ensures Reaches(s, t, k)
  {
    hide Barren, LooksFrom, Lacking;
    LooksBehind(s.threads[t], j, |s.parts|);
  }

  lemma OtherKept(s: State, a: Action, t: nat, k: nat)
    requires Inv(s) && Enabled(s, a) && t < |s.threads| && t != a.t && Ahead(s, t, k) && k < |s.parts|
    ensures t < |Apply(s, a).threads|
    ensures Ahead(Apply(s, a), t, k) || Reaches(Apply(s, a), a.t, k)
  {
    hide Inv, Layout, Enabled, Apply, Claimable, Undelivered, Reaches, Lacking, Delivers;
    Shaped(s);
    ApplyFrame(s, a);
    OthersKept(s, a, t);
    var th, from := s.threads[t], LooksFrom(s.threads[t], |s.parts|);
    if th.pc.Scanning? {
      OthersClaims(s, a, t, th.pc.i, if th.link.DeadLink? then k else k + 1);
    } else if j: nat :| from <= j < k && Lacking(s, j) {
      if Delivers(s, a) && s.threads[a.t].Owns(j) { DelivererGoesOn(s, a, j, k); } else { LackingKept(s, a, j); }
    }
  }

  lemma WayKept(s: State, a: Action, k: nat)
    requires Inv(s) && Enabled(s, a) && OnItsWay(s, Apply(s, a), a.t) && Lacking(s, k) && Ahead(s, a.t, k)
    ensures Ahead(Apply(s, a), a.t, k)
  {
    hide Inv, Layout, Enabled, Apply, Fetching, Lacking, Delivers;
    Shaped(s);
    LackingRest(s, k);
    var from := LooksFrom(s.threads[a.t], |s.parts|);
    if s.threads[a.t].link.DeadLink? && !Fetching(s, a.t) {
      FailedFetch(s, a);
      var j: nat :| from <= j < k && Lacking(s, j);
      LackingKept(s, a, j);
    }
  }

  lemma ClaimKept(s: State, t: nat, i: nat, k: nat)
    requires t < |s.threads| && s.threads[t].pc.Scanning? && s.threads[t].pc.i == i < |s.parts| == |s.using|
    requires s.parts[i].rest > 0 && !s.using[i] && k < |s.parts| && Ahead(s, t, k)
    ensures Ahead(s.(using := s.using[i := true], lock := None)
                   .With(t, s.threads[t].(pc := Connecting, part := Some(i))), t, k)
  {
    hide Lacking, LacksBetween, LooksFrom;
    LooksBehind(s.threads[t].(pc := Connecting, part := Some(i)), i, |s.parts|);
  }

  lemma PassKept(s: State, t: nat, finish: bool, k: nat)
    requires t < |s.threads| && s.threads[t].pc.Scanning? && s.threads[t].pc.i < |s.parts| && Ahead(s, t, k)
    requires s.parts[s.threads[t].pc.i].rest > 0 ==> |s.using| == |s.parts| && s.using[s.threads[t].pc.i]
    ensures Ahead(s.With(t, s.threads[t].(pc := Scanning(s.threads[t].pc.i + 1, finish))), t, k)
  {
  }

  lemma ScanKept(s: State, t: nat, k: nat)
    requires Inv(s) && Enabled(s, Scan(t)) && Ahead(s, t, k) && k < |s.parts|
    ensures Ahead(Apply(s, Scan(t)), t, k)
  {
    hide Inv, Layout, Lacking, DoScan, Ahead;
    Shaped(s);
    ScanEffect(s, t);
    var i := s.threads[t].pc.i;
    if s.parts[i].rest > 0 && !s.using[i] {
      ClaimKept(s, t, i, k);
    } else {
      PassKept(s, t, s.threads[t].pc.finish && s.parts[i].rest == 0, k);
    }
  }

  lemma OwnKept(s: State, a: Action, k: nat)
    requires Inv(s) && Enabled(s, a) && !Faulty(a) && !a.Acquire? && Able(s, a.t) && Ahead(s, a.t, k) && Lacking(s, k)
    ensures a.t < |Apply(s, a).threads|
    ensures Ahead(Apply(s, a), a.t, k)
  {
    hide Inv, Layout, Lacking, Ahead, DoScan, OnItsWay, Apply;
    Shaped(s);
    ApplyFrame(s, a);
    LackingRest(s, k);
    match a {
      case Scan(t) => ScanKept(s, t, k);
      case EndPass(t) => FailedAtEnd(s, t);
      case _ =>
        StaysOnItsWay(s, a);
        WayKept(s, a, k);
    }
  }

  lemma AcquireKept(s: State, a: Action, t: nat, k: nat)
    requires Inv(s) && Enabled(s, a) && Careful(s, a) && a.Acquire? && Reaches(s, t, k) && Lacking(s, k)
    ensures Reaches(Apply(s, a), t, k)
  {
    hide Inv, Layout, Lacking;
    Shaped(s);
    LackingRest(s, k);
    AloneFlags(s, a.t);
    Seen(s, t);
    var n := |s.parts|;
    assert k < n;
    if Lacking(s, n - 1) {
      LackingRest(s, n - 1);
      LackingKept(s, a, n - 1);
    }
    if j: nat :| LooksFrom(s.threads[t], n) <= j < k && Lacking(s, j) {
      LackingRest(s, j);
      LackingKept(s, a, j);
    }
  }

  /** What some thread could get to, some thread still can, until it is received. */
  lemma ReachesKept(s: State, a: Action, t: nat, k: nat) returns (u: nat)
    requires Inv(s) && Enabled(s, a) && Careful(s, a) && Reaches(s, t, k) && Lacking(Apply(s, a), k)
    ensures Reaches(Apply(s, a), u, k) && (u == t || u == a.t)
  {
    hide Inv, Layout, Enabled, Apply, Lacking, Ahead, Able, Delivers, Reaches;
    Shaped(s);
    ApplyFrame(s, a);
    LackingBefore(s, a, k);
    LackingRest(s, k);
    u := t;
    if a.Acquire? {
      AcquireKept(s, a, t, k);
    } else {
      u := NextReacher(s, a, t, k);
    }
  }

  lemma NextReacher(s: State, a: Action, t: nat, k: nat) returns (u: nat)
    requires Inv(s) && Enabled(s, a) && !Faulty(a) && !a.Acquire? && Reaches(s, t, k) && Lacking(s, k)
    ensures Reaches(Apply(s, a), u, k) && (u == t || u == a.t)
  {
    hide Inv, Layout, Enabled, Apply, Lacking, Ahead, Able, Delivers;
    Shaped(s);
    ApplyFrame(s, a);
    LackingRest(s, k);
    AbleExists(s, t);
    AbleKept(s, a, t);
    u := t;
    if !Ahead(s, t, k) {
      var last := |s.parts| - 1;
      if Delivers(s, a) && s.threads[a.t].Owns(last) {
        DelivererGoesOn(s, a, last, k);
        u := a.t;
      } else {
        LackingKept(s, a, last);
      }
    } else if t == a.t {
      OwnKept(s, a, k);
    } else {
      OtherKept(s, a, t, k);
      if !Ahead(Apply(s, a), t, k) { u := a.t; }
    }
  }

  lemma NeedBefore(s: State, a: Action, r: nat, k: nat)
    requires Inv(s) && Enabled(s, a) && Careful(s, a) && Needs(Apply(s, a), r, k)
    ensures Needs(s, r, k)
  {
    hide Inv, Layout, Enabled, Apply, Lacking;
    Shaped(s);
    ApplyFrame(s, a);
    LackingBefore(s, a, k);
    if r == a.t { NeederBefore(s, a); } else { OthersKept(s, a, r); }
  }

  lemma NeederBefore(s: State, a: Action)
    requires Inv(s) && Enabled(s, a) && Careful(s, a) && a.t < |Apply(s, a).threads|
    requires Refuses(Apply(s, a).threads[a.t].link)
    requires var pc := Apply(s, a).threads[a.t].pc; pc.Waiting? || pc.Releasing? || pc.Released?
    ensures OnItsWay(s, Apply(s, a), a.t) && Refuses(s.threads[a.t].link)
    ensures var pc := s.threads[a.t].pc; pc.Waiting? || pc.Releasing? || pc.Released?
  {
    RefusalBefore(s, a);
    RefusalStays(s, a);
    hide Inv, Layout, OnItsWay, DoScan;
    Shaped(s);
    if a.Scan? { ScanEffect(s, a.t); }
    GivingBack(s, a);
  }

  lemma StarvedBefore(s: State, a: Action, r: nat, k: nat)
    requires Inv(s) && Enabled(s, a) && Careful(s, a) && StarvedOf(Apply(s, a), r, k)
    ensures StarvedOf(s, r, k)
  {
    hide Inv, Layout, Enabled, Apply, Needs, Reaches, Careful, Lacking;
    Shaped(s);
    NeedLacks(Apply(s, a), r, k);
    NeedBefore(s, a, r, k);
    forall t: nat ensures !Reaches(s, t, k) {
      if Reaches(s, t, k) { var u := ReachesKept(s, a, t, k); }
    }
  }

  /** No fault-free step creates a hopeless state, except taking partsLock while others work
      or with a refusing connection. */
  lemma NoNewDoom(s: State, a: Action)
    requires Inv(s) && Enabled(s, a) && Careful(s, a) && !Doomed(s)
    ensures !Doomed(Apply(s, a))
  {
    hide Inv, Layout, Enabled, Apply, DoomedBy, Trapped, StarvedOf, Careful;
    Shaped(s);
    var s' := Apply(s, a);
    if Deadlocked(s') {
      var t: nat, u: nat :| DoomedBy(s', t, u);
      DeadlockedBefore(s, a, t, u);
    }
    if SomeTrapped(s') {
      var u: nat :| Trapped(s', u);
      TrappedBefore(s, a, u);
    }
    if Starved(s') {
      var r: nat, k: nat :| StarvedOf(s', r, k);
      StarvedBefore(s, a, r, k);
    }
  }
}
