/** Which lost connections and which refused requests make a download hopeless. */
module DownloadLosses {
  import opened Parts
  import opened Download
  import opened DownloadSafety
  import opened DownloadProgress
  import opened DownloadDoom
  import opened DownloadHope

  /** A connection is lost or refuses a request. */
  predicate Loss(a: Action) { a.Drop? || a.RequestFails? }

  lemma LossFrame(s: State, a: Action)
    requires Inv(s) && Enabled(s, a) && Loss(a)
    ensures Shape(s) && a.t < |s.threads| && a.t < |Apply(s, a).threads|
    ensures var s' := Apply(s, a);
            && s' == s.(threads := s.threads[a.t := s'.threads[a.t]])
            && s'.threads[a.t].link.DeadLink? && !Refuses(s.threads[a.t].link)
            && s'.threads[a.t].startPart == s.threads[a.t].startPart
            && LooksFrom(s'.threads[a.t], |s.parts|) == LooksFrom(s.threads[a.t], |s.parts|)
    ensures a.RequestFails? ==>
              && Fetching(s, a.t) && s.threads[a.t].link.DeadLink?
              && Refuses(Apply(s, a).threads[a.t].link) && Apply(s, a).threads[a.t].pc.Releasing?
    ensures a.Drop? ==> Apply(s, a).threads[a.t] == s.threads[a.t].(link := DeadLink(false))
  {
    hide Inv, Layout, LinkIdle;
    Seen(s, a.t);
  }

  lemma LackingSame(s: State, a: Action, k: nat)
    requires Inv(s) && Enabled(s, a) && Loss(a)
    ensures Lacking(Apply(s, a), k) <==> Lacking(s, k)
  {
    hide Inv, Layout, Enabled, Apply, Lacking;
    Shaped(s);
    if Lacking(s, k) { LackingKept(s, a, k); }
    if Lacking(Apply(s, a), k) { LackingBefore(s, a, k); }
  }

  /** What the other threads can get to is not affected. */
  lemma OthersReach(s: State, a: Action, t: nat, k: nat)
    requires Inv(s) && Enabled(s, a) && Loss(a) && t != a.t && Lacking(s, k)
    ensures Reaches(Apply(s, a), t, k) <==> Reaches(s, t, k)
  {
    hide Inv, Layout, Enabled, Apply, Lacking, Failed, LacksBetween, Claimable, Undelivered;
    LossFrame(s, a);
    var s' := Apply(s, a);
    if Reaches(s', t, k) {
      ReachesBefore(s, a, t, k);
    }
    if Reaches(s, t, k) {
      LackingRest(s, k);
      if Failed(s', t) { FailedBefore(s, a, t); }
      LackingSame(s, a, |s.parts| - 1);
      if Ahead(s, t, k) { AheadSame(s, a, t, k); }
    }
  }

  lemma AheadSame(s: State, a: Action, t: nat, k: nat)
    requires Inv(s) && Enabled(s, a) && Loss(a) && t < |s.threads| && t != a.t && Ahead(s, t, k)
    ensures t < |Apply(s, a).threads| && Ahead(Apply(s, a), t, k)
  {
    hide Inv, Layout, Enabled, Apply, Lacking, Undelivered;
    LossFrame(s, a);
    var from := LooksFrom(s.threads[t], |s.parts|);
    if j: nat :| from <= j < k && Lacking(s, j) {
      LackingSame(s, a, j);
    }
  }

  lemma TrapsSame(s: State, a: Action)
    requires Inv(s) && Enabled(s, a) && Loss(a) && SomeTrapped(Apply(s, a))
    ensures SomeTrapped(s)
  {
    hide Inv, Layout, Enabled, Apply, Barren;
    LossFrame(s, a);
    var v: nat :| Trapped(Apply(s, a), v);
    assert Trapped(s, v);
  }

  lemma NeedsSame(s: State, a: Action, r: nat, k: nat)
    requires Inv(s) && Enabled(s, a) && Loss(a) && r != a.t
    ensures Needs(Apply(s, a), r, k) <==> Needs(s, r, k)
  {
    hide Inv, Layout, Enabled, Apply, Lacking;
    LossFrame(s, a);
    LackingSame(s, a, k);
  }

  /** Some thread spins on partsLock, waiting among others for the part that u is
      downloading and of which bytes are still to come. */
  ghost predicate WaitedFor(s: State, u: nat) {
    && u < |s.threads| && s.threads[u].Owning()
    && s.threads[u].part.Some? && s.threads[u].part.value < |s.parts|
    && Undelivered(s.parts[s.threads[u].part.value], s.threads[u]) > 0
    && exists t: nat :: Failed(s, t) && s.threads[t].startPart <= s.threads[u].part.value
  }

  lemma LossDeadlocks(s: State, a: Action, t: nat, v: nat)
    requires Inv(s) && Enabled(s, a) && Loss(a) && DoomedBy(Apply(s, a), t, v)
    ensures DoomedBy(s, t, v) || (a.Drop? && v == a.t && WaitedFor(s, a.t))
  {
    hide Inv, Layout, Enabled, Apply, Barren;
    LossFrame(s, a);
    assert Failed(s, t);
    if v == a.t && a.RequestFails? { RefusedRest(s, a); }
  }

  lemma RefusedRest(s: State, a: Action)
    requires Inv(s) && Enabled(s, a) && a.RequestFails?
    ensures a.t < |Apply(s, a).threads| && Apply(s, a).threads[a.t].part == s.threads[a.t].part
  {
    hide Inv, Layout;
    Shaped(s);
  }

  // Refusals

  /** Part k is lacking where u will look, and no other thread can get to it. */
  ghost predicate LeftBehind(s: State, u: nat, k: nat)
    requires u < |s.threads|
  {
    LooksFrom(s.threads[u], |s.parts|) <= k && Lacking(s, k) && forall t: nat :: t != u ==> !Reaches(s, t, k)
  }

  lemma RefusalStarves(s: State, u: nat, k: nat)
    requires Inv(s) && Enabled(s, RequestFails(u)) && LeftBehind(s, u, k)
    ensures StarvedOf(Apply(s, RequestFails(u)), u, k)
  {
    var a := RequestFails(u);
    hide Inv, Layout, Enabled, Apply, Lacking, Ahead, Failed;
    LossFrame(s, a);
    LackingSame(s, a, k);
    forall t: nat ensures !Reaches(Apply(s, a), t, k) {
      if t != u { OthersReach(s, a, t, k); }
    }
  }

  lemma StarvedByRefusal(s: State, u: nat, r: nat, k: nat) returns (j: nat)
    requires Inv(s) && Enabled(s, RequestFails(u)) && StarvedOf(Apply(s, RequestFails(u)), r, k) && !Starved(s)
    ensures LeftBehind(s, u, j)
  {
    var a := RequestFails(u);
    hide Inv, Layout, Enabled, Apply, Lacking, Able, Failed, Undelivered;
    LossFrame(s, a);
    LackingSame(s, a, k);
    LackingRest(s, k);
    forall t: nat | t != u ensures !Reaches(s, t, k) {
      OthersReach(s, a, t, k);
    }
    j := k;
    if r != u {
      NeedsSame(s, a, r, k);
      assert !StarvedOf(s, r, k);
      assert Reaches(s, u, k);
      if LooksFrom(s.threads[u], |s.parts|) > k {
        j := |s.parts| - 1;
        LooksInRange(s, u);
        forall t: nat | t != u ensures !Reaches(s, t, j) {
          assert !Reaches(s, t, k);
        }
      }
    }
  }

  lemma LooksInRange(s: State, u: nat)
    requires Inv(s) && u < |s.threads| && |s.parts| > 0
    ensures LooksFrom(s.threads[u], |s.parts|) < |s.parts|
  {
    hide Inv, Layout, PhaseOk;
    Seen(s, u);
  }

  /** A refused request dooms a download exactly when a part is lacking, at or behind the place
      where the refused thread will go on to look, that no other thread can get to: the thread
      cannot return before it is finished and can download nothing any more. */
  lemma RefusalDoomsIff(s: State, u: nat)
    requires Inv(s) && Enabled(s, RequestFails(u)) && !Doomed(s)
    ensures u < |s.threads|
    ensures Doomed(Apply(s, RequestFails(u))) <==> exists k: nat :: LeftBehind(s, u, k)
  {
    var a := RequestFails(u);
    hide Inv, Layout, Enabled, Apply, LeftBehind, DoomedBy, StarvedOf;
    LossFrame(s, a);
    var s' := Apply(s, a);
    if k: nat :| LeftBehind(s, u, k) { RefusalStarves(s, u, k); }
    if Deadlocked(s') {
      var t: nat, v: nat :| DoomedBy(s', t, v);
      LossDeadlocks(s, a, t, v);
    }
    if SomeTrapped(s') { TrapsSame(s, a); }
    if Starved(s') {
      var r: nat, k: nat :| StarvedOf(s', r, k);
      var j := StarvedByRefusal(s, u, r, k);
    }
  }

  // Lost connections

  /** Part k is what u is downloading or, if it is not, what it would take next. */
  ghost predicate TakesNext(s: State, u: nat, k: nat)
    requires u < |s.threads|
  {
    var th, from := s.threads[u], LooksFrom(s.threads[u], |s.parts|);
    if th.pc.Scanning? then Claimable(s, th.pc.i, k + 1) && !Claimable(s, th.pc.i, k)
    else if Fetching(s, u) then th.Owns(k)
    else from <= k && !LacksBetween(s, from, k)
  }

  /** Only u can get to part k, as its next part, and it cannot come round again. */
  ghost predicate OnlyHope(s: State, u: nat, k: nat)
    requires u < |s.threads|
  {
    TakesNext(s, u, k) && k < |s.parts| && !Lacking(s, |s.parts| - 1) && forall t: nat :: t != u ==> !Reaches(s, t, k)
  }

  lemma TurnsAway(s: State, u: nat, k: nat)
    requires Inv(s) && Enabled(s, Drop(u)) && k < |s.parts| && Lacking(s, k) && Reaches(s, u, k)
    ensures u < |s.threads|
    ensures !Reaches(Apply(s, Drop(u)), u, k) <==> !Lacking(s, |s.parts| - 1) && TakesNext(s, u, k)
  {
    var a := Drop(u);
    hide Inv, Layout, Enabled, Apply, Lacking, Undelivered, LacksBetween, Claimable, Failed, LooksFrom;
    LossFrame(s, a);
    LackingSame(s, a, |s.parts| - 1);
    SameFor(s, u, k);
    if s.threads[u].Owns(k) {
      LackingOwner(s, u, k);
      LooksBehind(s.threads[u], k, |s.parts|);
    }
  }

  lemma SameFor(s: State, u: nat, k: nat)
    requires Inv(s) && Enabled(s, Drop(u))
    ensures u < |s.threads| && u < |Apply(s, Drop(u)).threads|
    ensures var s', from := Apply(s, Drop(u)), LooksFrom(s.threads[u], |s.parts|);
            && (Failed(s', u) <==> Failed(s, u)) && (Fetching(s', u) <==> Fetching(s, u))
            && (LacksBetween(s', from, k) <==> LacksBetween(s, from, k))
            && forall i: nat :: Claimable(s', i, k) <==> Claimable(s, i, k)
  {
    var a := Drop(u);
    hide Inv, Layout, Enabled, Apply, Lacking, Barren;
    LossFrame(s, a);
    forall j: nat ensures Lacking(Apply(s, a), j) <==> Lacking(s, j) {
      LackingSame(s, a, j);
    }
  }

  lemma WaitedDooms(s: State, u: nat)
    requires Inv(s) && Enabled(s, Drop(u)) && WaitedFor(s, u)
    ensures Deadlocked(Apply(s, Drop(u)))
  {
    hide Inv, Layout, Enabled, Apply, Barren;
    LossFrame(s, Drop(u));
    var t: nat :| Failed(s, t) && s.threads[t].startPart <= s.threads[u].part.value;
    assert DoomedBy(Apply(s, Drop(u)), t, u);
  }

  lemma DropStarves(s: State, u: nat, r: nat, k: nat)
    requires Inv(s) && Enabled(s, Drop(u)) && r != u
    ensures u < |s.threads|
    ensures StarvedOf(Apply(s, Drop(u)), r, k) <==>
              StarvedOf(s, r, k) || (Needs(s, r, k) && OnlyHope(s, u, k))
  {
    var a := Drop(u);
    hide Inv, Layout, Enabled, Apply, Lacking, Ahead, Able, Failed, TakesNext;
    LossFrame(s, a);
    NeedsSame(s, a, r, k);
    if Needs(s, r, k) {
      LackingRest(s, k);
      forall t: nat | t != u ensures Reaches(Apply(s, a), t, k) <==> Reaches(s, t, k) {
        OthersReach(s, a, t, k);
      }
      if Reaches(s, u, k) { TurnsAway(s, u, k); } else { NotNearer(s, u, k); }
    }
  }

  lemma NotNearer(s: State, u: nat, k: nat)
    requires Inv(s) && Enabled(s, Drop(u)) && Lacking(s, k) && !Reaches(s, u, k)
    ensures !Reaches(Apply(s, Drop(u)), u, k)
  {
    hide Inv, Layout, Enabled, Apply, Lacking, Reaches;
    Shaped(s);
    if Reaches(Apply(s, Drop(u)), u, k) { ReachesBefore(s, Drop(u), u, k); }
  }

  lemma DroppedNeedsNothing(s: State, u: nat, k: nat)
    requires Inv(s) && Enabled(s, Drop(u))
    ensures !Needs(s, u, k) && !Needs(Apply(s, Drop(u)), u, k)
  {
    hide Inv, Layout, Lacking;
    Shaped(s);
  }

  /** Losing a connection dooms a download exactly when its part is being waited for, or when
      it costs its thread the next part, which a thread with a refusing connection needs and
      nobody else can get to. */
  lemma DropDoomsIff(s: State, u: nat)
    requires Inv(s) && Enabled(s, Drop(u)) && !Doomed(s)
    ensures u < |s.threads|
    ensures Doomed(Apply(s, Drop(u))) <==>
              WaitedFor(s, u) || exists r: nat, k: nat :: Needs(s, r, k) && OnlyHope(s, u, k)
  {
    var a := Drop(u);
    hide Inv, Layout, Enabled, Apply, DoomedBy, StarvedOf, WaitedFor, Needs, OnlyHope;
    LossFrame(s, a);
    var s' := Apply(s, a);
    if WaitedFor(s, u) { WaitedDooms(s, u); }
    if r: nat, k: nat :| Needs(s, r, k) && OnlyHope(s, u, k) {
      DroppedNeedsNothing(s, u, k);
      DropStarves(s, u, r, k);
    }
    if Deadlocked(s') {
      var t: nat, v: nat :| DoomedBy(s', t, v);
      LossDeadlocks(s, a, t, v);
    }
    if SomeTrapped(s') { TrapsSame(s, a); }
    if Starved(s') {
      var r: nat, k: nat :| StarvedOf(s', r, k);
      StarvedNeeds(s', r, k);
      DroppedNeedsNothing(s, u, k);
      DropStarves(s, u, r, k);
    }
  }

  lemma StarvedNeeds(s: State, r: nat, k: nat)
    requires StarvedOf(s, r, k)
    ensures Needs(s, r, k)
  {
  }
}
