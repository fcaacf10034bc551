/** Exactly when a download can still end: a run that returns every thread is put together
    from three stretches. First everybody settles without anybody taking partsLock; then the
    threads that can go on work alone, one after the other, until they return; then those
    with refusing connections look and find everything finished. */
module DownloadEnding {
  import opened Parts
  import opened Download
  import opened DownloadSafety
  import opened DownloadProgress
  import opened DownloadMeasure
  import opened DownloadDoom
  import opened DownloadHope
  import opened DownloadLiveness
  import opened DownloadReach

  // Settling

  /** Something other than taking the lock that gets the download forward. */
  lemma SettlingStep(s: State) returns (a: Action)
    requires Inv(s) && !Doomed(s) && !Calm(s)
    ensures Enabled(s, a) && !a.Acquire? && Productive(s, a)
  {
    hide Inv, Layout, PhaseOk, Deadlocked, Starved;
    Shaped(s);
    if s.lock.Some? {
      a := HolderChoice(s, s.lock.value);
    } else {
      var u: nat :| u < |s.threads| && !s.threads[u].pc.Waiting? && !s.threads[u].pc.Returned?;
      assert !Trapped(s, u);
      if s.threads[u].pc.Released? {
        a := Advance(u);
      } else if s.threads[u].pc.Releasing? {
        a := Release(u);
      } else {
        a := OwnerAction(s, u);
      }
    }
  }

  lemma {:induction false} Settle(s: State) returns (s': State)
    requires Inv(s) && !Doomed(s)
    ensures Leads(s, s') && Calm(s') && !Doomed(s')
    decreases Measure(s)
  {
    hide Inv, Layout, Leads, Calm, Doomed, Enabled, Apply, Spins, Measure;
    LeadsNowhere(s);
    if Calm(s) {
      s' := s;
    } else {
      var a := SettlingStep(s);
      Shaped(s);
      MeasureFalls(s, a);
      NoNewDoom(s, a);
      s' := Settle(Apply(s, a));
      LeadsOn(s, s, a);
      LeadsThrough(s, Apply(s, a), s');
    }
  }

  // Working alone

  lemma AloneAction(s: State, t: nat) returns (a: Action)
    requires Inv(s) && Alone(s, t) && !Refuses(s.threads[t].link) && !s.threads[t].pc.Returned?
    ensures a.t == t && Enabled(s, a) && Productive(s, a)
  {
    hide Inv, Layout, PhaseOk;
    AloneFlags(s, t);
    Seen(s, t);
    var th := s.threads[t];
    match th.pc {
      case Waiting => a := Acquire(t);
      case Scanning(i, _) => a := if i < |s.parts| then Scan(t) else EndPass(t);
      case Releasing => a := Release(t);
      case Released => a := Advance(t);
      case _ => a := OwnerAction(s, t);
    }
  }

  lemma AloneStep(s: State, t: nat, a: Action)
    requires Inv(s) && Alone(s, t) && !Refuses(s.threads[t].link) && Enabled(s, a) && Productive(s, a) && a.t == t
    ensures var s' := Apply(s, a);
            && Inv(s') && Alone(s', t) && !Refuses(s'.threads[t].link) && s'.threads == s.threads[t := s'.threads[t]]
            && Measure(s') < Measure(s) && |s'.parts| == |s.parts| && (!Doomed(s) ==> !Doomed(s'))
  {
    hide Inv, Layout, Enabled, Apply, Measure, Refuses, Spins, Doomed;
    Shaped(s);
    ApplyFrame(s, a);
    MeasureFalls(s, a);
    RefusalBefore(s, a);
    if !Doomed(s) { NoNewDoom(s, a); }
  }

  /** Thread t has still to come to a part after its step exactly if it had before. */
  lemma StillComes(s: State, t: nat, a: Action, k: nat)
    requires Inv(s) && Alone(s, t) && !Refuses(s.threads[t].link) && Enabled(s, a) && Productive(s, a) && a.t == t
    ensures Lacking(Apply(s, a), k) && !Reaches(Apply(s, a), t, k) <==> Lacking(s, k) && !Reaches(s, t, k)
  {
    hide Inv, Layout, Enabled, Apply, Lacking, Reaches, Refuses, Spins, Delivers;
    Shaped(s);
    if Lacking(Apply(s, a), k) && !Reaches(Apply(s, a), t, k) {
      LackingBefore(s, a, k);
      if Reaches(s, t, k) { var u := ReachesKept(s, a, t, k); }
    }
    if Lacking(s, k) && !Reaches(s, t, k) {
      if Delivers(s, a) && s.threads[t].Owns(k) { DelivererReaches(s, a, k); }
      LackingKept(s, a, k);
      if Reaches(Apply(s, a), t, k) { ReachesBefore(s, a, t, k); }
    }
  }

  /** A thread whose connection does not refuse requests can work alone until it returns, and
      then exactly those parts are unfinished that were lacking and out of its reach. */
  lemma {:induction false} WorksAlone(s: State, t: nat) returns (s': State)
    requires Inv(s) && Alone(s, t) && !Refuses(s.threads[t].link) && !s.threads[t].pc.Returned?
    ensures Leads(s, s') && Calm(s') && |s'.threads| == |s.threads| && s'.threads == s.threads[t := s'.threads[t]]
    ensures s'.threads[t].pc.Returned? && |s'.parts| == |s.parts|
    ensures forall k: nat :: k < |s.parts| ==> (s'.parts[k].rest > 0 <==> Lacking(s, k) && !Reaches(s, t, k))
    ensures !Doomed(s) ==> !Doomed(s')
    decreases Measure(s)
  {
    hide Inv, Layout, Leads, Enabled, Apply, Productive, Measure, Refuses, Lacking, Reaches, Doomed;
    Shaped(s);
    LeadsNowhere(s);
    var a := AloneAction(s, t);
    AloneStep(s, t, a);
    LeadsOn(s, s, a);
    var s1 := Apply(s, a);
    if s1.threads[t].pc.Returned? {
      AloneFlags(s1, t);
      s' := s1;
      ReturnedLacks(s1, t);
    } else {
      s' := WorksAlone(s1, t);
      LeadsThrough(s, s1, s');
    }
    forall k: nat | k < |s.parts| ensures s'.parts[k].rest > 0 <==> Lacking(s, k) && !Reaches(s, t, k) {
      StillComes(s, t, a, k);
    }
  }

  lemma ReturnedLacks(s: State, t: nat)
    requires Inv(s) && Alone(s, t) && s.threads[t].pc.Returned?
    ensures forall k: nat :: !Reaches(s, t, k)
    ensures forall k: nat :: k < |s.parts| ==> (s.parts[k].rest > 0 <==> Lacking(s, k))
  {
    hide Inv, Layout, Ahead, Undelivered;
  }

  /** A thread that has nothing more to give: it has returned or keeps a refusing connection. */
  predicate Useless(th: Thread) { th.pc.Returned? || Refuses(th.link) }

  /** Whoever can work does, from thread i on. */
  lemma {:induction false} AllWork(s: State, i: nat) returns (s': State)
    requires Calm(s) && !Doomed(s) && i <= |s.threads| && forall u :: 0 <= u < i ==> Useless(s.threads[u])
    ensures Leads(s, s') && Calm(s') && !Doomed(s') && forall u :: 0 <= u < |s'.threads| ==> Useless(s'.threads[u])
    decreases |s.threads| - i
  {
    hide Inv, Layout, Leads, Refuses, Doomed, Lacking, Reaches;
    LeadsNowhere(s);
    if i == |s.threads| {
      s' := s;
    } else if Useless(s.threads[i]) {
      s' := AllWork(s, i + 1);
    } else {
      var s1 := WorksAlone(s, i);
      s' := AllWork(s1, i + 1);
      LeadsThrough(s, s1, s');
    }
  }

  // The others return

  lemma CalmLacks(s: State, k: nat)
    requires Calm(s) && k < |s.parts|
    ensures Lacking(s, k) <==> s.parts[k].rest > 0
  {
    hide Inv, Undelivered;
  }

  /** With nobody left to help, nobody left needs anything. */
  lemma NothingNeeded(s: State, r: nat)
    requires Calm(s) && !Doomed(s) && r < |s.threads| && !s.threads[r].pc.Returned?
    requires forall u :: 0 <= u < |s.threads| ==> Useless(s.threads[u])
    ensures s.threads[r].startPart <= |s.parts| && AllDone(s.parts, s.threads[r].startPart, |s.parts|)
  {
    hide Inv, Lacking, Deadlocked, SomeTrapped;
    Seen(s, r);
    assert Useless(s.threads[r]);
    forall k: nat | s.threads[r].startPart <= k < |s.parts| ensures s.parts[k].rest == 0 {
      CalmLacks(s, k);
      assert !StarvedOf(s, r, k);
    }
  }

  lemma {:induction false} AllQuit(s: State, i: nat) returns (s': State)
    requires Calm(s) && i <= |s.threads| && forall u :: 0 <= u < i ==> s.threads[u].pc.Returned?
    requires forall u :: i <= u < |s.threads| && !s.threads[u].pc.Returned? ==>
               s.threads[u].startPart <= |s.parts| && AllDone(s.parts, s.threads[u].startPart, |s.parts|)
    ensures Leads(s, s') && AllReturned(s')
    decreases |s.threads| - i
  {
    hide Inv, Leads, AllDone;
    LeadsNowhere(s);
    if i == |s.threads| {
      s' := s;
    } else if s.threads[i].pc.Returned? {
      s' := AllQuit(s, i + 1);
    } else {
      Quits(s, i);
      var s1 := s.With(i, s.threads[i].(pc := Returned));
      s' := AllQuit(s1, i + 1);
      LeadsThrough(s, s1, s');
    }
  }

  // The exact condition

  /** Some continuation returns every thread. */
  ghost predicate CanFinish(s: State) {
    exists acts: seq<Action> :: Run(s, acts) && AllReturned(After(s, acts))
  }

  lemma FinishingRun(s: State) returns (acts: seq<Action>)
    requires Inv(s) && !Doomed(s)
    ensures Run(s, acts) && AllReturned(After(s, acts))
  {
    hide Inv, Run, After, Doomed, AllReturned, Refuses;
    var s1 := Settle(s);
    var s2 := AllWork(s1, 0);
    forall u: nat | u < |s2.threads| && !s2.threads[u].pc.Returned?
      ensures s2.threads[u].startPart <= |s2.parts| && AllDone(s2.parts, s2.threads[u].startPart, |s2.parts|)
    {
      NothingNeeded(s2, u);
    }
    var s3 := AllQuit(s2, 0);
    LeadsThrough(s, s1, s2);
    LeadsThrough(s, s2, s3);
    var xs: seq<Action> :| Run(s, xs) && After(s, xs) == s3;
    acts := xs;
  }

  /** A reachable state, lost and refusing connections included, can still end exactly when it
      is not doomed: no thread spins on partsLock for a part whose owner cannot finish it, no
      thread has claimed or is about to claim a part over a refusing connection, and whatever
      must be finished before such a thread can return is in reach of another one. */
  lemma CanFinishIffNotDoomed(s: State)
    requires Inv(s)
    ensures CanFinish(s) <==> !Doomed(s)
  {
    hide Inv, Run, After, Doomed, AllReturned;
    if Doomed(s) {
      forall acts: seq<Action> | Run(s, acts) ensures !AllReturned(After(s, acts)) {
        DoomIsForever(s, acts);
      }
    } else {
      var acts := FinishingRun(s);
    }
  }

  predicate LastMissing(parts: seq<Part>) { |parts| > 0 && parts[|parts| - 1].rest > 0 }

  /** In a calm state thread t can finish part k: the last part is unfinished, so it comes round
      to every part, or it looks for parts at k or before. With a failed connection it must
      lose an unfinished part first. */
  predicate Helps(s: State, t: nat, k: nat)
    requires t < |s.threads|
  {
    var th := s.threads[t];
    && th.pc.Waiting? && !Refuses(th.link)
    && (LastMissing(s.parts)
        || if th.link.DeadLink? then exists j :: th.startPart <= j < k && j < |s.parts| && s.parts[j].rest > 0
           else th.startPart <= k)
  }

  lemma HelpsIsReaches(s: State, t: nat, k: nat)
    requires Calm(s) && t < |s.threads| && k < |s.parts|
    ensures Helps(s, t, k) <==> Reaches(s, t, k)
  {
    hide Inv, Lacking;
    CalmLacks(s, |s.parts| - 1);
    var from := s.threads[t].startPart;
    assert LacksBetween(s, from, k) <==> exists j :: from <= j < k && j < |s.parts| && s.parts[j].rest > 0 by {
      forall j: nat | j < |s.parts| ensures Lacking(s, j) <==> s.parts[j].rest > 0 {
        CalmLacks(s, j);
      }
    }
  }

  /** Thread r keeps a refusing connection and unfinished part k lies where it looks. */
  predicate Wants(s: State, r: nat, k: nat)
    requires r < |s.threads|
  {
    && s.threads[r].pc.Waiting? && Refuses(s.threads[r].link)
    && s.threads[r].startPart <= k < |s.parts| && s.parts[k].rest > 0
  }

  lemma WantsIsNeeds(s: State, r: nat, k: nat)
    requires Calm(s) && r < |s.threads|
    ensures Wants(s, r, k) <==> Needs(s, r, k)
  {
    hide Inv, Lacking;
    if k < |s.parts| { CalmLacks(s, k); } else if Needs(s, r, k) { LackingRest(s, k); }
  }

  lemma CalmDoom(s: State)
    requires Calm(s)
    ensures Doomed(s) <==> Starved(s)
  {
    hide Inv, StarvedOf;
  }

  /** While nobody works or holds partsLock the download can still end exactly when every
      unfinished part at or behind the scan point of a refusing thread has a helper. */
  lemma CalmCanFinishIff(s: State)
    requires Calm(s)
    ensures CanFinish(s) <==>
              forall r, k :: 0 <= r < |s.threads| && 0 <= k && Wants(s, r, k) ==>
                exists t :: 0 <= t < |s.threads| && Helps(s, t, k)
  {
    hide Inv, CanFinish, Doomed, Helps, Wants, Needs, Reaches;
    CanFinishIffNotDoomed(s);
    CalmDoom(s);
    forall r: nat, k: nat ensures Needs(s, r, k) ==> r < |s.threads| && k < |s.parts| && Wants(s, r, k) {
      if Needs(s, r, k) {
        NeedLacks(s, r, k);
        LackingRest(s, k);
        NeederExists(s, r, k);
        WantsIsNeeds(s, r, k);
      }
    }
    forall t: nat, k: nat | k < |s.parts| ensures Reaches(s, t, k) <==> t < |s.threads| && Helps(s, t, k) {
      if Reaches(s, t, k) { ReacherExists(s, t, k); }
      if t < |s.threads| { HelpsIsReaches(s, t, k); }
    }
    if !Starved(s) {
      forall r: nat, k: nat | r < |s.threads| && Wants(s, r, k)
        ensures exists t :: 0 <= t < |s.threads| && Helps(s, t, k)
      {
        WantsIsNeeds(s, r, k);
        NeedLacks(s, r, k);
        LackingRest(s, k);
        assert !StarvedOf(s, r, k);
        var t: nat :| Reaches(s, t, k);
      }
    }
  }

  lemma NeederExists(s: State, r: nat, k: nat)
    requires Needs(s, r, k)
    ensures r < |s.threads|
  {
  }

  lemma ReacherExists(s: State, t: nat, k: nat)
    requires Reaches(s, t, k)
    ensures t < |s.threads|
  {
    hide Ahead;
  }
}
