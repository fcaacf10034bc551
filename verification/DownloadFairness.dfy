/** Fault-free downloads end: a scheduler can keep one from ending only by never letting an
    owner go on that could go on all the time. */
module DownloadFairness {
  import opened Parts
  import opened Options
  import opened Download
  import opened DownloadSafety
  import opened DownloadProgress
  import opened DownloadMeasure
  import opened DownloadLiveness

  /** Thread u owns a part and it, or the server on its connection, has a productive step
      that does not need partsLock. */
  ghost predicate CanWork(s: State, u: nat) {
    Shape(s) && u < |s.threads| && s.threads[u].Owning() && !s.threads[u].pc.Releasing?
    && exists b: Action :: b.t == u && Enabled(s, b) && Productive(s, b)
  }

  /** Whenever a thread spins, the owner of a part it waits for can work. */
  lemma SpinHasWorker(s: State, a: Action) returns (u: nat)
    requires Inv(s) && Healthy(s) && Enabled(s, a) && Spins(s, a)
    ensures u != a.t && CanWork(s, u)
  {
    hide Inv, Layout, Enabled, Productive, PhaseOk;
    HealthyNotDoomed(s);
    Shaped(s);
    Seen(s, a.t);
    SpinnerScans(s, a);
    u := AwaitedOwner(s, a.t);
    var b := OwnerAction(s, u);
  }

  lemma SpinnerScans(s: State, a: Action)
    requires Shape(s) && Enabled(s, a) && Spins(s, a)
    ensures a.t < |s.threads| && s.threads[a.t].pc.Scanning? && s.lock == Some(a.t)
  {
  }

  /** A turn of a spin changes nothing but the place of the spinner in its pass. */
  lemma SpinChangesNothing(s: State, a: Action)
    requires Inv(s) && Enabled(s, a) && Spins(s, a)
    ensures var s' := Apply(s, a);
            && s'.job == s.job && s'.parts == s.parts && s'.using == s.using && s'.lock == s.lock == Some(a.t)
            && |s'.threads| == |s.threads|
            && forall u :: 0 <= u < |s.threads| && u != a.t ==> s'.threads[u] == s.threads[u]
  {
    hide Inv, Layout, Apply;
    Shaped(s);
    ApplyFrame(s, a);
    SpinInPlace(s, a);
    SpinKeepsLock(s, a);
  }

  lemma SpinKeepsLock(s: State, a: Action)
    requires Inv(s) && Enabled(s, a) && Spins(s, a)
    ensures Apply(s, a).lock == s.lock
  {
    hide Inv, Layout, PhaseOk, DoScan;
    Seen(s, a.t);
    if a.Scan? { ScanEffect(s, a.t); }
  }

  /** So whoever could work still can. */
  lemma WorkPersists(s: State, a: Action, u: nat)
    requires Inv(s) && Enabled(s, a) && Spins(s, a) && CanWork(s, u) && u != a.t
    ensures CanWork(Apply(s, a), u)
  {
    StepInv(s, a);
    SpinChangesNothing(s, a);
    var s' := Apply(s, a);
    hide Inv, Layout, Apply, Failed, AllDone;
    Shaped(s');
    var b: Action :| b.t == u && Enabled(s, b) && Productive(s, b);
    SameChoice(s, s', b);
  }

  lemma SameChoice(s: State, s': State, b: Action)
    requires Shape(s) && Shape(s') && Enabled(s, b) && !Faulty(b) && s.threads[b.t].Owning()
    requires s'.job == s.job && s'.lock == s.lock && |s'.threads| == |s.threads| && s'.threads[b.t] == s.threads[b.t]
    ensures Enabled(s', b) && Productive(s', b)
  {
  }

  // Executions that never end

  /** f(i) is the state before step a(i) of an endless fault-free execution. */
  ghost predicate Endless(f: nat -> State, a: nat -> Action) {
    Inv(f(0)) && Healthy(f(0)) && forall i: nat :: Goes(f, a, i)
  }

  ghost predicate Goes(f: nat -> State, a: nat -> Action, i: nat) {
    Shape(f(i)) && Enabled(f(i), a(i)) && !Faulty(a(i)) && f(i + 1) == Apply(f(i), a(i))
  }

  /** A thread that owns a part and could work all the time from some step on, itself or its
      server, does so at some time. */
  ghost predicate Fair(f: nat -> State, a: nat -> Action) {
    forall i: nat, u: nat :: AlwaysCanWork(f, i, u) ==> exists j: nat :: j >= i && a(j).t == u
  }

  ghost predicate AlwaysCanWork(f: nat -> State, i: nat, u: nat) {
    forall j: nat :: j >= i ==> CanWork(f(j), u)
  }

  lemma {:induction false} EndlessSound(f: nat -> State, a: nat -> Action, i: nat)
    requires Endless(f, a)
    ensures Inv(f(i)) && Healthy(f(i)) && Goes(f, a, i)
  {
    hide Inv, Healthy, Enabled, Apply;
    if i > 0 {
      EndlessSound(f, a, i - 1);
      StepInv(f(i - 1), a(i - 1));
      HealthyStays(f(i - 1), a(i - 1));
    }
  }

  lemma {:induction false} NeverRises(f: nat -> State, a: nat -> Action, i: nat, j: nat)
    requires Endless(f, a) && i <= j
    ensures Inv(f(i)) && Inv(f(j)) && Measure(f(j)) <= Measure(f(i))
    decreases j - i
  {
    hide Inv, Healthy, Enabled, Apply, Measure, Endless;
    EndlessSound(f, a, i);
    if i < j {
      NeverRises(f, a, i, j - 1);
      EndlessSound(f, a, j - 1);
      if Productive(f(j - 1), a(j - 1)) { MeasureFalls(f(j - 1), a(j - 1)); } else { SpinIsFree(f(j - 1), a(j - 1)); }
    }
  }

  ghost predicate SpinsFrom(f: nat -> State, a: nat -> Action, n: nat) {
    forall j: nat :: j >= n ==> Goes(f, a, j) && Spins(f(j), a(j))
  }

  /** From some step on every step is a turn of a spin. */
  lemma {:induction false} OnlySpins(f: nat -> State, a: nat -> Action, i: nat) returns (n: nat)
    requires Endless(f, a) && Inv(f(i))
    ensures n >= i && SpinsFrom(f, a, n)
    decreases Measure(f(i))
  {
    hide Inv, Healthy, Enabled, Apply, Measure, Endless, Spins, Goes;
    if j: nat :| j >= i && !(Goes(f, a, j) && Spins(f(j), a(j))) {
      EndlessSound(f, a, j);
      NeverRises(f, a, i, j);
      EndlessSound(f, a, j + 1);
      Falls(f, a, j);
      n := OnlySpins(f, a, j + 1);
    } else {
      n := i;
    }
  }

  lemma Falls(f: nat -> State, a: nat -> Action, j: nat)
    requires Inv(f(j)) && Goes(f, a, j) && !Spins(f(j), a(j))
    ensures Inv(f(j + 1)) && Measure(f(j + 1)) < Measure(f(j))
  {
    hide Inv, Enabled, Apply, Measure, Spins;
    MeasureFalls(f(j), a(j));
  }

  lemma SpinsOn(f: nat -> State, a: nat -> Action, i: nat, u: nat)
    requires Inv(f(i)) && Goes(f, a, i) && Spins(f(i), a(i)) && Goes(f, a, i + 1) && Spins(f(i + 1), a(i + 1))
    requires u != a(i).t && CanWork(f(i), u)
    ensures a(i + 1).t == a(i).t && CanWork(f(i + 1), u)
  {
    hide Inv, Enabled, Apply, CanWork, Spins;
    WorkPersists(f(i), a(i), u);
    SpinChangesNothing(f(i), a(i));
    SpinnerScans(f(i + 1), a(i + 1));
  }

  /** While nothing but spinning happens, it is one thread that spins, and the same owner
      can work all the time. */
  lemma {:induction false} SameSpinner(f: nat -> State, a: nat -> Action, n: nat, u: nat, j: nat)
    requires Endless(f, a) && SpinsFrom(f, a, n)
    requires n <= j && u != a(n).t && CanWork(f(n), u)
    ensures a(j).t == a(n).t && CanWork(f(j), u)
    decreases j - n
  {
    hide Endless, SpinsFrom, Goes, Inv, Healthy, CanWork, Spins;
    if j > n {
      SameSpinner(f, a, n, u, j - 1);
      EndlessSound(f, a, j - 1);
      SpinsAt(f, a, n, j - 1);
      SpinsAt(f, a, n, j);
      SpinsOn(f, a, j - 1, u);
    }
  }

  lemma SpinsAt(f: nat -> State, a: nat -> Action, n: nat, j: nat)
    requires SpinsFrom(f, a, n) && n <= j
    ensures Goes(f, a, j) && Spins(f(j), a(j))
  {
    hide Goes, Spins;
  }

  /** Progress, whole: no fair fault-free execution goes on for ever. By NeverStuck one can
      always go on until every thread has returned, so that is how fair executions end. */
  lemma FairRunsEnd(f: nat -> State, a: nat -> Action)
    requires Endless(f, a)
    ensures !Fair(f, a)
  {
    hide Inv, Healthy, Enabled, Apply, Endless, CanWork, Spins, SpinsFrom;
    EndlessSound(f, a, 0);
    var n := OnlySpins(f, a, 0);
    EndlessSound(f, a, n);
    SpinsAt(f, a, n, n);
    var u := SpinHasWorker(f(n), a(n));
    forall j: nat | j >= n ensures CanWork(f(j), u) && a(j).t != u {
      SameSpinner(f, a, n, u, j);
    }
    assert AlwaysCanWork(f, n, u);
  }

  /** A fault-free run that has made as many productive steps as its measure allows has
      returned every thread. */
  lemma ExhaustedRunsEnd(s: State, acts: seq<Action>)
    requires Inv(s) && Healthy(s) && Run(s, acts) && FaultFree(acts)
    requires Progressing(s, acts) >= Measure(s)
    ensures AllReturned(After(s, acts))
  {
    hide Inv, Healthy, Run, After, Progressing, Measure, AllReturned, FaultFree;
    BoundedProgress(s, acts);
    if !AllReturned(After(s, acts)) {
      var a := NeverStuck(s, acts);
    }
  }
}
