/** Reaching states: what one thread can do while the others do nothing. */
module DownloadReach {
  import opened Options
  import opened Parts
  import opened Download
  import opened DownloadSafety

  ghost predicate Leads(s: State, s': State) {
    exists acts: seq<Action> :: Run(s, acts) && After(s, acts) == s'
  }

  lemma LeadsNowhere(s: State)
    ensures Leads(s, s)
  {
    assert Run(s, []) && After(s, []) == s;
  }

  lemma LeadsOn(s: State, s': State, a: Action)
    requires Leads(s, s') && Shape(s') && Enabled(s', a)
    ensures Leads(s, Apply(s', a))
  {
    hide Enabled, Apply, Shape, Run, After;
    var acts: seq<Action> :| Run(s, acts) && After(s, acts) == s';
    RunSingle(s', a);
    RunAppend(s, acts, [a]);
  }

  lemma LeadsThrough(s: State, s': State, s'': State)
    requires Leads(s, s') && Leads(s', s'')
    ensures Leads(s, s'')
  {
    hide Run, After;
    var xs: seq<Action> :| Run(s, xs) && After(s, xs) == s';
    var ys: seq<Action> :| Run(s', ys) && After(s', ys) == s'';
    RunAppend(s, xs, ys);
  }

  lemma LeadsInv(s: State, s': State)
    requires Inv(s) && Leads(s, s')
    ensures Inv(s')
  {
    hide Inv, Run, After;
    var acts: seq<Action> :| Run(s, acts) && After(s, acts) == s';
    RunInv(s, acts);
  }

  // A thread among waiting and returned ones

  /** Nobody is working on a part or holds partsLock. */
  ghost predicate Calm(s: State) {
    && Inv(s) && s.lock.None?
    && forall u :: 0 <= u < |s.threads| ==> s.threads[u].pc.Waiting? || s.threads[u].pc.Returned?
  }

  /** Part k is the first unfinished one from `from` on. */
  ghost predicate FirstFrom(parts: seq<Part>, from: nat, k: nat) {
    from <= k < |parts| && parts[k].rest > 0 && AllDone(parts, from, k)
  }

  lemma CalmFlags(s: State, k: nat)
    requires Calm(s) && k < |s.parts|
    ensures Shape(s) && k < |s.using| && !s.using[k] && s.parts[k].id == k
  {
    hide ThreadOk, PrefixOk, RecordsOk, Conserved;
  }

  /** A thread that holds partsLock walks over finished parts. */
  lemma {:induction false} Walk(s: State, t: nat, end: nat)
    requires Inv(s) && t < |s.threads| && s.threads[t].pc.Scanning? && s.threads[t].pc.i <= end <= |s.parts|
    requires AllDone(s.parts, s.threads[t].pc.i, end)
    ensures Leads(s, s.With(t, s.threads[t].(pc := Scanning(end, s.threads[t].pc.finish))))
    decreases end as int - s.threads[t].pc.i as int
  {
    hide Inv, Layout, DoScan;
    Shaped(s);
    LeadsNowhere(s);
    var th := s.threads[t];
    if th.pc.i < end {
      var s1 := s.With(t, th.(pc := Scanning(th.pc.i + 1, th.pc.finish)));
      ScanEffect(s, t);
      assert Enabled(s, Scan(t)) && Apply(s, Scan(t)) == s1;
      LeadsOn(s, s, Scan(t));
      StepInv(s, Scan(t));
      Walk(s1, t, end);
      LeadsThrough(s, s1, s1.With(t, s1.threads[t].(pc := Scanning(end, th.pc.finish))));
      assert s1.With(t, s1.threads[t].(pc := Scanning(end, th.pc.finish)))
          == s.With(t, th.(pc := Scanning(end, th.pc.finish)));
    } else {
      assert s.With(t, th.(pc := Scanning(end, th.pc.finish))) == s;
    }
  }

  /** It claims the first unfinished part from its starting point ... */
  lemma Claims(s: State, t: nat, k: nat)
    requires Calm(s) && t < |s.threads| && s.threads[t].pc.Waiting?
    requires FirstFrom(s.parts, s.threads[t].startPart, k)
    ensures |s.using| == |s.parts|
    ensures Leads(s, s.(using := s.using[k := true]).With(t, s.threads[t].(pc := Connecting, part := Some(k))))
  {
    hide Inv, Layout, DoScan;
    CalmFlags(s, k);
    LeadsNowhere(s);
    var th := s.threads[t];
    var s1 := s.(lock := Some(t)).With(t, th.(pc := Scanning(th.startPart, true)));
    assert Enabled(s, Acquire(t)) && Apply(s, Acquire(t)) == s1;
    StepInv(s, Acquire(t));
    LeadsOn(s, s, Acquire(t));
    Walk(s1, t, k);
    var s2 := s1.With(t, th.(pc := Scanning(k, true)));
    assert s2 == s1.With(t, s1.threads[t].(pc := Scanning(k, s1.threads[t].pc.finish)));
    LeadsThrough(s, s1, s2);
    LeadsInv(s, s2);
    Shaped(s2);
    ScanEffect(s2, t);
    LeadsOn(s, s2, Scan(t));
    assert Apply(s2, Scan(t)) == s.(using := s.using[k := true]).With(t, th.(pc := Connecting, part := Some(k)));
  }

  /** ... or returns when there is none. */
  lemma Quits(s: State, t: nat)
    requires Calm(s) && t < |s.threads| && s.threads[t].pc.Waiting? && s.threads[t].startPart <= |s.parts|
    requires AllDone(s.parts, s.threads[t].startPart, |s.parts|)
    ensures Leads(s, s.With(t, s.threads[t].(pc := Returned)))
    ensures Calm(s.With(t, s.threads[t].(pc := Returned)))
  {
    hide Inv, Layout;
    Shaped(s);
    LeadsNowhere(s);
    var th := s.threads[t];
    var s1 := s.(lock := Some(t)).With(t, th.(pc := Scanning(th.startPart, true)));
    assert Enabled(s, Acquire(t)) && Apply(s, Acquire(t)) == s1;
    StepInv(s, Acquire(t));
    LeadsOn(s, s, Acquire(t));
    Walk(s1, t, |s.parts|);
    var s2 := s1.With(t, th.(pc := Scanning(|s.parts|, true)));
    assert s2 == s1.With(t, s1.threads[t].(pc := Scanning(|s.parts|, s1.threads[t].pc.finish)));
    LeadsThrough(s, s1, s2);
    LeadsInv(s, s2);
    Shaped(s2);
    LeadsOn(s, s2, EndPass(t));
    assert Apply(s2, EndPass(t)) == s.With(t, th.(pc := Returned));
    LeadsInv(s, s.With(t, th.(pc := Returned)));
  }

  /** A step that leads from one state to the next. */
  lemma Then(s: State, s1: State, a: Action, s2: State)
    requires Leads(s, s1) && Inv(s1) && Enabled(s1, a) && Apply(s1, a) == s2
    ensures Leads(s, s2) && Inv(s2)
  {
    hide Inv, Enabled, Apply;
    Shaped(s1);
    StepInv(s1, a);
    LeadsOn(s, s1, a);
  }

  /** Giving a part back. */
  lemma HandsBack(s: State, t: nat, k: nat)
    requires Inv(s) && t < |s.threads| && s.threads[t].pc.Releasing? && s.lock.None?
    requires s.threads[t].part == Some(k) && k < |s.parts| == |s.using|
    ensures var th := s.threads[t].(pc := Waiting, startPart := (k + 1) % |s.parts|, part := None);
            Leads(s, s.(using := s.using[k := false]).With(t, th))
  {
    hide Inv;
    Shaped(s);
    LeadsNowhere(s);
    assert s.parts[k].id == k;
    var th := s.threads[t];
    var s1 := s.(using := s.using[k := false]);
    Then(s, s, Release(t), s1.With(t, th.(pc := Released)));
    Then(s, s1.With(t, th.(pc := Released)), Advance(t),
         s1.With(t, th.(pc := Waiting, startPart := (k + 1) % |s.parts|, part := None)));
  }
}
