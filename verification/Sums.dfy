/** Sums over sequences of natural numbers, as used for progress counters and measures. */
module Sums {
  function Sum(xs: seq<nat>): nat {
    if xs == [] then 0 else xs[0] + Sum(xs[1..])
  }

  lemma {:induction false} SumUpdate(xs: seq<nat>, i: nat, v: nat)
    requires i < |xs|
    ensures Sum(xs[i := v]) == Sum(xs) - xs[i] + v
  {
    if i == 0 {
      assert xs[0 := v][1..] == xs[1..];
    } else {
      SumUpdate(xs[1..], i - 1, v);
      assert xs[i := v][1..] == xs[1..][i - 1 := v];
    }
  }

  lemma {:induction false} SumMonotone(xs: seq<nat>, ys: seq<nat>)
    requires |xs| == |ys|
    requires forall i :: 0 <= i < |xs| ==> xs[i] <= ys[i]
    ensures Sum(xs) <= Sum(ys)
  {
    if xs != [] {
      SumMonotone(xs[1..], ys[1..]);
    }
  }

  /** Replacing one entry while no other entry grows changes the sum by at most that much. */
  lemma SumReplace(xs: seq<nat>, ys: seq<nat>, i: nat)
    requires |xs| == |ys| && i < |xs|
    requires forall j :: 0 <= j < |xs| && j != i ==> ys[j] <= xs[j]
    ensures Sum(ys) <= Sum(xs) - xs[i] + ys[i]
  {
    SumUpdate(xs, i, ys[i]);
    SumMonotone(ys, xs[i := ys[i]]);
  }

  lemma {:induction false} SumZero(xs: seq<nat>)
    requires forall i :: 0 <= i < |xs| ==> xs[i] == 0
    ensures Sum(xs) == 0
  {
    if xs != [] {
      SumZero(xs[1..]);
    }
  }

  function Times(c: nat, x: nat): nat { c * x }

  lemma TimesAdds(c: nat, x: nat, y: nat)
    ensures Times(c, x + y) == Times(c, x) + Times(c, y) && Times(c, 0) == 0
  {
    assert c * (x + y) == c * x + c * y;
  }

  /** Terms that are multiples of two other lists' terms add up to multiples of their sums. */
  lemma {:induction false} SumTimes(xs: seq<nat>, ys: seq<nat>, zs: seq<nat>, c: nat, d: nat)
    requires |xs| == |ys| == |zs|
    requires forall i :: 0 <= i < |xs| ==> xs[i] == Times(c, ys[i]) + Times(d, zs[i])
    ensures Sum(xs) == Times(c, Sum(ys)) + Times(d, Sum(zs))
  {
    hide Times;
    if xs == [] {
      TimesAdds(c, 0, 0);
      TimesAdds(d, 0, 0);
    } else {
      SumTimes(xs[1..], ys[1..], zs[1..], c, d);
      TimesAdds(c, ys[0], Sum(ys[1..]));
      TimesAdds(d, zs[0], Sum(zs[1..]));
    }
  }

  lemma {:induction false} SumConstant(xs: seq<nat>, c: nat)
    requires forall i :: 0 <= i < |xs| ==> xs[i] == c
    ensures Sum(xs) == |xs| * c
  {
    if xs != [] {
      SumConstant(xs[1..], c);
      assert |xs| * c == c + |xs[1..]| * c;
    }
  }
}
