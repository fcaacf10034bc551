/** How a download is cut into parts, and where each thread starts looking for work. */
module Parts {
  import opened Bytes

  const PART_SIZE: nat := 64 * 1048576

  /** The largest file whose parts can be counted in a uint32_t: just short of 2^58 bytes. */
  const MAX_SIZE: nat := (TWO32 - 1) * PART_SIZE

  /** PartStatus: one record of the list of parts and of the .dlinfo file. */
  datatype Part = Part(id: nat, offset: nat, rest: nat, size: nat) {
    /** Bytes of this part already downloaded. */
    function Got(): int { size - rest }
    function End(): nat { offset + size }
  }

  function PartCount(total: nat): nat { (total + PART_SIZE - 1) / PART_SIZE }

  /** nPart, which is a uint32_t, is the number of parts exactly up to MAX_SIZE. */
  lemma CountFitsIff(total: nat)
    ensures PartCount(total) < TWO32 <==> total <= MAX_SIZE
  {
  }

  /** The resume loop counts its records with an int, which does not overflow up to half of
      that. */
  lemma ResumableIff(total: nat)
    ensures PartCount(total) < TWO31 <==> total <= (TWO31 - 1) * PART_SIZE
  {
  }

  function PartAt(i: nat, total: nat): (p: Part)
    requires i < PartCount(total)
  {
    var size := Min(PART_SIZE, total - i * PART_SIZE);
    Part(i, i * PART_SIZE, size, size)
  }

  /** The partition of a new download. */
  function Partition(total: nat): (ps: seq<Part>)
    ensures |ps| == PartCount(total)
  {
    seq(PartCount(total), i requires 0 <= i < PartCount(total) => PartAt(i, total))
  }

  /** The partition of `total` bytes with each part's first `size - rest` bytes downloaded. */
  predicate Layout(ps: seq<Part>, total: nat) {
    && |ps| == PartCount(total)
    && forall i :: 0 <= i < |ps| ==>
         && ps[i].id == i
         && ps[i].offset == i * PART_SIZE
         && ps[i].size == Min(PART_SIZE, total - i * PART_SIZE)
         && ps[i].rest <= ps[i].size
  }

  lemma PartitionIsLayout(total: nat)
    ensures Layout(Partition(total), total)
    ensures forall i :: 0 <= i < |Partition(total)| ==> Partition(total)[i].rest == Partition(total)[i].size
  {
  }

  /** Partition: ids are indices, sizes positive, offsets contiguous from 0 to total. */
  lemma PartitionCovers(ps: seq<Part>, total: nat)
    requires Layout(ps, total)
    ensures forall i :: 0 <= i < |ps| ==> ps[i].id == i && 0 < ps[i].size <= PART_SIZE
    ensures forall i :: 0 <= i < |ps| ==> ps[i].offset == if i == 0 then 0 else ps[i - 1].End()
    ensures |ps| > 0 ==> ps[|ps| - 1].End() == total
    ensures |ps| == 0 <==> total == 0
  {
    if |ps| > 0 {
      assert ps[|ps| - 1].offset == (|ps| - 1) * PART_SIZE;
    }
  }

  /** Every byte of the file lies in exactly one part. */
  lemma ByteInOnePart(ps: seq<Part>, total: nat, b: nat) returns (i: nat)
    requires Layout(ps, total) && b < total
    ensures i < |ps| && ps[i].offset <= b < ps[i].End()
    ensures forall j :: 0 <= j < |ps| && ps[j].offset <= b < ps[j].End() ==> j == i
  {
    i := b / PART_SIZE;
    assert ps[i].offset == i * PART_SIZE;
  }

  /** Parts do not overlap and stay inside the file. */
  lemma Disjoint(ps: seq<Part>, total: nat, i: nat, j: nat)
    requires Layout(ps, total) && i < |ps| && j < |ps|
    ensures i < j ==> ps[i].End() <= ps[j].offset
    ensures j < i ==> ps[j].End() <= ps[i].offset
    ensures ps[i].End() <= total
  {
    assert ps[i].offset == i * PART_SIZE && ps[j].offset == j * PART_SIZE;
  }

  /** `i * nPart / threads.size()`: the product is a uint32_t and wraps. */
  function StartPart(i: nat, nPart: nat, threads: nat): nat
    requires threads > 0
  {
    (i * nPart) % TWO32 / threads
  }

  lemma QuotientBelow(a: nat, n: nat, t: nat)
    requires t > 0 && a < n * t
    ensures a / t < n
  {
    assert a == a / t * t + a % t;
  }

  lemma {:induction false} ProductMonotone(i: nat, t: nat, n: nat)
    requires i <= t
    ensures i * n <= t * n
    decreases t - i
  {
    if i < t {
      ProductMonotone(i + 1, t, n);
      assert (i + 1) * n == i * n + n;
    }
  }

  /** Every thread starts inside the list of parts, wrap-around included, and thread 0 at
      part 0. */
  lemma StartInRange(i: nat, nPart: nat, threads: nat)
    requires i < threads
    ensures nPart > 0 ==> StartPart(i, nPart, threads) < nPart
    ensures nPart == 0 ==> StartPart(i, nPart, threads) == 0
    ensures StartPart(0, nPart, threads) == 0
  {
    var product: nat := i * nPart;
    assert 0 * nPart == 0;
    if nPart > 0 {
      ProductMonotone(i + 1, threads, nPart);
      assert (i + 1) * nPart == i * nPart + nPart;
      QuotientBelow(product % TWO32, nPart, threads);
    }
  }

  lemma Remainder(a: nat, t: nat)
    requires t > 0
    ensures a / t * t <= a < (a / t + 1) * t
  {
    assert a == a / t * t + a % t;
  }

  /** The parts that thread i looks at before any other thread does: from its own start to the
      next thread's, or to the end of the list. */
  function RangeEnd(i: nat, nPart: nat, threads: nat): nat
    requires threads > 0
  {
    if i + 1 < threads then StartPart(i + 1, nPart, threads) else nPart
  }

  /** The i-th position is the i-th multiple of nPart / threads, rounded down, exactly as long
      as the product does not wrap around. */
  lemma StartIffNoWrap(i: nat, nPart: nat, threads: nat)
    requires 0 < threads <= TWO32
    ensures StartPart(i, nPart, threads) * threads <= i * nPart % TWO32 < (StartPart(i, nPart, threads) + 1) * threads
    ensures StartPart(i, nPart, threads) * threads <= i * nPart
    ensures i * nPart < (StartPart(i, nPart, threads) + 1) * threads <==> i * nPart < TWO32
  {
    var product: nat := i * nPart;
    var low := product % TWO32;
    Remainder(low, threads);
    var q := low / threads;
    assert StartPart(i, nPart, threads) == q;
    if product >= TWO32 {
      assert low <= product - TWO32;
      assert (q + 1) * threads == q * threads + threads;
    }
  }

  lemma NoWrap(i: nat, nPart: nat, threads: nat)
    requires i < threads && (threads - 1) * nPart < TWO32
    ensures i * nPart < TWO32
  {
    ProductMonotone(i, threads - 1, nPart);
  }

  /** Thread i starts at the i-th multiple of nPart / threads, rounded down. */
  predicate Even(i: nat, nPart: nat, threads: nat)
    requires threads > 0
  {
    var start := StartPart(i, nPart, threads);
    start * threads <= i * nPart < (start + 1) * threads
  }

  /** All positions are evenly spaced exactly when the last product does not wrap around. */
  lemma EvenIff(nPart: nat, threads: nat)
    requires 0 < threads <= TWO32
    ensures (forall i :: 0 <= i < threads ==> Even(i, nPart, threads)) <==> (threads - 1) * nPart < TWO32
  {
    forall i: nat | i < threads ensures Even(i, nPart, threads) <==> i * nPart < TWO32 {
      StartIffNoWrap(i, nPart, threads);
    }
    hide Even;
    if (threads - 1) * nPart < TWO32 {
      forall i: nat | i < threads ensures Even(i, nPart, threads) {
        NoWrap(i, nPart, threads);
      }
    } else {
      assert !Even(threads - 1, nPart, threads);
    }
  }

  lemma Between(q: nat, q': nat, t: nat)
    requires q * t < (q' + 1) * t
    ensures q <= q'
  {
    if q > q' {
      ProductMonotone(q' + 1, q, t);
    }
  }

  /** Then a bound of a range is a multiple of nPart / threads, rounded down. */
  lemma Bound(i: nat, nPart: nat, threads: nat)
    requires i < threads <= TWO32 && (threads - 1) * nPart < TWO32
    ensures StartPart(i, nPart, threads) * threads <= i * nPart < (StartPart(i, nPart, threads) + 1) * threads
    ensures RangeEnd(i, nPart, threads) * threads <= (i + 1) * nPart < (RangeEnd(i, nPart, threads) + 1) * threads
  {
    NoWrap(i, nPart, threads);
    StartIffNoWrap(i, nPart, threads);
    if i + 1 < threads {
      NoWrap(i + 1, nPart, threads);
      StartIffNoWrap(i + 1, nPart, threads);
    } else {
      assert nPart * threads == threads * nPart < (nPart + 1) * threads;
    }
  }

  /** A thread's own range has nPart / threads parts, rounded down or up. */
  lemma RangeSize(i: nat, nPart: nat, threads: nat)
    requires i < threads <= TWO32 && (threads - 1) * nPart < TWO32
    ensures StartPart(i, nPart, threads) <= RangeEnd(i, nPart, threads) <= nPart
    ensures var size := RangeEnd(i, nPart, threads) - StartPart(i, nPart, threads);
            (size - 1) * threads < nPart < (size + 1) * threads
  {
    var a, b := StartPart(i, nPart, threads), RangeEnd(i, nPart, threads);
    Bound(i, nPart, threads);
    hide StartPart, RangeEnd;
    assert (i + 1) * nPart == i * nPart + nPart;
    assert (a + 1) * threads == a * threads + threads && (b + 1) * threads == b * threads + threads;
    Between(a, b, threads);
    ProductMonotone(i + 1, threads, nPart);
    assert nPart * threads == threads * nPart < (nPart + 1) * threads;
    Between(b, nPart, threads);
    assert (b - a - 1) * threads == b * threads - a * threads - threads;
    assert (b - a + 1) * threads == b * threads - a * threads + threads;
  }

  lemma {:induction false} StartsAscend(i: nat, j: nat, nPart: nat, threads: nat)
    requires i <= j < threads <= TWO32 && (threads - 1) * nPart < TWO32
    ensures StartPart(i, nPart, threads) <= StartPart(j, nPart, threads)
    decreases j - i
  {
    hide StartPart;
    if i < j {
      RangeSize(i, nPart, threads);
      StartsAscend(i + 1, j, nPart, threads);
    }
  }

  lemma {:induction false} RangeFrom(i: nat, nPart: nat, threads: nat, k: nat) returns (j: nat)
    requires i < threads && StartPart(i, nPart, threads) <= k < nPart
    ensures i <= j < threads && StartPart(j, nPart, threads) <= k < RangeEnd(j, nPart, threads)
    decreases threads - i
  {
    hide StartPart;
    if i + 1 < threads && StartPart(i + 1, nPart, threads) <= k {
      j := RangeFrom(i + 1, nPart, threads, k);
    } else {
      j := i;
    }
  }

  /** The start positions share out the parts: every part lies in the range of exactly one
      thread, in the order of the threads. */
  lemma RangesCover(nPart: nat, threads: nat, k: nat) returns (i: nat)
    requires 0 < threads <= TWO32 && (threads - 1) * nPart < TWO32 && k < nPart
    ensures i < threads && StartPart(i, nPart, threads) <= k < RangeEnd(i, nPart, threads)
    ensures forall j :: 0 <= j < threads && StartPart(j, nPart, threads) <= k < RangeEnd(j, nPart, threads) ==> j == i
  {
    StartInRange(0, nPart, threads);
    hide StartPart;
    i := RangeFrom(0, nPart, threads, k);
    forall j | 0 <= j < threads && StartPart(j, nPart, threads) <= k < RangeEnd(j, nPart, threads) ensures j == i {
      if j < i { StartsAscend(j + 1, i, nPart, threads); }
      if i < j { StartsAscend(i + 1, j, nPart, threads); }
    }
  }

  /** Where a thread looks after part i of n. */
  lemma NextStart(i: nat, n: nat)
    requires i < n
    ensures (i + 1) % n == if i + 1 < n then i + 1 else 0
  {
  }
}
