/** The tuning lattice of the XenQnt quantizer.

    A scale is a list of cent offsets above the tonic whose last entry is the
    period (1200 cents for an octave-repeating tuning). Its lattice is every
    voltage `k * period / 1200 + offset / 1200` inside the module's voltage
    window, where `k` is any integer and `offset` is 0 or one of the scale's
    entries. This module defines that lattice, the two sequences the table
    builder emits while it walks the scale upward and downward, and the lemmas
    that turn the builder's loop-exit facts into the lattice characterisation.
 */
module Tuning {

  /** Lowest and highest voltage in the table (16 Hz and 17 kHz if 0 V is middle C). */
  const MIN_VOLT: real := -4.0
  const MAX_VOLT: real := 6.0

  function Last(s: seq<real>): real
    requires |s| > 0
  {
    s[|s| - 1]
  }

  predicate StrictlyAscending(s: seq<real>) {
    forall i, j :: 0 <= i < j < |s| ==> s[i] < s[j]
  }

  predicate Ascending(s: seq<real>) {
    forall i, j :: 0 <= i < j < |s| ==> s[i] <= s[j]
  }

  /** A scale the builder handles as intended: positive, strictly increasing
      cents, the last of which is the period. */
  predicate WellFormed(cents: seq<real>) {
    |cents| > 0 && cents[0] > 0.0 && StrictlyAscending(cents)
  }

  predicate InRange(x: real) {
    MIN_VOLT <= x <= MAX_VOLT
  }

  /** `k` whole periods, in cents, built up one period at a time the way the
      builder accumulates its period offset (PeriodsIsProduct: it is `k * period`). */
  function Periods(period: real, k: int): real
    decreases if k < 0 then -k else k
  {
    if k == 0 then 0.0
    else if k > 0 then Periods(period, k - 1) + period
    else Periods(period, k + 1) - period
  }

  /** The voltage of `offset` cents in period number `k`. */
  function Point(period: real, k: int, offset: real): real {
    Periods(period, k) / 1200.0 + offset / 1200.0
  }

  /** An offset a lattice point may carry: the tonic or one of the scale's entries. */
  predicate IsOffset(cents: seq<real>, o: real) {
    o == 0.0 || o in cents
  }

  ghost predicate OnLattice(cents: seq<real>, x: real)
    requires |cents| > 0
  {
    exists k: int, o: real :: IsOffset(cents, o) && x == Point(Last(cents), k, o)
  }

  /** `pitches` is the lattice of `cents` inside the voltage window, in
      strictly ascending order: nothing missing, nothing extra, no repeats. */
  ghost predicate IsLatticeOf(pitches: seq<real>, cents: seq<real>)
    requires |cents| > 0
  {
    && StrictlyAscending(pitches)
    && (forall x :: x in pitches <==> InRange(x) && OnLattice(cents, x))
  }

  // ---------------------------------------------------------------------------
  // The builder's walk over the scale
  // ---------------------------------------------------------------------------

  /** The voltage the upward pass computes at entry `i` of pass `k`. */
  function Up(cents: seq<real>, k: nat, i: nat): real
    requires i < |cents|
  {
    Point(Last(cents), k, cents[i])
  }

  /** The list the downward pass walks backward: the period dropped, 0 put in front. */
  function Rotated(cents: seq<real>): (d: seq<real>)
    requires |cents| > 0
    ensures |d| == |cents| && d[0] == 0.0
    ensures forall q :: 0 < q < |d| ==> d[q] == cents[q - 1]
  {
    [0.0] + cents[..|cents| - 1]
  }

  /** The voltage the downward pass computes at step `r` of pass `k`
      (step `r` reads the rotated list from its end). */
  function Down(cents: seq<real>, k: nat, r: nat): real
    requires r < |cents|
  {
    Point(Last(cents), -(k as int) - 1, Rotated(cents)[|cents| - 1 - r])
  }

  /** The downward pass computes `Down` from its running period offset. */
  lemma DownFromOffset(cents: seq<real>, k: nat, r: nat)
    requires r < |cents|
    ensures Point(Last(cents), -(k as int), 0.0) + (Rotated(cents)[|cents| - 1 - r] - Last(cents)) / 1200.0
            == Down(cents, k, r)
  {
    PeriodStep(Last(cents), -(k as int) - 1);
  }

  /** A completed downward pass leaves the offset one period lower, and a
      completed pass inside the window bounds the number of passes. */
  lemma DownPassDone(cents: seq<real>, k: nat)
    requires |cents| > 0 && Last(cents) > 0.0 && Down(cents, k, |cents| - 1) >= MIN_VOLT
    ensures Down(cents, k, |cents| - 1) == Point(Last(cents), -(k as int) - 1, 0.0)
    ensures k + 1 <= (-MIN_VOLT * 1200.0 / Last(cents)).Floor
  {
    var P := Last(cents);
    assert Rotated(cents)[0] == 0.0;
    PeriodsNegate(P, k + 1);
    PeriodsIsProduct(P, k + 1);
    PassesBounded(P, k + 1, -MIN_VOLT);
  }

  /** A completed upward pass leaves the offset one period higher, and a
      completed pass inside the window bounds the number of passes. */
  lemma UpPassDone(cents: seq<real>, k: nat)
    requires |cents| > 0 && Last(cents) > 0.0 && Up(cents, k, |cents| - 1) <= MAX_VOLT
    ensures Up(cents, k, |cents| - 1) == Point(Last(cents), k + 1, 0.0)
    ensures k + 1 <= (MAX_VOLT * 1200.0 / Last(cents)).Floor
  {
    var P := Last(cents);
    PeriodCarry(P, k);
    PeriodsIsProduct(P, k + 1);
    PassesBounded(P, k + 1, MAX_VOLT);
  }

  /** Everything the upward pass has appended before entry `m` of pass `k`. */
  function Ups(cents: seq<real>, k: nat, m: nat): seq<real>
    requires m <= |cents|
    decreases k, m
  {
    if m > 0 then Ups(cents, k, m - 1) + [Up(cents, k, m - 1)]
    else if k > 0 then Ups(cents, k - 1, |cents|)
    else []
  }

  /** Everything the downward pass has prepended before step `r` of pass `k`,
      in the order it sits in the table (ascending for a well-formed scale). */
  function Lows(cents: seq<real>, k: nat, r: nat): seq<real>
    requires r <= |cents|
    decreases k, r
  {
    if r > 0 then [Down(cents, k, r - 1)] + Lows(cents, k, r - 1)
    else if k > 0 then Lows(cents, k - 1, |cents|)
    else []
  }

  /** The entry just before entry `m` in a pass of the upward walk (0 before the first). */
  function PrevUp(cents: seq<real>, m: nat): real
    requires m <= |cents|
  {
    if m == 0 then 0.0 else cents[m - 1]
  }

  /** The rotated entry just before step `r` in a pass of the downward walk
      (the period before the first step). */
  function PrevDown(cents: seq<real>, r: nat): real
    requires 0 < |cents| && r <= |cents|
  {
    if r == 0 then Last(cents) else Rotated(cents)[|cents| - r]
  }

  // ---------------------------------------------------------------------------
  // Arithmetic on lattice points
  // ---------------------------------------------------------------------------

  lemma PeriodStep(period: real, k: int)
    ensures Periods(period, k + 1) == Periods(period, k) + period
  {
  }

  lemma PeriodCarry(period: real, k: int)
    ensures Point(period, k, period) == Point(period, k + 1, 0.0)
  {
    PeriodStep(period, k);
  }

  lemma {:induction false} PeriodsIsProduct(period: real, k: int)
    ensures Periods(period, k) == k as real * period
    decreases if k < 0 then -k else k
  {
    if k > 0 {
      PeriodsIsProduct(period, k - 1);
      assert k as real * period == (k - 1) as real * period + period;
    } else if k < 0 {
      PeriodsIsProduct(period, k + 1);
      assert k as real * period == (k + 1) as real * period - period;
    }
  }

  lemma {:induction false} PeriodsNegate(period: real, k: nat)
    ensures Periods(period, -(k as int)) == -Periods(period, k)
  {
    if k > 0 {
      PeriodsNegate(period, k - 1);
    }
  }

  lemma {:induction false} WholePeriods(period: real, j: int, k: int)
    requires period > 0.0 && j < k
    ensures Periods(period, j) + period <= Periods(period, k)
    decreases k - j
  {
    PeriodStep(period, k - 1);
    if j < k - 1 {
      WholePeriods(period, j, k - 1);
    }
  }

  lemma PeriodsNonNegative(period: real, k: int)
    requires period > 0.0 && k >= 0
    ensures Periods(period, k) >= 0.0
  {
    if k > 0 {
      WholePeriods(period, 0, k);
    }
  }

  lemma PointOrder(period: real, j: int, k: int, o: real, p: real)
    requires period > 0.0 && j < k && o <= period && 0.0 <= p
    ensures Point(period, j, o) <= Point(period, k, p)
  {
    WholePeriods(period, j, k);
  }

  lemma PointOrderStrict(period: real, j: int, k: int, o: real, p: real)
    requires period > 0.0 && j < k && o < period && 0.0 <= p
    ensures Point(period, j, o) < Point(period, k, p)
  {
    WholePeriods(period, j, k);
  }

  /** A pass that reaches `bound` bounds the number of whole periods below it. */
  lemma PassesBounded(period: real, k: int, bound: real)
    requires period > 0.0 && k as real * period / 1200.0 <= bound
    ensures k <= (bound * 1200.0 / period).Floor
  {
    var q := bound * 1200.0 / period;
    assert q * period == bound * 1200.0;
    assert k as real <= q;
  }

  /** An upward walk stopped at its first point above the window has emitted
      every point of the walk that lies at or below MAX_VOLT. */
  lemma UpsComplete(cents: seq<real>, ku: nat, iu: nat)
    requires WellFormed(cents) && iu < |cents| && Up(cents, ku, iu) > MAX_VOLT
    ensures forall j: nat, i: nat :: i < |cents| && Up(cents, j, i) <= MAX_VOLT ==> Up(cents, j, i) in Ups(cents, ku, iu)
  {
    forall j: nat, i: nat | i < |cents| && Up(cents, j, i) <= MAX_VOLT
      ensures Up(cents, j, i) in Ups(cents, ku, iu)
    {
      if !(j < ku || (j == ku && i < iu)) {
        UpMonotone(cents, ku, iu, j, i);
        assert false;
      }
      UpsContain(cents, j, i, ku, iu);
    }
  }

  /** A downward walk stopped at its first point below the window has emitted
      every point of the walk that lies at or above MIN_VOLT. */
  lemma LowsComplete(cents: seq<real>, kd: nat, rd: nat)
    requires WellFormed(cents) && rd < |cents| && Down(cents, kd, rd) < MIN_VOLT
    ensures forall j: nat, r: nat :: r < |cents| && MIN_VOLT <= Down(cents, j, r) ==> Down(cents, j, r) in Lows(cents, kd, rd)
  {
    forall j: nat, r: nat | r < |cents| && MIN_VOLT <= Down(cents, j, r)
      ensures Down(cents, j, r) in Lows(cents, kd, rd)
    {
      if !(j < kd || (j == kd && r < rd)) {
        DownMonotone(cents, kd, rd, j, r);
        assert false;
      }
      LowsContain(cents, j, r, kd, rd);
    }
  }

  // ---------------------------------------------------------------------------
  // What the walk produces
  // ---------------------------------------------------------------------------

  lemma {:induction false} UpsOnLattice(cents: seq<real>, k: nat, m: nat)
    requires 0 < |cents| && m <= |cents|
    ensures forall x :: x in Ups(cents, k, m) ==> OnLattice(cents, x)
    decreases k, m
  {
    if m > 0 {
      UpsOnLattice(cents, k, m - 1);
      var x := Up(cents, k, m - 1);
      assert IsOffset(cents, cents[m - 1]);
      assert x == Point(Last(cents), k, cents[m - 1]);
    } else if k > 0 {
      UpsOnLattice(cents, k - 1, |cents|);
    }
  }

  lemma {:induction false} LowsOnLattice(cents: seq<real>, k: nat, r: nat)
    requires 0 < |cents| && r <= |cents|
    ensures forall x :: x in Lows(cents, k, r) ==> OnLattice(cents, x)
    decreases k, r
  {
    if r > 0 {
      LowsOnLattice(cents, k, r - 1);
      var d := Rotated(cents);
      var q := |cents| - 1 - (r - 1);
      assert IsOffset(cents, d[q]) by {
        if q > 0 { assert d[q] == cents[q - 1]; }
      }
      assert Down(cents, k, r - 1) == Point(Last(cents), -(k as int) - 1, d[q]);
    } else if k > 0 {
      LowsOnLattice(cents, k - 1, |cents|);
    }
  }

  lemma AppendAscending(s: seq<real>, y: real)
    requires StrictlyAscending(s) && forall x :: x in s ==> x < y
    ensures StrictlyAscending(s + [y])
  {
    forall i, j | 0 <= i < j < |s| + 1 ensures (s + [y])[i] < (s + [y])[j] {
      if j == |s| {
        assert s[i] in s;
      }
    }
  }

  lemma PrependAscending(y: real, s: seq<real>)
    requires StrictlyAscending(s) && forall x :: x in s ==> y < x
    ensures StrictlyAscending([y] + s)
  {
    forall i, j | 0 <= i < j < |s| + 1 ensures ([y] + s)[i] < ([y] + s)[j] {
      assert s[j - 1] in s;
      if i > 0 {
        assert ([y] + s)[i] == s[i - 1];
      }
    }
  }

  /** For a well-formed scale the upward walk emits a strictly ascending list of
      positive voltages, none above the point it would compute next. */
  lemma {:induction false} UpsAscending(cents: seq<real>, k: nat, m: nat)
    requires WellFormed(cents) && m <= |cents|
    ensures StrictlyAscending(Ups(cents, k, m))
    ensures forall x :: x in Ups(cents, k, m) ==> 0.0 < x <= Point(Last(cents), k, PrevUp(cents, m))
    decreases k, m
  {
    var P := Last(cents);
    if m > 0 {
      UpsAscending(cents, k, m - 1);
      var prefix := Ups(cents, k, m - 1);
      var y := Up(cents, k, m - 1);
      assert PrevUp(cents, m - 1) < cents[m - 1];
      assert y == Point(P, k, cents[m - 1]);
      assert 0.0 < y by {
        PeriodsNonNegative(P, k);
      }
      assert forall x :: x in prefix ==> x < y;
      AppendAscending(prefix, y);
    } else if k > 0 {
      UpsAscending(cents, k - 1, |cents|);
      PeriodCarry(P, k - 1);
    }
  }

  /** For a well-formed scale the downward walk emits a strictly ascending list
      of negative voltages, none below the last point it computed. */
  lemma {:induction false} LowsAscending(cents: seq<real>, k: nat, r: nat)
    requires WellFormed(cents) && r <= |cents|
    ensures StrictlyAscending(Lows(cents, k, r))
    ensures forall x :: x in Lows(cents, k, r) ==>
                         Point(Last(cents), -(k as int) - 1, PrevDown(cents, r)) <= x < 0.0
    decreases k, r
  {
    var P := Last(cents);
    var n := |cents|;
    var d := Rotated(cents);
    if r > 0 {
      LowsAscending(cents, k, r - 1);
      var suffix := Lows(cents, k, r - 1);
      var q := n - r;
      var y := Down(cents, k, r - 1);
      assert y == Point(P, -(k as int) - 1, d[q]);
      assert 0.0 <= d[q] < PrevDown(cents, r - 1) by {
        if q > 0 { assert d[q] == cents[q - 1]; }
        if r - 1 > 0 { assert d[q + 1] == cents[q]; }
      }
      assert y < 0.0 by {
        PointOrderStrict(P, -(k as int) - 1, 0, d[q], 0.0);
      }
      assert forall x :: x in suffix ==> y < x;
      PrependAscending(y, suffix);
    } else if k > 0 {
      LowsAscending(cents, k - 1, n);
      assert d[0] == 0.0;
      PeriodCarry(P, -(k as int) - 1);
    }
  }

  lemma {:induction false} UpsContain(cents: seq<real>, j: nat, i: nat, k: nat, m: nat)
    requires i < |cents| && m <= |cents|
    requires j < k || (j == k && i < m)
    ensures Up(cents, j, i) in Ups(cents, k, m)
    decreases k, m
  {
    if m > 0 {
      if !(j == k && i == m - 1) {
        UpsContain(cents, j, i, k, m - 1);
      }
    } else {
      UpsContain(cents, j, i, k - 1, |cents|);
    }
  }

  lemma {:induction false} LowsContain(cents: seq<real>, j: nat, i: nat, k: nat, r: nat)
    requires i < |cents| && r <= |cents|
    requires j < k || (j == k && i < r)
    ensures Down(cents, j, i) in Lows(cents, k, r)
    decreases k, r
  {
    if r > 0 {
      if !(j == k && i == r - 1) {
        LowsContain(cents, j, i, k, r - 1);
      }
    } else {
      LowsContain(cents, j, i, k - 1, |cents|);
    }
  }

  /** The upward walk never comes back down. */
  lemma UpMonotone(cents: seq<real>, k: nat, m: nat, j: nat, i: nat)
    requires WellFormed(cents) && m < |cents| && i < |cents|
    requires k < j || (k == j && m <= i)
    ensures Up(cents, k, m) <= Up(cents, j, i)
  {
    if k < j {
      PointOrder(Last(cents), k, j, cents[m], cents[i]);
    }
  }

  /** The downward walk never comes back up. */
  lemma DownMonotone(cents: seq<real>, k: nat, m: nat, j: nat, i: nat)
    requires WellFormed(cents) && m < |cents| && i < |cents|
    requires k < j || (k == j && m <= i)
    ensures Down(cents, j, i) <= Down(cents, k, m)
  {
    var n := |cents|;
    var d := Rotated(cents);
    assert forall q :: 0 <= q < n ==> 0.0 <= d[q] <= Last(cents) by {
      forall q | 0 <= q < n ensures 0.0 <= d[q] <= Last(cents) {
        if q > 0 { assert d[q] == cents[q - 1]; }
      }
    }
    if k < j {
      PointOrder(Last(cents), -(j as int) - 1, -(k as int) - 1, d[n - 1 - i], d[n - 1 - m]);
    } else {
      assert d[n - 1 - i] <= d[n - 1 - m] by {
        if n - 1 - i > 0 {
          assert d[n - 1 - i] == cents[n - 2 - i];
          assert d[n - 1 - m] == cents[n - 2 - m];
        }
      }
    }
  }

  /** Where the builder's walks stopped: the upward walk at the first point
      above the window, the downward walk at the first point below it. */
  ghost predicate Stopped(cents: seq<real>, ku: nat, iu: nat, kd: nat, rd: nat) {
    && WellFormed(cents) && iu < |cents| && rd < |cents|
    && Up(cents, ku, iu) > MAX_VOLT && Down(cents, kd, rd) < MIN_VOLT
  }

  /** The table assembled from the two walks and the 0 V tonic between them. */
  function Assembled(cents: seq<real>, ku: nat, iu: nat, kd: nat, rd: nat): seq<real>
    requires iu <= |cents| && rd <= |cents|
  {
    Lows(cents, kd, rd) + [0.0] + Ups(cents, ku, iu)
  }

  /** A whole number of periods inside the window is in the table. */
  lemma CompleteWhole(cents: seq<real>, ku: nat, iu: nat, kd: nat, rd: nat, k: int)
    requires Stopped(cents, ku, iu, kd, rd) && InRange(Point(Last(cents), k, 0.0))
    ensures Point(Last(cents), k, 0.0) in Assembled(cents, ku, iu, kd, rd)
  {
    var P, n := Last(cents), |cents|;
    if k == 0 {
      assert Point(P, k, 0.0) == 0.0;
    } else if k > 0 {
      PeriodCarry(P, k - 1);
      assert Point(P, k, 0.0) == Up(cents, k - 1, n - 1);
      UpsComplete(cents, ku, iu);
    } else {
      assert Rotated(cents)[0] == 0.0;
      assert Point(P, k, 0.0) == Down(cents, -k - 1, n - 1);
      LowsComplete(cents, kd, rd);
    }
  }

  /** A point carrying a scale entry below the period, inside the window, is in the table. */
  lemma CompleteDegree(cents: seq<real>, ku: nat, iu: nat, kd: nat, rd: nat, k: int, i: nat)
    requires Stopped(cents, ku, iu, kd, rd) && i < |cents| - 1
    requires InRange(Point(Last(cents), k, cents[i]))
    ensures Point(Last(cents), k, cents[i]) in Assembled(cents, ku, iu, kd, rd)
  {
    var P, n := Last(cents), |cents|;
    if k >= 0 {
      assert Point(P, k, cents[i]) == Up(cents, k, i);
      UpsComplete(cents, ku, iu);
    } else {
      assert Rotated(cents)[i + 1] == cents[i];
      assert Point(P, k, cents[i]) == Down(cents, -k - 1, n - 2 - i);
      LowsComplete(cents, kd, rd);
    }
  }

  /** Every in-window lattice point is emitted by one of the two walks. */
  lemma Complete(cents: seq<real>, ku: nat, iu: nat, kd: nat, rd: nat, k: int, o: real)
    requires Stopped(cents, ku, iu, kd, rd)
    requires IsOffset(cents, o) && InRange(Point(Last(cents), k, o))
    ensures Point(Last(cents), k, o) in Assembled(cents, ku, iu, kd, rd)
  {
    var P, n := Last(cents), |cents|;
    if o == 0.0 {
      CompleteWhole(cents, ku, iu, kd, rd, k);
    } else {
      var i :| 0 <= i < n && cents[i] == o;
      if i == n - 1 {
        PeriodCarry(P, k);
        CompleteWhole(cents, ku, iu, kd, rd, k + 1);
      } else {
        CompleteDegree(cents, ku, iu, kd, rd, k, i);
      }
    }
  }

  lemma AroundZeroAscending(lows: seq<real>, ups: seq<real>)
    requires StrictlyAscending(lows) && StrictlyAscending(ups)
    requires forall x :: x in lows ==> x < 0.0
    requires forall x :: x in ups ==> 0.0 < x
    ensures StrictlyAscending(lows + [0.0] + ups)
  {
    PrependAscending(0.0, ups);
    var tail := [0.0] + ups;
    forall a, b | 0 <= a < b < |lows| + |tail| ensures (lows + tail)[a] < (lows + tail)[b] {
      if a < |lows| <= b {
        assert lows[a] in lows;
        assert tail[b - |lows|] == 0.0 || tail[b - |lows|] in ups;
      } else if |lows| <= a {
        assert (lows + tail)[a] == tail[a - |lows|] && (lows + tail)[b] == tail[b - |lows|];
      }
    }
    assert lows + [0.0] + ups == lows + tail;
  }

  /** The table the builder assembles from its two walks is exactly the
      lattice of a well-formed scale: strictly ascending, inside the window,
      and holding every in-window lattice point. */
  lemma BuiltTableIsLattice(cents: seq<real>, ku: nat, iu: nat, kd: nat, rd: nat)
    requires Stopped(cents, ku, iu, kd, rd)
    requires forall x :: x in Ups(cents, ku, iu) ==> x <= MAX_VOLT
    requires forall x :: x in Lows(cents, kd, rd) ==> MIN_VOLT <= x
    ensures IsLatticeOf(Assembled(cents, ku, iu, kd, rd), cents)
  {
    var lows, ups := Lows(cents, kd, rd), Ups(cents, ku, iu);
    var table := Assembled(cents, ku, iu, kd, rd);
    LowsAscending(cents, kd, rd);
    UpsAscending(cents, ku, iu);
    AroundZeroAscending(lows, ups);
    LowsOnLattice(cents, kd, rd);
    UpsOnLattice(cents, ku, iu);
    assert OnLattice(cents, 0.0) by {
      assert IsOffset(cents, 0.0) && 0.0 == Point(Last(cents), 0, 0.0);
    }
    forall x ensures x in table <==> InRange(x) && OnLattice(cents, x) {
      if InRange(x) && OnLattice(cents, x) {
        var k, o :| IsOffset(cents, o) && x == Point(Last(cents), k, o);
        Complete(cents, ku, iu, kd, rd, k, o);
      }
    }
  }

  /** A lattice table holds the 0 V tonic exactly once. */
  lemma ZeroExactlyOnce(pitches: seq<real>, cents: seq<real>)
    requires |cents| > 0 && IsLatticeOf(pitches, cents)
    ensures exists z :: 0 <= z < |pitches| && pitches[z] == 0.0
    ensures forall z, z' ::
              0 <= z < |pitches| && 0 <= z' < |pitches| && pitches[z] == 0.0 && pitches[z'] == 0.0 ==> z == z'
  {
    assert IsOffset(cents, 0.0) && 0.0 == Point(Last(cents), 0, 0.0);
    assert 0.0 in pitches;
  }

  /** Two strictly ascending lists with the same elements are the same list. */
  lemma {:induction false} AscendingUnique(a: seq<real>, b: seq<real>)
    requires StrictlyAscending(a) && StrictlyAscending(b)
    requires forall x :: x in a <==> x in b
    ensures a == b
  {
    if a != [] { assert a[0] in a; }
    if b != [] { assert b[0] in b; }
    if a != [] && b != [] {
      assert a[0] == b[0];
      assert a == [a[0]] + a[1..] && b == [b[0]] + b[1..];
      forall x ensures x in a[1..] <==> x in b[1..] {
        if x in a[1..] {
          var z :| 0 <= z < |a| - 1 && a[1..][z] == x;
          assert a[z + 1] > a[0] && a[z + 1] in a;
          assert x in b && x != b[0];
          assert x in [b[0]] + b[1..];
        }
        if x in b[1..] {
          var z :| 0 <= z < |b| - 1 && b[1..][z] == x;
          assert b[z + 1] > b[0] && b[z + 1] in b;
          assert x in a && x != a[0];
          assert x in [a[0]] + a[1..];
        }
      }
      AscendingUnique(a[1..], b[1..]);
    }
  }

  /** The lattice of a scale determines its table completely. */
  lemma LatticeUnique(p: seq<real>, q: seq<real>, cents: seq<real>)
    requires |cents| > 0 && IsLatticeOf(p, cents) && IsLatticeOf(q, cents)
    ensures p == q
  {
    AscendingUnique(p, q);
  }

  // ---------------------------------------------------------------------------
  // The 12-tone equal default
  // ---------------------------------------------------------------------------

  /** The 12-tone equal scale: 100, 200, ..., 1200 cents. */
  function TwelveTone(): (s: seq<real>)
    ensures WellFormed(s) && Last(s) == 1200.0
  {
    seq(12, i requires 0 <= i < 12 => (i + 1) as real * 100.0)
  }

  /** The default table: from MIN_VOLT up in steps of 1/12 V while at most MAX_VOLT. */
  function DefaultTable(): (s: seq<real>)
    ensures |s| > 0 && s[0] == MIN_VOLT
    ensures forall t :: 0 < t < |s| ==> s[t] == s[t - 1] + 1.0 / 12.0
    ensures forall t :: 0 <= t < |s| ==> InRange(s[t])
    ensures Last(s) + 1.0 / 12.0 > MAX_VOLT
  {
    seq(121, t requires 0 <= t < 121 => MIN_VOLT + t as real / 12.0)
  }

  /** The default table is the lattice of the 12-tone equal scale. */
  lemma DefaultTableIsLattice()
    ensures WellFormed(TwelveTone())
    ensures IsLatticeOf(DefaultTable(), TwelveTone())
  {
    var s, table := TwelveTone(), DefaultTable();
    assert Last(s) == 1200.0;
    forall x ensures x in table <==> InRange(x) && OnLattice(s, x) {
      if x in table {
        var t :| 0 <= t < 121 && table[t] == x;
        var m := t % 12;
        var k := t / 12 - 4;
        assert t == 12 * (t / 12) + m;
        var o := m as real * 100.0;
        assert IsOffset(s, o) by {
          if m > 0 { assert s[m - 1] == o; }
        }
        PeriodsIsProduct(1200.0, k);
        assert x == Point(1200.0, k, o);
      }
      if InRange(x) && OnLattice(s, x) {
        var k, o :| IsOffset(s, o) && x == Point(1200.0, k, o);
        var m: int := if o == 0.0 then 0 else var i :| 0 <= i < 12 && s[i] == o; i + 1;
        assert o == m as real * 100.0;
        PeriodsIsProduct(1200.0, k);
        var t := 12 * k + m + 48;
        assert x == MIN_VOLT + t as real / 12.0;
        assert 0 <= t < 121;
        assert table[t] == x;
      }
    }
  }

  /** Loading the 12-tone equal scale builds the same table as the default. */
  lemma TwelveToneTableIsDefault(p: seq<real>)
    requires IsLatticeOf(p, TwelveTone())
    ensures p == DefaultTable()
  {
    DefaultTableIsLattice();
    LatticeUnique(p, DefaultTable(), TwelveTone());
  }
}
