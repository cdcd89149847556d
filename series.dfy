/**
 * The pandas column primitives the indicator engine is built from, over exact
 * reals: a trailing `rolling(window)` mean and sample standard deviation, the
 * recursive `ewm(span, adjust=False)` mean, `diff` and cell-wise arithmetic.
 * A column is a sequence of cells; `None` is a NaN cell.
 */
module Series {
  import opened Wrappers

  type Column = seq<Option<real>>

  /** The number a cell holds, NaN counting as 0 (used only where every cell is known to hold one). */
  function Val(c: Option<real>): real
  {
    if c.Some? then c.value else 0.0
  }

  /** Every cell of xs[lo..hi] holds a number. */
  predicate DefinedOn(xs: Column, lo: nat, hi: nat)
    requires lo <= hi <= |xs|
  {
    forall k :: lo <= k < hi ==> xs[k].Some?
  }

  predicate AllDefined(xs: Column)
  {
    forall k :: 0 <= k < |xs| ==> xs[k].Some?
  }

  /** Every number among the cells xs[lo..hi] lies in [a, b]. */
  predicate BoundedOn(xs: Column, lo: nat, hi: nat, a: real, b: real)
    requires lo <= hi <= |xs|
  {
    forall k :: lo <= k < hi && xs[k].Some? ==> a <= xs[k].value <= b
  }

  /** The numbers of a column none of whose cells is NaN. */
  function Values(xs: Column): (vs: seq<real>)
    requires AllDefined(xs)
    ensures |vs| == |xs|
  {
    seq(|xs|, k requires 0 <= k < |xs| => xs[k].value)
  }

  /** The textbook arithmetic sum and mean, the reference for the rolling mean. */
  function Sum(s: seq<real>): real
  {
    if s == [] then 0.0 else s[0] + Sum(s[1..])
  }

  function Mean(s: seq<real>): real
    requires |s| > 0
  {
    Sum(s) / |s| as real
  }

  /** The number of cells of a column that hold a number. */
  function CountDefined(xs: Column): nat
  {
    if xs == [] then 0
    else CountDefined(xs[..|xs| - 1]) + (if xs[|xs| - 1].Some? then 1 else 0)
  }

  // ---------------------------------------------------------------------------
  // rolling(window)

  /** The sum of the cells xs[lo..hi], accumulated left to right. */
  function SumRange(xs: Column, lo: nat, hi: nat): real
    requires lo <= hi <= |xs|
    decreases hi - lo
  {
    if lo == hi then 0.0 else SumRange(xs, lo, hi - 1) + Val(xs[hi - 1])
  }

  /** The sum of squared deviations from m of the cells xs[lo..hi]. */
  function SqDevRange(xs: Column, lo: nat, hi: nat, m: real): (r: real)
    requires lo <= hi <= |xs|
    ensures 0.0 <= r
    decreases hi - lo
  {
    if lo == hi then 0.0
    else
      var d := Val(xs[hi - 1]) - m;
      SquareNonNegative(d);
      SqDevRange(xs, lo, hi - 1, m) + d * d
  }

  lemma SquareNonNegative(d: real)
    ensures 0.0 <= d * d
  {
  }


  /** `rolling(window).mean()` at row i: the mean of the trailing window, NaN
      while fewer than `window` rows exist or when a cell of the window is NaN
      (the default `min_periods` is the window size). */
  function RollingMeanAt(xs: Column, w: nat, i: nat): Option<real>
    requires 1 <= w && i < |xs|
  {
    if i + 1 < w || !DefinedOn(xs, i + 1 - w, i + 1) then None
    else Some(SumRange(xs, i + 1 - w, i + 1) / w as real)
  }

  function RollingMean(xs: Column, w: nat): (r: Column)
    requires 1 <= w
    ensures |r| == |xs|
  {
    seq(|xs|, i requires 0 <= i < |xs| => RollingMeanAt(xs, w, i))
  }

  /** `rolling(window).std()` at row i: the sample standard deviation (ddof = 1),
      NaN on the same rows as the mean and, besides, everywhere when the window
      is 1. `sqrt` is the square root. */
  function RollingStdAt(xs: Column, w: nat, i: nat, sqrt: real -> real): Option<real>
    requires 1 <= w && i < |xs|
  {
    if w < 2 || i + 1 < w || !DefinedOn(xs, i + 1 - w, i + 1) then None
    else
      var lo := i + 1 - w;
      var m := SumRange(xs, lo, i + 1) / w as real;
      Some(sqrt(SqDevRange(xs, lo, i + 1, m) / (w - 1) as real))
  }

  function RollingStd(xs: Column, w: nat, sqrt: real -> real): (r: Column)
    requires 1 <= w
    ensures |r| == |xs|
  {
    seq(|xs|, i requires 0 <= i < |xs| => RollingStdAt(xs, w, i, sqrt))
  }

  /** What the model needs to know of the square root. */
  ghost predicate SqrtLike(sqrt: real -> real)
  {
    sqrt(0.0) == 0.0 && forall x :: 0.0 <= x ==> 0.0 <= sqrt(x)
  }

  // ---------------------------------------------------------------------------
  // ewm(span, adjust=False).mean()

  /** The smoothing factor pandas derives from a span: 2 / (span + 1). */
  function Alpha(span: nat): (a: real)
    requires 1 <= span
    ensures 0.0 < a <= 1.0
  {
    assert (span as real + 1.0) * 1.0 >= 2.0;
    2.0 / (span as real + 1.0)
  }

  /** The running state of pandas' exponentially weighted mean: the current
      weighted value (NaN until the first number) and the weight of the old value. */
  datatype EwmState = EwmState(weighted: Option<real>, oldWt: real)

  /** One step of the recursion with adjust=False and ignore_na=False: the old
      weight decays by (1 - alpha) on every row, NaN rows included, and the new
      number enters with weight alpha; a NaN row keeps the weighted value. */
  function EwmStep(alpha: real, st: EwmState, cur: Option<real>): (next: EwmState)
    requires 0.0 < alpha <= 1.0 && 0.0 <= st.oldWt <= 1.0
    ensures 0.0 <= next.oldWt <= 1.0
  {
    match st.weighted
    case None => if cur.Some? then EwmState(cur, st.oldWt) else st
    case Some(y) =>
      var decayed := Decay(st.oldWt, alpha);
      if cur.None? then EwmState(st.weighted, decayed)
      else EwmState(Some(Blend(decayed, alpha, y, cur.value)), 1.0)
  }

  /** The old weight after one more row: w (1 - alpha). */
  function Decay(w: real, alpha: real): (r: real)
    requires 0.0 <= w <= 1.0 && 0.0 < alpha <= 1.0
    ensures 0.0 <= r <= w
  {
    w * (1.0 - alpha)
  }

  /** The weighted average of y (weight d) and x (weight a). */
  function Blend(d: real, a: real, y: real, x: real): real
    requires 0.0 <= d && 0.0 < a
  {
    (d * y + a * x) / (d + a)
  }

  /** The textbook update: alpha parts of the new number x, (1 - alpha) parts of the previous value. */
  function Smooth(alpha: real, x: real, prev: real): real
  {
    alpha * x + (1.0 - alpha) * prev
  }

  /** The state after rows 0..i. */
  function EwmAt(alpha: real, xs: Column, i: nat): (st: EwmState)
    requires 0.0 < alpha <= 1.0 && i < |xs|
    ensures 0.0 <= st.oldWt <= 1.0
  {
    if i == 0 then EwmState(xs[0], 1.0)
    else EwmStep(alpha, EwmAt(alpha, xs, i - 1), xs[i])
  }

  function Ewm(alpha: real, xs: Column): (r: Column)
    requires 0.0 < alpha <= 1.0
    ensures |r| == |xs|
  {
    seq(|xs|, i requires 0 <= i < |xs| => EwmAt(alpha, xs, i).weighted)
  }

  /** The textbook recursion y0 = x0, yt = alpha xt + (1 - alpha) y(t-1), the
      reference for `Ewm` on a column without NaN. */
  function EmaReference(alpha: real, xs: seq<real>, t: nat): real
    requires t < |xs|
  {
    if t == 0 then xs[0] else Smooth(alpha, xs[t], EmaReference(alpha, xs, t - 1))
  }

  // ---------------------------------------------------------------------------
  // diff, where and cell-wise arithmetic (NaN propagates)

  function CellAdd(a: Option<real>, b: Option<real>): Option<real>
  {
    if a.Some? && b.Some? then Some(a.value + b.value) else None
  }

  function CellSub(a: Option<real>, b: Option<real>): Option<real>
  {
    if a.Some? && b.Some? then Some(a.value - b.value) else None
  }

  function CellScale(a: Option<real>, k: real): Option<real>
  {
    if a.Some? then Some(a.value * k) else None
  }

  function ColumnAdd(xs: Column, ys: Column): (r: Column)
    requires |xs| == |ys|
    ensures |r| == |xs|
  {
    seq(|xs|, i requires 0 <= i < |xs| => CellAdd(xs[i], ys[i]))
  }

  function ColumnSub(xs: Column, ys: Column): (r: Column)
    requires |xs| == |ys|
    ensures |r| == |xs|
  {
    seq(|xs|, i requires 0 <= i < |xs| => CellSub(xs[i], ys[i]))
  }

  function ColumnScale(xs: Column, k: real): (r: Column)
    ensures |r| == |xs|
  {
    seq(|xs|, i requires 0 <= i < |xs| => CellScale(xs[i], k))
  }

  /** `diff()`: row 0 has no predecessor and is NaN. */
  function Diff(xs: Column): (r: Column)
    ensures |r| == |xs|
  {
    seq(|xs|, i requires 0 <= i < |xs| => if i == 0 then None else CellSub(xs[i], xs[i - 1]))
  }

  /** Row i of `diff()` holds a number exactly when rows i - 1 and i do, and then
      it is the move from one to the other. */
  lemma DiffMove(xs: Column, i: nat)
    requires i < |xs|
    ensures Diff(xs)[i].Some? <==> 0 < i && xs[i].Some? && xs[i - 1].Some?
    ensures Diff(xs)[i].Some? ==> xs[i].value == xs[i - 1].value + Diff(xs)[i].value
  {
  }

  // ---------------------------------------------------------------------------
  // Lemmas about the sums

  lemma {:induction false} SumRangeFront(xs: Column, lo: nat, hi: nat)
    requires lo < hi <= |xs|
    ensures SumRange(xs, lo, hi) == Val(xs[lo]) + SumRange(xs, lo + 1, hi)
    decreases hi - lo
  {
    if lo + 1 < hi {
      SumRangeFront(xs, lo, hi - 1);
    }
  }

  /** The accumulated window sum is the arithmetic sum of the window's numbers. */
  lemma {:induction false} SumRangeIsSum(xs: Column, lo: nat, hi: nat)
    requires lo <= hi <= |xs| && DefinedOn(xs, lo, hi)
    ensures AllDefined(xs[lo..hi])
    ensures SumRange(xs, lo, hi) == Sum(Values(xs[lo..hi]))
    decreases hi - lo
  {
    assert AllDefined(xs[lo..hi]);
    if lo < hi {
      SumRangeFront(xs, lo, hi);
      SumRangeIsSum(xs, lo + 1, hi);
      var vs := Values(xs[lo..hi]);
      assert vs[1..] == Values(xs[lo + 1..hi]);
      assert vs[0] == Val(xs[lo]);
    }
  }

  lemma {:induction false} SumRangeBounds(xs: Column, lo: nat, hi: nat, a: real, b: real)
    requires lo <= hi <= |xs| && DefinedOn(xs, lo, hi) && BoundedOn(xs, lo, hi, a, b)
    ensures (hi - lo) as real * a <= SumRange(xs, lo, hi) <= (hi - lo) as real * b
    decreases hi - lo
  {
    if lo < hi {
      SumRangeBounds(xs, lo, hi - 1, a, b);
      var k := (hi - 1 - lo) as real;
      assert (hi - lo) as real * a == k * a + a;
      assert (hi - lo) as real * b == k * b + b;
    }
  }

  /** A sum of non-negative cells is non-negative, and zero exactly when every cell is. */
  lemma {:induction false} SumRangeNonNegative(xs: Column, lo: nat, hi: nat)
    requires lo <= hi <= |xs|
    requires forall k :: lo <= k < hi ==> 0.0 <= Val(xs[k])
    ensures 0.0 <= SumRange(xs, lo, hi)
    ensures SumRange(xs, lo, hi) == 0.0 <==> forall k :: lo <= k < hi ==> Val(xs[k]) == 0.0
    decreases hi - lo
  {
    if lo < hi {
      SumRangeNonNegative(xs, lo, hi - 1);
    }
  }

  lemma {:induction false} SqDevRangeConstant(xs: Column, lo: nat, hi: nat, v: real)
    requires lo <= hi <= |xs|
    requires forall k :: lo <= k < hi ==> xs[k] == Some(v)
    ensures SqDevRange(xs, lo, hi, v) == 0.0
    decreases hi - lo
  {
    if lo < hi {
      SqDevRangeConstant(xs, lo, hi - 1, v);
    }
  }

  // ---------------------------------------------------------------------------
  // Lemmas about rolling(window).mean()

  /** Row i of the rolling mean holds a number exactly when a full window of
      numbers ends there, and then it is the mean of that trailing window. */
  lemma RollingMeanIsMean(xs: Column, w: nat, i: nat)
    requires 1 <= w && i < |xs|
    ensures RollingMean(xs, w)[i].Some? <==> w <= i + 1 && DefinedOn(xs, i + 1 - w, i + 1)
    ensures RollingMean(xs, w)[i].Some? ==>
              AllDefined(xs[i + 1 - w..i + 1])
              && RollingMean(xs, w)[i].value == Mean(Values(xs[i + 1 - w..i + 1]))
  {
    if w <= i + 1 && DefinedOn(xs, i + 1 - w, i + 1) {
      SumRangeIsSum(xs, i + 1 - w, i + 1);
    }
  }

  /** The rolling mean of a column of non-negative numbers holds a number from
      row w - 1 on, and every one of them is non-negative. */
  lemma RollingMeanNonNegative(xs: Column, w: nat)
    requires 1 <= w
    requires forall k :: 0 <= k < |xs| ==> xs[k].Some? && 0.0 <= xs[k].value
    ensures forall i :: 0 <= i < |xs| ==>
              (RollingMean(xs, w)[i].Some? <==> w - 1 <= i)
              && (RollingMean(xs, w)[i].Some? ==> 0.0 <= RollingMean(xs, w)[i].value)
  {
    forall i | 0 <= i < |xs| && w - 1 <= i
      ensures 0.0 <= RollingMean(xs, w)[i].value
    {
      SumRangeNonNegative(xs, i + 1 - w, i + 1);
    }
  }

  /** On a column without NaN the first w - 1 rows are NaN and every later row
      holds a number; a column shorter than the window is NaN throughout. */
  lemma RollingMeanWarmUp(xs: Column, w: nat)
    requires 1 <= w && AllDefined(xs)
    ensures forall i :: 0 <= i < |xs| ==> (RollingMean(xs, w)[i].Some? <==> w - 1 <= i)
    ensures |xs| < w ==> forall i :: 0 <= i < |xs| ==> RollingMean(xs, w)[i] == None
  {
  }

  /** On a column of n numbers the rolling mean holds exactly n - w + 1 numbers
      (none when n < w). */
  lemma RollingMeanDefinedCount(xs: Column, w: nat)
    requires 1 <= w && AllDefined(xs)
    ensures CountDefined(RollingMean(xs, w)) == if |xs| < w then 0 else |xs| - w + 1
  {
    var r := RollingMean(xs, w);
    CountTail(r, w - 1);
  }

  /** A column whose first k cells are NaN and whose later cells hold numbers. */
  lemma {:induction false} CountTail(r: Column, k: nat)
    requires forall i :: 0 <= i < |r| ==> (r[i].Some? <==> k <= i)
    ensures CountDefined(r) == if |r| < k then 0 else |r| - k
  {
    if r != [] {
      var p := r[..|r| - 1];
      assert forall i :: 0 <= i < |p| ==> p[i] == r[i];
      CountTail(p, k);
    }
  }

  /** The rolling mean stays within the bounds of its window. */
  lemma RollingMeanBounds(xs: Column, w: nat, i: nat, a: real, b: real)
    requires 1 <= w && w <= i + 1 < |xs| + 1
    requires BoundedOn(xs, i + 1 - w, i + 1, a, b)
    ensures RollingMean(xs, w)[i].Some? ==> a <= RollingMean(xs, w)[i].value <= b
  {
    if DefinedOn(xs, i + 1 - w, i + 1) {
      var s := SumRange(xs, i + 1 - w, i + 1);
      SumRangeBounds(xs, i + 1 - w, i + 1, a, b);
      DivBounds(s, w as real, a, b);
    }
  }

  lemma DivBounds(s: real, n: real, a: real, b: real)
    requires 0.0 < n && n * a <= s <= n * b
    ensures a <= s / n <= b
  {
  }

  /** Sliding the window one row adds the entering number and drops the leaving
      one: m(i) = m(i-1) + (x(i) - x(i-w)) / w. */
  lemma RollingMeanSlide(xs: Column, w: nat, i: nat)
    requires 1 <= w <= i < |xs| && DefinedOn(xs, i - w, i + 1)
    ensures RollingMean(xs, w)[i].Some? && RollingMean(xs, w)[i - 1].Some?
    ensures RollingMean(xs, w)[i].value
            == RollingMean(xs, w)[i - 1].value + (xs[i].value - xs[i - w].value) / w as real
  {
    SumRangeFront(xs, i - w, i);
    var prev := SumRange(xs, i - w, i);
    var next := SumRange(xs, i + 1 - w, i + 1);
    assert next == prev - Val(xs[i - w]) + Val(xs[i]);
    DivAdd(prev, Val(xs[i]) - Val(xs[i - w]), w as real);
  }

  lemma DivAdd(p: real, q: real, n: real)
    requires n != 0.0
    ensures (p + q) / n == p / n + q / n
  {
  }

  // ---------------------------------------------------------------------------
  // Lemmas about rolling(window).std()

  /** The standard deviation is NaN exactly where the mean is, for a window of
      at least two rows, and NaN everywhere for a window of one row; where it
      holds a number the number is non-negative. */
  lemma RollingStdDefined(xs: Column, w: nat, i: nat, sqrt: real -> real)
    requires 1 <= w && i < |xs| && SqrtLike(sqrt)
    ensures RollingStd(xs, w, sqrt)[i].Some? <==> 2 <= w && RollingMean(xs, w)[i].Some?
    ensures RollingStd(xs, w, sqrt)[i].Some? ==> 0.0 <= RollingStd(xs, w, sqrt)[i].value
  {
    if 2 <= w && w <= i + 1 && DefinedOn(xs, i + 1 - w, i + 1) {
      var lo := i + 1 - w;
      var m := SumRange(xs, lo, i + 1) / w as real;
      var v := SqDevRange(xs, lo, i + 1, m) / (w - 1) as real;
      assert 0.0 <= v;
    }
  }

  /** A window of one repeated number has standard deviation 0. */
  lemma RollingStdConstant(xs: Column, w: nat, i: nat, v: real, sqrt: real -> real)
    requires 2 <= w <= i + 1 <= |xs| && SqrtLike(sqrt)
    requires forall k :: i + 1 - w <= k <= i ==> xs[k] == Some(v)
    ensures RollingStd(xs, w, sqrt)[i] == Some(0.0)
  {
    var lo := i + 1 - w;
    SumRangeBounds(xs, lo, i + 1, v, v);
    var s := SumRange(xs, lo, i + 1);
    DivBounds(s, w as real, v, v);
    SqDevRangeConstant(xs, lo, i + 1, v);
  }

  // ---------------------------------------------------------------------------
  // Lemmas about ewm(span, adjust=False).mean()

  /** The weighted mean holds a number from the first row that does on. */
  lemma {:induction false} EwmDefinedIff(alpha: real, xs: Column, i: nat)
    requires 0.0 < alpha <= 1.0 && i < |xs|
    ensures Ewm(alpha, xs)[i].Some? <==> exists k :: 0 <= k <= i && xs[k].Some?
  {
    if i > 0 {
      EwmDefinedIff(alpha, xs, i - 1);
      if xs[i].Some? {
        assert exists k :: 0 <= k <= i && xs[k].Some?;
      }
      if exists k :: 0 <= k <= i && xs[k].Some? {
        var k :| 0 <= k <= i && xs[k].Some?;
        if k < i {
          assert exists j :: 0 <= j <= i - 1 && xs[j].Some?;
        }
      }
    }
  }

  /** On rows 0..i without NaN, the state holds a number and the old weight is
      back to 1 after every row. */
  lemma {:induction false} EwmObserved(alpha: real, xs: Column, i: nat)
    requires 0.0 < alpha <= 1.0 && i < |xs| && DefinedOn(xs, 0, i + 1)
    ensures EwmAt(alpha, xs, i).weighted.Some? && EwmAt(alpha, xs, i).oldWt == 1.0
  {
    if i > 0 {
      EwmObserved(alpha, xs, i - 1);
    }
  }

  /** With old weight 1 - alpha the blend is the textbook update alpha x + (1 - alpha) y. */
  lemma BlendUnit(d: real, a: real, y: real, x: real)
    requires 0.0 < a <= 1.0 && d == 1.0 - a
    ensures Blend(d, a, y, x) == Smooth(a, x, y)
  {
  }

  /** From a state holding y with old weight 1, a step onto the number x gives
      the textbook update alpha x + (1 - alpha) y, again with old weight 1. */
  lemma EwmStepObserved(alpha: real, st: EwmState, x: real)
    requires 0.0 < alpha <= 1.0 && st.weighted.Some? && st.oldWt == 1.0
    ensures EwmStep(alpha, st, Some(x)) == EwmState(Some(Smooth(alpha, x, st.weighted.value)), 1.0)
  {
    BlendUnit(Decay(st.oldWt, alpha), alpha, st.weighted.value, x);
  }

  /** On a column without NaN, row 0 is the first number and every later row is
      alpha times the new number plus (1 - alpha) times the previous row. */
  lemma EwmRecurrence(alpha: real, xs: Column, t: nat)
    requires 0.0 < alpha <= 1.0 && t < |xs| && DefinedOn(xs, 0, t + 1)
    ensures Ewm(alpha, xs)[t].Some?
    ensures t == 0 ==> Ewm(alpha, xs)[t] == xs[0]
    ensures 0 < t ==> Ewm(alpha, xs)[t - 1].Some?
                      && Ewm(alpha, xs)[t].value == Smooth(alpha, xs[t].value, Ewm(alpha, xs)[t - 1].value)
  {
    EwmObserved(alpha, xs, t);
    if 0 < t {
      EwmObserved(alpha, xs, t - 1);
      var prev := EwmAt(alpha, xs, t - 1);
      assert EwmAt(alpha, xs, t) == EwmStep(alpha, prev, Some(xs[t].value));
      EwmStepObserved(alpha, prev, xs[t].value);
    }
  }

  /** On a column without NaN the weighted mean is the textbook recursion. */
  lemma {:induction false} EwmIsReference(alpha: real, xs: Column, t: nat)
    requires 0.0 < alpha <= 1.0 && t < |xs| && AllDefined(xs)
    ensures Ewm(alpha, xs)[t] == Some(EmaReference(alpha, Values(xs), t))
  {
    EwmRecurrence(alpha, xs, t);
    if 0 < t {
      EwmIsReference(alpha, xs, t - 1);
    }
  }

  /** A blend of two numbers in [lo, hi] is in [lo, hi]. */
  lemma BlendBetween(d: real, a: real, y: real, x: real, lo: real, hi: real)
    requires 0.0 <= d && 0.0 < a && lo <= y <= hi && lo <= x <= hi
    ensures lo <= Blend(d, a, y, x) <= hi
  {
    var dy, ax := d * y, a * x;
    var dlo, alo, dhi, ahi := d * lo, a * lo, d * hi, a * hi;
    assert dlo <= dy <= dhi;
    assert alo <= ax <= ahi;
    var s := d + a;
    assert s * lo == dlo + alo;
    assert s * hi == dhi + ahi;
    DivBounds(dy + ax, s, lo, hi);
  }

  /** Every number of the weighted mean lies within the bounds of the numbers seen so far. */
  lemma EwmBounds(alpha: real, xs: Column, i: nat, lo: real, hi: real)
    requires 0.0 < alpha <= 1.0 && i < |xs| && BoundedOn(xs, 0, i + 1, lo, hi)
    ensures Ewm(alpha, xs)[i].Some? ==> lo <= Ewm(alpha, xs)[i].value <= hi
  {
    EwmStateBounds(alpha, xs, i, lo, hi);
  }

  lemma {:induction false} EwmStateBounds(alpha: real, xs: Column, i: nat, lo: real, hi: real)
    requires 0.0 < alpha <= 1.0 && i < |xs| && BoundedOn(xs, 0, i + 1, lo, hi)
    ensures EwmAt(alpha, xs, i).weighted.Some? ==> lo <= EwmAt(alpha, xs, i).weighted.value <= hi
  {
    if i > 0 {
      assert BoundedOn(xs, 0, i, lo, hi);
      EwmStateBounds(alpha, xs, i - 1, lo, hi);
      var st := EwmAt(alpha, xs, i - 1);
      assert EwmAt(alpha, xs, i) == EwmStep(alpha, st, xs[i]);
      EwmStepBounds(alpha, st, xs[i], lo, hi);
    }
  }

  /** A step keeps the weighted value within bounds that the new number respects. */
  lemma EwmStepBounds(alpha: real, st: EwmState, cur: Option<real>, lo: real, hi: real)
    requires 0.0 < alpha <= 1.0 && 0.0 <= st.oldWt <= 1.0
    requires st.weighted.Some? ==> lo <= st.weighted.value <= hi
    requires cur.Some? ==> lo <= cur.value <= hi
    ensures EwmStep(alpha, st, cur).weighted.Some? ==> lo <= EwmStep(alpha, st, cur).weighted.value <= hi
  {
    if st.weighted.Some? && cur.Some? {
      BlendBetween(Decay(st.oldWt, alpha), alpha, st.weighted.value, cur.value, lo, hi);
    }
  }

  /** A column whose numbers all equal v has a weighted mean equal to v wherever it holds a number. */
  lemma EwmConstant(alpha: real, xs: Column, v: real)
    requires 0.0 < alpha <= 1.0
    requires forall k :: 0 <= k < |xs| && xs[k].Some? ==> xs[k].value == v
    ensures forall i :: 0 <= i < |xs| && Ewm(alpha, xs)[i].Some? ==> Ewm(alpha, xs)[i].value == v
  {
    forall i | 0 <= i < |xs| && Ewm(alpha, xs)[i].Some?
      ensures Ewm(alpha, xs)[i].value == v
    {
      EwmBounds(alpha, xs, i, v, v);
    }
  }
}
