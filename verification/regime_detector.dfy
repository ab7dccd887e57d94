/**
 * The hybrid manager's regime detector: a window of success and failure
 * counts folded into a bounded history of success ratios, and a 3-sigma
 * test on the newest ratio against the older ones.
 */
module RegimeDetector {
  import opened U32

  /** Either window counter reaching this value folds the window. */
  const FOLD_THRESHOLD: nat := 1000
  /** The history keeps at most this many ratios, oldest evicted first. */
  const HISTORY_CAPACITY: nat := 10
  /** The jump test needs at least this many ratios. */
  const MIN_JUMP_HISTORY: nat := 5

  datatype Window = Window(successes: u32, failures: u32, history: seq<real>)

  const EmptyWindow: Window := Window(0, 0, [])

  /** Counts one report into the window. */
  function Record(w: Window, ok: bool): Window {
    if ok then w.(successes := Inc(w.successes)) else w.(failures := Inc(w.failures))
  }

  predicate InUnit(h: seq<real>) {
    forall i :: 0 <= i < |h| ==> 0.0 <= h[i] <= 1.0
  }

  /** The share of successes in a non-empty window. */
  function Ratio(s: nat, f: nat): (r: real)
    requires s + f > 0
    ensures 0.0 <= r <= 1.0
    ensures r == 1.0 <==> f == 0
    ensures r == 0.0 <==> s == 0
  {
    (s as real) / ((s + f) as real)
  }

  /**
   * Folds the window into the history once either counter reaches the
   * threshold; the boolean tells whether a new ratio was appended.
   */
  function Fold(w: Window): (r: (Window, bool))
    ensures r.1 <==> w.successes >= FOLD_THRESHOLD || w.failures >= FOLD_THRESHOLD
    ensures !r.1 ==> r.0 == w
    ensures r.1 ==> r.0.successes == 0 && r.0.failures == 0
    ensures r.1 ==> r.0.history
                    == (w.history + [Ratio(w.successes, w.failures)])[if |w.history| >= HISTORY_CAPACITY then 1 else 0..]
    ensures |w.history| <= HISTORY_CAPACITY ==> |r.0.history| <= HISTORY_CAPACITY
    ensures InUnit(w.history) ==> InUnit(r.0.history)
  {
    if w.successes < FOLD_THRESHOLD && w.failures < FOLD_THRESHOLD then
      (w, false)
    else
      var kept := if |w.history| >= HISTORY_CAPACITY then w.history[1..] else w.history;
      var ratio := Ratio(w.successes, w.failures);
      (Window(0, 0, kept + [ratio]), true)
  }

  /** A report counted and, if due, folded. */
  function Observe(w: Window, ok: bool): Window {
    Fold(Record(w, ok)).0
  }

  /** `k` reports of the same outcome. */
  function ObserveRepeated(w: Window, ok: bool, k: nat): Window {
    if k == 0 then w else Observe(ObserveRepeated(w, ok, k - 1), ok)
  }

  /** Fewer than a threshold's worth of identical reports only count. */
  lemma {:induction false} RepeatedBelowThreshold(w: Window, ok: bool, k: nat)
    requires w.successes == 0 && w.failures == 0 && k < FOLD_THRESHOLD
    ensures ObserveRepeated(w, ok, k)
            == w.(successes := if ok then k else 0, failures := if ok then 0 else k)
  {
    if k > 0 {
      RepeatedBelowThreshold(w, ok, k - 1);
    }
  }

  /** A threshold's worth of identical reports folds exactly once. */
  lemma RepeatedFoldsOnce(w: Window, ok: bool)
    requires w.successes == 0 && w.failures == 0 && |w.history| < HISTORY_CAPACITY
    ensures ObserveRepeated(w, ok, FOLD_THRESHOLD)
            == Window(0, 0, w.history + [if ok then 1.0 else 0.0])
  {
    RepeatedBelowThreshold(w, ok, FOLD_THRESHOLD - 1);
  }

  /** A thousand successes then a thousand failures leave the ratios 1 and 0. */
  lemma ThousandEachScenario()
    ensures ObserveRepeated(ObserveRepeated(EmptyWindow, true, 1000), false, 1000).history
            == [1.0, 0.0]
  {
    RepeatedFoldsOnce(EmptyWindow, true);
    RepeatedFoldsOnce(Window(0, 0, [1.0]), false);
  }

  function Sum(s: seq<real>): real {
    if |s| == 0 then 0.0 else Sum(s[..|s| - 1]) + s[|s| - 1]
  }

  function Mean(s: seq<real>): real
    requires |s| > 0
  {
    Sum(s) / (|s| as real)
  }

  function Sq(x: real): real { x * x }

  /** The sum of squared deviations from `m`. */
  function SquaredDeviation(s: seq<real>, m: real): real {
    if |s| == 0 then 0.0 else SquaredDeviation(s[..|s| - 1], m) + Sq(s[|s| - 1] - m)
  }

  /** The population variance. */
  function Variance(s: seq<real>): real
    requires |s| > 0
  {
    SquaredDeviation(s, Mean(s)) / (|s| as real)
  }

  /**
   * The jump test: the newest ratio lies more than three population
   * standard deviations from the mean of the older ones, stated without the
   * square root as `d * d > 9 * variance`.
   */
  predicate Jumps(h: seq<real>) {
    && |h| >= MIN_JUMP_HISTORY
    && var older := h[..|h| - 1];
       Sq(h[|h| - 1] - Mean(older)) > 9.0 * Variance(older)
  }

  lemma SquareSign(x: real)
    ensures Sq(x) >= 0.0
    ensures x != 0.0 <==> Sq(x) > 0.0
  {
    assert Sq(x) == Mul(x, x) == Mul(-x, -x);
    if x > 0.0 {
      MulStrict(x, 0.0, x);
    } else if x < 0.0 {
      MulStrict(-x, 0.0, -x);
    }
  }

  lemma {:induction false} SquaredDeviationNonNegative(s: seq<real>, m: real)
    ensures SquaredDeviation(s, m) >= 0.0
  {
    if |s| > 0 {
      SquaredDeviationNonNegative(s[..|s| - 1], m);
      SquareSign(s[|s| - 1] - m);
    }
  }

  // Products are kept behind `Mul` so that the solver reasons about them as
  // plain terms; mixing `x * x`, `x * y` and `y * y` directly defeats it.
  function Mul(x: real, y: real): real { x * y }

  lemma MulStrict(x: real, y: real, c: real)
    requires x > y && c > 0.0
    ensures Mul(c, x) > Mul(c, y)
  {
  }

  lemma MulWeak(y: real, x: real, c: real)
    requires y <= x && c >= 0.0
    ensures Mul(c, y) <= Mul(c, x)
  {
  }

  /** Squaring is strictly monotone on the non-negative reals. */
  lemma SquaresOrdered(x: real, y: real)
    requires x >= 0.0 && y >= 0.0
    ensures x > y <==> Sq(x) > Sq(y)
  {
    assert Mul(y, x) == Mul(x, y);
    assert Sq(x) == Mul(x, x) && Sq(y) == Mul(y, y);
    if x > y {
      MulStrict(x, y, x);
      MulWeak(y, x, y);
    } else {
      MulWeak(x, y, x);
      MulWeak(x, y, y);
    }
  }

  function Abs(x: real): real { if x > 0.0 then x else -x }

  /**
   * The squared form agrees with the test as the manager writes it,
   * `|d| > 3 * sigma`, for the non-negative square root `sigma` of the
   * variance.
   */
  lemma JumpIsThreeSigma(h: seq<real>, sigma: real)
    requires |h| >= MIN_JUMP_HISTORY
    requires sigma >= 0.0 && sigma * sigma == Variance(h[..|h| - 1])
    ensures Jumps(h) <==> Abs(h[|h| - 1] - Mean(h[..|h| - 1])) > 3.0 * sigma
  {
    var d := h[|h| - 1] - Mean(h[..|h| - 1]);
    SquaresOrdered(Abs(d), 3.0 * sigma);
    assert Sq(Abs(d)) == Sq(d);
    assert Sq(3.0 * sigma) == 9.0 * Sq(sigma);
  }

  /** With fewer than five ratios there is never a jump. */
  lemma ShortHistoryNeverJumps(h: seq<real>)
    requires |h| < MIN_JUMP_HISTORY
    ensures !Jumps(h)
  {
  }

  lemma {:induction false} ConstantSums(s: seq<real>, v: real)
    requires forall i :: 0 <= i < |s| ==> s[i] == v
    ensures Sum(s) == (|s| as real) * v
    ensures SquaredDeviation(s, v) == 0.0
  {
    if |s| > 0 {
      ConstantSums(s[..|s| - 1], v);
    }
  }

  /**
   * Against a constant history the test fires exactly when the newest
   * ratio differs from that constant.
   */
  lemma ConstantHistoryJump(h: seq<real>, v: real)
    requires |h| >= MIN_JUMP_HISTORY
    requires forall i :: 0 <= i < |h| - 1 ==> h[i] == v
    ensures Jumps(h) <==> h[|h| - 1] != v
  {
    var older := h[..|h| - 1];
    ConstantSums(older, v);
    assert Mean(older) == v;
    assert Variance(older) == 0.0;
    SquareSign(h[|h| - 1] - v);
  }

  /** A sharp drop after four steady ratios is a jump. */
  lemma SharpDropScenario()
    ensures Jumps([0.9, 0.91, 0.89, 0.90, 0.10])
  {
    var older := [0.9, 0.91, 0.89, 0.90];
    assert [0.9, 0.91, 0.89, 0.90, 0.10][..4] == older;
    assert older[..3] == [0.9, 0.91, 0.89];
    assert older[..3][..2] == [0.9, 0.91];
    assert older[..3][..2][..1] == [0.9];
    assert Sum([0.9]) == 0.9;
    assert Sum([0.9, 0.91]) == 1.81;
    assert Sum([0.9, 0.91, 0.89]) == 2.7;
    assert Sum(older) == 3.6;
    assert Mean(older) == 0.9;
    assert SquaredDeviation([0.9], 0.9) == 0.0;
    assert SquaredDeviation([0.9, 0.91], 0.9) == 0.0001;
    assert SquaredDeviation([0.9, 0.91, 0.89], 0.9) == 0.0002;
    assert SquaredDeviation(older, 0.9) == 0.0002;
  }

  /**
   * The jump test as the manager computes it: one pass accumulating the
   * mean of the older ratios, a second accumulating squared deviations.
   */
  method DoesSuccessRatioJump(history: seq<real>) returns (jump: bool)
    ensures jump == Jumps(history)
  {
    if |history| < MIN_JUMP_HISTORY {
      return false;
    }
    var older := history[..|history| - 1];
    var lastVal := history[|history| - 1];
    var total := 0.0;
    var i := 0;
    while i < |older|
      invariant 0 <= i <= |older|
      invariant total == Sum(older[..i])
    {
      assert older[..i + 1][..i] == older[..i];
      total := total + older[i];
      i := i + 1;
    }
    assert older[..i] == older;
    var mean := total / (|older| as real);
    var squares := 0.0;
    var j := 0;
    while j < |older|
      invariant 0 <= j <= |older|
      invariant squares == SquaredDeviation(older[..j], mean)
    {
      assert older[..j + 1][..j] == older[..j];
      var sub := older[j] - mean;
      squares := squares + sub * sub;
      assert squares == SquaredDeviation(older[..j], mean) + Sq(older[j] - mean);
      j := j + 1;
    }
    assert older[..j] == older;
    var d := lastVal - mean;
    jump := d * d > 9.0 * (squares / (|older| as real));
    assert d * d == Sq(d);
  }
}
