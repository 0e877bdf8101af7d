/**
 * The Gini calculator: a concentration coefficient over non-negative
 * magnitudes (a state's per-district update totals). Non-positive entries
 * are dropped, fewer than two remaining entries give 0, otherwise the
 * discrete formula over the ascending values with 1-based ranks is
 * clamped to [0, 1].
 */
module Gini {

  /** The positive entries of xs, in order. */
  function Positives(xs: seq<real>): (ps: seq<real>)
    ensures |ps| <= |xs|
    ensures forall i | 0 <= i < |ps| :: ps[i] > 0.0
    ensures forall i | 0 <= i < |ps| :: ps[i] in xs
    ensures (forall i | 0 <= i < |xs| :: xs[i] > 0.0) ==> ps == xs
  {
    if xs == [] then []
    else
      var rest := Positives(xs[1..]);
      assert xs == [xs[0]] + xs[1..];
      var ps := if xs[0] > 0.0 then [xs[0]] + rest else rest;
      ps
  }

  /** Positives keeps every positive entry, as often as it occurs, and nothing else. */
  lemma {:induction false} PositivesKeepsPositiveEntries(xs: seq<real>)
    ensures forall x :: multiset(Positives(xs))[x] == if x > 0.0 then multiset(xs)[x] else 0
  {
    if xs != [] {
      PositivesKeepsPositiveEntries(xs[1..]);
      assert xs == [xs[0]] + xs[1..];
    }
  }

  predicate SortedAsc(s: seq<real>)
  {
    forall i, j | 0 <= i < j < |s| :: s[i] <= s[j]
  }

  /** x placed into the ascending sequence s. */
  function Insert(x: real, s: seq<real>): (r: seq<real>)
    requires SortedAsc(s)
    ensures SortedAsc(r)
    ensures multiset(r) == multiset(s) + multiset{x}
    ensures |r| == |s| + 1
    ensures r[0] == x || (s != [] && r[0] == s[0])
  {
    if s == [] then [x]
    else if x <= s[0] then [x] + s
    else
      assert s == [s[0]] + s[1..];
      [s[0]] + Insert(x, s[1..])
  }

  /** The values in ascending order (the sort the coefficient needs). */
  function SortAsc(s: seq<real>): (r: seq<real>)
    ensures SortedAsc(r)
    ensures multiset(r) == multiset(s)
    ensures |r| == |s|
  {
    if s == [] then []
    else
      assert s == [s[0]] + s[1..];
      Insert(s[0], SortAsc(s[1..]))
  }

  /** Sum of the values. */
  function Total(v: seq<real>): real
  {
    if v == [] then 0.0 else Total(v[..|v| - 1]) + v[|v| - 1]
  }

  /** Totals add up over concatenation. */
  lemma {:induction false} TotalAppend(a: seq<real>, b: seq<real>)
    ensures Total(a + b) == Total(a) + Total(b)
  {
    if b != [] {
      TotalAppend(a, b[..|b| - 1]);
      assert (a + b)[..|a + b| - 1] == a + b[..|b| - 1];
      assert (a + b)[|a + b| - 1] == b[|b| - 1];
    } else {
      assert a + b == a;
    }
  }

  /** Sum of rank times value with 1-based ranks: the sum of i * v[i-1]. */
  function RankWeighted(v: seq<real>): real
  {
    if v == [] then 0.0 else RankWeighted(v[..|v| - 1]) + (|v| as real) * v[|v| - 1]
  }

  predicate AllPositive(v: seq<real>)
  {
    forall i | 0 <= i < |v| :: v[i] > 0.0
  }

  lemma {:induction false} TotalPositive(v: seq<real>)
    requires AllPositive(v) && v != []
    ensures Total(v) > 0.0
  {
    if |v| > 1 {
      TotalPositive(v[..|v| - 1]);
    }
  }

  /** The discrete formula (2 * w) / (n * t) - (n + 1) / n for n values of sum t and rank-weighted sum w. */
  function Formula(n: real, t: real, w: real): real
    requires n > 0.0 && t > 0.0
  {
    (2.0 * w) / (n * t) - (n + 1.0) / n
  }

  /** The coefficient before clamping. */
  function RawGini(v: seq<real>): real
    requires AllPositive(v) && v != []
  {
    TotalPositive(v);
    Formula(|v| as real, Total(v), RankWeighted(v))
  }

  function Clamp01(g: real): (r: real)
    ensures 0.0 <= r <= 1.0
    ensures 0.0 <= g <= 1.0 ==> r == g
  {
    if g < 0.0 then 0.0 else if g > 1.0 then 1.0 else g
  }

  /** The positive entries in ascending order: the values the formula ranks. */
  function SortedPositives(values: seq<real>): (v: seq<real>)
    ensures SortedAsc(v) && AllPositive(v)
    ensures multiset(v) == multiset(Positives(values))
    ensures |v| == |Positives(values)|
  {
    var ps := Positives(values);
    var v := SortAsc(ps);
    assert AllPositive(v) by {
      forall i | 0 <= i < |v| ensures v[i] > 0.0 {
        assert v[i] in multiset(ps);
        var j :| 0 <= j < |ps| && ps[j] == v[i];
      }
    }
    v
  }

  /** The Gini coefficient of the values. */
  function Gini(values: seq<real>): (g: real)
    ensures 0.0 <= g <= 1.0
    ensures |Positives(values)| < 2 ==> g == 0.0
  {
    if |Positives(values)| < 2 then 0.0
    else Clamp01(RawGini(SortedPositives(values)))
  }

  /** Entries that are zero or negative do not affect the coefficient. */
  lemma GiniIgnoresNonPositive(values: seq<real>)
    ensures Gini(Positives(values)) == Gini(values)
  {
  }

  // ---------------------------------------------------------------------
  // Equal values

  lemma {:induction false} ConstantSums(v: seq<real>, c: real)
    requires forall i | 0 <= i < |v| :: v[i] == c
    ensures Total(v) == (|v| as real) * c
    ensures 2.0 * RankWeighted(v) == c * (|v| as real) * (|v| as real + 1.0)
  {
    if v != [] {
      ConstantSums(v[..|v| - 1], c);
      var m := (|v| - 1) as real;
      assert 2.0 * RankWeighted(v) == c * m * (m + 1.0) + 2.0 * (m + 1.0) * c;
    }
  }

  /** The formula is 0 at the sums of n equal values c. */
  lemma FormulaAtEqualValues(n: real, c: real, t: real, w: real)
    requires n > 0.0 && c > 0.0
    requires t == n * c && 2.0 * w == c * n * (n + 1.0)
    ensures Formula(n, t, w) == 0.0
  {
    var d := n * t;
    assert d == n * (n * c);
    assert 2.0 * w == (n + 1.0) * (n * c);
    assert (2.0 * w) / d == ((n + 1.0) * (n * c)) / (n * (n * c));
    assert ((n + 1.0) * (n * c)) / (n * (n * c)) == (n + 1.0) / n;
  }

  lemma RawGiniOfEqualValues(v: seq<real>, c: real)
    requires AllPositive(v) && v != []
    requires forall i | 0 <= i < |v| :: v[i] == c
    ensures RawGini(v) == 0.0
  {
    ConstantSums(v, c);
    assert c > 0.0 by { assert v[0] > 0.0; }
    FormulaAtEqualValues(|v| as real, c, Total(v), RankWeighted(v));
  }

  /** Two or more positive entries that are all equal give coefficient 0. */
  lemma GiniOfEqualValues(values: seq<real>, c: real)
    requires forall i | 0 <= i < |values| :: values[i] > 0.0 ==> values[i] == c
    requires |Positives(values)| >= 2
    ensures Gini(values) == 0.0
  {
    var ps := Positives(values);
    var v := SortedPositives(values);
    forall i | 0 <= i < |v| ensures v[i] == c {
      assert v[i] in multiset(ps);
      var j :| 0 <= j < |ps| && ps[j] == v[i];
      assert ps[j] in values;
    }
    RawGiniOfEqualValues(v, c);
  }

  // ---------------------------------------------------------------------
  // The clamp never fires in exact arithmetic

  lemma {:induction false} TotalAtMost(v: seq<real>, x: real)
    requires forall i | 0 <= i < |v| :: v[i] <= x
    ensures Total(v) <= (|v| as real) * x
  {
    if v != [] {
      TotalAtMost(v[..|v| - 1], x);
    }
  }

  /**
   * For ascending positive values, 2 * RankWeighted(v) - (n + 1) * Total(v)
   * is non-negative (the unclamped coefficient is at least 0) and
   * RankWeighted(v) is at most n * Total(v).
   */
  lemma {:induction false} RankWeightedBounds(v: seq<real>)
    requires SortedAsc(v) && AllPositive(v)
    ensures 2.0 * RankWeighted(v) >= (|v| as real + 1.0) * Total(v)
    ensures RankWeighted(v) <= (|v| as real) * Total(v)
  {
    if v != [] {
      var init, x := v[..|v| - 1], v[|v| - 1];
      var m := |init| as real;
      RankWeightedBounds(init);
      TotalAtMost(init, x);
      if init != [] {
        TotalPositive(init);
      }
      RankStep(m, RankWeighted(init), Total(init), x, |v| as real, RankWeighted(v), Total(v));
    }
  }

  /** One step of RankWeightedBounds: appending a largest value x as the (m + 1)-th keeps both bounds. */
  lemma RankStep(m: real, w: real, t: real, x: real, n: real, w': real, t': real)
    requires m >= 0.0 && x > 0.0 && t >= 0.0
    requires 2.0 * w >= (m + 1.0) * t && w <= m * t && t <= m * x
    requires n == m + 1.0 && w' == w + n * x && t' == t + x
    ensures 2.0 * w' >= (n + 1.0) * t'
    ensures w' <= n * t'
  {
    assert 2.0 * w' - (n + 1.0) * t' == (2.0 * w - (m + 1.0) * t) + (m * x - t);
  }

  /** The formula lies in [0, (n - 1) / n] under the bounds of RankWeightedBounds. */
  lemma FormulaBounds(n: real, t: real, w: real)
    requires n >= 1.0 && t > 0.0
    requires 2.0 * w >= (n + 1.0) * t && w <= n * t
    ensures 0.0 <= Formula(n, t, w) <= (n - 1.0) / n < 1.0
  {
    var d := n * t;
    assert d > 0.0;
    var q := (2.0 * w) / d;
    assert q * d == 2.0 * w;
    assert (n + 1.0) / n * d == (n + 1.0) * t;
    assert q - (n + 1.0) / n == (2.0 * w - (n + 1.0) * t) / d;
    assert q <= 2.0;
    assert 2.0 - (n + 1.0) / n == (n - 1.0) / n;
  }

  /** For ascending positive values the unclamped coefficient lies in [0, (n - 1) / n]. */
  lemma RawGiniBounds(v: seq<real>)
    requires SortedAsc(v) && AllPositive(v) && v != []
    ensures 0.0 <= RawGini(v) <= (|v| as real - 1.0) / (|v| as real) < 1.0
  {
    RankWeightedBounds(v);
    TotalPositive(v);
    FormulaBounds(|v| as real, Total(v), RankWeighted(v));
  }

  /**
   * With at least two positive entries the unclamped coefficient already
   * lies in [0, (n - 1) / n]; the clamp changes nothing.
   */
  lemma GiniClampInactive(values: seq<real>)
    requires |Positives(values)| >= 2
    ensures Gini(values) == RawGini(SortedPositives(values))
    ensures Gini(values) <= (|Positives(values)| as real - 1.0) / (|Positives(values)| as real) < 1.0
  {
    RawGiniBounds(SortedPositives(values));
  }

  /** The coefficient is always strictly below 1. */
  lemma GiniBelowOne(values: seq<real>)
    ensures Gini(values) < 1.0
  {
    if |Positives(values)| >= 2 {
      GiniClampInactive(values);
    }
  }
}
