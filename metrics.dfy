/**
 * The pillar metric calculator: national totals over the state view, then
 * for every state its infrastructure deficit (IDI), update balance (UBI),
 * youth inclusion (YIR), geographic concentration (GCI) and temporal
 * consistency (TCS). Every division has an explicit fallback for a zero
 * divisor.
 *
 * The population standard deviation needs a square root, which exact real
 * arithmetic does not provide: the variance is computed exactly and the
 * square root is a parameter `sqrt`, of which only a non-negative result
 * is required.
 */
module Metrics {
  import opened Grouping
  import opened Aggregation
  import Gini

  /** The values a square root can take: the `sqrt` parameter never returns a negative number. */
  type NonNegReal = r: real | r >= 0.0

  function RowYouth(row: StateRow): nat { row.bioAge5to17 + row.demoAge5to17 }
  function RowAdult(row: StateRow): nat { row.bioAge17plus + row.demoAge17plus }

  /** National totals: column sums over the whole state view. */
  datatype National = National(enrolment: nat, updates: nat, bio: nat, demo: nat, youthRatio: real)

  /** Youth updates per adult update; 0 when there are no adult updates. */
  function YouthRatio(youth: nat, adult: nat): (r: real)
    ensures r >= 0.0
    ensures adult == 0 ==> r == 0.0
    ensures r == 0.0 <==> youth == 0 || adult == 0
  {
    if adult > 0 then youth as real / adult as real else 0.0
  }

  function NationalOf(states: seq<StateRow>): (n: National)
    ensures n.enrolment == Sum(states, RowEnrolment) && n.updates == Sum(states, RowUpdates)
    ensures n.youthRatio == YouthRatio(Sum(states, RowYouth), Sum(states, RowAdult))
  {
    National(
      Sum(states, RowEnrolment), Sum(states, RowUpdates), Sum(states, RowBio), Sum(states, RowDemo),
      YouthRatio(Sum(states, RowYouth), Sum(states, RowAdult)))
  }

  /** part as a fraction of whole; 0 when whole is 0. */
  function Share(part: nat, whole: nat): (r: real)
    ensures r >= 0.0
    ensures whole == 0 ==> r == 0.0
    ensures part <= whole ==> r <= 1.0
    ensures part == whole > 0 ==> r == 1.0
  {
    if whole > 0 then part as real / whole as real else 0.0
  }

  /** Update Balance Index: the biometric fraction of a state's updates, 0.5 when it has none. */
  function Ubi(bio: nat, demo: nat): (r: real)
    ensures 0.0 <= r <= 1.0
    ensures bio + demo == 0 ==> r == 0.5
    ensures r == 0.0 <==> bio == 0 && demo > 0
    ensures r == 1.0 <==> demo == 0 && bio > 0
  {
    var total := bio + demo;
    if total > 0 then bio as real / total as real else 0.5
  }

  /** Youth Inclusion Ratio: the state youth ratio relative to the national one, 1 when the latter is 0. */
  function Yir(stateRatio: real, nationalRatio: real): (r: real)
    ensures nationalRatio <= 0.0 ==> r == 1.0
    ensures stateRatio >= 0.0 ==> r >= 0.0
    ensures nationalRatio > 0.0 ==> (r == 0.0 <==> stateRatio == 0.0)
  {
    if nationalRatio > 0.0 then
      var r := stateRatio / nationalRatio;
      assert r * nationalRatio == stateRatio;
      r
    else 1.0
  }

  /** A state whose youth ratio is at least the national one has YIR of at least 1, and conversely. */
  lemma YirAtLeastOne(stateRatio: real, nationalRatio: real)
    requires nationalRatio > 0.0
    ensures Yir(stateRatio, nationalRatio) >= 1.0 <==> stateRatio >= nationalRatio
  {
    var r := Yir(stateRatio, nationalRatio);
    assert (r - 1.0) * nationalRatio == stateRatio - nationalRatio;
    if r >= 1.0 {
      assert (r - 1.0) * nationalRatio >= 0.0;
    } else {
      assert (1.0 - r) * nationalRatio > 0.0;
    }
  }

  /** Geographic Concentration Index: the Gini coefficient of the district totals, 0 for one district or none. */
  function Gci(districtTotals: seq<real>): (r: real)
    ensures 0.0 <= r < 1.0
    ensures |districtTotals| <= 1 ==> r == 0.0
  {
    Gini.GiniBelowOne(districtTotals);
    if |districtTotals| > 1 then Gini.Gini(districtTotals) else 0.0
  }

  function Mean(xs: seq<real>): real
    requires xs != []
  {
    Gini.Total(xs) / (|xs| as real)
  }

  /** Sum of the squared deviations of xs from m. */
  function SquaredDeviations(xs: seq<real>, m: real): (r: real)
    ensures r >= 0.0
  {
    if xs == [] then 0.0
    else
      var d := xs[0] - m;
      assert d * d >= 0.0 by {
        if d < 0.0 { assert d * d == (-d) * (-d); }
      }
      d * d + SquaredDeviations(xs[1..], m)
  }

  /** Population variance (numpy's default, ddof = 0). */
  function Variance(xs: seq<real>): (r: real)
    requires xs != []
    ensures r >= 0.0
  {
    SquaredDeviations(xs, Mean(xs)) / (|xs| as real)
  }

  /**
   * Temporal Consistency Score: 1 minus the coefficient of variation of the
   * monthly totals, floored at 0; 0.5 for fewer than two months or a zero mean.
   */
  function Tcs(monthly: seq<real>, sqrt: real -> NonNegReal): (r: real)
    ensures 0.0 <= r <= 1.0
    ensures |monthly| <= 1 ==> r == 0.5
    ensures |monthly| > 1 && Mean(monthly) <= 0.0 ==> r == 0.5
  {
    if |monthly| > 1 && Mean(monthly) > 0.0 then
      var cov := sqrt(Variance(monthly)) / Mean(monthly);
      if 1.0 - cov > 0.0 then 1.0 - cov else 0.0
    else 0.5
  }

  /** The update totals of the rows of state s in a district or month view, in row order. */
  function TotalsOfState<K>(rows: seq<SubRow<K>>, s: State): (vals: seq<real>)
    ensures |vals| <= |rows|
    ensures forall i | 0 <= i < |vals| :: vals[i] >= 0.0
  {
    if rows == [] then []
    else (if rows[0].state == s then [rows[0].totalUpdates as real] else []) + TotalsOfState(rows[1..], s)
  }

  /**
   * The totals selected for state s are one per row of s in the view, and
   * they add up to the update total of those rows.
   */
  lemma {:induction false} TotalsOfStateSelectsRows<K>(rows: seq<SubRow<K>>, s: State)
    ensures |TotalsOfState(rows, s)| == GroupSum(rows, SubRowState, s, SubRowCount)
    ensures Gini.Total(TotalsOfState(rows, s)) == GroupSum(rows, SubRowState, s, SubRowUpdates) as real
  {
    if rows != [] {
      TotalsOfStateSelectsRows(rows[1..], s);
      var head := if rows[0].state == s then [rows[0].totalUpdates as real] else [];
      Gini.TotalAppend(head, TotalsOfState(rows[1..], s));
    }
  }

  /** One row of the metrics table. */
  datatype MetricsRow = MetricsRow(
    state: State,
    totalEnrolment: nat, totalUpdates: nat, totalBio: nat, totalDemo: nat,
    enrolShare: real, updateShare: real,
    idi: real, ubi: real, yir: real, gci: real, tcs: real)

  /** The ranges every pillar is kept in. */
  predicate InRange(m: MetricsRow)
  {
    && 0.0 <= m.ubi <= 1.0
    && 0.0 <= m.yir
    && 0.0 <= m.gci <= 1.0
    && 0.0 <= m.tcs <= 1.0
  }

  /** Infrastructure Deficit Index: the state's share of national enrolment minus its share of national updates. */
  function Idi(row: StateRow, national: National): real
  {
    Share(row.totalEnrolment, national.enrolment) - Share(row.totalUpdates, national.updates)
  }

  /** A state holding part of both national totals has IDI in [-1, 1]; with both totals 0 its IDI is 0. */
  lemma IdiRange(row: StateRow, national: National)
    ensures row.totalEnrolment <= national.enrolment && row.totalUpdates <= national.updates ==>
              -1.0 <= Idi(row, national) <= 1.0
    ensures national.enrolment == 0 && national.updates == 0 ==> Idi(row, national) == 0.0
  {
  }

  /** The metrics row of one state, given the national totals. */
  function PillarsOf(row: StateRow, national: National, districts: seq<SubRow<District>>, months: seq<SubRow<Month>>, sqrt: real -> NonNegReal): (m: MetricsRow)
    ensures InRange(m)
    ensures m.state == row.state
    ensures m.idi == Idi(row, national)
  {
    var enrolShare := Share(row.totalEnrolment, national.enrolment);
    var updateShare := Share(row.totalUpdates, national.updates);
    var stateYouthRatio := YouthRatio(row.bioAge5to17 + row.demoAge5to17, row.bioAge17plus + row.demoAge17plus);
    MetricsRow(
      row.state, row.totalEnrolment, row.totalBio + row.totalDemo, row.totalBio, row.totalDemo,
      enrolShare, updateShare, enrolShare - updateShare,
      Ubi(row.totalBio, row.totalDemo),
      Yir(stateYouthRatio, national.youthRatio),
      Gci(TotalsOfState(districts, row.state)),
      Tcs(TotalsOfState(months, row.state), sqrt))
  }

  function PillarsTable(states: seq<StateRow>, national: National, districts: seq<SubRow<District>>, months: seq<SubRow<Month>>, sqrt: real -> NonNegReal): (ms: seq<MetricsRow>)
    ensures |ms| == |states|
    ensures forall i | 0 <= i < |ms| :: InRange(ms[i]) && ms[i].state == states[i].state
  {
    if states == [] then []
    else
      var n := |states| - 1;
      PillarsTable(states[..n], national, districts, months, sqrt) + [PillarsOf(states[n], national, districts, months, sqrt)]
  }

  /** The metrics table: one row per state of the state view, against that view's national totals. */
  /** A state with at most one row in the district view has GCI 0. */
  lemma GciFallback(districts: seq<SubRow<District>>, s: State)
    requires GroupSum(districts, SubRowState, s, SubRowCount) <= 1
    ensures Gci(TotalsOfState(districts, s)) == 0.0
  {
    TotalsOfStateSelectsRows(districts, s);
  }

  /** A state with at most one row in the month view, or without updates in any month, has TCS 0.5. */
  lemma TcsFallback(months: seq<SubRow<Month>>, s: State, sqrt: real -> NonNegReal)
    requires GroupSum(months, SubRowState, s, SubRowCount) <= 1 || GroupSum(months, SubRowState, s, SubRowUpdates) == 0
    ensures Tcs(TotalsOfState(months, s), sqrt) == 0.5
  {
    var monthly := TotalsOfState(months, s);
    TotalsOfStateSelectsRows(months, s);
    if |monthly| > 1 && GroupSum(months, SubRowState, s, SubRowUpdates) == 0 {
      MeanOfZeroTotal(monthly);
    }
  }

  /** Values that add up to 0 have mean 0. */
  lemma MeanOfZeroTotal(xs: seq<real>)
    requires xs != [] && Gini.Total(xs) == 0.0
    ensures Mean(xs) == 0.0
  {
  }

  function MetricsTable(states: seq<StateRow>, districts: seq<SubRow<District>>, months: seq<SubRow<Month>>, sqrt: real -> NonNegReal): (ms: seq<MetricsRow>)
    ensures |ms| == |states|
    ensures forall i | 0 <= i < |ms| :: InRange(ms[i]) && ms[i].state == states[i].state
  {
    PillarsTable(states, NationalOf(states), districts, months, sqrt)
  }

  /**
   * The national totals of the state view are the totals over the records:
   * enrolment over the enrolment records, biometric and demographic updates
   * over their datasets, and total updates the sum of the two.
   */
  lemma NationalOfStateView(enrolment: seq<EnrolmentRecord>, biometric: seq<UpdateRecord>, demographic: seq<UpdateRecord>)
    ensures var n := NationalOf(AggregateByState(enrolment, biometric, demographic));
      && n.enrolment == Sum(enrolment, RecordEnrolment)
      && n.bio == Sum(biometric, RecordUpdates)
      && n.demo == Sum(demographic, RecordUpdates)
      && n.updates == n.bio + n.demo
  {
    StateViewConservesTotals(enrolment, biometric, demographic);
  }

  // ---------------------------------------------------------------------
  // The IDI sum

  function IdiSum(ms: seq<MetricsRow>): real
  {
    if ms == [] then 0.0 else IdiSum(ms[..|ms| - 1]) + ms[|ms| - 1].idi
  }

  lemma ShareAdditive(a: nat, b: nat, whole: nat)
    ensures Share(a + b, whole) == Share(a, whole) + Share(b, whole)
  {
    if whole > 0 {
      var w := whole as real;
      assert (Share(a, whole) + Share(b, whole)) * w == (a + b) as real;
    }
  }

  /** The IDI column of a table of state rows, added up. */
  function IdiTotal(states: seq<StateRow>, national: National): real
  {
    if states == [] then 0.0 else IdiTotal(states[..|states| - 1], national) + Idi(states[|states| - 1], national)
  }

  /** Over any rows, the IDI values add up to the share of enrolment minus the share of updates those rows hold. */
  lemma {:induction false} IdiTotalIsShareDifference(states: seq<StateRow>, national: National)
    ensures IdiTotal(states, national)
         == Share(Sum(states, RowEnrolment), national.enrolment) - Share(Sum(states, RowUpdates), national.updates)
  {
    if states != [] {
      var init, last := states[..|states| - 1], states[|states| - 1];
      IdiTotalIsShareDifference(init, national);
      SumLast(states, RowEnrolment);
      SumLast(states, RowUpdates);
      ShareAdditive(Sum(init, RowEnrolment), last.totalEnrolment, national.enrolment);
      ShareAdditive(Sum(init, RowUpdates), last.totalUpdates, national.updates);
    }
  }

  lemma {:induction false} IdiSumOfRows(states: seq<StateRow>, national: National, districts: seq<SubRow<District>>, months: seq<SubRow<Month>>, sqrt: real -> NonNegReal)
    ensures IdiSum(PillarsTable(states, national, districts, months, sqrt)) == IdiTotal(states, national)
  {
    if states != [] {
      var ms := PillarsTable(states, national, districts, months, sqrt);
      assert ms[..|ms| - 1] == PillarsTable(states[..|states| - 1], national, districts, months, sqrt);
      IdiSumOfRows(states[..|states| - 1], national, districts, months, sqrt);
    }
  }

  /**
   * The IDI values of the metrics table add up to exactly 0 when both
   * national totals are positive; in general to 1 per positive enrolment
   * total minus 1 per positive update total.
   */
  lemma IdiSumsToZero(states: seq<StateRow>, districts: seq<SubRow<District>>, months: seq<SubRow<Month>>, sqrt: real -> NonNegReal)
    ensures IdiSum(MetricsTable(states, districts, months, sqrt))
         == (if NationalOf(states).enrolment > 0 then 1.0 else 0.0) - (if NationalOf(states).updates > 0 then 1.0 else 0.0)
    ensures NationalOf(states).enrolment > 0 && NationalOf(states).updates > 0 ==>
              IdiSum(MetricsTable(states, districts, months, sqrt)) == 0.0
  {
    IdiSumOfRows(states, NationalOf(states), districts, months, sqrt);
    IdiTotalIsShareDifference(states, NationalOf(states));
  }

  // ---------------------------------------------------------------------
  // Steady months

  lemma {:induction false} SquaredDeviationsOfConstant(xs: seq<real>, c: real)
    requires forall i | 0 <= i < |xs| :: xs[i] == c
    ensures SquaredDeviations(xs, c) == 0.0
  {
    if xs != [] {
      SquaredDeviationsOfConstant(xs[1..], c);
    }
  }

  /** Two or more months with the same positive total are perfectly consistent: TCS is 1. */
  lemma TcsOfSteadyMonths(monthly: seq<real>, c: real, sqrt: real -> NonNegReal)
    requires sqrt(0.0) == 0.0
    requires |monthly| > 1 && c > 0.0
    requires forall i | 0 <= i < |monthly| :: monthly[i] == c
    ensures Tcs(monthly, sqrt) == 1.0
  {
    Gini.ConstantSums(monthly, c);
    var n := |monthly| as real;
    assert Mean(monthly) == c by {
      assert Gini.Total(monthly) == n * c;
    }
    SquaredDeviationsOfConstant(monthly, c);
  }

  // ---------------------------------------------------------------------
  // The per-state loop

  /** The body of the per-state loop: every pillar of one state row. */
  method StateMetrics(row: StateRow, national: National, districts: seq<SubRow<District>>, months: seq<SubRow<Month>>, sqrt: real -> NonNegReal)
    returns (m: MetricsRow)
    ensures m == PillarsOf(row, national, districts, months, sqrt)
  {
    var enrolShare := Share(row.totalEnrolment, national.enrolment);
    var updateShare := Share(row.totalUpdates, national.updates);
    var idi := enrolShare - updateShare;
    var totalUpdates := row.totalBio + row.totalDemo;
    var ubi := Ubi(row.totalBio, row.totalDemo);
    var stateYouth := row.bioAge5to17 + row.demoAge5to17;
    var stateAdult := row.bioAge17plus + row.demoAge17plus;
    var yir := Yir(YouthRatio(stateYouth, stateAdult), national.youthRatio);
    var gci := Gci(TotalsOfState(districts, row.state));
    var tcs := Tcs(TotalsOfState(months, row.state), sqrt);
    m := MetricsRow(
      row.state, row.totalEnrolment, totalUpdates, row.totalBio, row.totalDemo,
      enrolShare, updateShare, idi, ubi, yir, gci, tcs);
  }

  /** The per-state loop of calculate_metrics: one metrics row per state row, appended in row order. */
  method PillarsLoop(states: seq<StateRow>, national: National, districts: seq<SubRow<District>>, months: seq<SubRow<Month>>, sqrt: real -> NonNegReal)
    returns (metrics: seq<MetricsRow>)
    ensures metrics == PillarsTable(states, national, districts, months, sqrt)
  {
    metrics := [];
    var i := 0;
    while i < |states|
      invariant 0 <= i <= |states|
      invariant metrics == PillarsTable(states[..i], national, districts, months, sqrt)
    {
      var m := StateMetrics(states[i], national, districts, months, sqrt);
      assert states[..i + 1][..i] == states[..i];
      metrics := metrics + [m];
      i := i + 1;
    }
    assert states[..i] == states;
  }

  /** calculate_metrics: the national totals of the state view, then the per-state loop. */
  method CalculateMetrics(states: seq<StateRow>, districts: seq<SubRow<District>>, months: seq<SubRow<Month>>, sqrt: real -> NonNegReal)
    returns (metrics: seq<MetricsRow>)
    ensures metrics == MetricsTable(states, districts, months, sqrt)
    ensures |metrics| == |states|
  {
    var national := NationalOf(states);
    metrics := PillarsLoop(states, national, districts, months, sqrt);
  }
}
