/**
 * The problem-risk calculator: five risk percentages per state, each
 * clipped to [0, 100], and their mean. The age-band counts come from the
 * state view by a left merge on the state name; a state the view lacks
 * would carry missing counts, for which every count-based risk falls back
 * to 0, exactly as for a zero denominator.
 */
module Risks {
  import opened Grouping
  import opened Aggregation
  import opened Metrics
  import opened Health
  import opened Archetype

  datatype Option<T> = None | Some(value: T)

  /** The left merge on state: the first row of the state view with that state, if any. */
  function LookupState(states: seq<StateRow>, s: State): (r: Option<StateRow>)
    ensures r.Some? ==> r.value in states && r.value.state == s
    ensures r.None? <==> s !in StatesOf(states)
  {
    if states == [] then None
    else if states[0].state == s then Some(states[0])
    else
      assert StatesOf(states) == [states[0].state] + StatesOf(states[1..]);
      LookupState(states[1..], s)
  }

  /** In a state view without repeated states the merge finds each row's own counts. */
  lemma {:induction false} LookupOwnRow(states: seq<StateRow>, i: nat)
    requires NoDups(StatesOf(states)) && i < |states|
    ensures LookupState(states, states[i].state) == Some(states[i])
  {
    if i > 0 {
      assert states[0].state != states[i].state by {
        assert StatesOf(states)[0] == states[0].state && StatesOf(states)[i] == states[i].state;
      }
      assert NoDups(StatesOf(states[1..])) by {
        forall a, b | 0 <= a < b < |states[1..]| ensures StatesOf(states[1..])[a] != StatesOf(states[1..])[b] {
          assert StatesOf(states[1..])[a] == StatesOf(states)[a + 1];
          assert StatesOf(states[1..])[b] == StatesOf(states)[b + 1];
        }
      }
      assert states[1..][i - 1] == states[i];
      LookupOwnRow(states[1..], i - 1);
    }
  }

  // ---------------------------------------------------------------------
  // The five risks

  /**
   * The share of a population that has not updated, as a percentage:
   * (1 - updated / population) * 100 clipped to [0, 100], and 0 for an
   * empty population. PDS (biometric) and DBT (demographic) risk are this
   * over the adult enrolment.
   */
  function UpdateGapRisk(updated: nat, population: nat): (r: real)
    ensures 0.0 <= r <= 100.0
    ensures population == 0 ==> r == 0.0
  {
    if population > 0 then Clip((1.0 - updated as real / population as real) * 100.0, 0.0, 100.0) else 0.0
  }

  /** A product with a positive factor has the sign of the other factor. */
  lemma ProductSign(x: real, p: real)
    requires p > 0.0
    ensures x * p >= 0.0 <==> x >= 0.0
    ensures x * p == 0.0 <==> x == 0.0
  {
    if x < 0.0 {
      assert (-x) * p > 0.0;
    }
  }

  lemma RatioFacts(u: real, p: real)
    requires p > 0.0 && u >= 0.0
    ensures u / p >= 1.0 <==> u >= p
    ensures u / p == 0.0 <==> u == 0.0
  {
    var q := u / p;
    assert q * p == u;
    assert (q - 1.0) * p == u - p;
    ProductSign(q - 1.0, p);
    ProductSign(q, p);
  }

  /** The gap risk is 0 exactly when everyone has updated (or there is nobody), and 100 exactly when nobody has. */
  lemma UpdateGapRiskFacts(updated: nat, population: nat)
    ensures UpdateGapRisk(updated, population) == 0.0 <==> population == 0 || updated >= population
    ensures UpdateGapRisk(updated, population) == 100.0 <==> population > 0 && updated == 0
  {
    if population > 0 {
      RatioFacts(updated as real, population as real);
    }
  }

  /** More updates never raise the gap risk. */
  lemma UpdateGapRiskAntitone(u1: nat, u2: nat, population: nat)
    requires u1 <= u2
    ensures UpdateGapRisk(u2, population) <= UpdateGapRisk(u1, population)
  {
    if population > 0 {
      var p := population as real;
      var q1, q2 := u1 as real / p, u2 as real / p;
      assert q1 * p == u1 as real && q2 * p == u2 as real;
      assert (q2 - q1) * p == (u2 - u1) as real;
      ProductSign(q2 - q1, p);
    }
  }

  /** PDS risk: adults enrolled who never updated their biometrics. */
  function PdsRisk(row: StateRow): (r: real)
    ensures 0.0 <= r <= 100.0
    ensures row.age18plus == 0 ==> r == 0.0
  {
    UpdateGapRisk(row.bioAge17plus, row.age18plus)
  }

  /** DBT risk: adults enrolled whose demographic details were never updated. */
  function DbtRisk(row: StateRow): (r: real)
    ensures 0.0 <= r <= 100.0
    ensures row.age18plus == 0 ==> r == 0.0
  {
    UpdateGapRisk(row.demoAge17plus, row.age18plus)
  }

  /** OTP risk: the share of enrolled children (5 to 17) without a demographic update, as a percentage. */
  function OtpRisk(row: StateRow): (r: real)
    ensures 0.0 <= r <= 100.0
    ensures row.age5to17 == 0 ==> r == 0.0
  {
    if row.age5to17 > 0
    then Clip(((row.age5to17 as real - row.demoAge5to17 as real) / row.age5to17 as real) * 100.0, 0.0, 100.0)
    else 0.0
  }

  /** The OTP formula (children - updated) / children is the same gap as 1 - updated / children. */
  lemma OtpRiskIsUpdateGap(row: StateRow)
    ensures OtpRisk(row) == UpdateGapRisk(row.demoAge5to17, row.age5to17)
  {
    if row.age5to17 > 0 {
      var a, d := row.age5to17 as real, row.demoAge5to17 as real;
      var x, y := (a - d) / a, 1.0 - d / a;
      assert x * a == a - d;
      assert y * a == a - (d / a) * a == a - d;
      assert (x - y) * a == 0.0;
      ProductSign(x - y, a);
    }
  }

  /** Scholarship risk: (1 - YIR) * 100, clipped. */
  function ScholarshipRisk(yir: real): (r: real)
    ensures 0.0 <= r <= 100.0
    ensures r == 0.0 <==> yir >= 1.0
    ensures r == 100.0 <==> yir <= 0.0
  {
    Clip((1.0 - yir) * 100.0, 0.0, 100.0)
  }

  /** Banking risk: the health score's shortfall from 100, clipped. */
  function BankingRisk(health: real): (r: real)
    ensures 0.0 <= r <= 100.0
    ensures 0.0 <= health <= 100.0 ==> r + health == 100.0
  {
    Clip(100.0 - health, 0.0, 100.0)
  }

  function Mean5(a: real, b: real, c: real, d: real, e: real): real
  {
    (a + b + c + d + e) / 5.0
  }

  /** A mean of five percentages is a percentage; it is 0 exactly when all five are, and 100 exactly when all five are. */
  lemma Mean5Range(a: real, b: real, c: real, d: real, e: real)
    requires 0.0 <= a <= 100.0 && 0.0 <= b <= 100.0 && 0.0 <= c <= 100.0 && 0.0 <= d <= 100.0 && 0.0 <= e <= 100.0
    ensures 0.0 <= Mean5(a, b, c, d, e) <= 100.0
    ensures Mean5(a, b, c, d, e) == 0.0 <==> a == b == c == d == e == 0.0
    ensures Mean5(a, b, c, d, e) == 100.0 <==> a == b == c == d == e == 100.0
  {
  }

  // ---------------------------------------------------------------------
  // The risk table

  datatype RiskRow = RiskRow(
    classified: ClassifiedRow,
    counts: Option<StateRow>,
    pds: real, dbt: real, scholarship: real, otp: real, banking: real,
    composite: real)

  /** The counts the merge brings in, with a missing row read as zero counts. */
  function CountsOrZero(counts: Option<StateRow>, s: State): (row: StateRow)
    ensures counts.None? ==> row.age5to17 == row.age18plus == 0
    ensures counts.Some? ==> row == counts.value
  {
    match counts
    case Some(row) => row
    case None => StateRow(s, 0, 0, 0, 0, 0, 0, 0, 0, 0, 0, 0)
  }

  /** The risks of one classified row, merged with the state view. */
  function RiskRowOf(c: ClassifiedRow, states: seq<StateRow>): (r: RiskRow)
    ensures r.classified == c
    ensures r.counts == LookupState(states, c.scored.metrics.state)
    ensures r.counts.None? ==> r.pds == r.dbt == r.otp == 0.0
  {
    var counts := LookupState(states, c.scored.metrics.state);
    var row := CountsOrZero(counts, c.scored.metrics.state);
    var pds := PdsRisk(row);
    var dbt := DbtRisk(row);
    var scholarship := ScholarshipRisk(c.scored.metrics.yir);
    var otp := OtpRisk(row);
    var banking := BankingRisk(c.scored.health);
    RiskRow(c, counts, pds, dbt, scholarship, otp, banking, Mean5(pds, dbt, scholarship, otp, banking))
  }

  /** Every risk of a row is a percentage, and so is their mean. */
  lemma RiskRowRange(c: ClassifiedRow, states: seq<StateRow>)
    ensures var r := RiskRowOf(c, states);
      && 0.0 <= r.pds <= 100.0 && 0.0 <= r.dbt <= 100.0 && 0.0 <= r.scholarship <= 100.0
      && 0.0 <= r.otp <= 100.0 && 0.0 <= r.banking <= 100.0 && 0.0 <= r.composite <= 100.0
  {
    var r := RiskRowOf(c, states);
    var row := CountsOrZero(r.counts, c.scored.metrics.state);
    OtpRiskIsUpdateGap(row);
    Mean5Range(r.pds, r.dbt, r.scholarship, r.otp, r.banking);
  }

  /** calculate_problem_risks: the risks of every row, in order. */
  function RiskTable(cs: seq<ClassifiedRow>, states: seq<StateRow>): (rs: seq<RiskRow>)
    ensures |rs| == |cs|
    ensures forall i | 0 <= i < |cs| :: rs[i] == RiskRowOf(cs[i], states)
  {
    if cs == [] then [] else [RiskRowOf(cs[0], states)] + RiskTable(cs[1..], states)
  }
}
