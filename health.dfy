/**
 * The health scorer: every pillar is normalised to a 0..100 score (higher is
 * better) and the composite health score is their weighted sum with weights
 * 0.25 (IDI), 0.25 (GCI), 0.20 (TCS), 0.20 (YIR) and 0.10 (UBI).
 *
 * The IDI score is a min-max normalisation over the whole metrics table,
 * inverted, with 0.001 added to the range so that a table whose IDI values
 * are all equal does not divide by zero.
 */
module Health {
  import opened Metrics

  /** The smallest IDI in the table. */
  function MinIdi(ms: seq<MetricsRow>): (lo: real)
    requires ms != []
    ensures forall i | 0 <= i < |ms| :: lo <= ms[i].idi
    ensures exists i | 0 <= i < |ms| :: lo == ms[i].idi
  {
    if |ms| == 1 then ms[0].idi
    else
      var rest := MinIdi(ms[1..]);
      assert forall i | 1 <= i < |ms| :: ms[i] == ms[1..][i - 1];
      if ms[0].idi <= rest then ms[0].idi else rest
  }

  /** The largest IDI in the table. */
  function MaxIdi(ms: seq<MetricsRow>): (hi: real)
    requires ms != []
    ensures forall i | 0 <= i < |ms| :: ms[i].idi <= hi
    ensures exists i | 0 <= i < |ms| :: hi == ms[i].idi
  {
    if |ms| == 1 then ms[0].idi
    else
      var rest := MaxIdi(ms[1..]);
      assert forall i | 1 <= i < |ms| :: ms[i] == ms[1..][i - 1];
      if ms[0].idi >= rest then ms[0].idi else rest
  }

  function Clip(x: real, lo: real, hi: real): (r: real)
    requires lo <= hi
    ensures lo <= r <= hi
    ensures lo <= x <= hi ==> r == x
  {
    if x < lo then lo else if x > hi then hi else x
  }

  function Abs(x: real): (r: real)
    ensures r >= 0.0
    ensures r == 0.0 <==> x == 0.0
  {
    if x < 0.0 then -x else x
  }

  // ---------------------------------------------------------------------
  // Pillar scores

  /** The inverted min-max normalisation of an IDI value against the table range [lo, hi]. */
  function IdiScore(idi: real, lo: real, hi: real): real
    requires lo <= hi
  {
    100.0 * (1.0 - (idi - lo) / (hi - lo + 0.001))
  }

  /** Within the table range the IDI score lies in (0, 100] and is 100 exactly at the smallest IDI. */
  lemma IdiScoreRange(idi: real, lo: real, hi: real)
    requires lo <= idi <= hi
    ensures 0.0 < IdiScore(idi, lo, hi) <= 100.0
    ensures IdiScore(idi, lo, hi) == 100.0 <==> idi == lo
  {
    var d := hi - lo + 0.001;
    var q := (idi - lo) / d;
    assert q * d == idi - lo;
    assert 0.0 <= q;
    assert idi - lo < d;
  }

  /** A larger IDI (a bigger infrastructure deficit) never scores higher. */
  lemma IdiScoreAntitone(a: real, b: real, lo: real, hi: real)
    requires lo <= hi && a <= b
    ensures IdiScore(b, lo, hi) <= IdiScore(a, lo, hi)
  {
    var d := hi - lo + 0.001;
    var qa, qb := (a - lo) / d, (b - lo) / d;
    assert qa * d == a - lo && qb * d == b - lo;
    assert (qb - qa) * d == b - a;
  }

  /** The unclipped UBI score: 100 at the ideal biometric fraction 0.425, falling linearly with the distance from it. */
  function UbiRaw(ubi: real): (r: real)
    ensures r <= 100.0
    ensures r == 100.0 <==> ubi == 0.425
  {
    100.0 * (1.0 - Abs(ubi - 0.425) / 0.425)
  }

  function UbiScore(ubi: real): (r: real)
    ensures 0.0 <= r <= 100.0
  {
    Clip(UbiRaw(ubi), 0.0, 100.0)
  }

  /** The UBI score is 100 exactly at the ideal 0.425, 0 exactly outside (0, 0.85), and symmetric about the ideal. */
  lemma UbiScoreFacts(ubi: real, d: real)
    ensures UbiScore(ubi) == 100.0 <==> ubi == 0.425
    ensures UbiScore(ubi) == 0.0 <==> ubi <= 0.0 || ubi >= 0.85
    ensures UbiScore(0.425 + d) == UbiScore(0.425 - d)
  {
    assert Abs((0.425 + d) - 0.425) == Abs((0.425 - d) - 0.425);
    var a := Abs(ubi - 0.425);
    assert UbiRaw(ubi) == 100.0 - a * (100.0 / 0.425);
    assert a >= 0.425 <==> ubi <= 0.0 || ubi >= 0.85;
  }

  /** The YIR score: YIR capped at 1.5, as a percentage of 1.5. */
  function YirScore(yir: real): (r: real)
    ensures yir >= 0.0 ==> 0.0 <= r <= 100.0
    ensures yir >= 1.5 ==> r == 100.0
  {
    100.0 * (if yir < 1.5 then yir else 1.5) / 1.5
  }

  /** A higher youth inclusion ratio never scores lower. */
  lemma YirScoreMonotone(a: real, b: real)
    requires a <= b
    ensures YirScore(a) <= YirScore(b)
  {
  }

  function GciScore(gci: real): (r: real)
    ensures 0.0 <= gci <= 1.0 ==> 0.0 <= r <= 100.0
    ensures gci < 1.0 ==> r > 0.0
  {
    100.0 * (1.0 - gci)
  }

  function TcsScore(tcs: real): (r: real)
    ensures 0.0 <= tcs <= 1.0 ==> 0.0 <= r <= 100.0
  {
    100.0 * tcs
  }

  /** The composite: the weighted sum of the five pillar scores. */
  function Composite(idiScore: real, gciScore: real, tcsScore: real, yirScore: real, ubiScore: real): real
  {
    0.25 * idiScore + 0.25 * gciScore + 0.20 * tcsScore + 0.20 * yirScore + 0.10 * ubiScore
  }

  /**
   * The weights add up to 1: scores in [0, 100] give a composite in
   * [0, 100], and the composite is 100 exactly when every score is 100.
   */
  lemma CompositeRange(idiScore: real, gciScore: real, tcsScore: real, yirScore: real, ubiScore: real)
    requires 0.0 <= idiScore <= 100.0 && 0.0 <= gciScore <= 100.0 && 0.0 <= tcsScore <= 100.0
    requires 0.0 <= yirScore <= 100.0 && 0.0 <= ubiScore <= 100.0
    ensures 0.0 <= Composite(idiScore, gciScore, tcsScore, yirScore, ubiScore) <= 100.0
    ensures Composite(idiScore, gciScore, tcsScore, yirScore, ubiScore) == 100.0
            <==> idiScore == gciScore == tcsScore == yirScore == ubiScore == 100.0
  {
  }

  // ---------------------------------------------------------------------
  // The scored table

  /** A metrics row with its pillar scores and health score. */
  datatype ScoredRow = ScoredRow(
    metrics: MetricsRow,
    idiScore: real, ubiScore: real, yirScore: real, gciScore: real, tcsScore: real,
    health: real)

  /** The scores of one row, against the table's IDI range [lo, hi]. */
  function ScoreRow(m: MetricsRow, lo: real, hi: real): (s: ScoredRow)
    requires lo <= hi
    ensures s.metrics == m
  {
    var idiScore := IdiScore(m.idi, lo, hi);
    var ubiScore := UbiScore(m.ubi);
    var yirScore := YirScore(m.yir);
    var gciScore := GciScore(m.gci);
    var tcsScore := TcsScore(m.tcs);
    ScoredRow(m, idiScore, ubiScore, yirScore, gciScore, tcsScore,
      Composite(idiScore, gciScore, tcsScore, yirScore, ubiScore))
  }

  /** A row in range whose IDI lies in the table range has every score in [0, 100] and a health score in (0, 100]. */
  lemma ScoreRowRange(m: MetricsRow, lo: real, hi: real)
    requires InRange(m) && lo <= m.idi <= hi
    ensures var s := ScoreRow(m, lo, hi);
      && 0.0 < s.idiScore <= 100.0 && 0.0 <= s.ubiScore <= 100.0 && 0.0 <= s.yirScore <= 100.0
      && 0.0 <= s.gciScore <= 100.0 && 0.0 <= s.tcsScore <= 100.0
      && 0.0 < s.health <= 100.0
  {
    var s := ScoreRow(m, lo, hi);
    IdiScoreRange(m.idi, lo, hi);
    CompositeRange(s.idiScore, s.gciScore, s.tcsScore, s.yirScore, s.ubiScore);
  }

  function ScoreRows(ms: seq<MetricsRow>, lo: real, hi: real): (ss: seq<ScoredRow>)
    requires lo <= hi
    ensures |ss| == |ms|
    ensures forall i | 0 <= i < |ms| :: ss[i] == ScoreRow(ms[i], lo, hi)
  {
    if ms == [] then [] else [ScoreRow(ms[0], lo, hi)] + ScoreRows(ms[1..], lo, hi)
  }

  /** calculate_health_score: every row scored against the IDI range of the whole table. */
  function HealthTable(ms: seq<MetricsRow>): (ss: seq<ScoredRow>)
    ensures |ss| == |ms|
    ensures forall i | 0 <= i < |ms| :: ss[i].metrics == ms[i]
  {
    if ms == [] then [] else ScoreRows(ms, MinIdi(ms), MaxIdi(ms))
  }

  /** Over a table of in-range rows, every score and every health score lies within its range. */
  lemma HealthTableRange(ms: seq<MetricsRow>)
    requires forall i | 0 <= i < |ms| :: InRange(ms[i])
    ensures forall i | 0 <= i < |ms| ::
      var s := HealthTable(ms)[i];
      && 0.0 < s.idiScore <= 100.0 && 0.0 <= s.ubiScore <= 100.0 && 0.0 <= s.yirScore <= 100.0
      && 0.0 <= s.gciScore <= 100.0 && 0.0 <= s.tcsScore <= 100.0
      && 0.0 < s.health <= 100.0
  {
    forall i | 0 <= i < |ms|
      ensures var s := HealthTable(ms)[i];
        && 0.0 < s.idiScore <= 100.0 && 0.0 <= s.ubiScore <= 100.0 && 0.0 <= s.yirScore <= 100.0
        && 0.0 <= s.gciScore <= 100.0 && 0.0 <= s.tcsScore <= 100.0
        && 0.0 < s.health <= 100.0
    {
      ScoreRowRange(ms[i], MinIdi(ms), MaxIdi(ms));
    }
  }

  /** The IDI score orders states inversely to their IDI, and the state with the smallest IDI scores exactly 100. */
  lemma HealthTableIdiOrder(ms: seq<MetricsRow>, i: nat, j: nat)
    requires i < |ms| && j < |ms|
    ensures ms[i].idi <= ms[j].idi ==> HealthTable(ms)[j].idiScore <= HealthTable(ms)[i].idiScore
    ensures HealthTable(ms)[i].idiScore == 100.0 <==> ms[i].idi == MinIdi(ms)
  {
    var lo, hi := MinIdi(ms), MaxIdi(ms);
    if ms[i].idi <= ms[j].idi {
      IdiScoreAntitone(ms[i].idi, ms[j].idi, lo, hi);
    }
    IdiScoreRange(ms[i].idi, lo, hi);
  }
}
