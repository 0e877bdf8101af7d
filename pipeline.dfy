/**
 * The stages in the order an analysis run applies them: the pillar metrics
 * of the state, district and month views, the health scores, the
 * archetypes and the problem risks merged back with the state view.
 */
module Pipeline {
  import opened Grouping
  import opened Aggregation
  import opened Metrics
  import opened Health
  import opened Archetype
  import opened Risks

  /** The final table of a run over the given state, district and month views. */
  function ReportOf(states: seq<StateRow>, districts: seq<SubRow<District>>, months: seq<SubRow<Month>>, sqrt: real -> NonNegReal): (report: seq<RiskRow>)
    ensures |report| == |states|
    ensures forall i | 0 <= i < |report| :: report[i].classified.scored.metrics.state == states[i].state
  {
    RiskTable(ArchetypeTable(HealthTable(MetricsTable(states, districts, months, sqrt))), states)
  }

  /**
   * Over a state view without repeated states: the report has one row per
   * state in the view's order, the merge on state finds every row's own
   * counts (so no risk falls back for missing data), every health score
   * lies in (0, 100] and every risk, and their mean, in [0, 100].
   */
  lemma ReportFacts(states: seq<StateRow>, districts: seq<SubRow<District>>, months: seq<SubRow<Month>>, sqrt: real -> NonNegReal)
    requires NoDups(StatesOf(states))
    ensures var report := ReportOf(states, districts, months, sqrt);
      && |report| == |states|
      && forall i | 0 <= i < |report| ::
           && report[i].classified.scored.metrics.state == states[i].state
           && report[i].counts == Some(states[i])
           && 0.0 < report[i].classified.scored.health <= 100.0
           && 0.0 <= report[i].pds <= 100.0 && 0.0 <= report[i].dbt <= 100.0
           && 0.0 <= report[i].scholarship <= 100.0 && 0.0 <= report[i].otp <= 100.0
           && 0.0 <= report[i].banking <= 100.0 && 0.0 <= report[i].composite <= 100.0
  {
    var ms := MetricsTable(states, districts, months, sqrt);
    var ss := HealthTable(ms);
    var cs := ArchetypeTable(ss);
    var report := RiskTable(cs, states);
    HealthTableRange(ms);
    forall i | 0 <= i < |report|
      ensures report[i].classified.scored.metrics.state == states[i].state
      ensures report[i].counts == Some(states[i])
      ensures 0.0 < report[i].classified.scored.health <= 100.0
      ensures 0.0 <= report[i].pds <= 100.0 && 0.0 <= report[i].dbt <= 100.0
      ensures 0.0 <= report[i].scholarship <= 100.0 && 0.0 <= report[i].otp <= 100.0
      ensures 0.0 <= report[i].banking <= 100.0 && 0.0 <= report[i].composite <= 100.0
    {
      assert report[i] == RiskRowOf(cs[i], states);
      assert cs[i].scored == ss[i] && ss[i].metrics == ms[i];
      LookupOwnRow(states, i);
      RiskRowRange(cs[i], states);
    }
  }
}
