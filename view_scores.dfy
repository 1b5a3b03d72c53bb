/**
 * The score split of the chart script (v4/view_scores.py): a model's
 * overall-from-totals score is drawn as two stacked bars, the technical
 * quality part and the prompt adherence part, read back from the
 * `aggregate_scores` of the model's summary file.
 */
module ScoreView {
  import opened Wrappers
  import S = ScoringV4

  const WeightTechnicalQuality: real := 0.3
  const WeightPromptAdherence: real := 0.7

  const OverallKey := "overall_weighted_score_from_totals"
  const TqEarnedKey := "total_tq_earned"
  const TqMaxKey := "total_tq_max"
  const AdhEarnedKey := "total_adh_earned"
  const AdhMaxKey := "total_adh_max"

  /** `agg_scores.get(key, 0.0)`. */
  function Get(agg: map<string, real>, key: string): real {
    if key in agg then agg[key] else 0.0
  }

  /** One bar of the chart: a percentage of the max, weighted; 0 when the max is not positive. */
  function Contribution(earned: real, max: real, weight: real): (c: real)
    ensures c == S.Percent(earned, max) * weight
    ensures 0.0 <= weight && 0.0 <= earned <= max ==> 0.0 <= c <= weight * 100.0
  {
    if max > 0.0 then earned / max * weight * 100.0 else 0.0
  }

  /** What `parse_summary_data` returns for one summary file. */
  datatype ChartRow = ChartRow(modelName: string, runId: string, overall: real,
                               tqContribution: real, adhContribution: real)

  /**
   * `parse_summary_data`: `name` is `benchmark_run_name` and `agg` is
   * `aggregate_scores`, each `None` when the file lacks it. The two bars add
   * up to the analyzer's weighted score of the stored totals, before rounding.
   */
  function ParseSummary(name: Option<string>, runId: string, agg: Option<map<string, real>>): (row: ChartRow)
    ensures row.modelName == (if name.Some? then name.value else "UnknownModel")
    ensures row.runId == runId
    ensures var a := if agg.Some? then agg.value else map[];
            row.tqContribution + row.adhContribution
            == S.Weighted(S.Percent(Get(a, TqEarnedKey), Get(a, TqMaxKey)),
                          S.Percent(Get(a, AdhEarnedKey), Get(a, AdhMaxKey)))
    ensures agg.None? ==> row.overall == 0.0 && row.tqContribution == 0.0 && row.adhContribution == 0.0
  {
    var a := if agg.Some? then agg.value else map[];
    ChartRow(if name.Some? then name.value else "UnknownModel", runId, Get(a, OverallKey),
             Contribution(Get(a, TqEarnedKey), Get(a, TqMaxKey), WeightTechnicalQuality),
             Contribution(Get(a, AdhEarnedKey), Get(a, AdhMaxKey), WeightPromptAdherence))
  }

  /** The `aggregate_scores` the analyzer writes for a model's summary. */
  function AggregateOf(s: S.Summary): map<string, real> {
    map[TqEarnedKey := s.tqEarned, TqMaxKey := s.tqMax, AdhEarnedKey := s.adhEarned,
        AdhMaxKey := s.adhMax, OverallKey := s.overall,
        "average_prompt_weighted_score" := s.average]
  }

  /**
   * Read back from a summary the analyzer wrote, the two bars round to the
   * stored overall score, and each lies within its weight's share when the
   * totals are within their maxima.
   */
  lemma BarsAddUpToOverall(t: S.Totals, round2: real -> real, name: Option<string>, runId: string)
    ensures var row := ParseSummary(name, runId, Some(AggregateOf(S.Finish(t, round2))));
            round2(row.tqContribution + row.adhContribution) == row.overall
    ensures var row := ParseSummary(name, runId, Some(AggregateOf(S.Finish(t, round2))));
            0.0 <= t.tqEarned <= t.tqMax && 0.0 <= t.adhEarned <= t.adhMax ==>
              0.0 <= row.tqContribution <= 30.0 && 0.0 <= row.adhContribution <= 70.0
  {
    var s := S.Finish(t, round2);
    var a := AggregateOf(s);
    assert Get(a, TqEarnedKey) == t.tqEarned && Get(a, TqMaxKey) == t.tqMax;
    assert Get(a, AdhEarnedKey) == t.adhEarned && Get(a, AdhMaxKey) == t.adhMax;
    assert Get(a, OverallKey) == s.overall;
  }
}
