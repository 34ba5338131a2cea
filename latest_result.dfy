/**
 * The tolerance-scaled classifier of src/components/LatestResultSection.tsx,
 * a second strategy with its own table, kept apart from the strict one.
 *
 * A panel value is a number or a string; the model receives its numeric
 * reading, `None` when `parseFloat` gives NaN. The range strings are the
 * ones the source file holds, character for character.
 */
module LatestResult {
  import opened Wrappers
  import opened BiomarkerEvaluation

  datatype ToleranceRule = ToleranceRule(range: string, min: real, max: real)

  /** `rules[key]`: 17 entries; eGFR is keyed `eGFR`, not `egfr`. */
  function RuleFor(key: string): Option<ToleranceRule> {
    if key == "hemoglobin" then Some(ToleranceRule("13.5‚Äì17.5 g/dL", 13.5, 17.5))
    else if key == "wbc" then Some(ToleranceRule("4.0‚Äì11.0 x10‚Åπ/L", 4.0, 11.0))
    else if key == "platelets" then Some(ToleranceRule("150‚Äì450 x10‚Åπ/L", 150.0, 450.0))
    else if key == "rbc" then Some(ToleranceRule("4.5‚Äì5.9 x10‚Å∂/¬µL", 4.5, 5.9))
    else if key == "hematocrit" then Some(ToleranceRule("41‚Äì53%", 41.0, 53.0))
    else if key == "totalCholesterol" then Some(ToleranceRule("<200 mg/dL", 0.0, 200.0))
    else if key == "ldl" then Some(ToleranceRule("<130 mg/dL", 0.0, 130.0))
    else if key == "hdl" then Some(ToleranceRule(">40 mg/dL", 40.0, 100.0))
    else if key == "triglycerides" then Some(ToleranceRule("<150 mg/dL", 0.0, 150.0))
    else if key == "glucose" then Some(ToleranceRule("70‚Äì99 mg/dL", 70.0, 99.0))
    else if key == "calcium" then Some(ToleranceRule("8.6‚Äì10.2 mg/dL", 8.6, 10.2))
    else if key == "sodium" then Some(ToleranceRule("135‚Äì145 mmol/L", 135.0, 145.0))
    else if key == "potassium" then Some(ToleranceRule("3.5‚Äì5.0 mmol/L", 3.5, 5.0))
    else if key == "creatinine" then Some(ToleranceRule("0.7‚Äì1.3 mg/dL", 0.7, 1.3))
    else if key == "eGFR" then Some(ToleranceRule(">60 mL/min", 60.0, 120.0))
    else if key == "alt" then Some(ToleranceRule("7‚Äì56 U/L", 7.0, 56.0))
    else if key == "albumin" then Some(ToleranceRule("3.4‚Äì5.4 g/dL", 3.4, 5.4))
    else None
  }

  /** Every rule has `0 <= min <= max`, so `[min, max]` lies inside the tolerance band `[0.9*min, 1.1*max]`. */
  lemma RulesWellFormed(key: string)
    requires RuleFor(key).Some?
    ensures 0.0 <= RuleFor(key).value.min <= RuleFor(key).value.max
    ensures RuleFor(key).value.min * 0.9 <= RuleFor(key).value.min
    ensures RuleFor(key).value.max <= RuleFor(key).value.max * 1.1
  {
  }

  /** What one table row shows: the range text and the status. */
  datatype DisplayEvaluation = DisplayEvaluation(range: string, status: BiomarkerStatus)

  /** The answer for a NaN reading or an unknown key. */
  const Placeholder: DisplayEvaluation := DisplayEvaluation("-", Suboptimal)

  /**
   * `evaluateBiomarker(key, value)` of the results table: total, never null.
   * Critical outside `[0.9*min, 1.1*max]`, suboptimal outside `[min, max]`
   * but within that tolerance, optimal inside `[min, max]`.
   */
  function EvaluateWithTolerance(key: string, numeric: Option<real>): (e: DisplayEvaluation)
    ensures numeric.None? ==> e == Placeholder
    ensures RuleFor(key).None? ==> e == Placeholder
    ensures numeric.Some? && RuleFor(key).Some? ==>
      var rule, v := RuleFor(key).value, numeric.value;
      && e.range == rule.range
      && (e.status == Critical <==> v < rule.min * 0.9 || v > rule.max * 1.1)
      && (e.status == Suboptimal <==> (rule.min * 0.9 <= v < rule.min) || (rule.max < v <= rule.max * 1.1))
      && (e.status == Optimal <==> rule.min <= v <= rule.max)
  {
    if numeric.None? then Placeholder
    else match RuleFor(key)
      case None => Placeholder
      case Some(rule) =>
        var v := numeric.value;
        RulesWellFormed(key);
        if v < rule.min * 0.9 || v > rule.max * 1.1 then DisplayEvaluation(rule.range, Critical)
        else if v < rule.min || v > rule.max then DisplayEvaluation(rule.range, Suboptimal)
        else DisplayEvaluation(rule.range, Optimal)
  }

  /** Hemoglobin 13.0 is suboptimal (12.15 <= 13.0 < 13.5) and 11.0 is critical (below 12.15). */
  lemma HemoglobinExamples()
    ensures EvaluateWithTolerance("hemoglobin", Some(13.0)) == DisplayEvaluation("13.5‚Äì17.5 g/dL", Suboptimal)
    ensures EvaluateWithTolerance("hemoglobin", Some(11.0)) == DisplayEvaluation("13.5‚Äì17.5 g/dL", Critical)
  {
  }

  /** Only `eGFR` has a rule; the strict table's spelling `egfr` gets the placeholder. */
  lemma EgfrSpelling(v: real)
    ensures EvaluateWithTolerance("egfr", Some(v)) == Placeholder
    ensures EvaluateWithTolerance("eGFR", Some(90.0)) == DisplayEvaluation(">60 mL/min", Optimal)
  {
  }

  /**
   * The two strategies disagree on the same reading: hemoglobin 13.0 is
   * optimal in the strict table and suboptimal here, and eGFR 140 is optimal
   * there and critical here, because this table caps eGFR at 120 * 1.1.
   */
  lemma StrategiesDiverge()
    ensures EvaluateBiomarker("hemoglobin", Some(13.0), CBC).value.status == Optimal
    ensures EvaluateWithTolerance("hemoglobin", Some(13.0)).status == Suboptimal
    ensures EvaluateBiomarker("egfr", Some(140.0), CMP).value.status == Optimal
    ensures EvaluateWithTolerance("eGFR", Some(140.0)).status == Critical
  {
    StatusAsWritten("hemoglobin", 13.0, CBC);
    StatusAsWritten("egfr", 140.0, CMP);
  }

  /** One `[key, value]` pair of a panel, with the value's numeric reading. */
  type PanelEntry = (string, Option<real>)

  /** One rendered row of a panel table. */
  datatype Row = Row(key: string, value: Option<real>, evaluation: DisplayEvaluation)

  const CreatedAt: string := "createdAt"

  /** `Object.entries(panel).filter(([key]) => key !== "createdAt").map(...)`. */
  function PanelRows(panel: seq<PanelEntry>): (rows: seq<Row>)
    ensures |rows| <= |panel|
    ensures forall row :: row in rows ==>
      && row.key != CreatedAt
      && (row.key, row.value) in panel
      && row.evaluation == EvaluateWithTolerance(row.key, row.value)
  {
    if panel == [] then []
    else
      var (key, value) := panel[0];
      if key == CreatedAt then PanelRows(panel[1..])
      else [Row(key, value, EvaluateWithTolerance(key, value))] + PanelRows(panel[1..])
  }

  /** Every entry other than `createdAt` gets a row. */
  lemma {:induction false} PanelRowsComplete(panel: seq<PanelEntry>)
    ensures forall x :: x in panel && x.0 != CreatedAt ==> Row(x.0, x.1, EvaluateWithTolerance(x.0, x.1)) in PanelRows(panel)
    ensures |PanelRows(panel)| == |panel| - CountKey(panel, CreatedAt)
  {
    if panel != [] {
      PanelRowsComplete(panel[1..]);
      assert forall x :: x in panel <==> x == panel[0] || x in panel[1..];
    }
  }

  /** Rows of a concatenation are the rows of each part in turn, so rows follow entry order. */
  lemma {:induction false} PanelRowsAppend(a: seq<PanelEntry>, b: seq<PanelEntry>)
    ensures PanelRows(a + b) == PanelRows(a) + PanelRows(b)
  {
    if a == [] {
      assert a + b == b;
    } else {
      assert (a + b)[1..] == a[1..] + b;
      PanelRowsAppend(a[1..], b);
    }
  }

  /** How many entries carry the given key. */
  function CountKey(panel: seq<PanelEntry>, key: string): (n: nat)
    ensures n <= |panel|
  {
    if panel == [] then 0
    else (if panel[0].0 == key then 1 else 0) + CountKey(panel[1..], key)
  }
}
