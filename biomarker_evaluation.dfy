/**
 * The strict three-band classifier of src/utils/biomarkerEvaluation.ts.
 *
 * The source stores a pair of closures per biomarker; here every closure is
 * data: a band is a union of intervals whose ends are inclusive, exclusive or
 * open. `OptimalAsWritten` and `SuboptimalAsWritten` transcribe the closures
 * as the source writes them, and `BandsMatchSource` proves that the data
 * table says the same thing for every value.
 */
module BiomarkerEvaluation {
  import opened Wrappers

  datatype BiomarkerStatus = Optimal | Suboptimal | Critical

  /** The panel a biomarker belongs to: 'CBC' | 'CMP' | 'Lipid Panel'. */
  datatype Category = CBC | CMP | LipidPanel

  datatype BiomarkerResult = BiomarkerResult(
    name: string,
    value: real,
    unit: string,
    status: BiomarkerStatus,
    range: string,
    category: Category)

  /** One end of an interval. */
  datatype Bound = Unbounded | Inclusive(at: real) | Exclusive(at: real)

  datatype Interval = Interval(lo: Bound, hi: Bound)

  /** A band is the union of its intervals. */
  type Band = seq<Interval>

  predicate AboveLow(v: real, b: Bound) {
    match b
    case Unbounded => true
    case Inclusive(x) => x <= v
    case Exclusive(x) => x < v
  }

  predicate BelowHigh(v: real, b: Bound) {
    match b
    case Unbounded => true
    case Inclusive(x) => v <= x
    case Exclusive(x) => v < x
  }

  predicate InInterval(v: real, i: Interval) {
    AboveLow(v, i.lo) && BelowHigh(v, i.hi)
  }

  predicate InBand(v: real, band: Band) {
    exists i :: 0 <= i < |band| && InInterval(v, band[i])
  }

  /** One row of the `evaluations` table. */
  datatype BiomarkerConfig = BiomarkerConfig(
    name: string,
    unit: string,
    range: string,
    optimal: Band,
    suboptimal: Band,
    category: Category)

  function Closed(lo: real, hi: real): Interval {
    Interval(Inclusive(lo), Inclusive(hi))
  }

  /** `evaluations[name]`: the 17-entry table, keyed case-sensitively as the source keys it. */
  function ConfigFor(name: string): Option<BiomarkerConfig> {
    if name == "wbc" then Some(BiomarkerConfig("WBC", "×10⁹/L", "4.0-8.0",
        [Closed(4.0, 8.0)],
        [Interval(Inclusive(3.0), Exclusive(4.0)), Interval(Exclusive(8.0), Inclusive(10.0))], CBC))
    else if name == "rbc" then Some(BiomarkerConfig("RBC", "×10¹²/L", "4.2-5.5",
        [Closed(4.2, 5.5)],
        [Interval(Inclusive(3.8), Exclusive(4.2)), Interval(Exclusive(5.5), Inclusive(6.0))], CBC))
    else if name == "hemoglobin" then Some(BiomarkerConfig("Hemoglobin", "g/dL", "12-16.5",
        [Closed(12.0, 16.5)],
        [Interval(Inclusive(11.0), Exclusive(12.0)), Interval(Exclusive(16.5), Inclusive(18.0))], CBC))
    else if name == "hematocrit" then Some(BiomarkerConfig("Hematocrit", "%", "36-50",
        [Closed(36.0, 50.0)],
        [Interval(Inclusive(30.0), Exclusive(36.0)), Interval(Exclusive(50.0), Inclusive(55.0))], CBC))
    else if name == "platelets" then Some(BiomarkerConfig("Platelets", "×10⁹/L", "150-350",
        [Closed(150.0, 350.0)],
        [Interval(Inclusive(120.0), Exclusive(150.0)), Interval(Exclusive(350.0), Inclusive(450.0))], CBC))
    else if name == "glucose" then Some(BiomarkerConfig("Glucose (fasting)", "mg/dL", "75-90",
        [Closed(75.0, 90.0)],
        [Interval(Inclusive(65.0), Exclusive(75.0)), Interval(Exclusive(90.0), Exclusive(100.0))], CMP))
    else if name == "creatinine" then Some(BiomarkerConfig("Creatinine", "mg/dL", "0.6-1.1",
        [Closed(0.6, 1.1)],
        [Interval(Exclusive(1.1), Inclusive(1.3))], CMP))
    else if name == "egfr" then Some(BiomarkerConfig("eGFR", "mL/min", ">90",
        [Interval(Exclusive(90.0), Unbounded)],
        [Closed(60.0, 90.0)], CMP))
    else if name == "sodium" then Some(BiomarkerConfig("Sodium", "mmol/L", "137-142",
        [Closed(137.0, 142.0)],
        [Interval(Inclusive(133.0), Exclusive(137.0)), Interval(Exclusive(142.0), Inclusive(145.0))], CMP))
    else if name == "potassium" then Some(BiomarkerConfig("Potassium", "mmol/L", "4.0-4.8",
        [Closed(4.0, 4.8)],
        [Interval(Inclusive(3.6), Exclusive(4.0)), Interval(Exclusive(4.8), Inclusive(5.1))], CMP))
    else if name == "calcium" then Some(BiomarkerConfig("Calcium", "mg/dL", "9.2-10.0",
        [Closed(9.2, 10.0)],
        [Interval(Inclusive(8.8), Exclusive(9.2)), Interval(Exclusive(10.0), Inclusive(10.4))], CMP))
    else if name == "alt" then Some(BiomarkerConfig("ALT", "U/L", "<25",
        [Interval(Unbounded, Exclusive(25.0))],
        [Closed(25.0, 40.0)], CMP))
    else if name == "albumin" then Some(BiomarkerConfig("Albumin", "g/dL", "4.2-5.0",
        [Closed(4.2, 5.0)],
        [Interval(Inclusive(3.8), Exclusive(4.2))], CMP))
    else if name == "totalCholesterol" then Some(BiomarkerConfig("Total Cholesterol", "mg/dL", "150-180",
        [Closed(150.0, 180.0)],
        [Interval(Exclusive(180.0), Exclusive(200.0))], LipidPanel))
    else if name == "ldl" then Some(BiomarkerConfig("LDL", "mg/dL", "<100",
        [Interval(Unbounded, Exclusive(100.0))],
        [Interval(Inclusive(100.0), Exclusive(130.0))], LipidPanel))
    else if name == "hdl" then Some(BiomarkerConfig("HDL", "mg/dL", ">60",
        [Interval(Exclusive(60.0), Unbounded)],
        [Closed(45.0, 60.0)], LipidPanel))
    else if name == "triglycerides" then Some(BiomarkerConfig("Triglycerides", "mg/dL", "<90",
        [Interval(Unbounded, Exclusive(90.0))],
        [Closed(90.0, 130.0)], LipidPanel))
    else None
  }

  /** The source's optimal closures, transcribed inequality by inequality. */
  predicate OptimalAsWritten(key: string, v: real) {
    if key == "wbc" then v >= 4.0 && v <= 8.0
    else if key == "rbc" then v >= 4.2 && v <= 5.5
    else if key == "hemoglobin" then v >= 12.0 && v <= 16.5
    else if key == "hematocrit" then v >= 36.0 && v <= 50.0
    else if key == "platelets" then v >= 150.0 && v <= 350.0
    else if key == "glucose" then v >= 75.0 && v <= 90.0
    else if key == "creatinine" then v >= 0.6 && v <= 1.1
    else if key == "egfr" then v > 90.0
    else if key == "sodium" then v >= 137.0 && v <= 142.0
    else if key == "potassium" then v >= 4.0 && v <= 4.8
    else if key == "calcium" then v >= 9.2 && v <= 10.0
    else if key == "alt" then v < 25.0
    else if key == "albumin" then v >= 4.2 && v <= 5.0
    else if key == "totalCholesterol" then v >= 150.0 && v <= 180.0
    else if key == "ldl" then v < 100.0
    else if key == "hdl" then v > 60.0
    else if key == "triglycerides" then v < 90.0
    else false
  }

  /** The source's suboptimal closures, transcribed inequality by inequality. */
  predicate SuboptimalAsWritten(key: string, v: real) {
    if key == "wbc" then (v >= 3.0 && v < 4.0) || (v > 8.0 && v <= 10.0)
    else if key == "rbc" then (v >= 3.8 && v < 4.2) || (v > 5.5 && v <= 6.0)
    else if key == "hemoglobin" then (v >= 11.0 && v < 12.0) || (v > 16.5 && v <= 18.0)
    else if key == "hematocrit" then (v >= 30.0 && v < 36.0) || (v > 50.0 && v <= 55.0)
    else if key == "platelets" then (v >= 120.0 && v < 150.0) || (v > 350.0 && v <= 450.0)
    else if key == "glucose" then (v >= 65.0 && v < 75.0) || (v > 90.0 && v < 100.0)
    else if key == "creatinine" then v > 1.1 && v <= 1.3
    else if key == "egfr" then v >= 60.0 && v <= 90.0
    else if key == "sodium" then (v >= 133.0 && v < 137.0) || (v > 142.0 && v <= 145.0)
    else if key == "potassium" then (v >= 3.6 && v < 4.0) || (v > 4.8 && v <= 5.1)
    else if key == "calcium" then (v >= 8.8 && v < 9.2) || (v > 10.0 && v <= 10.4)
    else if key == "alt" then v >= 25.0 && v <= 40.0
    else if key == "albumin" then v >= 3.8 && v < 4.2
    else if key == "totalCholesterol" then v > 180.0 && v < 200.0
    else if key == "ldl" then v >= 100.0 && v < 130.0
    else if key == "hdl" then v >= 45.0 && v <= 60.0
    else if key == "triglycerides" then v >= 90.0 && v <= 130.0
    else false
  }

  /** A band of one or two intervals holds exactly when one of its intervals does. */
  lemma InBandOfTwo(v: real, band: Band)
    requires 1 <= |band| <= 2
    ensures InBand(v, band) <==> InInterval(v, band[0]) || (|band| == 2 && InInterval(v, band[1]))
  {
    if InBand(v, band) {
      var i :| 0 <= i < |band| && InInterval(v, band[i]);
      assert i == 0 || i == 1;
    }
    if InInterval(v, band[0]) {
      assert 0 <= 0 < |band| && InInterval(v, band[0]);
    }
    if |band| == 2 && InInterval(v, band[1]) {
      assert 0 <= 1 < |band| && InInterval(v, band[1]);
    }
  }

  // The comparison of bands with closures is split into groups of two or
  // three keys: one lemma over all 17 entries exceeds the solver's resource
  // budget, while each group stays well inside it. The groups share one
  // shape; `BandsMatchSource` dispatches to them.

  /** `BandsMatchSource` for the first CBC entries. */
  lemma BandsMatchSourceBloodCount(key: string, v: real)
    requires key in {"wbc", "rbc", "hemoglobin"}
    ensures ConfigFor(key).Some?
    ensures InBand(v, ConfigFor(key).value.optimal) == OptimalAsWritten(key, v)
    ensures InBand(v, ConfigFor(key).value.suboptimal) == SuboptimalAsWritten(key, v)
  {
    var e := ConfigFor(key).value;
    if key == "wbc" {
      InBandOfTwo(v, e.optimal);
      InBandOfTwo(v, e.suboptimal);
    } else if key == "rbc" {
      InBandOfTwo(v, e.optimal);
      InBandOfTwo(v, e.suboptimal);
    } else {
      assert key == "hemoglobin";
      InBandOfTwo(v, e.optimal);
      InBandOfTwo(v, e.suboptimal);
    }
  }

  /** `BandsMatchSource` for the other CBC entries. */
  lemma BandsMatchSourceCells(key: string, v: real)
    requires key in {"hematocrit", "platelets"}
    ensures ConfigFor(key).Some?
    ensures InBand(v, ConfigFor(key).value.optimal) == OptimalAsWritten(key, v)
    ensures InBand(v, ConfigFor(key).value.suboptimal) == SuboptimalAsWritten(key, v)
  {
    var e := ConfigFor(key).value;
    if key == "hematocrit" {
      InBandOfTwo(v, e.optimal);
      InBandOfTwo(v, e.suboptimal);
    } else {
      assert key == "platelets";
      InBandOfTwo(v, e.optimal);
      InBandOfTwo(v, e.suboptimal);
    }
  }

  /** `BandsMatchSource` for the first CMP entries. */
  lemma BandsMatchSourceMetabolic(key: string, v: real)
    requires key in {"glucose", "creatinine", "egfr"}
    ensures ConfigFor(key).Some?
    ensures InBand(v, ConfigFor(key).value.optimal) == OptimalAsWritten(key, v)
    ensures InBand(v, ConfigFor(key).value.suboptimal) == SuboptimalAsWritten(key, v)
  {
    var e := ConfigFor(key).value;
    if key == "glucose" {
      InBandOfTwo(v, e.optimal);
      InBandOfTwo(v, e.suboptimal);
    } else if key == "creatinine" {
      InBandOfTwo(v, e.optimal);
      InBandOfTwo(v, e.suboptimal);
    } else {
      assert key == "egfr";
      InBandOfTwo(v, e.optimal);
      InBandOfTwo(v, e.suboptimal);
    }
  }

  /** `BandsMatchSource` for the CMP electrolytes. */
  lemma BandsMatchSourceElectrolytes(key: string, v: real)
    requires key in {"sodium", "potassium", "calcium"}
    ensures ConfigFor(key).Some?
    ensures InBand(v, ConfigFor(key).value.optimal) == OptimalAsWritten(key, v)
    ensures InBand(v, ConfigFor(key).value.suboptimal) == SuboptimalAsWritten(key, v)
  {
    var e := ConfigFor(key).value;
    if key == "sodium" {
      InBandOfTwo(v, e.optimal);
      InBandOfTwo(v, e.suboptimal);
    } else if key == "potassium" {
      InBandOfTwo(v, e.optimal);
      InBandOfTwo(v, e.suboptimal);
    } else {
      assert key == "calcium";
      InBandOfTwo(v, e.optimal);
      InBandOfTwo(v, e.suboptimal);
    }
  }

  /** `BandsMatchSource` for the CMP liver entries. */
  lemma BandsMatchSourceLiver(key: string, v: real)
    requires key in {"alt", "albumin"}
    ensures ConfigFor(key).Some?
    ensures InBand(v, ConfigFor(key).value.optimal) == OptimalAsWritten(key, v)
    ensures InBand(v, ConfigFor(key).value.suboptimal) == SuboptimalAsWritten(key, v)
  {
    var e := ConfigFor(key).value;
    if key == "alt" {
      InBandOfTwo(v, e.optimal);
      InBandOfTwo(v, e.suboptimal);
    } else {
      assert key == "albumin";
      InBandOfTwo(v, e.optimal);
      InBandOfTwo(v, e.suboptimal);
    }
  }

  /** `BandsMatchSource` for total cholesterol and LDL. */
  lemma BandsMatchSourceCholesterol(key: string, v: real)
    requires key in {"totalCholesterol", "ldl"}
    ensures ConfigFor(key).Some?
    ensures InBand(v, ConfigFor(key).value.optimal) == OptimalAsWritten(key, v)
    ensures InBand(v, ConfigFor(key).value.suboptimal) == SuboptimalAsWritten(key, v)
  {
    var e := ConfigFor(key).value;
    if key == "totalCholesterol" {
      InBandOfTwo(v, e.optimal);
      InBandOfTwo(v, e.suboptimal);
    } else {
      assert key == "ldl";
      InBandOfTwo(v, e.optimal);
      InBandOfTwo(v, e.suboptimal);
    }
  }

  /** `BandsMatchSource` for HDL and triglycerides. */
  lemma BandsMatchSourceHdlTriglycerides(key: string, v: real)
    requires key in {"hdl", "triglycerides"}
    ensures ConfigFor(key).Some?
    ensures InBand(v, ConfigFor(key).value.optimal) == OptimalAsWritten(key, v)
    ensures InBand(v, ConfigFor(key).value.suboptimal) == SuboptimalAsWritten(key, v)
  {
    var e := ConfigFor(key).value;
    if key == "hdl" {
      InBandOfTwo(v, e.optimal);
      InBandOfTwo(v, e.suboptimal);
    } else {
      assert key == "triglycerides";
      InBandOfTwo(v, e.optimal);
      InBandOfTwo(v, e.suboptimal);
    }
  }

  /** The data table agrees with the closures of the source, entry by entry and value by value. */
  lemma BandsMatchSource(key: string, v: real)
    requires ConfigFor(key).Some?
    ensures InBand(v, ConfigFor(key).value.optimal) == OptimalAsWritten(key, v)
    ensures InBand(v, ConfigFor(key).value.suboptimal) == SuboptimalAsWritten(key, v)
  {
    if key in {"wbc", "rbc", "hemoglobin"} {
      BandsMatchSourceBloodCount(key, v);
    } else if key in {"hematocrit", "platelets"} {
      BandsMatchSourceCells(key, v);
    } else if key in {"glucose", "creatinine", "egfr"} {
      BandsMatchSourceMetabolic(key, v);
    } else if key in {"sodium", "potassium", "calcium"} {
      BandsMatchSourceElectrolytes(key, v);
    } else if key in {"alt", "albumin"} {
      BandsMatchSourceLiver(key, v);
    } else if key in {"totalCholesterol", "ldl"} {
      BandsMatchSourceCholesterol(key, v);
    } else {
      KnownKeys(key);
      BandsMatchSourceHdlTriglycerides(key, v);
    }
  }

  /** No value lies in both bands of any table entry. */
  lemma BandsDisjoint(key: string, v: real)
    requires ConfigFor(key).Some?
    ensures !(InBand(v, ConfigFor(key).value.optimal) && InBand(v, ConfigFor(key).value.suboptimal))
  {
    BandsMatchSource(key, v);
  }

  /** The status of a value under one table entry: optimal first, then suboptimal, else critical. */
  function Classify(config: BiomarkerConfig, v: real): BiomarkerStatus {
    if InBand(v, config.optimal) then Optimal
    else if InBand(v, config.suboptimal) then Suboptimal
    else Critical
  }

  /** The same rule with the two tests taken in the other order. */
  function ClassifySuboptimalFirst(config: BiomarkerConfig, v: real): BiomarkerStatus {
    if InBand(v, config.suboptimal) then Suboptimal
    else if InBand(v, config.optimal) then Optimal
    else Critical
  }

  /** For every table entry, the order of the two tests does not change the status. */
  lemma TestOrderIrrelevant(key: string, v: real)
    requires ConfigFor(key).Some?
    ensures Classify(ConfigFor(key).value, v) == ClassifySuboptimalFirst(ConfigFor(key).value, v)
  {
    BandsDisjoint(key, v);
  }

  /**
   * `evaluateBiomarker(name, value, category)`. `None` as a value stands for
   * undefined, null and NaN; the `category` argument is accepted and ignored.
   */
  function EvaluateBiomarker(name: string, value: Option<real>, category: Category): (r: Option<BiomarkerResult>)
    ensures r.Some? <==> value.Some? && ConfigFor(name).Some?
    ensures r.Some? ==>
      var config := ConfigFor(name).value;
      && r.value.value == value.value
      && r.value.name == config.name
      && r.value.unit == config.unit
      && r.value.range == config.range
      && r.value.category == config.category
    ensures r.Some? ==>
      var config := ConfigFor(name).value;
      && (r.value.status == Optimal <==> InBand(value.value, config.optimal))
      && (r.value.status == Suboptimal <==> !InBand(value.value, config.optimal) && InBand(value.value, config.suboptimal))
      && (r.value.status == Critical <==> !InBand(value.value, config.optimal) && !InBand(value.value, config.suboptimal))
  {
    if value.None? then None
    else if ConfigFor(name).None? then None
    else
      var config := ConfigFor(name).value;
      Some(BiomarkerResult(config.name, value.value, config.unit, Classify(config, value.value), config.range, config.category))
  }

  /** The status the source's own closures give, for a known key. */
  lemma StatusAsWritten(name: string, v: real, category: Category)
    requires ConfigFor(name).Some?
    ensures EvaluateBiomarker(name, Some(v), category).Some?
    ensures EvaluateBiomarker(name, Some(v), category).value.status ==
      if OptimalAsWritten(name, v) then Optimal
      else if SuboptimalAsWritten(name, v) then Suboptimal
      else Critical
  {
    BandsMatchSource(name, v);
  }

  /** The `category` argument never influences the result. */
  lemma CategoryIgnored(name: string, value: Option<real>, c1: Category, c2: Category)
    ensures EvaluateBiomarker(name, value, c1) == EvaluateBiomarker(name, value, c2)
  {
  }

  /** The 17 keys of the table. */
  const BiomarkerKeys: set<string> := {
    "wbc", "rbc", "hemoglobin", "hematocrit", "platelets",
    "glucose", "creatinine", "egfr", "sodium", "potassium", "calcium", "alt", "albumin",
    "totalCholesterol", "ldl", "hdl", "triglycerides"}

  /** A key has an entry exactly when it is one of the 17 keys; matching is case-sensitive. */
  lemma KnownKeys(name: string)
    ensures ConfigFor(name).Some? <==> name in BiomarkerKeys
    ensures ConfigFor("eGFR").None? && ConfigFor("LDL").None?
  {
  }

  /** eGFR 90 is suboptimal: the optimal band is strictly above 90. */
  lemma EgfrBoundary()
    ensures EvaluateBiomarker("egfr", Some(90.0), CMP).value.status == Suboptimal
  {
    StatusAsWritten("egfr", 90.0, CMP);
  }

  /** HDL 60 is suboptimal: the optimal band is strictly above 60. */
  lemma HdlBoundary()
    ensures EvaluateBiomarker("hdl", Some(60.0), LipidPanel).value.status == Suboptimal
  {
    StatusAsWritten("hdl", 60.0, LipidPanel);
  }

  /** LDL 100 is suboptimal and LDL 150 is critical. */
  lemma LdlCases()
    ensures EvaluateBiomarker("ldl", Some(100.0), LipidPanel).value.status == Suboptimal
    ensures EvaluateBiomarker("ldl", Some(150.0), LipidPanel).value.status == Critical
  {
    StatusAsWritten("ldl", 100.0, LipidPanel);
    StatusAsWritten("ldl", 150.0, LipidPanel);
  }

  /** Glucose 95 is suboptimal and glucose 100 is critical: the suboptimal band ends strictly below 100. */
  lemma GlucoseCases()
    ensures EvaluateBiomarker("glucose", Some(95.0), CMP).value.status == Suboptimal
    ensures EvaluateBiomarker("glucose", Some(100.0), CMP).value.status == Critical
  {
    StatusAsWritten("glucose", 95.0, CMP);
    StatusAsWritten("glucose", 100.0, CMP);
  }

  /** WBC 6.0 is optimal, whatever category the caller passes. */
  lemma WbcExample(category: Category)
    ensures EvaluateBiomarker("wbc", Some(6.0), category) ==
      Some(BiomarkerResult("WBC", 6.0, "×10⁹/L", Optimal, "4.0-8.0", CBC))
  {
    StatusAsWritten("wbc", 6.0, category);
  }
}
