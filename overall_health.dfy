/**
 * The worst-case aggregation of src/utils/calculateOverallHealth.ts.
 *
 * A biomarker mapping is the sequence of its `Object.entries` pairs, and a
 * mapping that is `null` is `None`. `EvaluateEntries` is the
 * `map(evaluateBiomarker).filter(Boolean)` step; it is shared with the
 * results page, which runs the same step in a loop.
 */
module OverallHealth {
  import opened Wrappers
  import opened BiomarkerEvaluation

  /** One `[key, value]` pair of `Object.entries(data)`. */
  type BiomarkerEntry = (string, Option<real>)

  /** `BiomarkerStatus | 'none'`. */
  datatype OverallStatus = Rated(status: BiomarkerStatus) | NoData

  /** Severity order: optimal < suboptimal < critical. */
  function Severity(s: BiomarkerStatus): nat {
    match s
    case Optimal => 1
    case Suboptimal => 2
    case Critical => 3
  }

  /** `'none'` ranks below every status. */
  function Rank(h: OverallStatus): nat {
    match h
    case NoData => 0
    case Rated(s) => Severity(s)
  }

  lemma RankInjective(h1: OverallStatus, h2: OverallStatus)
    ensures Rank(h1) == Rank(h2) ==> h1 == h2
  {
  }

  /** The evaluation of one entry; the category passed is 'CBC', which the classifier ignores. */
  function EvaluateEntry(entry: BiomarkerEntry): Option<BiomarkerResult> {
    EvaluateBiomarker(entry.0, entry.1, CBC)
  }

  /** The non-null evaluations of the entries, in entry order. */
  function EvaluateEntries(entries: seq<BiomarkerEntry>): (results: seq<BiomarkerResult>)
    ensures |results| <= |entries|
  {
    if entries == [] then []
    else match EvaluateEntry(entries[0])
      case Some(result) => [result] + EvaluateEntries(entries[1..])
      case None => EvaluateEntries(entries[1..])
  }

  /** `results.some(r => r?.status === s)`. */
  predicate HasStatus(results: seq<BiomarkerResult>, s: BiomarkerStatus) {
    exists r :: r in results && r.status == s
  }

  /**
   * `calculateOverallHealth(data)`: 'none' for a null mapping or when nothing
   * evaluates, otherwise the worst status among the evaluated entries.
   */
  function CalculateOverallHealth(data: Option<seq<BiomarkerEntry>>): (h: OverallStatus)
    ensures data.None? ==> h == NoData
    ensures data.Some? ==> (h == NoData <==> EvaluateEntries(data.value) == [])
    ensures data.Some? && h.Rated? ==>
      && (exists r :: r in EvaluateEntries(data.value) && r.status == h.status)
      && (forall r :: r in EvaluateEntries(data.value) ==> Severity(r.status) <= Severity(h.status))
  {
    if data.None? then NoData
    else
      var results := EvaluateEntries(data.value);
      if |results| == 0 then NoData
      else if HasStatus(results, Critical) then Rated(Critical)
      else if HasStatus(results, Suboptimal) then Rated(Suboptimal)
      else
        assert results[0] in results;
        Rated(Optimal)
  }

  /** The worse of two overall statuses. */
  function Worse(a: OverallStatus, b: OverallStatus): OverallStatus {
    if Rank(a) >= Rank(b) then a else b
  }

  /** An independent definition: a left-to-right fold that keeps the worst status seen. */
  function WorstOf(results: seq<BiomarkerResult>): OverallStatus {
    if results == [] then NoData
    else Worse(Rated(results[0].status), WorstOf(results[1..]))
  }

  lemma {:induction false} WorstOfByCases(results: seq<BiomarkerResult>)
    ensures WorstOf(results) ==
      if results == [] then NoData
      else if HasStatus(results, Critical) then Rated(Critical)
      else if HasStatus(results, Suboptimal) then Rated(Suboptimal)
      else Rated(Optimal)
  {
    if results != [] {
      var tail := results[1..];
      WorstOfByCases(tail);
      assert forall r :: r in results <==> r == results[0] || r in tail;
    }
  }

  /** The aggregation is the worst-case fold over the evaluated entries. */
  lemma OverallIsWorstCase(entries: seq<BiomarkerEntry>)
    ensures CalculateOverallHealth(Some(entries)) == WorstOf(EvaluateEntries(entries))
  {
    WorstOfByCases(EvaluateEntries(entries));
  }

  /** The entry yields a result with status `s`. */
  predicate Yields(entry: BiomarkerEntry, s: BiomarkerStatus) {
    EvaluateEntry(entry).Some? && EvaluateEntry(entry).value.status == s
  }

  /** Evaluating a concatenation evaluates each part, keeping entry order. */
  lemma {:induction false} EvaluateEntriesAppend(a: seq<BiomarkerEntry>, b: seq<BiomarkerEntry>)
    ensures EvaluateEntries(a + b) == EvaluateEntries(a) + EvaluateEntries(b)
  {
    if a != [] {
      assert (a + b)[1..] == a[1..] + b;
      EvaluateEntriesAppend(a[1..], b);
    } else {
      assert a + b == b;
    }
  }

  /** Evaluating one more entry appends its result, if any, at the end. */
  lemma EvaluateEntriesSnoc(entries: seq<BiomarkerEntry>, entry: BiomarkerEntry)
    ensures EvaluateEntries(entries + [entry]) ==
      EvaluateEntries(entries) + (if EvaluateEntry(entry).Some? then [EvaluateEntry(entry).value] else [])
  {
    EvaluateEntriesAppend(entries, [entry]);
    assert [entry][1..] == [];
  }

  /** A status occurs among the results exactly when some entry yields it. */
  lemma {:induction false} StatusesFromEntries(entries: seq<BiomarkerEntry>, s: BiomarkerStatus)
    ensures HasStatus(EvaluateEntries(entries), s) <==> exists x :: x in entries && Yields(x, s)
  {
    if entries != [] {
      var head, tail := entries[0], entries[1..];
      StatusesFromEntries(tail, s);
      assert forall x :: x in entries <==> x == head || x in tail;
      assert (exists x :: x in entries && Yields(x, s)) <==> Yields(head, s) || (exists x :: x in tail && Yields(x, s));
      match EvaluateEntry(head)
      case Some(r) =>
        var rest := EvaluateEntries(tail);
        assert EvaluateEntries(entries) == [r] + rest;
        assert forall q :: q in [r] + rest <==> q == r || q in rest;
        assert HasStatus([r] + rest, s) <==> r.status == s || HasStatus(rest, s);
        assert Yields(head, s) <==> r.status == s;
      case None =>
        assert EvaluateEntries(entries) == EvaluateEntries(tail);
        assert !Yields(head, s);
    }
  }

  /** Nothing is evaluated exactly when no entry evaluates. */
  lemma {:induction false} EmptyIffNothingEvaluates(entries: seq<BiomarkerEntry>)
    ensures EvaluateEntries(entries) == [] <==> forall x :: x in entries ==> EvaluateEntry(x).None?
  {
    if entries != [] {
      var tail := entries[1..];
      EmptyIffNothingEvaluates(tail);
      assert forall x :: x in entries <==> x == entries[0] || x in tail;
    }
  }

  /** The overall status depends on the entries only through their evaluations. */
  lemma SameResultsSameHealth(a: seq<BiomarkerEntry>, b: seq<BiomarkerEntry>)
    requires EvaluateEntries(a) == EvaluateEntries(b)
    ensures CalculateOverallHealth(Some(a)) == CalculateOverallHealth(Some(b))
  {
  }

  /** An entry that evaluates to null (unknown key, missing or NaN value) does not influence the result. */
  lemma NullEntryIgnored(before: seq<BiomarkerEntry>, entry: BiomarkerEntry, after: seq<BiomarkerEntry>)
    requires EvaluateEntry(entry).None?
    ensures CalculateOverallHealth(Some(before + [entry] + after)) == CalculateOverallHealth(Some(before + after))
  {
    var grown, kept := before + [entry] + after, before + after;
    calc {
      EvaluateEntries(grown);
      { EvaluateEntriesAppend(before + [entry], after); }
      EvaluateEntries(before + [entry]) + EvaluateEntries(after);
      { EvaluateEntriesAppend(before, [entry]); assert EvaluateEntries([entry]) == []; }
      EvaluateEntries(before) + EvaluateEntries(after);
      { EvaluateEntriesAppend(before, after); }
      EvaluateEntries(kept);
    }
    SameResultsSameHealth(grown, kept);
  }

  /** A status that some entry of `a` yields also occurs among the results of a superset `b`. */
  lemma StatusCarriesOver(a: seq<BiomarkerEntry>, b: seq<BiomarkerEntry>, s: BiomarkerStatus)
    requires forall x :: x in a ==> x in b
    requires HasStatus(EvaluateEntries(a), s)
    ensures HasStatus(EvaluateEntries(b), s)
  {
    StatusesFromEntries(a, s);
    var x :| x in a && Yields(x, s);
    assert x in b;
    StatusesFromEntries(b, s);
  }

  /** Every entry of `a` being an entry of `b` makes `b` at least as severe. */
  lemma MoreEntriesNeverLower(a: seq<BiomarkerEntry>, b: seq<BiomarkerEntry>)
    requires forall x :: x in a ==> x in b
    ensures Rank(CalculateOverallHealth(Some(a))) <= Rank(CalculateOverallHealth(Some(b)))
  {
    var ha := CalculateOverallHealth(Some(a));
    if ha.Rated? {
      assert HasStatus(EvaluateEntries(a), ha.status);
      StatusCarriesOver(a, b, ha.status);
      var r :| r in EvaluateEntries(b) && r.status == ha.status;
      assert EvaluateEntries(b) != [];
    }
  }

  /** Adding one entry anywhere never lowers the overall status. */
  lemma AddingEntryNeverLowers(entries: seq<BiomarkerEntry>, i: nat, entry: BiomarkerEntry)
    requires i <= |entries|
    ensures Rank(CalculateOverallHealth(Some(entries))) <=
            Rank(CalculateOverallHealth(Some(entries[..i] + [entry] + entries[i..])))
  {
    var grown := entries[..i] + [entry] + entries[i..];
    assert entries == entries[..i] + entries[i..];
    assert forall x :: x in entries ==> x in grown;
    MoreEntriesNeverLower(entries, grown);
  }

  /** The result does not depend on the order of the entries. */
  lemma OrderIndependent(a: seq<BiomarkerEntry>, b: seq<BiomarkerEntry>)
    requires multiset(a) == multiset(b)
    ensures CalculateOverallHealth(Some(a)) == CalculateOverallHealth(Some(b))
  {
    assert forall x :: x in a <==> x in multiset(a);
    assert forall x :: x in b <==> x in multiset(b);
    MoreEntriesNeverLower(a, b);
    MoreEntriesNeverLower(b, a);
    RankInjective(CalculateOverallHealth(Some(a)), CalculateOverallHealth(Some(b)));
  }

  /** A null mapping, an empty one, and one where nothing evaluates all give 'none'. */
  lemma NothingEvaluatedIsNone()
    ensures CalculateOverallHealth(None) == NoData
    ensures CalculateOverallHealth(Some([])) == NoData
    ensures CalculateOverallHealth(Some([("unknown", Some(5.0)), ("wbc", None)])) == NoData
  {
    var nulls: seq<BiomarkerEntry> := [("unknown", Some(5.0)), ("wbc", None)];
    assert nulls[1..][1..] == [];
    assert EvaluateEntries(nulls[1..][1..]) == [];
    assert EvaluateEntries(nulls[1..]) == [];
  }

  /** `{ wbc: 6.0 }` is optimal. */
  lemma SingleOptimalExample()
    ensures CalculateOverallHealth(Some([("wbc", Some(6.0))])) == Rated(Optimal)
  {
    WbcExample(CBC);
    var one: seq<BiomarkerEntry> := [("wbc", Some(6.0))];
    assert one[1..] == [];
    assert EvaluateEntries(one) == [BiomarkerResult("WBC", 6.0, "×10⁹/L", Optimal, "4.0-8.0", CBC)];
  }

  /** `{ wbc: 6.0, ldl: 150 }` is critical: the critical LDL dominates. */
  lemma CriticalDominatesExample()
    ensures CalculateOverallHealth(Some([("wbc", Some(6.0)), ("ldl", Some(150.0))])) == Rated(Critical)
  {
    LdlCases();
    var two: seq<BiomarkerEntry> := [("wbc", Some(6.0)), ("ldl", Some(150.0))];
    var ldl := EvaluateEntry(two[1]).value;
    assert two[1..] == [two[1]] && two[1..][1..] == [];
    assert ldl in EvaluateEntries(two[1..]);
    assert ldl in EvaluateEntries(two);
  }

  /** `{ glucose: 95 }` is suboptimal. */
  lemma SuboptimalExample()
    ensures CalculateOverallHealth(Some([("glucose", Some(95.0))])) == Rated(Suboptimal)
  {
    GlucoseCases();
    var one: seq<BiomarkerEntry> := [("glucose", Some(95.0))];
    assert one[1..] == [];
    assert EvaluateEntries(one) == [EvaluateEntry(one[0]).value];
  }
}
