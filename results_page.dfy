/**
 * The two computations of src/pages/Results.tsx: the effect that collects
 * the non-null evaluations of the stored mapping into an array, and the
 * reduce that groups that array by panel into a dictionary it mutates.
 */
module ResultsPage {
  import opened Wrappers
  import opened BiomarkerEvaluation
  import opened OverallHealth

  /**
   * The evaluation effect. With no stored mapping it returns early and the
   * page keeps its current results; otherwise it pushes every non-null
   * evaluation, in entry order.
   */
  method CollectResults(data: Option<seq<BiomarkerEntry>>, current: seq<BiomarkerResult>)
    returns (results: seq<BiomarkerResult>)
    ensures data.None? ==> results == current
    ensures data.Some? ==> results == EvaluateEntries(data.value)
  {
    if data.None? {
      return current;
    }
    var entries := data.value;
    var evaluated: seq<BiomarkerResult> := [];
    var i := 0;
    while i < |entries|
      invariant 0 <= i <= |entries|
      invariant evaluated == EvaluateEntries(entries[..i])
    {
      var (key, value) := entries[i];
      var result := EvaluateBiomarker(key, value, CBC);
      if result.Some? {
        evaluated := evaluated + [result.value];
      }
      assert entries[..i + 1] == entries[..i] + [entries[i]];
      EvaluateEntriesSnoc(entries[..i], entries[i]);
      i := i + 1;
    }
    assert entries[..i] == entries;
    results := evaluated;
  }

  /** Every result collected is the evaluation of some entry, and each evaluable entry is collected. */
  lemma {:induction false} CollectedExactly(entries: seq<BiomarkerEntry>)
    ensures forall r :: r in EvaluateEntries(entries) <==> exists x :: x in entries && EvaluateEntry(x) == Some(r)
    ensures |EvaluateEntries(entries)| == |entries| - CountNull(entries)
  {
    if entries != [] {
      CollectedExactly(entries[1..]);
      assert forall x :: x in entries <==> x == entries[0] || x in entries[1..];
    }
  }

  /** How many entries evaluate to null. */
  function CountNull(entries: seq<BiomarkerEntry>): (n: nat)
    ensures n <= |entries|
  {
    if entries == [] then 0
    else (if EvaluateEntry(entries[0]).None? then 1 else 0) + CountNull(entries[1..])
  }

  /** The results of one category, in the order they appear. */
  function InCategory(results: seq<BiomarkerResult>, c: Category): (group: seq<BiomarkerResult>)
    ensures |group| <= |results|
  {
    if results == [] then []
    else if results[0].category == c then [results[0]] + InCategory(results[1..], c)
    else InCategory(results[1..], c)
  }

  /** The categories that occur among the results. */
  function CategoriesOf(results: seq<BiomarkerResult>): set<Category> {
    set r | r in results :: r.category
  }

  /** The size of the group of `c`, zero when there is no such key. */
  function GroupSize(groups: map<Category, seq<BiomarkerResult>>, c: Category): nat {
    if c in groups then |groups[c]| else 0
  }

  lemma {:induction false} InCategoryAppend(a: seq<BiomarkerResult>, b: seq<BiomarkerResult>, c: Category)
    ensures InCategory(a + b, c) == InCategory(a, c) + InCategory(b, c)
  {
    if a == [] {
      assert a + b == b;
    } else {
      assert (a + b)[1..] == a[1..] + b;
      InCategoryAppend(a[1..], b, c);
    }
  }

  /** A result is in the group of `c` exactly when it is a result of category `c`. */
  lemma {:induction false} InCategoryMembers(results: seq<BiomarkerResult>, c: Category)
    ensures forall r :: r in InCategory(results, c) <==> r in results && r.category == c
  {
    if results != [] {
      InCategoryMembers(results[1..], c);
      assert forall r :: r in results <==> r == results[0] || r in results[1..];
    }
  }

  /** The group sizes add up to the number of results. */
  lemma {:induction false} GroupsPartition(results: seq<BiomarkerResult>)
    ensures |InCategory(results, CBC)| + |InCategory(results, CMP)| + |InCategory(results, LipidPanel)| == |results|
  {
    if results != [] {
      GroupsPartition(results[1..]);
    }
  }

  /** A group holds every copy of each result of its category and nothing else, so no result is in two groups. */
  lemma {:induction false} GroupKeepsEveryCopy(results: seq<BiomarkerResult>, c: Category, r: BiomarkerResult)
    ensures multiset(InCategory(results, c))[r] == if r.category == c then multiset(results)[r] else 0
  {
    if results != [] {
      var head, tail := results[0], results[1..];
      GroupKeepsEveryCopy(tail, c, r);
      assert results == [head] + tail;
      assert multiset(results)[r] == multiset([head])[r] + multiset(tail)[r];
      if head.category == c {
        assert InCategory(results, c) == [head] + InCategory(tail, c);
      } else {
        assert InCategory(results, c) == InCategory(tail, c);
      }
    }
  }

  /** `xs` is `ys` with some elements left out, the rest in their order. */
  ghost predicate Subsequence<T>(xs: seq<T>, ys: seq<T>)
    decreases |ys|
  {
    if xs == [] then true
    else if ys == [] then false
    else if xs[0] == ys[0] then Subsequence(xs[1..], ys[1..])
    else Subsequence(xs, ys[1..])
  }

  /** Within a group, results keep their relative order. */
  lemma {:induction false} GroupKeepsOrder(results: seq<BiomarkerResult>, c: Category)
    ensures Subsequence(InCategory(results, c), results)
  {
    if results != [] {
      GroupKeepsOrder(results[1..], c);
      var tail := InCategory(results[1..], c);
      if results[0].category == c {
        assert InCategory(results, c) == [results[0]] + tail;
        assert ([results[0]] + tail)[1..] == tail;
      } else {
        assert InCategory(results, c) == tail;
        if tail != [] {
          InCategoryMembers(results[1..], c);
          assert tail[0] in tail;
        }
      }
    }
  }

  /** One push: appending a result extends its own group and no other. */
  lemma InCategorySnoc(results: seq<BiomarkerResult>, result: BiomarkerResult, c: Category)
    ensures InCategory(results + [result], c) == InCategory(results, c) + (if result.category == c then [result] else [])
  {
    InCategoryAppend(results, [result], c);
    assert [result][1..] == [];
  }

  /** One push adds its category to the keys. */
  lemma CategoriesSnoc(results: seq<BiomarkerResult>, result: BiomarkerResult)
    ensures CategoriesOf(results + [result]) == CategoriesOf(results) + {result.category}
  {
    assert forall r :: r in results + [result] <==> r in results || r == result;
  }

  /** A category that does not occur has an empty group. */
  lemma AbsentCategoryEmpty(results: seq<BiomarkerResult>, c: Category)
    requires c !in CategoriesOf(results)
    ensures InCategory(results, c) == []
  {
    InCategoryMembers(results, c);
  }

  /** A dictionary holding exactly the groups of the present categories partitions the results. */
  lemma GroupsOfResults(results: seq<BiomarkerResult>, groups: map<Category, seq<BiomarkerResult>>)
    requires groups.Keys == CategoriesOf(results)
    requires forall c :: c in groups ==> groups[c] == InCategory(results, c)
    ensures forall c, r :: c in groups && r in groups[c] ==> r.category == c
    ensures GroupSize(groups, CBC) + GroupSize(groups, CMP) + GroupSize(groups, LipidPanel) == |results|
  {
    forall c | c in groups ensures forall r :: r in groups[c] ==> r.category == c {
      InCategoryMembers(results, c);
    }
    forall c ensures GroupSize(groups, c) == |InCategory(results, c)| {
      if c !in groups {
        AbsentCategoryEmpty(results, c);
      }
    }
    GroupsPartition(results);
  }

  /**
   * The order in which a JavaScript object built by the reduce lists its
   * keys: each category once, at the position where it first appears.
   */
  function CategoryOrder(results: seq<BiomarkerResult>): (order: seq<Category>)
    ensures |order| <= |results|
    decreases |results|
  {
    if results == [] then []
    else
      var prior := CategoryOrder(results[..|results| - 1]);
      var c := results[|results| - 1].category;
      if c in prior then prior else prior + [c]
  }

  /** The key order lists exactly the categories that occur, each once. */
  lemma {:induction false} CategoryOrderListsEachOnce(results: seq<BiomarkerResult>)
    ensures forall c :: c in CategoryOrder(results) <==> c in CategoriesOf(results)
    ensures forall i, j :: 0 <= i < j < |CategoryOrder(results)| ==> CategoryOrder(results)[i] != CategoryOrder(results)[j]
    decreases |results|
  {
    if results != [] {
      var prefix, last := results[..|results| - 1], results[|results| - 1];
      CategoryOrderListsEachOnce(prefix);
      assert results == prefix + [last];
      CategoriesSnoc(prefix, last);
    }
  }

  /**
   * The key order is the order of first appearance: any category listed
   * before another has already occurred before each occurrence of the other.
   */
  lemma {:induction false} CategoryOrderFirstAppearance(results: seq<BiomarkerResult>)
    ensures forall i, j, k ::
              0 <= i < j < |CategoryOrder(results)| && 0 <= k < |results| && results[k].category == CategoryOrder(results)[j] ==>
              CategoryOrder(results)[i] in CategoriesOf(results[..k])
    decreases |results|
  {
    if results != [] {
      var n := |results|;
      var prefix, last := results[..n - 1], results[n - 1];
      var prior := CategoryOrder(prefix);
      var order := CategoryOrder(results);
      CategoryOrderFirstAppearance(prefix);
      CategoryOrderListsEachOnce(prefix);
      forall i, j, k | 0 <= i < j < |order| && 0 <= k < n && results[k].category == order[j]
        ensures order[i] in CategoriesOf(results[..k])
      {
        assert order[i] == prior[i];
        if k < n - 1 {
          assert results[k] == prefix[k];
          assert results[..k] == prefix[..k];
          if j < |prior| {
            assert order[j] == prior[j];
          }
        } else {
          assert results[..k] == prefix;
        }
      }
    }
  }

  /** `{ ldl: 90, wbc: 6 }` puts the Lipid Panel card before the CBC card. */
  lemma LipidBeforeCbcExample()
    ensures CategoryOrder(EvaluateEntries([("ldl", Some(90.0)), ("wbc", Some(6.0))])) == [LipidPanel, CBC]
  {
    var ldl := EvaluateBiomarker("ldl", Some(90.0), CBC).value;
    var wbc := EvaluateBiomarker("wbc", Some(6.0), CBC).value;
    EvaluateEntriesSnoc([("ldl", Some(90.0))], ("wbc", Some(6.0)));
    assert [("ldl", Some(90.0))] + [("wbc", Some(6.0))] == [("ldl", Some(90.0)), ("wbc", Some(6.0))];
    assert EvaluateEntries([("ldl", Some(90.0)), ("wbc", Some(6.0))]) == [ldl, wbc];
    assert [ldl, wbc][..1] == [ldl];
  }

  /**
   * `results.reduce(...)`: for each result, create its category's list if
   * missing, then push the result onto it. `keys` is the order in which the
   * resulting object lists its keys, which orders the panel cards.
   */
  method GroupByCategory(results: seq<BiomarkerResult>)
    returns (groups: map<Category, seq<BiomarkerResult>>, keys: seq<Category>)
    ensures groups.Keys == CategoriesOf(results)
    ensures keys == CategoryOrder(results)
    ensures forall c :: c in groups ==> groups[c] == InCategory(results, c)
    ensures forall c, r :: c in groups && r in groups[c] ==> r.category == c
    ensures GroupSize(groups, CBC) + GroupSize(groups, CMP) + GroupSize(groups, LipidPanel) == |results|
  {
    var acc: map<Category, seq<BiomarkerResult>> := map[];
    var order: seq<Category> := [];
    var i := 0;
    while i < |results|
      invariant 0 <= i <= |results|
      invariant acc.Keys == CategoriesOf(results[..i])
      invariant forall c :: c in acc ==> acc[c] == InCategory(results[..i], c)
      invariant order == CategoryOrder(results[..i])
    {
      var result := results[i];
      ghost var done := results[..i];
      CategoryOrderListsEachOnce(done);
      if result.category !in acc {
        AbsentCategoryEmpty(done, result.category);
        acc := acc[result.category := []];
        order := order + [result.category];
      }
      acc := acc[result.category := acc[result.category] + [result]];
      assert results[..i + 1] == done + [result];
      CategoriesSnoc(done, result);
      forall c | c in acc ensures acc[c] == InCategory(done + [result], c) {
        InCategorySnoc(done, result, c);
      }
      i := i + 1;
    }
    assert results[..i] == results;
    groups, keys := acc, order;
    GroupsOfResults(results, groups);
  }
}
