# Biomarker range classification, in Dafny

This project models the domain logic of a health-tracking web app: how it classifies lab biomarker values against reference ranges, and what it builds from those classifications.

- **Strict band classifier** (`BiomarkerEvaluation`, from `src/utils/biomarkerEvaluation.ts`). The source looks a biomarker key up in a fixed 17-entry table. Each entry has a display name, a unit, a range text, a panel category, an *optimal* closure and a *suboptimal* closure. The value is optimal if the optimal closure holds, else suboptimal if the suboptimal closure holds, else critical. An absent or NaN value gives `null`, and so does a key the table does not list (inherited object property names are an exception; see "## Left out"). In the model each closure is data: a band is a union of intervals, and each end of an interval is inclusive, exclusive or unbounded. The closures are also transcribed inequality by inequality (`OptimalAsWritten`, `SuboptimalAsWritten`), and `BandsMatchSource` proves that the data table agrees with them for every key and every value.
- **Overall-health aggregator** (`OverallHealth`, from `src/utils/calculateOverallHealth.ts`). It evaluates every entry of the mapping, drops the nulls, and reduces what is left worst-case first. A null mapping, or one where nothing evaluates, gives `'none'` (`NoData`). The module proves that the result is the maximum severity, that it equals a left-to-right worst-case fold, and that it ignores null entries. It also proves that the result does not depend on entry order and that adding entries never lowers it.
- **Tolerance-scaled classifier** (`LatestResult`, from `src/components/LatestResultSection.tsx`). This is a second, independent strategy with its own `{range, min, max}` table. A value below `0.9*min` or above `1.1*max` is critical. A value outside `[min, max]` but inside that tolerance is suboptimal. A value inside `[min, max]` is optimal. A key the table does not list, or a NaN reading, gives the placeholder `{range: "-", status: suboptimal}`, never `null` (inherited object property names are an exception; see "## Left out"). This table spells eGFR `eGFR`; the strict table spells it `egfr`. The two strategies disagree on the same reading (`StrategiesDiverge`). Also modelled: the table's row filter, which drops the `createdAt` key.
- **Results page** (`ResultsPage`, from `src/pages/Results.tsx`). This part is imperative, like the source. `CollectResults` is the effect's loop: it pushes each non-null evaluation onto an array, in entry order. `GroupByCategory` is the `reduce`: it builds a dictionary by panel, creating a key when it is missing and then pushing onto it. It also returns the order in which that object lists its keys, which is the order of the panel cards. The lemmas beside them prove four things. The groups partition the results. Each result sits in the group of its own category. Each group keeps the order the results came in. The keys are listed once each, in order of first appearance.

Values are Dafny `real`s. `Option<real>` stands for `number | undefined`, and `None` covers `undefined`, `null` and `NaN`. A biomarker mapping is the sequence of its `Object.entries` pairs, and a `null` mapping is `None`. The `category` argument of `evaluateBiomarker` is accepted and ignored, as in the source (`CategoryIgnored`). The aggregator and the results page both pass `CBC` for it.

The tolerance table's range strings are reproduced exactly as the source file holds them. In that file the en dash and the superscripts appear as mis-encoded characters (`‚Äì`, `‚Åπ`, `‚Å∂`, `¬µ`). The tolerance table has the same 17 keys as the strict table, with eGFR capitalised, and no extra identifiers.

## Model

| member | source | states |
|---|---|---|
| `BiomarkerEvaluation.EvaluateBiomarker` | src/utils/biomarkerEvaluation.ts:12-176 | The result is non-null exactly when the value is present and the key is one of the table's keys. The result echoes the value and takes name, unit, range and category from the entry. The status is optimal iff the value lies in the optimal band. It is suboptimal iff the value is outside the optimal band and inside the suboptimal band. It is critical iff the value lies in neither band. |
| `BiomarkerEvaluation.BandsMatchSource` | src/utils/biomarkerEvaluation.ts:19-155 | For every table key and every value, the interval data of both bands agrees with the source's optimal and suboptimal closures, transcribed inequality by inequality. |
| `BiomarkerEvaluation.BandsDisjoint` | src/utils/biomarkerEvaluation.ts:20-155 | No value lies in both the optimal and the suboptimal band of any table entry. |
| `BiomarkerEvaluation.TestOrderIrrelevant` | src/utils/biomarkerEvaluation.ts:161-166 | For every table entry, testing suboptimal before optimal gives the same status as the source's order. |
| `BiomarkerEvaluation.StatusAsWritten` | src/utils/biomarkerEvaluation.ts:161-166 | For a known key, the status is optimal if the source's optimal closure holds, else suboptimal if its suboptimal closure holds, else critical. |
| `BiomarkerEvaluation.CategoryIgnored` | src/utils/biomarkerEvaluation.ts:168-175 | The `category` argument never changes the result; the category comes from the table. |
| `BiomarkerEvaluation.KnownKeys` | src/utils/biomarkerEvaluation.ts:158-159 | A key has an entry exactly when it is one of the 17 listed keys. Matching is case-sensitive: `eGFR` and `LDL` are unknown. |
| `BiomarkerEvaluation.EgfrBoundary` | src/utils/biomarkerEvaluation.ts:80-81 | eGFR 90 is suboptimal, because optimal is strictly above 90. |
| `BiomarkerEvaluation.HdlBoundary` | src/utils/biomarkerEvaluation.ts:144-145 | HDL 60 is suboptimal, because optimal is strictly above 60. |
| `BiomarkerEvaluation.LdlCases` | src/utils/biomarkerEvaluation.ts:136-137 | LDL 100 is suboptimal and LDL 150 is critical. |
| `BiomarkerEvaluation.GlucoseCases` | src/utils/biomarkerEvaluation.ts:64-65 | Glucose 95 is suboptimal. Glucose 100 is critical, because the suboptimal band ends strictly below 100. |
| `BiomarkerEvaluation.WbcExample` | src/utils/biomarkerEvaluation.ts:20-27 | WBC 6.0 gives the full optimal result of the WBC entry, whatever category is passed. |
| `OverallHealth.EvaluateEntries` | src/utils/calculateOverallHealth.ts:7-9 | The evaluated results are never more than the entries. |
| `OverallHealth.EvaluateEntriesAppend` | src/utils/calculateOverallHealth.ts:7-9 | Evaluating a concatenation of entries evaluates each part in turn, so results keep entry order. |
| `OverallHealth.CalculateOverallHealth` | src/utils/calculateOverallHealth.ts:4-23 | A null mapping gives `none`. Otherwise the result is `none` exactly when nothing evaluates. Any other result is a status that some evaluated entry has, and no evaluated entry is more severe. |
| `OverallHealth.OverallIsWorstCase` | src/utils/calculateOverallHealth.ts:14-22 | The aggregation equals an independent left-to-right fold that keeps the worst status seen. |
| `OverallHealth.StatusesFromEntries` | src/utils/calculateOverallHealth.ts:14-19 | A status occurs among the results exactly when some entry of the mapping evaluates to it. |
| `OverallHealth.EmptyIffNothingEvaluates` | src/utils/calculateOverallHealth.ts:7-11 | The result list is empty exactly when every entry evaluates to null. |
| `OverallHealth.NullEntryIgnored` | src/utils/calculateOverallHealth.ts:7-9 | Inserting an entry that evaluates to null (unknown key, missing or NaN value) anywhere leaves the overall status unchanged. |
| `OverallHealth.MoreEntriesNeverLower` | src/utils/calculateOverallHealth.ts:14-22 | If every entry of one mapping is an entry of another, the other's overall status is at least as severe. |
| `OverallHealth.AddingEntryNeverLowers` | src/utils/calculateOverallHealth.ts:14-22 | Inserting one entry at any position never lowers the overall status. |
| `OverallHealth.OrderIndependent` | src/utils/calculateOverallHealth.ts:14-22 | Two mappings with the same entries in any order have the same overall status. |
| `OverallHealth.NothingEvaluatedIsNone` | src/utils/calculateOverallHealth.ts:5-11 | A null mapping, an empty one and one with only an unknown key and a missing value all give `none`. |
| `OverallHealth.SingleOptimalExample` | src/utils/calculateOverallHealth.ts:22 | `{ wbc: 6.0 }` is optimal. |
| `OverallHealth.CriticalDominatesExample` | src/utils/calculateOverallHealth.ts:14-15 | `{ wbc: 6.0, ldl: 150 }` is critical. |
| `OverallHealth.SuboptimalExample` | src/utils/calculateOverallHealth.ts:18-19 | `{ glucose: 95 }` is suboptimal. |
| `LatestResult.EvaluateWithTolerance` | src/components/LatestResultSection.tsx:29-64 | A NaN reading or an unknown key gives `{"-", suboptimal}`. For a known key, the range is the rule's. Critical iff below `0.9*min` or above `1.1*max`. Suboptimal iff inside that tolerance but outside `[min, max]`. Optimal iff inside `[min, max]`, endpoints included. |
| `LatestResult.RulesWellFormed` | src/components/LatestResultSection.tsx:36-54 | Every rule has `0 <= min <= max`, so `[min, max]` lies inside `[0.9*min, 1.1*max]`. |
| `LatestResult.HemoglobinExamples` | src/components/LatestResultSection.tsx:37-62 | Hemoglobin 13.0 is suboptimal and hemoglobin 11.0 is critical, both with the hemoglobin range text. |
| `LatestResult.EgfrSpelling` | src/components/LatestResultSection.tsx:51-57 | Lowercase `egfr` always gets the placeholder; `eGFR` 90 is optimal with range `>60 mL/min`. |
| `LatestResult.StrategiesDiverge` | src/components/LatestResultSection.tsx:36-63 | On the same reading the two strategies disagree: hemoglobin 13.0 is optimal under the strict table and suboptimal here; eGFR 140 is optimal under the strict table and critical here. |
| `LatestResult.PanelRows` | src/components/LatestResultSection.tsx:167-170 | No row has the key `createdAt`. Every row comes from an entry of the panel and carries that entry's tolerance evaluation. There are never more rows than entries. |
| `LatestResult.PanelRowsAppend` | src/components/LatestResultSection.tsx:167-169 | The rows of a concatenation are the rows of each part in turn, so rows follow entry order. |
| `LatestResult.PanelRowsComplete` | src/components/LatestResultSection.tsx:167-170 | Every entry other than `createdAt` gets its row. The row count is the entry count minus the `createdAt` entries. |
| `ResultsPage.CollectResults` | src/pages/Results.tsx:40-51 | With no mapping the current results stay as they are. Otherwise the results are exactly the non-null evaluations, in entry order. |
| `ResultsPage.CollectedExactly` | src/pages/Results.tsx:43-48 | A result is collected exactly when it is the evaluation of some entry. The number collected is the number of entries minus those that evaluate to null. |
| `ResultsPage.GroupByCategory` | src/pages/Results.tsx:63-69 | The keys are exactly the categories that occur, and the returned key order is their first-appearance order. Each group is the results of its category, in order. Every result in a group has that group's category. The group sizes add up to the number of results. |
| `ResultsPage.InCategoryMembers` | src/pages/Results.tsx:63-68 | A result is in the group of a category exactly when it is one of the results and has that category. |
| `ResultsPage.InCategoryAppend` | src/pages/Results.tsx:67 | Grouping a concatenation appends the groups of the parts, so pushing keeps arrival order. |
| `ResultsPage.GroupsPartition` | src/pages/Results.tsx:63-69 | The sizes of the CBC, CMP and Lipid Panel groups add up to the number of results. |
| `ResultsPage.GroupKeepsEveryCopy` | src/pages/Results.tsx:63-69 | A group holds every copy of each result of its category and no copy of any other, so no result is in two groups. |
| `ResultsPage.GroupKeepsOrder` | src/pages/Results.tsx:67 | Each group is a subsequence of the results: relative order is kept. |
| `ResultsPage.CategoryOrderListsEachOnce` | src/pages/Results.tsx:63-66 | The dictionary's key order lists exactly the categories that occur, each once. |
| `ResultsPage.CategoryOrderFirstAppearance` | src/pages/Results.tsx:63-66 | The key order is first-appearance order: a category listed before another has occurred before every occurrence of the other. |
| `ResultsPage.LipidBeforeCbcExample` | src/pages/Results.tsx:112 | For `{ ldl: 90, wbc: 6 }` the Lipid Panel card comes before the CBC card. |

## Left out

- Floating point: values and thresholds are exact reals. The model does not cover how IEEE binary rounding behaves at a boundary (for example, `13.5 * 0.9` is not exactly 12.15 in binary).
- `parseFloat` and `typeof` on the panel values of `LatestResultSection.tsx`: the model receives the numeric reading, with `None` for NaN. A string value's text is not kept in a row.
- `Object.entries` key ordering (integer-like keys first): the model takes entries in the order given. It does not require keys to be distinct; the results hold for any sequence.
- React state, effects, timers, navigation to the dashboard when the mapping is missing, rendering and `getStatusBadge` styling in `Results.tsx` and `LatestResultSection.tsx`. `CollectResults` returns the new `results` value instead of calling `setResults`.
- The HTTP fetch in `LatestResultSection.tsx`, the persisted store (`src/store/biomarkerStore.ts`), authentication, the upload and extraction functions, and all other pages and components: these are network, storage or UI code.
- `BiomarkerEvaluation.EvaluateBiomarker`: keys that name a property every JavaScript object inherits (`constructor`, `toString`, `valueOf`, `hasOwnProperty` and the like) give `null` in the model, like any other key the table does not list. In the source, the lookup into the object literal finds the inherited member. That member passes the `!config` guard, and then calling `config.optimal(value)` throws a TypeError. Such keys can reach the store, because the upload form copies every key of the extracted data.
- `BiomarkerEvaluation.EvaluateBiomarker`: a `real` has no infinities. In the source ±Infinity is not NaN, and `parseFloat("Infinity")` produces it. It is then classified by the closures: egfr +Infinity is optimal, and wbc +Infinity is critical.
- `OverallHealth.CalculateOverallHealth`: with an inherited-property key in the mapping, the source throws instead of returning a status. The model skips the entry, like any key the table does not list.
- `ResultsPage.CollectResults`: with an inherited-property key in the mapping, the source effect throws and `results` is not updated. The model skips the entry.
- `LatestResult.EvaluateWithTolerance`: an inherited-property key gives the placeholder in the model. In the source the lookup finds the inherited member, which passes the `!rule` guard. Its `min` and `max` are undefined, so every comparison is false, and the source returns `{range: undefined, status: "optimal"}`. As for infinities: +Infinity and -Infinity are critical for every listed key in the source (they lie outside the tolerance band); the model has no value for them.
- Category labels are the constructors `CBC`, `CMP` and `LipidPanel` rather than the strings `'CBC'`, `'CMP'` and `'Lipid Panel'`.
