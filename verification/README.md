# Variant report ranking: a Dafny model of `comb_anno`

`comb_anno` merges three per-sample annotation tables into one ranked variant
report. This project models its record-level logic, which has four parts:

- **VCF field extraction.** Each VCF row has a packed genotype string. AD is the
  second `,`-part of its second `:`-segment, and DP is its fourth `:`-segment.
  Both are read by Python's `int()`. The VAF is AD / DP, and a zero depth is
  excluded by precondition.
- **SNP filter.** Only rows whose `Variant_Type` is exactly `SNP` are kept.
- **Rank lookups.** Four fixed maps turn the OncoKB level, VEP impact,
  oncogenicity and mutation effect into ranks 1 to 4. A value missing from its
  map raises KeyError.
- **Composite sort.** Rows are ordered by VAF descending, then by the four ranks
  ascending. The helper rank columns are then dropped.

The Python primitives the parser uses are modelled, with the exceptions
listed under Left out:
- `str.split(sep)` keeps empty pieces and always returns at least one piece.
- `int()` strips surrounding whitespace, accepts an optional sign and allows
  single underscores between digits. The stripped characters are ASCII space
  and tab through carriage return, plus the non-ASCII characters that
  `str.isspace()` accepts. The ASCII separators U+001C to U+001F are not
  stripped, so `int('\x1c5')` raises ValueError.

Each Python exception becomes a `Result` failure, carrying the exception the
source would raise:
- IndexError: a split has too few pieces.
- ValueError: `int()` rejects the text.
- KeyError: a value is not a key of its map.
- NameError: an undefined name is looked up.

Failures come out in the source's order of evaluation:
- The AD column is parsed for every row before the DP column.
- The four rank columns are built one after the other, each over every row.

The depth is the fourth segment, which fits the `GT:AD:AF:DP:...` layout of a
Mutect2 sample. So `"0/1:45,15:60:99"` reads as AD 15 and DP 99 (not 60), as
`Genotype.SampleExample` proves.

The impact map's key is spelt `MODIFER`, as in the source. The VEP term
`MODIFIER` is therefore not a key, and a row carrying it aborts the run
(`Ranking.ImpactRejectsModifier`).

Line 49 looks up `vep_mutation_effect_dict`, but line 44 defines
`VEP_mutation_effect_dict`. The model ranks with the map of line 44, and the
name mismatch is recorded under Findings.

A report row is a 21-field record in output column order. Its VAF is an ordered
integer key in thousandths. The sort is a stable insertion sort on sequences.
Stability is a choice made for the model: the source's sort algorithm is not
part of this model.

Files (one module each):
- `wrappers.dfy` (Wrappers): the `Result` type.
- `text.dfy` (Text): `str.split` and `int()`.
- `genotype.dfy` (Genotype): AD/DP/VAF extraction.
- `report.dfy` (Report): the report row and the SNP filter.
- `ranking.dfy` (Ranking): the rank maps and the ranking passes.
- `sorting.dfy` (Sorting): the composite key and the insertion sort.
- `pipeline.dfy` (Pipeline): filter, rank, sort and drop, end to end.

## Model

| member | source | states |
|---|---|---|
| Text.Split | data/combine_filt_sort_anno.py:15-16 | `str.split`: at least one piece, no piece contains the separator, and joining the pieces with it gives the input back |
| Text.SplitJoin | data/combine_filt_sort_anno.py:15-16 | splitting a join of separator-free pieces returns exactly those pieces |
| Text.SplitCounts | data/combine_filt_sort_anno.py:15-16 | `s.split(sep)` has one more piece than `s` has separators, and every character of a piece occurs in `s` |
| Text.ParseInt | data/combine_filt_sort_anno.py:15-16 | `int()` raises ValueError carrying the text, always for blank text; the result's sign follows the literal's sign |
| Text.ParseIntToString | data/combine_filt_sort_anno.py:15-16 | `int(str(n)) == n` for every integer n |
| Text.ParseIntExample | data/combine_filt_sort_anno.py:15-16 | `int()` accepts surrounding whitespace, a sign and digit-group underscores; it rejects a doubled underscore and a decimal point |
| Genotype.ParseAltDepth | data/combine_filt_sort_anno.py:15 | the AD read of one sample: a sample with no `:` or no `,` raises IndexError; the AD of a written sample reads back as its alt depth (SampleRoundTrip) |
| Genotype.ParseDepth | data/combine_filt_sort_anno.py:16 | the DP read of one sample: it raises IndexError exactly when the sample has fewer than three `:`; the DP of a written sample reads back as its depth (SampleRoundTrip) |
| Genotype.SampleRoundTrip | data/combine_filt_sort_anno.py:15-16 | for a sample written as GT, `ref,alt`, one skipped segment, depth and further segments, AD reads back as alt and DP as the depth |
| Genotype.SampleExample | data/combine_filt_sort_anno.py:15-16 | `"0/1:45,15:60:99"` gives AD 15 and DP 99 |
| Genotype.SampleParsesIff | data/combine_filt_sort_anno.py:15-16 | a sample parses iff it has at least 4 `:`-segments, segment 1 has at least 2 `,`-parts, and both selected parts are integer literals |
| Genotype.ParseColumn | data/combine_filt_sort_anno.py:15-16 | a comprehension over all rows: succeeds iff every row parses, value i from row i; otherwise it raises the error of the first failing row |
| Genotype.VafMilli | data/combine_filt_sort_anno.py:17 | needs a non-zero depth; the result is within half a thousandth of AD/DP, and lies in 0..1000 when 0 <= AD <= DP |
| Genotype.ExtractVcfFields | data/combine_filt_sort_anno.py:15-20 | a non-zero depth is needed only when every sample parses (line 17 is reached); succeeds iff every sample parses; then one entry per row in row order with that row's AD, DP and nearest-thousandth VAF; an AD failure anywhere wins over any DP failure |
| Genotype.ExtractBeforeZeroDepth | data/combine_filt_sort_anno.py:15-17 | a table whose first row has depth 0 and whose second row has no `:` fails at line 15, before any division |
| Report.FilterSnp | data/combine_filt_sort_anno.py:40 | every output row is a SNP, every SNP input row is kept, and the output is a subsequence of the input |
| Report.FilterSnpCounts | data/combine_filt_sort_anno.py:40 | each row occurs in the output as often as in the input if it is a SNP, otherwise not at all |
| Report.FilterDropsDeletions | data/combine_filt_sort_anno.py:40 | a `DEL` row never survives the filter |
| Ranking.RankMap | data/combine_filt_sort_anno.py:41-44 | the four dicts with their keys verbatim; every rank lies in 1..4, and `''` is a key of each, ranked 4, no better than any other key |
| Ranking.Lookup | data/combine_filt_sort_anno.py:41-49 | a value has a rank iff it is a key of its map; ranks lie in 1..4; a missing key raises KeyError; `''` ranks 4, no better than any other key |
| Ranking.CategoryRank | data/combine_filt_sort_anno.py:41-44 | every category of the enumeration looks up to its own tier in its column's map |
| Ranking.LookupMatchesCategories | data/combine_filt_sort_anno.py:41-44 | the maps' keys are exactly the enumerated category names of each column, both directions, with the enumeration's rank |
| Ranking.ImpactRejectsModifier | data/combine_filt_sort_anno.py:42 | `MODIFIER` is not a key of the impact map (only `MODIFER` is), so it raises KeyError |
| Ranking.RankColumn | data/combine_filt_sort_anno.py:46-49 | one helper column: succeeds iff every row's value is a key; rank i is row i's; otherwise KeyError of the first unmapped row |
| Ranking.RankRows | data/combine_filt_sort_anno.py:44-49 | succeeds iff every row is fully ranked; row i keeps every field of input row i and gains its ranks; a failure is a KeyError of the first failing column, all earlier columns being mapped |
| Ranking.RankRowsAsWritten | data/combine_filt_sort_anno.py:46-49 | as written, any non-empty table fails (NameError at line 49 at the latest), and success yields no rows |
| Ranking.AsWrittenRaisesNameError | data/combine_filt_sort_anno.py:44-49 | as written, every non-empty table the intended lookups rank raises NameError; it agrees with them on the empty table and on earlier KeyErrors |
| Ranking.AsWrittenCounterexample | data/combine_filt_sort_anno.py:49 | a one-row BRAF SNP table is ranked (1,1,1,1) by the intended lookups but raises NameError as written |
| Sorting.LeIsTotalOrder | data/combine_filt_sort_anno.py:51 | the composite key order is reflexive, total, transitive and antisymmetric |
| Sorting.Insert | data/combine_filt_sort_anno.py:51 | inserting into a sorted table keeps it sorted and adds exactly one element |
| Sorting.InsertionSort | data/combine_filt_sort_anno.py:51 | the output is sorted by the composite key and a permutation of the input |
| Sorting.SortedAllPairs | data/combine_filt_sort_anno.py:51 | in a sorted table every earlier row's key precedes every later row's, not only neighbours |
| Sorting.InsertionSortStable | data/combine_filt_sort_anno.py:51 | rows with the same key keep their input order |
| Pipeline.Rows | data/combine_filt_sort_anno.py:52 | the drop of the helper columns; its partner is DropAfterRank, which shows it undoes the ranking pass |
| Pipeline.DropAfterRank | data/combine_filt_sort_anno.py:46-52 | dropping the helper columns inverts the ranking pass: a ranked table comes back exactly as it was, and the columns dropped are each row's own ranks |
| Pipeline.FilterRankSort | data/combine_filt_sort_anno.py:40-52 | the output has one row per SNP input row; a failure is always a KeyError for an unmapped value of some SNP input row |
| Pipeline.FailingValueIsInSnpRow | data/combine_filt_sort_anno.py:40-49 | the value the ranking passes cannot map comes from a SNP row of the input, never from a filtered-out row |
| Pipeline.FilterRankSortSucceedsIff | data/combine_filt_sort_anno.py:40-49 | the stage succeeds iff every SNP row of the input is fully ranked; non-SNP rows are never looked up |
| Pipeline.FilterRankSortIsPermutation | data/combine_filt_sort_anno.py:40-52 | after the helper columns are dropped, the output holds each SNP input row exactly as often as the input, fields unchanged, and nothing else |
| Pipeline.FilterRankSortIsOrdered | data/combine_filt_sort_anno.py:40-52 | every output row is a fully ranked SNP; neighbouring output rows have non-increasing VAF; on equal VAF, their (OncoKB, impact, oncogenic, effect) ranks are lexicographically non-decreasing |
| Pipeline.RowsWithKeyOfFilter | data/combine_filt_sort_anno.py:40 | the filter keeps every group of SNP rows with one sort key whole and in input order |
| Pipeline.FilterRankSortIsStable | data/combine_filt_sort_anno.py:40-52 | for every sort key, the output rows with that key are exactly the SNP input rows with it, in input order |
| Pipeline.LevelBreaksVafTie | data/combine_filt_sort_anno.py:51 | of two SNPs with equal VAF, the one with the better OncoKB rank comes first, for both input orders |
| Pipeline.LevelOneBeatsLevelThreeA | data/combine_filt_sort_anno.py:41-52 | with VAF 0.400, HIGH impact, `Oncogenic` and `Gain-of-function` for both, a LEVEL_1 row is reported ahead of a LEVEL_3A row, its level unchanged |

## Left out

- File input and output (lines 4, 9-12 and 53): `sys.argv`, the `read_csv` options and `to_csv` are library I/O.
- The variant identifiers (lines 23-30): `gen_vid` and `gen_vcf_vid` are called but not defined in this file. They are not part of this model.
- The two outer merges (lines 31-32): null filling, cross products of duplicate keys and NaN propagation are pandas semantics. Report rows are taken as already merged.
- Column projection and renaming (lines 35-37): a positional relabelling. `Report.Row` is defined directly with the 21 output columns.
- The non-`samp` VCF columns: they only feed the variant identifiers and the merge.
- Missing cells: pandas reads empty cells as NaN. Here a missing value is a string that is not a map key (so it raises KeyError) and is not `SNP` (so it is filtered out).
- NaN VAFs: how pandas orders them is library behaviour and is not modelled. A row's VAF is always an integer key.
- Genotype.VafMilli: `round(a/d, 3)` on binary floats is modelled as a nearest thousandth of the exact ratio. Which neighbour a tie, or a float just below a tie, rounds to is not modelled. Nor is the OverflowError that `a/d` raises when the ratio is beyond the float range.
- Text.ParseInt: only ASCII digits are accepted. Python's `int()` also accepts other Unicode decimal digits. The interpreter's limit on the length of a decimal literal (4300 digits by default since Python 3.11, configurable at run time) is not modelled: longer literals are read here but raise ValueError there.
- Sorting.InsertionSortStable: stability is a property of the model's sort, not a claim about pandas' multi-column `sort_values`, whose algorithm is not part of this model.
- Exception messages and tracebacks: only the exception kind and the offending value or name are kept.

## Findings

| source | as written | input that shows it | evidently intended | confidence | as-written member | corrected member |
|---|---|---|---|---|---|---|
| data/combine_filt_sort_anno.py:49 | the element expression looks up `vep_mutation_effect_dict`, but line 44 defines `VEP_mutation_effect_dict`; no other definition of that name exists | assuming `gen_vid` and `gen_vcf_vid` (called at lines 25-27 but not defined or imported in this file) are supplied from outside, so that line 49 is reached: any non-empty SNP table whose OncoKB, impact and oncogenic values are all mapped, e.g. one BRAF row with `LEVEL_1`, `HIGH`, `Oncogenic`, `Gain-of-function` | look up the mutation-effect map defined at line 44 | high; not executed | Ranking.RankRowsAsWritten | Ranking.RankRows |
