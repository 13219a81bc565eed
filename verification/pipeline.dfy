/** The filter-and-sort stage of `comb_anno` end to end: keep the SNP rows,
    attach the four helper rank columns, sort by the composite key, and drop
    the helper columns again. */
module Pipeline {
  import opened Wrappers
  import opened Report
  import opened Ranking
  import opened Sorting

  /** Dropping the helper columns. */
  function Rows(s: seq<RankedRow>): (r: seq<Row>)
    ensures |r| == |s|
    ensures forall i :: 0 <= i < |s| ==> r[i] == s[i].row
  {
    seq(|s|, i requires 0 <= i < |s| => s[i].row)
  }

  /** Lines 40-52 (with the line-44 map for the last helper column). The
      output has one row per SNP row; a failure is always a KeyError for an
      unmapped value of some SNP row, never for a non-SNP row. */
  function FilterRankSort(rows: seq<Row>): (r: Result<seq<Row>, RankError>)
    ensures r.Success? ==> |r.value| == |FilterSnp(rows)|
    ensures r.Failure? ==>
              && r.error.KeyError?
              && r.error.key !in RankMap(r.error.column)
              && exists row :: row in rows && IsSnp(row) && Field(row, r.error.column) == r.error.key
  {
    var snps := FilterSnp(rows);
    var ranked := RankRows(snps);
    if ranked.Failure? then
      FailingValueIsInSnpRow(rows, ranked.error);
      Failure(ranked.error)
    else
      Success(Rows(InsertionSort(ranked.value)))
  }

  /** A value the ranker could not map comes from a SNP row of the input. */
  lemma FailingValueIsInSnpRow(rows: seq<Row>, e: RankError)
    requires RankRows(FilterSnp(rows)) == Failure(e)
    ensures e.KeyError?
    ensures exists row :: row in rows && IsSnp(row) && Field(row, e.column) == e.key
  {
    var snps := FilterSnp(rows);
    var k := FailingRow(snps, e);
    FilteredRowIsInput(rows, snps[k]);
  }

  lemma FailingRow(snps: seq<Row>, e: RankError) returns (k: nat)
    requires RankRows(snps) == Failure(e)
    ensures e.KeyError?
    ensures k < |snps| && Field(snps[k], e.column) == e.key
  {
    k :| 0 <= k < |snps| && Field(snps[k], e.column) == e.key;
  }

  lemma FilteredRowIsInput(rows: seq<Row>, row: Row)
    requires row in FilterSnp(rows)
    ensures row in rows && IsSnp(row)
  {
    FilterSnpCounts(rows, row);
    assert row in multiset(FilterSnp(rows));
  }

  /** The sort key of a report row, computed from its own fields. */
  function RowKey(row: Row): SortKey
    requires FullyRanked(row)
  {
    SortKey(row.vaf, RanksOf(row))
  }

  /** Whether `row` is a SNP row whose sort key is `k`. */
  predicate SnpWithKey(row: Row, k: SortKey) {
    IsSnp(row) && FullyRanked(row) && RowKey(row) == k
  }

  /** The fully ranked SNP rows whose key is `k`, in table order. */
  function RowsWithKey(rows: seq<Row>, k: SortKey): seq<Row> {
    if rows == [] then []
    else (if SnpWithKey(rows[0], k) then [rows[0]] else []) + RowsWithKey(rows[1..], k)
  }

  /** A ranked SNP row whose helper columns are the ranks of its own fields. */
  predicate WellRanked(x: RankedRow) {
    IsSnp(x.row) && FullyRanked(x.row) && x.ranks == RanksOf(x.row)
  }

  /** Dropping the helper columns undoes the ranking pass: attaching the
      ranks and dropping them again gives back the table, row for row, and
      what was dropped is each row's own ranks. */
  lemma DropAfterRank(rows: seq<Row>)
    requires RankRows(rows).Success?
    ensures Rows(RankRows(rows).value) == rows
    ensures forall i :: 0 <= i < |rows| ==> RankRows(rows).value[i].ranks == RanksOf(rows[i])
  {
  }

  // ---------------------------------------------------------------------
  // Helper facts about dropping the helper columns.

  /** When every occurrence of `row` carries the helper columns `ranks`,
      dropping them keeps the number of occurrences. */
  lemma {:induction false} RowsCountTagged(s: seq<RankedRow>, row: Row, ranks: Ranks)
    requires forall i :: 0 <= i < |s| && s[i].row == row ==> s[i].ranks == ranks
    ensures multiset(Rows(s))[row] == multiset(s)[RankedRow(row, ranks)]
    decreases |s|
  {
    if s != [] {
      RowsCountTagged(s[1..], row, ranks);
      assert s == [s[0]] + s[1..];
      assert Rows(s) == [s[0].row] + Rows(s[1..]);
      assert multiset(Rows(s)) == multiset{s[0].row} + multiset(Rows(s[1..]));
      assert multiset(s) == multiset{s[0]} + multiset(s[1..]);
    }
  }

  lemma RowsCount(s: seq<RankedRow>, row: Row)
    requires forall i :: 0 <= i < |s| ==> WellRanked(s[i])
    ensures FullyRanked(row) ==> multiset(Rows(s))[row] == multiset(s)[RankedRow(row, RanksOf(row))]
    ensures !FullyRanked(row) ==> multiset(Rows(s))[row] == 0
  {
    if FullyRanked(row) {
      RowsCountTagged(s, row, RanksOf(row));
    } else {
      var any := Ranks(0, 0, 0, 0);
      RowsCountTagged(s, row, any);
    }
  }

  lemma {:induction false} RowsWithKeyOfRows(s: seq<RankedRow>, k: SortKey)
    requires forall i :: 0 <= i < |s| ==> WellRanked(s[i])
    ensures RowsWithKey(Rows(s), k) == Rows(WithKey(s, k))
    decreases |s|
  {
    if s != [] {
      RowsWithKeyOfRows(s[1..], k);
      assert Rows(s)[1..] == Rows(s[1..]);
      WithKeyCons(s[0], s[1..], k);
      assert [s[0]] + s[1..] == s;
      var head: seq<RankedRow> := if Key(s[0]) == k then [s[0]] else [];
      assert WellRanked(s[0]);
      assert SnpWithKey(s[0].row, k) <==> Key(s[0]) == k;
      assert Rows(head) == if SnpWithKey(Rows(s)[0], k) then [Rows(s)[0]] else [];
      assert Rows(head + WithKey(s[1..], k)) == Rows(head) + Rows(WithKey(s[1..], k));
    }
  }

  lemma SortedAreWellRanked(ranked: seq<RankedRow>)
    requires forall i :: 0 <= i < |ranked| ==> WellRanked(ranked[i])
    ensures forall i :: 0 <= i < |InsertionSort(ranked)| ==> WellRanked(InsertionSort(ranked)[i])
  {
    var sorted := InsertionSort(ranked);
    forall i | 0 <= i < |sorted|
      ensures WellRanked(sorted[i])
    {
      assert sorted[i] in multiset(sorted);
      assert sorted[i] in ranked;
    }
  }

  lemma RankedAreWellRanked(snps: seq<Row>)
    requires forall i :: 0 <= i < |snps| ==> IsSnp(snps[i])
    requires RankRows(snps).Success?
    ensures forall i :: 0 <= i < |RankRows(snps).value| ==> WellRanked(RankRows(snps).value[i])
    ensures Rows(RankRows(snps).value) == snps
  {
  }

  // ---------------------------------------------------------------------
  // The stage's promises.

  /** The stage succeeds exactly when every SNP row is fully ranked: a
      non-SNP row is never looked up, a SNP row with an unmapped value
      aborts the whole run. */
  lemma FilterRankSortSucceedsIff(rows: seq<Row>)
    ensures FilterRankSort(rows).Success? <==>
              forall i :: 0 <= i < |rows| && IsSnp(rows[i]) ==> FullyRanked(rows[i])
  {
    var snps := FilterSnp(rows);
    forall j | 0 <= j < |snps|
      ensures snps[j] in rows && IsSnp(snps[j])
    {
      FilterSnpCounts(rows, snps[j]);
      assert snps[j] in multiset(snps);
    }
  }

  /** The output holds the SNP rows of the input, each as often as in the
      input, with every report field unchanged, and nothing else. */
  lemma FilterRankSortIsPermutation(rows: seq<Row>, out: seq<Row>)
    requires FilterRankSort(rows) == Success(out)
    ensures forall x :: multiset(out)[x] == if IsSnp(x) then multiset(rows)[x] else 0
    ensures forall i :: 0 <= i < |out| ==> out[i] in rows
  {
    var snps := FilterSnp(rows);
    var ranked := RankRows(snps).value;
    var sorted := InsertionSort(ranked);
    RankedAreWellRanked(snps);
    SortedAreWellRanked(ranked);
    forall x
      ensures multiset(out)[x] == if IsSnp(x) then multiset(rows)[x] else 0
    {
      RowsCount(sorted, x);
      RowsCount(ranked, x);
      FilterSnpCounts(rows, x);
    }
    forall i | 0 <= i < |out|
      ensures out[i] in rows
    {
      assert out[i] in multiset(out);
    }
  }

  /** Every output row is a fully ranked SNP, and adjacent output rows are
      in composite-key order: VAF non-increasing, and on equal VAF the four
      ranks lexicographically non-decreasing. */
  lemma FilterRankSortIsOrdered(rows: seq<Row>, out: seq<Row>)
    requires FilterRankSort(rows) == Success(out)
    ensures forall i :: 0 <= i < |out| ==> IsSnp(out[i]) && FullyRanked(out[i])
    ensures forall i :: 0 <= i < |out| - 1 ==>
              var a := out[i];
              var b := out[i + 1];
              && FullyRanked(a) && FullyRanked(b)
              && a.vaf >= b.vaf
              && (a.vaf == b.vaf ==> RanksLe(RanksOf(a), RanksOf(b)))
  {
    var snps := FilterSnp(rows);
    var ranked := RankRows(snps).value;
    var sorted := InsertionSort(ranked);
    RankedAreWellRanked(snps);
    SortedAreWellRanked(ranked);
    forall i | 0 <= i < |out| - 1
      ensures Le(RowKey(out[i]), RowKey(out[i + 1]))
    {
      assert Key(sorted[i]) == RowKey(out[i]);
      assert Key(sorted[i + 1]) == RowKey(out[i + 1]);
    }
  }

  /** Filtering out the non-SNP rows leaves every group of tied SNP rows
      as it was. */
  lemma {:induction false} RowsWithKeyOfFilter(rows: seq<Row>, k: SortKey)
    ensures RowsWithKey(FilterSnp(rows), k) == RowsWithKey(rows, k)
    decreases |rows|
  {
    if rows != [] {
      RowsWithKeyOfFilter(rows[1..], k);
      if IsSnp(rows[0]) {
        assert (FilterSnp(rows))[1..] == FilterSnp(rows[1..]);
      }
    }
  }

  /** Output rows that tie on VAF and on all four ranks appear in the order
      they have in the input (a property of the stable sort chosen for the
      model). */
  lemma FilterRankSortIsStable(rows: seq<Row>, out: seq<Row>, k: SortKey)
    requires FilterRankSort(rows) == Success(out)
    ensures RowsWithKey(out, k) == RowsWithKey(rows, k)
  {
    var snps := FilterSnp(rows);
    var ranked := RankRows(snps).value;
    var sorted := InsertionSort(ranked);
    RankedAreWellRanked(snps);
    SortedAreWellRanked(ranked);
    RowsWithKeyOfRows(sorted, k);
    InsertionSortStable(ranked, k);
    RowsWithKeyOfRows(ranked, k);
    RowsWithKeyOfFilter(rows, k);
  }

  function ExampleRow(level: string, vaf: int): Row {
    Row("7", "100", "100", "C", "T", vaf, 40, 100, "GENE", "SNP", "missense_variant",
        "", "", "", "", "", "", "HIGH", "Gain-of-function", "Oncogenic", level)
  }

  lemma ExampleRanks(level: Category, vaf: int)
    requires level.ColumnOf() == OncoKbLevel
    ensures FullyRanked(ExampleRow(level.Name(), vaf))
    ensures RanksOf(ExampleRow(level.Name(), vaf)) == Ranks(level.Rank(), 1, 1, 1)
    ensures IsSnp(ExampleRow(level.Name(), vaf))
  {
    var row := ExampleRow(level.Name(), vaf);
    CategoryRank(level);
    CategoryRank(High);
    CategoryRank(Oncogenic);
    CategoryRank(GainOfFunction);
    FullyRankedByColumns(row);
  }

  /** Of two SNPs with the same VAF, the one with the better OncoKB rank is
      reported first, whichever order they arrive in. */
  lemma LevelBreaksVafTie(a: Row, b: Row)
    requires IsSnp(a) && IsSnp(b) && FullyRanked(a) && FullyRanked(b)
    requires a.vaf == b.vaf && RanksOf(a).oncoKb < RanksOf(b).oncoKb
    ensures FilterRankSort([b, a]) == Success([a, b])
    ensures FilterRankSort([a, b]) == Success([a, b])
  {
    TiedPairOrder(a, b, [b, a]);
    TiedPairOrder(a, b, [a, b]);
  }

  lemma TiedPairOrder(a: Row, b: Row, rows: seq<Row>)
    requires IsSnp(a) && IsSnp(b) && FullyRanked(a) && FullyRanked(b)
    requires a.vaf == b.vaf && RanksOf(a).oncoKb < RanksOf(b).oncoKb
    requires rows == [b, a] || rows == [a, b]
    ensures FilterRankSort(rows) == Success([a, b])
  {
    assert FilterRankSort(rows).Success? by {
      assert forall i :: 0 <= i < |rows| && IsSnp(rows[i]) ==> FullyRanked(rows[i]);
      FilterRankSortSucceedsIff(rows);
    }
    var out := FilterRankSort(rows).value;
    TiedPairElements(a, b, rows, out);
    TiedPairFirst(a, b, rows, out);
    assert out == [a, b];
  }

  lemma TiedPairElements(a: Row, b: Row, rows: seq<Row>, out: seq<Row>)
    requires IsSnp(a) && IsSnp(b)
    requires rows == [b, a] || rows == [a, b]
    requires FilterRankSort(rows) == Success(out)
    ensures |out| == 2 && multiset(out) == multiset{a, b}
  {
    FilterRankSortIsPermutation(rows, out);
    assert multiset(rows) == multiset{a, b};
    assert multiset(out) == multiset{a, b};
    assert |multiset(out)| == |out|;
  }

  lemma TiedPairFirst(a: Row, b: Row, rows: seq<Row>, out: seq<Row>)
    requires FullyRanked(a) && FullyRanked(b)
    requires a.vaf == b.vaf && RanksOf(a).oncoKb < RanksOf(b).oncoKb
    requires FilterRankSort(rows) == Success(out)
    requires |out| == 2 && multiset(out) == multiset{a, b}
    ensures out[0] == a && out[1] == b
  {
    assert out == [out[0], out[1]];
    assert multiset{out[0], out[1]} == multiset{a, b};
    assert a != b;
    assert out[0] == a || out[0] == b;
    assert out[0] == b ==> out[1] == a;
    FilterRankSortIsOrdered(rows, out);
    assert RanksLe(RanksOf(out[0]), RanksOf(out[1]));
  }

  /** The LEVEL_1 row is reported ahead of the LEVEL_3A row when both have
      VAF 0.400 and HIGH impact, with its OncoKB level unchanged. */
  lemma LevelOneBeatsLevelThreeA()
    ensures FilterRankSort([ExampleRow("LEVEL_3A", 400), ExampleRow("LEVEL_1", 400)])
            == Success([ExampleRow("LEVEL_1", 400), ExampleRow("LEVEL_3A", 400)])
  {
    assert Level1.Name() == "LEVEL_1" && Level3A.Name() == "LEVEL_3A";
    ExampleRanks(Level1, 400);
    ExampleRanks(Level3A, 400);
    LevelBreaksVafTie(ExampleRow("LEVEL_1", 400), ExampleRow("LEVEL_3A", 400));
  }
}
