/** The priority ranker's lookups: four fixed maps from a categorical
    annotation to an ordinal rank (1 is the highest priority), applied column
    by column to the filtered table. An unmapped value raises KeyError. */
module Ranking {
  import opened Wrappers
  import opened Report

  /** The four ranked columns, in the order the ranker adds them. */
  datatype Column = OncoKbLevel | VepImpact | VepOncogenic | VepMutationEffect

  /** The exceptions the ranker raises: a value missing from its map, or a
      map name that is not defined. */
  datatype RankError = KeyError(column: Column, key: string) | NameError(name: string)

  function Field(row: Row, c: Column): string {
    match c
    case OncoKbLevel => row.oncoKbLevel
    case VepImpact => row.vepImpact
    case VepOncogenic => row.vepOncogenic
    case VepMutationEffect => row.vepMutationEffect
  }

  /** The source's maps, keys verbatim (including the `MODIFER` spelling).
      Rank 1 is the highest priority; the empty value is a key of every map
      and ranks 4, behind every other key. */
  function RankMap(c: Column): (m: map<string, nat>)
    ensures "" in m && m[""] == 4
    ensures forall k :: k in m ==> 1 <= m[k] <= m[""]
  {
    match c
    case OncoKbLevel =>
      map["LEVEL_1" := 1, "LEVEL_2" := 2, "LEVEL_3A" := 3, "LEVEL_3B" := 3,
          "LEVEL_4" := 4, "LEVEL_R1" := 1, "LEVEL_R2" := 2, "" := 4]
    case VepImpact =>
      map["LOW" := 3, "MODIFER" := 2, "MODERATE" := 2, "HIGH" := 1, "" := 4]
    case VepOncogenic =>
      map["Unknown" := 3, "Inconclusive" := 3, "Predicted Oncogenic" := 2,
          "Likely Oncogenic" := 2, "Oncogenic" := 1, "" := 4]
    case VepMutationEffect =>
      map["Unknown" := 3, "Inconclusive" := 3, "Likely Neutral" := 3,
          "Likely Gain-of-function" := 2, "Likely Loss-of-function" := 2,
          "Gain-of-function" := 1, "Loss-of-function" := 1, "" := 4]
  }

  /** `dict[value]`: the rank of a value, or KeyError when it has none. The
      empty value ranks 4, after every other value of the same map. */
  function Lookup(c: Column, v: string): (r: Result<nat, RankError>)
    ensures r.Success? <==> v in RankMap(c)
    ensures r.Success? ==> 1 <= r.value <= 4 && r.value == RankMap(c)[v]
    ensures r.Failure? ==> r.error == KeyError(c, v)
    ensures v == "" ==> r == Success(4)
    ensures r.Success? ==> r.value <= RankMap(c)[""]
  {
    if v in RankMap(c) then Success(RankMap(c)[v]) else Failure(KeyError(c, v))
  }

  // ---------------------------------------------------------------------
  // An independent enumeration of the categories and their ranks.

  /** Every category the maps know, as an enumeration. */
  datatype Category =
    | Level1 | Level2 | Level3A | Level3B | Level4 | LevelR1 | LevelR2 | NoLevel
    | Low | Modifer | Moderate | High | NoImpact
    | OncoUnknown | OncoInconclusive | PredictedOncogenic | LikelyOncogenic | Oncogenic | NoOncogenic
    | EffectUnknown | EffectInconclusive | LikelyNeutral | LikelyGainOfFunction
    | LikelyLossOfFunction | GainOfFunction | LossOfFunction | NoEffect
  {
    function ColumnOf(): Column {
      match this
      case Level1 | Level2 | Level3A | Level3B | Level4 | LevelR1 | LevelR2 | NoLevel => OncoKbLevel
      case Low | Modifer | Moderate | High | NoImpact => VepImpact
      case OncoUnknown | OncoInconclusive | PredictedOncogenic | LikelyOncogenic
         | Oncogenic | NoOncogenic => VepOncogenic
      case EffectUnknown | EffectInconclusive | LikelyNeutral | LikelyGainOfFunction
         | LikelyLossOfFunction | GainOfFunction | LossOfFunction | NoEffect => VepMutationEffect
    }

    /** The text the annotators write for this category. */
    function Name(): string {
      match this
      case Level1 => "LEVEL_1"
      case Level2 => "LEVEL_2"
      case Level3A => "LEVEL_3A"
      case Level3B => "LEVEL_3B"
      case Level4 => "LEVEL_4"
      case LevelR1 => "LEVEL_R1"
      case LevelR2 => "LEVEL_R2"
      case Low => "LOW"
      case Modifer => "MODIFER"
      case Moderate => "MODERATE"
      case High => "HIGH"
      case OncoUnknown | EffectUnknown => "Unknown"
      case OncoInconclusive | EffectInconclusive => "Inconclusive"
      case PredictedOncogenic => "Predicted Oncogenic"
      case LikelyOncogenic => "Likely Oncogenic"
      case Oncogenic => "Oncogenic"
      case LikelyNeutral => "Likely Neutral"
      case LikelyGainOfFunction => "Likely Gain-of-function"
      case LikelyLossOfFunction => "Likely Loss-of-function"
      case GainOfFunction => "Gain-of-function"
      case LossOfFunction => "Loss-of-function"
      case NoLevel | NoImpact | NoOncogenic | NoEffect => ""
    }

    /** Priority tier: 1 actionable or high impact, 2 likely, 3 uncertain or
        benign, 4 low or missing. */
    function Rank(): nat {
      match this
      case Level1 | LevelR1 | High | Oncogenic | GainOfFunction | LossOfFunction => 1
      case Level2 | LevelR2 | Modifer | Moderate | PredictedOncogenic | LikelyOncogenic
         | LikelyGainOfFunction | LikelyLossOfFunction => 2
      case Level3A | Level3B | Low | OncoUnknown | OncoInconclusive | EffectUnknown
         | EffectInconclusive | LikelyNeutral => 3
      case Level4 | NoLevel | NoImpact | NoOncogenic | NoEffect => 4
    }
  }

  /** Each category's name looks up to the category's own rank. */
  lemma CategoryRank(k: Category)
    ensures Lookup(k.ColumnOf(), k.Name()) == Success(k.Rank())
  {
    match k
    case Level1 => case Level2 => case Level3A => case Level3B => case Level4 =>
    case LevelR1 => case LevelR2 => case NoLevel =>
    case Low => case Modifer => case Moderate => case High => case NoImpact =>
    case OncoUnknown => case OncoInconclusive => case PredictedOncogenic =>
    case LikelyOncogenic => case Oncogenic => case NoOncogenic =>
    case EffectUnknown => case EffectInconclusive => case LikelyNeutral =>
    case LikelyGainOfFunction => case LikelyLossOfFunction => case GainOfFunction =>
    case LossOfFunction => case NoEffect =>
  }

  lemma OncoKbKeysNamed(v: string)
    requires v in RankMap(OncoKbLevel)
    ensures exists k: Category :: k.ColumnOf() == OncoKbLevel && k.Name() == v
  {
    var k: Category :=
      if v == "LEVEL_1" then Level1
      else if v == "LEVEL_2" then Level2
      else if v == "LEVEL_3A" then Level3A
      else if v == "LEVEL_3B" then Level3B
      else if v == "LEVEL_4" then Level4
      else if v == "LEVEL_R1" then LevelR1
      else if v == "LEVEL_R2" then LevelR2
      else NoLevel;
    assert k.ColumnOf() == OncoKbLevel;
    assert k.Name() == v;
  }

  lemma ImpactKeysNamed(v: string)
    requires v in RankMap(VepImpact)
    ensures exists k: Category :: k.ColumnOf() == VepImpact && k.Name() == v
  {
    var k: Category :=
      if v == "LOW" then Low
      else if v == "MODIFER" then Modifer
      else if v == "MODERATE" then Moderate
      else if v == "HIGH" then High
      else NoImpact;
    assert k.ColumnOf() == VepImpact;
    assert k.Name() == v;
  }

  lemma OncogenicKeysNamed(v: string)
    requires v in RankMap(VepOncogenic)
    ensures exists k: Category :: k.ColumnOf() == VepOncogenic && k.Name() == v
  {
    var k: Category :=
      if v == "Unknown" then OncoUnknown
      else if v == "Inconclusive" then OncoInconclusive
      else if v == "Predicted Oncogenic" then PredictedOncogenic
      else if v == "Likely Oncogenic" then LikelyOncogenic
      else if v == "Oncogenic" then Oncogenic
      else NoOncogenic;
    assert k.ColumnOf() == VepOncogenic;
    assert k.Name() == v;
  }

  lemma EffectKeysNamed(v: string)
    requires v in RankMap(VepMutationEffect)
    ensures exists k: Category :: k.ColumnOf() == VepMutationEffect && k.Name() == v
  {
    var k: Category :=
      if v == "Unknown" then EffectUnknown
      else if v == "Inconclusive" then EffectInconclusive
      else if v == "Likely Neutral" then LikelyNeutral
      else if v == "Likely Gain-of-function" then LikelyGainOfFunction
      else if v == "Likely Loss-of-function" then LikelyLossOfFunction
      else if v == "Gain-of-function" then GainOfFunction
      else if v == "Loss-of-function" then LossOfFunction
      else NoEffect;
    assert k.ColumnOf() == VepMutationEffect;
    assert k.Name() == v;
  }

  /** The maps rank exactly the enumerated categories, each at its tier:
      a value has a rank in a column iff it names a category of that column,
      and then the rank is that category's. */
  lemma LookupMatchesCategories(c: Column, v: string)
    ensures Lookup(c, v).Success? <==> exists k: Category :: k.ColumnOf() == c && k.Name() == v
    ensures forall k: Category :: k.ColumnOf() == c && k.Name() == v ==> Lookup(c, v) == Success(k.Rank())
  {
    forall k: Category | k.ColumnOf() == c && k.Name() == v
      ensures Lookup(c, v) == Success(k.Rank())
    {
      CategoryRank(k);
    }
    if v in RankMap(c) {
      match c
      case OncoKbLevel => OncoKbKeysNamed(v);
      case VepImpact => ImpactKeysNamed(v);
      case VepOncogenic => OncogenicKeysNamed(v);
      case VepMutationEffect => EffectKeysNamed(v);
    }
  }

  /** The correct VEP spelling `MODIFIER` is not a key of the impact map, so
      a row carrying it aborts the ranking. */
  lemma ImpactRejectsModifier()
    ensures Lookup(VepImpact, "MODIFIER") == Failure(KeyError(VepImpact, "MODIFIER"))
  {
    assert "MODIFIER" != "MODIFER" by { assert "MODIFIER"[6] != "MODIFER"[6]; }
  }

  // ---------------------------------------------------------------------
  // Ranking the table: one helper column per map, in column order.

  /** The four helper columns of one row. */
  datatype Ranks = Ranks(oncoKb: nat, impact: nat, oncogenic: nat, mutationEffect: nat)

  /** A report row with its helper rank columns attached. */
  datatype RankedRow = RankedRow(row: Row, ranks: Ranks)

  /** Position of the column in the ranker's order of passes. */
  function ColumnIndex(c: Column): nat {
    match c
    case OncoKbLevel => 0
    case VepImpact => 1
    case VepOncogenic => 2
    case VepMutationEffect => 3
  }

  /** Every ranked field of the row is a key of its map. */
  predicate FullyRanked(row: Row) {
    forall c :: Field(row, c) in RankMap(c)
  }

  /** The helper columns of a fully ranked row. */
  function RanksOf(row: Row): (r: Ranks)
    requires FullyRanked(row)
    ensures r.oncoKb == RankMap(OncoKbLevel)[row.oncoKbLevel]
    ensures r.impact == RankMap(VepImpact)[row.vepImpact]
    ensures r.oncogenic == RankMap(VepOncogenic)[row.vepOncogenic]
    ensures r.mutationEffect == RankMap(VepMutationEffect)[row.vepMutationEffect]
  {
    assert Field(row, OncoKbLevel) == row.oncoKbLevel;
    assert Field(row, VepImpact) == row.vepImpact;
    assert Field(row, VepOncogenic) == row.vepOncogenic;
    assert Field(row, VepMutationEffect) == row.vepMutationEffect;
    Ranks(RankMap(OncoKbLevel)[row.oncoKbLevel], RankMap(VepImpact)[row.vepImpact],
          RankMap(VepOncogenic)[row.vepOncogenic], RankMap(VepMutationEffect)[row.vepMutationEffect])
  }

  /** Every row's value in column `c` is a key of its map. */
  predicate ColumnRanked(rows: seq<Row>, c: Column) {
    forall j :: 0 <= j < |rows| ==> Field(rows[j], c) in RankMap(c)
  }

  /** `[d[v] for v in column]`: the rank of every row, or the KeyError of
      the first row whose value is not a key. */
  function RankColumn(rows: seq<Row>, c: Column): (r: Result<seq<nat>, RankError>)
    ensures r.Success? <==> ColumnRanked(rows, c)
    ensures r.Success? ==> |r.value| == |rows|
    ensures r.Success? ==> forall i :: 0 <= i < |rows| ==> r.value[i] == RankMap(c)[Field(rows[i], c)]
    ensures r.Failure? ==> exists k :: 0 <= k < |rows| && Field(rows[k], c) !in RankMap(c)
                                      && r.error == KeyError(c, Field(rows[k], c))
                                      && forall j :: 0 <= j < k ==> Field(rows[j], c) in RankMap(c)
  {
    if rows == [] then Success([])
    else
      var head :- Lookup(c, Field(rows[0], c));
      var rest := RankColumn(rows[1..], c);
      assert forall j :: 1 <= j < |rows| ==> rows[j] == rows[1..][j - 1];
      if rest.Failure? then Failure(rest.error)
      else Success([head] + rest.value)
  }

  function Attach(rows: seq<Row>, o: seq<nat>, i: seq<nat>, g: seq<nat>, e: seq<nat>): seq<RankedRow>
    requires |o| == |i| == |g| == |e| == |rows|
  {
    seq(|rows|, j requires 0 <= j < |rows| => RankedRow(rows[j], Ranks(o[j], i[j], g[j], e[j])))
  }

  /** Lines 46-49 with the map of line 44: the four helper columns in order.
      Success iff every row is fully ranked; then row i keeps every field of
      input row i and gains its ranks. A failure is the KeyError of the first
      unmapped value of the first column that has one. */
  function RankRows(rows: seq<Row>): (r: Result<seq<RankedRow>, RankError>)
    ensures r.Success? <==> forall i :: 0 <= i < |rows| ==> FullyRanked(rows[i])
    ensures r.Success? ==> |r.value| == |rows|
    ensures r.Success? ==> forall i :: 0 <= i < |rows| ==>
                             FullyRanked(rows[i]) && r.value[i] == RankedRow(rows[i], RanksOf(rows[i]))
    ensures r.Failure? ==>
              && r.error.KeyError?
              && r.error.key !in RankMap(r.error.column)
              && (exists k :: 0 <= k < |rows| && Field(rows[k], r.error.column) == r.error.key)
              && (ColumnIndex(r.error.column) > 0 ==> ColumnRanked(rows, OncoKbLevel))
              && (ColumnIndex(r.error.column) > 1 ==> ColumnRanked(rows, VepImpact))
              && (ColumnIndex(r.error.column) > 2 ==> ColumnRanked(rows, VepOncogenic))
  {
    var o := RankColumn(rows, OncoKbLevel);
    if o.Failure? then Failure(o.error)
    else
      var i := RankColumn(rows, VepImpact);
      if i.Failure? then Failure(i.error)
      else
        var g := RankColumn(rows, VepOncogenic);
        if g.Failure? then Failure(g.error)
        else
          var e := RankColumn(rows, VepMutationEffect);
          if e.Failure? then Failure(e.error)
          else
            AttachRanks(rows, o.value, i.value, g.value, e.value);
            Success(Attach(rows, o.value, i.value, g.value, e.value))
  }

  lemma FullyRankedByColumns(row: Row)
    requires row.oncoKbLevel in RankMap(OncoKbLevel)
    requires row.vepImpact in RankMap(VepImpact)
    requires row.vepOncogenic in RankMap(VepOncogenic)
    requires row.vepMutationEffect in RankMap(VepMutationEffect)
    ensures FullyRanked(row)
  {
    forall c ensures Field(row, c) in RankMap(c) {
      match c
      case OncoKbLevel => case VepImpact => case VepOncogenic => case VepMutationEffect =>
    }
  }

  lemma AttachRanks(rows: seq<Row>, o: seq<nat>, i: seq<nat>, g: seq<nat>, e: seq<nat>)
    requires |o| == |i| == |g| == |e| == |rows|
    requires forall j :: 0 <= j < |rows| ==> Field(rows[j], OncoKbLevel) in RankMap(OncoKbLevel) && o[j] == RankMap(OncoKbLevel)[Field(rows[j], OncoKbLevel)]
    requires forall j :: 0 <= j < |rows| ==> Field(rows[j], VepImpact) in RankMap(VepImpact) && i[j] == RankMap(VepImpact)[Field(rows[j], VepImpact)]
    requires forall j :: 0 <= j < |rows| ==> Field(rows[j], VepOncogenic) in RankMap(VepOncogenic) && g[j] == RankMap(VepOncogenic)[Field(rows[j], VepOncogenic)]
    requires forall j :: 0 <= j < |rows| ==> Field(rows[j], VepMutationEffect) in RankMap(VepMutationEffect) && e[j] == RankMap(VepMutationEffect)[Field(rows[j], VepMutationEffect)]
    ensures forall j :: 0 <= j < |rows| ==>
              FullyRanked(rows[j]) && Attach(rows, o, i, g, e)[j] == RankedRow(rows[j], RanksOf(rows[j]))
  {
    forall j | 0 <= j < |rows|
      ensures FullyRanked(rows[j]) && Attach(rows, o, i, g, e)[j] == RankedRow(rows[j], RanksOf(rows[j]))
    {
      FullyRankedByColumns(rows[j]);
    }
  }

  /** Lines 46-49 as written: line 49 names `vep_mutation_effect_dict`, which
      is never defined, so the pass raises NameError as soon as it evaluates
      its element expression once, i.e. whenever a row reaches it. */
  function RankRowsAsWritten(rows: seq<Row>): (r: Result<seq<RankedRow>, RankError>)
    ensures |rows| > 0 ==> r.Failure?
    ensures r.Success? ==> r.value == []
  {
    var o :- RankColumn(rows, OncoKbLevel);
    var i :- RankColumn(rows, VepImpact);
    var g :- RankColumn(rows, VepOncogenic);
    if rows == [] then Success([]) else Failure(NameError("vep_mutation_effect_dict"))
  }

  /** As written, every table that the intended lookups rank in full, except
      the empty one, aborts with NameError instead; the two agree on every
      other outcome. */
  lemma AsWrittenRaisesNameError(rows: seq<Row>)
    ensures RankRows(rows).Success? && |rows| > 0 ==>
              RankRowsAsWritten(rows) == Failure(NameError("vep_mutation_effect_dict"))
    ensures rows == [] ==> RankRowsAsWritten(rows) == RankRows(rows)
    ensures RankRows(rows).Failure? && RankRows(rows).error.column != VepMutationEffect ==>
              RankRowsAsWritten(rows) == RankRows(rows)
  {
  }

  /** A one-row SNP table, every annotation known: the intended lookups rank
      it, the code as written raises NameError. */
  lemma AsWrittenCounterexample()
    ensures var row := Row("7", "140453136", "140453136", "A", "T", 400, 40, 100, "BRAF", "SNP",
                           "missense_variant", "c.1799T>A", "p.V600E", "NM_004333", "rs113488022",
                           "Pathogenic", "Pathogenic", "HIGH", "Gain-of-function",
                           "Oncogenic", "LEVEL_1");
            && RankRows([row]) == Success([RankedRow(row, Ranks(1, 1, 1, 1))])
            && RankRowsAsWritten([row]) == Failure(NameError("vep_mutation_effect_dict"))
  {
    var row := Row("7", "140453136", "140453136", "A", "T", 400, 40, 100, "BRAF", "SNP",
                   "missense_variant", "c.1799T>A", "p.V600E", "NM_004333", "rs113488022",
                   "Pathogenic", "Pathogenic", "HIGH", "Gain-of-function",
                   "Oncogenic", "LEVEL_1");
    CategoryRank(Level1);
    CategoryRank(High);
    CategoryRank(Oncogenic);
    CategoryRank(GainOfFunction);
    assert FullyRanked(row) by {
      forall c ensures Field(row, c) in RankMap(c) {
        match c
        case OncoKbLevel => case VepImpact => case VepOncogenic => case VepMutationEffect =>
      }
    }
    assert RanksOf(row) == Ranks(1, 1, 1, 1);
    var r := RankRows([row]);
    assert r.Success? && |r.value| == 1 && r.value[0] == RankedRow(row, Ranks(1, 1, 1, 1));
    assert r.value == [RankedRow(row, Ranks(1, 1, 1, 1))];
    assert RankRowsAsWritten([row]) == Failure(NameError("vep_mutation_effect_dict"));
  }
}
