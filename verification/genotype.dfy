/** The VCF field extractor of `comb_anno`: allele depth (AD), total depth
    (DP) and variant allele fraction (VAF) derived from each row's packed
    per-sample genotype string, e.g. `GT:AD:AF:DP:...` as a caller writes it. */
module Genotype {
  import opened Wrappers
  import opened Text

  /** The three columns appended to the VCF table, for one row. The VAF is
      held as an integer number of thousandths (0.25 is 250). */
  datatype VcfFields = VcfFields(vaf: int, ad: int, dp: int)

  /** AD: the second `,`-part of the second `:`-segment, read by `int()`.
      A sample without a `:` or without a `,` has no such part. */
  function ParseAltDepth(samp: string): (r: Result<int, ParseError>)
    ensures ':' !in samp || ',' !in samp ==> r == Failure(IndexOutOfRange)
  {
    var segs := Split(samp, ':');
    SplitCounts(samp, ':');
    if |segs| < 2 then Failure(IndexOutOfRange)
    else
      var counts := Split(segs[1], ',');
      SplitCounts(segs[1], ',');
      if |counts| < 2 then Failure(IndexOutOfRange)
      else ParseInt(counts[1])
  }

  /** DP: the fourth `:`-segment, read by `int()`. It is missing exactly
      when the sample has fewer than three `:`. */
  function ParseDepth(samp: string): (r: Result<int, ParseError>)
    ensures r == Failure(IndexOutOfRange) <==> multiset(samp)[':'] < 3
  {
    var segs := Split(samp, ':');
    SplitCounts(samp, ':');
    if |segs| < 4 then Failure(IndexOutOfRange) else ParseInt(segs[3])
  }

  /** The shape a caller writes: genotype, then the `ref,alt` depth pair, a
      third segment the extractor skips, the total depth, then any further
      segments. */
  function FormatSample(gt: string, refDepth: int, altDepth: int, skipped: string,
                        depth: int, tail: seq<string>): string
  {
    Join([gt, Join([IntToString(refDepth), IntToString(altDepth)], ','), skipped,
          IntToString(depth)] + tail, ':')
  }

  lemma IntToStringHasNo(n: int, c: char)
    requires !IsDigit(c) && c != '-'
    ensures c !in IntToString(n)
  {
    var s := IntToString(n);
    if n < 0 {
      assert forall i :: 1 <= i < |s| ==> s[i] == NatToString(-n)[i - 1];
    }
  }

  /** The `:`-segments of a formatted sample are exactly the fields it was
      formatted from. */
  lemma {:induction false} FormatSampleSegments(gt: string, refDepth: int, altDepth: int,
                                               skipped: string, depth: int, tail: seq<string>)
    requires ':' !in gt && ':' !in skipped
    requires forall i :: 0 <= i < |tail| ==> ':' !in tail[i]
    ensures Split(FormatSample(gt, refDepth, altDepth, skipped, depth, tail), ':') ==
            [gt, Join([IntToString(refDepth), IntToString(altDepth)], ','), skipped,
             IntToString(depth)] + tail
  {
    var counts := [IntToString(refDepth), IntToString(altDepth)];
    IntToStringHasNo(refDepth, ':');
    IntToStringHasNo(altDepth, ':');
    IntToStringHasNo(depth, ':');
    var adField := Join(counts, ',');
    JoinPair(counts[0], counts[1], ',');
    var segs := [gt, adField, skipped, IntToString(depth)] + tail;
    forall i | 0 <= i < |segs|
      ensures ':' !in segs[i]
    {
      if i >= 4 {
        assert segs[i] == tail[i - 4];
      }
    }
    SplitJoin(segs, ':');
  }

  /** Reading a formatted sample gives back exactly the alt depth and the
      depth it was written with. */
  lemma {:induction false} SampleRoundTrip(gt: string, refDepth: int, altDepth: int,
                                          skipped: string, depth: int, tail: seq<string>)
    requires ':' !in gt && ':' !in skipped
    requires forall i :: 0 <= i < |tail| ==> ':' !in tail[i]
    ensures ParseAltDepth(FormatSample(gt, refDepth, altDepth, skipped, depth, tail)) == Success(altDepth)
    ensures ParseDepth(FormatSample(gt, refDepth, altDepth, skipped, depth, tail)) == Success(depth)
  {
    FormatSampleSegments(gt, refDepth, altDepth, skipped, depth, tail);
    var counts := [IntToString(refDepth), IntToString(altDepth)];
    IntToStringHasNo(refDepth, ',');
    IntToStringHasNo(altDepth, ',');
    SplitJoin(counts, ',');
    ParseIntToString(altDepth);
    ParseIntToString(depth);
  }

  lemma SmallIntStrings()
    ensures IntToString(45) == "45" && IntToString(15) == "15" && IntToString(99) == "99"
  {
    assert NatToString(45) == "45";
    assert NatToString(15) == "15";
    assert NatToString(99) == "99";
  }

  lemma FormatExample()
    ensures FormatSample("0/1", 45, 15, "60", 99, []) == "0/1:45,15:60:99"
  {
    SmallIntStrings();
    JoinPair("45", "15", ',');
    assert "45" + [','] + "15" == "45,15";
    var segs := ["0/1", "45,15", "60", "99"];
    assert segs[1..] == ["45,15", "60", "99"] && segs[1..][1..] == ["60", "99"];
    JoinPair("60", "99", ':');
    assert Join(segs[1..], ':') == "45,15" + ":" + "60:99";
    assert Join(segs, ':') == "0/1" + ":" + "45,15:60:99";
    assert [IntToString(45), IntToString(15)] == ["45", "15"];
    assert ["0/1", Join(["45", "15"], ','), "60", IntToString(99)] + [] == segs;
  }

  /** A Mutect2-style sample `GT:AD:AF:DP:...`: the depth is the fourth
      segment (99 here), not the third (60). */
  lemma SampleExample()
    ensures ParseAltDepth("0/1:45,15:60:99") == Success(15)
    ensures ParseDepth("0/1:45,15:60:99") == Success(99)
  {
    FormatExample();
    SampleRoundTrip("0/1", 45, 15, "60", 99, []);
  }

  /** The three malformations that abort extraction, and only they: fewer
      than four segments, fewer than two depth parts, or a selected part
      that is not an integer literal. */
  lemma {:induction false} SampleParsesIff(samp: string)
    ensures (ParseAltDepth(samp).Success? && ParseDepth(samp).Success?) <==>
      var segs := Split(samp, ':');
      && |segs| >= 4
      && |Split(segs[1], ',')| >= 2
      && IsIntLiteral(Strip(Split(segs[1], ',')[1]))
      && IsIntLiteral(Strip(segs[3]))
  {
  }

  /** One derived column: every row parsed in order, the first failure
      raised. */
  function ParseColumn(parse: string -> Result<int, ParseError>, samps: seq<string>)
    : (r: Result<seq<int>, ParseError>)
    ensures r.Success? <==> forall i :: 0 <= i < |samps| ==> parse(samps[i]).Success?
    ensures r.Success? ==> |r.value| == |samps|
    ensures r.Success? ==> forall i :: 0 <= i < |samps| ==> r.value[i] == parse(samps[i]).value
    ensures r.Failure? ==> exists k :: 0 <= k < |samps| && parse(samps[k]) == Failure(r.error)
                                      && forall j :: 0 <= j < k ==> parse(samps[j]).Success?
  {
    if samps == [] then Success([])
    else
      var head :- parse(samps[0]);
      var rest := ParseColumn(parse, samps[1..]);
      if rest.Failure? then
        assert forall j :: 1 <= j < |samps| ==> samps[j] == samps[1..][j - 1];
        Failure(rest.error)
      else Success([head] + rest.value)
  }

  /** The VAF in thousandths: the nearest thousandth to `ad / dp`. A zero
      depth is excluded: the source divides by it unguarded. */
  function VafMilli(ad: int, dp: int): (v: int)
    requires dp != 0
    ensures -Abs(dp) <= 2000 * ad - 2 * v * dp <= Abs(dp)
    ensures 0 <= ad <= dp ==> 0 <= v <= 1000
    decreases if dp < 0 then 1 else 0
  {
    if dp < 0 then
      var v := VafMilli(-ad, -dp);
      assert v * -dp == -(v * dp);
      v
    else
      var n := 2000 * ad + dp;
      var q := n / (2 * dp);
      assert n == 2 * dp * q + n % (2 * dp) && 0 <= n % (2 * dp) < 2 * dp;
      NearestIsBounded(ad, dp, q);
      q
  }

  function Abs(x: int): int {
    if x < 0 then -x else x
  }

  /** A product with a positive factor has the sign of the other factor. */
  lemma {:induction false} ProductSign(x: int, d: int)
    requires d > 0
    ensures x < 0 ==> x * d < 0
    ensures x > 0 ==> x * d > 0
    decreases d
  {
    if d > 1 {
      ProductSign(x, d - 1);
      assert x * d == x * (d - 1) + x;
    }
  }

  lemma NearestIsBounded(ad: int, dp: int, v: int)
    requires dp > 0
    requires -dp <= 2000 * ad - 2 * v * dp <= dp
    ensures 0 <= ad <= dp ==> 0 <= v <= 1000
  {
    ProductSign(2 * v + 1, dp);
    ProductSign(2 * v - 2001, dp);
    assert (2 * v + 1) * dp == 2 * v * dp + dp;
    assert (2 * v - 2001) * dp == 2 * v * dp - 2001 * dp;
  }

  /** Lines 15 and 16 read a value from every sample. */
  predicate AllSamplesParse(samps: seq<string>) {
    forall i :: 0 <= i < |samps| ==> ParseAltDepth(samps[i]).Success? && ParseDepth(samps[i]).Success?
  }

  /** Every depth `int()` can read from the samples is non-zero. */
  predicate NonZeroDepths(samps: seq<string>) {
    forall i :: 0 <= i < |samps| && ParseDepth(samps[i]).Success? ==> ParseDepth(samps[i]).value != 0
  }

  /** Lines 15-20: the AD column over all rows, then the DP column, then the
      VAF of each row; row i of the result comes from sample i. A zero depth
      matters only when line 17 is reached, i.e. when every sample parses. */
  function ExtractVcfFields(samps: seq<string>): (r: Result<seq<VcfFields>, ParseError>)
    requires AllSamplesParse(samps) ==> NonZeroDepths(samps)
    ensures r.Success? <==> AllSamplesParse(samps)
    ensures r.Success? ==> |r.value| == |samps|
    ensures r.Success? ==> forall i :: 0 <= i < |samps| ==>
                             && r.value[i].ad == ParseAltDepth(samps[i]).value
                             && r.value[i].dp == ParseDepth(samps[i]).value
                             && r.value[i].dp != 0
                             && -Abs(r.value[i].dp) <= 2000 * r.value[i].ad - 2 * r.value[i].vaf * r.value[i].dp <= Abs(r.value[i].dp)
    ensures (exists i :: 0 <= i < |samps| && ParseAltDepth(samps[i]).Failure?) ==>
              r.Failure? && exists k :: 0 <= k < |samps| && ParseAltDepth(samps[k]) == Failure(r.error)
    ensures r.Failure? && (forall i :: 0 <= i < |samps| ==> ParseAltDepth(samps[i]).Success?) ==>
              exists k :: 0 <= k < |samps| && ParseDepth(samps[k]) == Failure(r.error)
  {
    var ads := ParseColumn(ParseAltDepth, samps);
    if ads.Failure? then Failure(ads.error)
    else
      var dps := ParseColumn(ParseDepth, samps);
      if dps.Failure? then Failure(dps.error)
      else
        assert AllSamplesParse(samps);
        var fields := seq(|samps|, i requires 0 <= i < |samps| =>
                            VcfFields(VafMilli(ads.value[i], dps.value[i]), ads.value[i], dps.value[i]));
        Success(fields)
  }

  /** A table where line 15 raises on a later row is in the domain even
      though an earlier row has depth 0: extraction fails before any
      division. */
  lemma ExtractBeforeZeroDepth()
    ensures !AllSamplesParse(["0/1:1,2:3:0", "x"])
    ensures ExtractVcfFields(["0/1:1,2:3:0", "x"]).Failure?
  {
    var samps := ["0/1:1,2:3:0", "x"];
    assert ':' !in samps[1];
    assert ParseAltDepth(samps[1]).Failure?;
  }
}
