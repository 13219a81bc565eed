/** The merged report table after column reduction (21 named fields per
    row) and the SNP filter over it. */
module Report {

  /** One row of the report, fields in output column order. The VAF is an
      ordered key: thousandths of the read fraction. */
  datatype Row = Row(
    chr: string,
    start: string,
    end: string,
    ref: string,
    alt: string,
    vaf: int,
    ad: int,
    dp: int,
    gene: string,
    variantType: string,
    consequence: string,
    hgvsc: string,
    hgvsp: string,
    refSeq: string,
    dbSnpRs: string,
    clinVarSig: string,
    interVarAutomated: string,
    vepImpact: string,
    vepMutationEffect: string,
    vepOncogenic: string,
    oncoKbLevel: string)

  predicate IsSnp(row: Row) {
    row.variantType == "SNP"
  }

  /** `a` is `b` with some elements removed, the rest in their order. */
  predicate IsSubsequence<T(==)>(a: seq<T>, b: seq<T>)
    decreases |b|
  {
    if a == [] then true
    else if b == [] then false
    else (a[0] == b[0] && IsSubsequence(a[1..], b[1..])) || IsSubsequence(a, b[1..])
  }

  /** `tmdf[tmdf.Variant_Type == 'SNP']`: the SNP rows, in table order. */
  function FilterSnp(rows: seq<Row>): (r: seq<Row>)
    ensures forall i :: 0 <= i < |r| ==> IsSnp(r[i])
    ensures forall i :: 0 <= i < |rows| && IsSnp(rows[i]) ==> rows[i] in r
    ensures IsSubsequence(r, rows)
  {
    if rows == [] then []
    else
      var rest := FilterSnp(rows[1..]);
      assert forall i :: 1 <= i < |rows| ==> rows[i] == rows[1..][i - 1];
      if IsSnp(rows[0]) then
        var r := [rows[0]] + rest;
        assert r[1..] == rest;
        r
      else
        rest
  }

  /** Each row occurs in the filtered table exactly as often as in the input
      when it is a SNP, and not at all otherwise. */
  lemma {:induction false} FilterSnpCounts(rows: seq<Row>, x: Row)
    ensures multiset(FilterSnp(rows))[x] == if IsSnp(x) then multiset(rows)[x] else 0
  {
    if rows != [] {
      FilterSnpCounts(rows[1..], x);
      assert rows == [rows[0]] + rows[1..];
    }
  }

  /** A deletion never survives the filter. */
  lemma FilterDropsDeletions(rows: seq<Row>, x: Row)
    requires x.variantType == "DEL"
    ensures x !in FilterSnp(rows)
  {
  }
}
