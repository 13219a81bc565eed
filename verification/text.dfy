/** The two Python string primitives the genotype parser rests on:
    `str.split(sep)` with an explicit one-character separator, and `int(s)`
    on a base-10 literal. */
module Text {
  import opened Wrappers

  /** The exceptions the parser can raise: an index past the end of a split
      (IndexError) or a text `int()` rejects (ValueError). */
  datatype ParseError = IndexOutOfRange | InvalidLiteral(text: string)

  // ---------------------------------------------------------------------
  // str.split(sep)

  /** Concatenates pieces with `sep` between neighbours: `sep.join(parts)`. */
  function Join(parts: seq<string>, sep: char): string
    requires |parts| >= 1
  {
    if |parts| == 1 then parts[0] else parts[0] + [sep] + Join(parts[1..], sep)
  }

  lemma JoinPair(a: string, b: string, sep: char)
    ensures Join([a, b], sep) == a + [sep] + b
  {
    assert [a, b][1..] == [b];
  }

  /** `s.split(sep)`: the maximal `sep`-free pieces of `s`, empty pieces
      included, so there is always at least one piece and joining them back
      gives `s`. */
  function Split(s: string, sep: char): (parts: seq<string>)
    ensures |parts| >= 1
    ensures forall i :: 0 <= i < |parts| ==> sep !in parts[i]
    ensures Join(parts, sep) == s
  {
    if s == [] then [[]]
    else
      var rest := Split(s[1..], sep);
      if s[0] == sep then [[]] + rest
      else
        var parts := [[s[0]] + rest[0]] + rest[1..];
        assert parts[1..] == rest[1..];
        parts
  }

  /** A join holds one separator between each pair of neighbouring pieces,
      and every character of every piece. */
  lemma {:induction false} JoinCounts(parts: seq<string>, sep: char)
    requires |parts| >= 1
    requires forall i :: 0 <= i < |parts| ==> sep !in parts[i]
    ensures multiset(Join(parts, sep))[sep] == |parts| - 1
    ensures forall i, c :: 0 <= i < |parts| && c in parts[i] ==> c in Join(parts, sep)
    decreases |parts|
  {
    if |parts| > 1 {
      JoinCounts(parts[1..], sep);
      var rest := Join(parts[1..], sep);
      assert Join(parts, sep) == parts[0] + [sep] + rest;
      assert multiset(Join(parts, sep)) == multiset(parts[0]) + multiset{sep} + multiset(rest);
      forall i, c | 0 <= i < |parts| && c in parts[i]
        ensures c in Join(parts, sep)
      {
        if i > 0 {
          assert parts[1..][i - 1] == parts[i];
          assert c in rest;
          assert c in multiset(Join(parts, sep));
        } else {
          assert c in multiset(parts[0]);
        }
      }
    }
  }

  /** The number of pieces is one more than the number of separators, and
      every piece's characters occur in the input. */
  lemma SplitCounts(s: string, sep: char)
    ensures |Split(s, sep)| == multiset(s)[sep] + 1
    ensures forall i, c :: 0 <= i < |Split(s, sep)| && c in Split(s, sep)[i] ==> c in s
  {
    JoinCounts(Split(s, sep), sep);
  }

  lemma {:induction false} SplitOfSepFree(w: string, sep: char)
    requires sep !in w
    ensures Split(w, sep) == [w]
    decreases |w|
  {
    if w != [] {
      SplitOfSepFree(w[1..], sep);
    }
  }

  lemma {:induction false} SplitCons(w: string, s: string, sep: char)
    requires sep !in w
    ensures Split(w + [sep] + s, sep) == [w] + Split(s, sep)
    decreases |w|
  {
    var t := w + [sep] + s;
    if w == [] {
      assert t[0] == sep && t[1..] == s;
    } else {
      assert t[0] == w[0] && t[1..] == w[1..] + [sep] + s;
      SplitCons(w[1..], s, sep);
      assert [w[0]] + w[1..] == w;
    }
  }

  /** Splitting a join of separator-free pieces gives the pieces back. */
  lemma {:induction false} SplitJoin(parts: seq<string>, sep: char)
    requires |parts| >= 1
    requires forall i :: 0 <= i < |parts| ==> sep !in parts[i]
    ensures Split(Join(parts, sep), sep) == parts
    decreases |parts|
  {
    if |parts| == 1 {
      SplitOfSepFree(parts[0], sep);
    } else {
      SplitJoin(parts[1..], sep);
      SplitCons(parts[0], Join(parts[1..], sep), sep);
      assert [parts[0]] + parts[1..] == parts;
    }
  }

  // ---------------------------------------------------------------------
  // int(s), base 10

  /** The characters `int()` strips from both ends of its argument: ASCII
      space and tab through carriage return, and every non-ASCII character
      `str.isspace()` accepts. The ASCII separators U+001C to U+001F count as
      `isspace()` but are not stripped. */
  predicate IsSpace(c: char) {
    || c == ' '
    || '\t' <= c <= '\r'
    || c == '\U{85}' || c == '\U{a0}' || c == '\U{1680}'
    || '\U{2000}' <= c <= '\U{200a}'
    || c == '\U{2028}' || c == '\U{2029}' || c == '\U{202f}'
    || c == '\U{205f}' || c == '\U{3000}'
  }

  predicate IsDigit(c: char) {
    '0' <= c <= '9'
  }

  function DigitValue(c: char): (d: nat)
    requires IsDigit(c)
    ensures d < 10
  {
    c as int - '0' as int
  }

  function DigitChar(d: nat): (c: char)
    requires d < 10
    ensures IsDigit(c) && DigitValue(c) == d
  {
    ('0' as int + d) as char
  }

  /** Number of whitespace characters at the front of `s`. */
  function LeadingSpaces(s: string): (n: nat)
    ensures n <= |s|
    ensures forall i :: 0 <= i < n ==> IsSpace(s[i])
    ensures n == |s| || !IsSpace(s[n])
  {
    if s == [] || !IsSpace(s[0]) then 0 else 1 + LeadingSpaces(s[1..])
  }

  /** Index where the run of whitespace at the back of `s` begins. */
  function TrailingStart(s: string): (m: nat)
    ensures m <= |s|
    ensures forall i :: m <= i < |s| ==> IsSpace(s[i])
    ensures m == 0 || !IsSpace(s[m - 1])
  {
    if s == [] || !IsSpace(s[|s| - 1]) then |s| else TrailingStart(s[..|s| - 1])
  }

  /** `s.strip()`: `s` without its leading and trailing whitespace. */
  function Strip(s: string): string {
    var t := s[LeadingSpaces(s)..];
    t[..TrailingStart(t)]
  }

  /** A digit string as `int()` reads it: digits, with single underscores
      allowed only between two digits. */
  predicate IsDecimal(b: string) {
    && |b| >= 1
    && IsDigit(b[0])
    && IsDigit(b[|b| - 1])
    && (forall i :: 0 <= i < |b| ==> IsDigit(b[i]) || b[i] == '_')
    && (forall i :: 0 <= i < |b| - 1 ==> b[i] == '_' ==> b[i + 1] != '_')
  }

  /** The value of the digits of `b`, underscores ignored. */
  function DecimalValue(b: string): nat {
    if b == [] then 0
    else
      var c := b[|b| - 1];
      if IsDigit(c) then 10 * DecimalValue(b[..|b| - 1]) + DigitValue(c)
      else DecimalValue(b[..|b| - 1])
  }

  predicate HasSign(t: string) {
    |t| > 0 && (t[0] == '+' || t[0] == '-')
  }

  /** An optionally signed decimal literal, surrounding whitespace removed. */
  predicate IsIntLiteral(t: string) {
    IsDecimal(if HasSign(t) then t[1..] else t)
  }

  /** `int(s)`: the value of the base-10 literal `s`, or ValueError. */
  function ParseInt(s: string): (r: Result<int, ParseError>)
    ensures r.Failure? ==> r.error == InvalidLiteral(s)
    ensures Strip(s) == [] ==> r.Failure?
    ensures r.Success? && HasSign(Strip(s)) && Strip(s)[0] == '-' ==> r.value <= 0
    ensures r.Success? && !(HasSign(Strip(s)) && Strip(s)[0] == '-') ==> r.value >= 0
  {
    var t := Strip(s);
    if !IsIntLiteral(t) then Failure(InvalidLiteral(s))
    else if HasSign(t) then
      var v: int := DecimalValue(t[1..]);
      Success(if t[0] == '-' then -v else v)
    else Success(DecimalValue(t))
  }

  /** `str(n)` for a non-negative integer: its decimal digits, no leading zero. */
  function NatToString(n: nat): (s: string)
    ensures |s| >= 1
    ensures forall i :: 0 <= i < |s| ==> IsDigit(s[i])
    ensures |s| > 1 ==> s[0] != '0'
  {
    if n < 10 then [DigitChar(n)]
    else NatToString(n / 10) + [DigitChar(n % 10)]
  }

  /** `str(n)`: a minus sign for negative numbers, then the digits. */
  function IntToString(n: int): string {
    if n < 0 then "-" + NatToString(-n) else NatToString(n)
  }

  lemma {:induction false} DecimalValueOfNatToString(n: nat)
    ensures DecimalValue(NatToString(n)) == n
    decreases n
  {
    var s := NatToString(n);
    if n < 10 {
      assert s[..0] == [];
    } else {
      DecimalValueOfNatToString(n / 10);
      assert s[..|s| - 1] == NatToString(n / 10);
    }
  }

  lemma StripUnchanged(s: string)
    requires |s| >= 1 && !IsSpace(s[0]) && !IsSpace(s[|s| - 1])
    ensures Strip(s) == s
  {
    assert LeadingSpaces(s) == 0;
    assert s[0..] == s;
    assert TrailingStart(s) == |s|;
  }

  /** `int(str(n)) == n`: what the genotype encoder writes, `int()` reads back. */
  lemma ParseIntToString(n: int)
    ensures ParseInt(IntToString(n)) == Success(n)
  {
    var s := IntToString(n);
    var digits := NatToString(if n < 0 then -n else n);
    StripUnchanged(s);
    DecimalValueOfNatToString(if n < 0 then -n else n);
    if n < 0 {
      assert s[1..] == digits;
    } else {
      assert s == digits;
    }
  }

  lemma DecimalValueExample()
    ensures IsDecimal("1_024") && DecimalValue("1_024") == 1024
  {
    var b := "1_024";
    assert b[..4] == "1_02" && b[..3] == "1_0" && b[..2] == "1_" && b[..1] == "1";
    assert b[..4][..3] == b[..3] && b[..3][..2] == b[..2] && b[..2][..1] == b[..1];
    assert DecimalValue(b[..1]) == 1;
    assert DecimalValue(b[..2]) == 1;
    assert DecimalValue(b[..3]) == 10;
    assert DecimalValue(b[..4]) == 102;
  }

  lemma StripExample()
    ensures Strip(" -1_024\n") == "-1_024"
  {
    var s := " -1_024\n";
    assert LeadingSpaces(s) == 1;
    var t := s[1..];
    assert t == "-1_024\n";
    assert TrailingStart(t) == 6;
  }

  /** `int()` tolerates surrounding whitespace, a sign and digit-group
      underscores, but not a doubled underscore or a decimal point. */
  lemma ParseIntExample()
    ensures ParseInt(" -1_024\n") == Success(-1024)
    ensures ParseInt("1__0").Failure?
    ensures ParseInt("4.5") == Failure(InvalidLiteral("4.5"))
  {
    StripExample();
    DecimalValueExample();
    assert "-1_024"[1..] == "1_024";
    assert !IsDecimal("1__0") by {
      assert "1__0"[1] == '_' && "1__0"[2] == '_';
    }
    StripUnchanged("1__0");
    StripUnchanged("4.5");
    assert !IsDecimal("4.5") by {
      assert "4.5"[1] == '.';
    }
  }
}
