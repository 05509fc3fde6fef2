/** String helpers the SQL text is built from: the decimal numeral of a
    natural number (what a template literal prints for it) together with its
    parser, `Array.prototype.join` together with a splitter that undoes it,
    and a last-occurrence search. */
module Text {
  import opened Wrappers

  predicate IsDigit(c: char) {
    '0' <= c <= '9'
  }

  function DigitValue(c: char): nat
    requires IsDigit(c)
  {
    c as int - '0' as int
  }

  function DigitChar(d: nat): (c: char)
    requires d < 10
    ensures IsDigit(c) && DigitValue(c) == d
  {
    ('0' as int + d) as char
  }

  /** The decimal numeral of `n` as `${n}` prints a non-negative integer:
      at least one digit, digits only, and a leading zero only for zero. */
  function Digits(n: nat): (s: string)
    ensures |s| >= 1
    ensures forall i :: 0 <= i < |s| ==> IsDigit(s[i])
    ensures s[0] == '0' <==> n == 0
  {
    if n < 10 then [DigitChar(n)] else Digits(n / 10) + [DigitChar(n % 10)]
  }

  /** Reads a non-empty run of decimal digits back into the number it denotes;
      anything else is rejected. */
  function ParseDigits(s: string): (r: Option<nat>)
    ensures r.Some? <==> |s| >= 1 && forall i :: 0 <= i < |s| ==> IsDigit(s[i])
  {
    if |s| == 0 || !IsDigit(s[|s| - 1]) then None
    else if |s| == 1 then Some(DigitValue(s[0]))
    else
      match ParseDigits(s[..|s| - 1])
      case None => None
      case Some(p) => Some(10 * p + DigitValue(s[|s| - 1]))
  }

  /** Parsing a printed number gives the number back. */
  lemma {:induction false} ParseDigitsInvertsDigits(n: nat)
    ensures ParseDigits(Digits(n)) == Some(n)
  {
    if n >= 10 {
      var s := Digits(n);
      assert s[..|s| - 1] == Digits(n / 10);
      ParseDigitsInvertsDigits(n / 10);
    }
  }

  /** Distinct numbers print differently, so placeholders `$i` and `$j` with
      `i != j` never coincide as text. */
  lemma DigitsInjective(a: nat, b: nat)
    ensures Digits(a) == Digits(b) <==> a == b
  {
    if Digits(a) == Digits(b) {
      ParseDigitsInvertsDigits(a);
      ParseDigitsInvertsDigits(b);
    }
  }

  /** `parts.join(sep)`: nothing for no parts, the parts with `sep` between
      neighbours otherwise. */
  function Join(parts: seq<string>, sep: string): string
  {
    if |parts| == 0 then ""
    else if |parts| == 1 then parts[0]
    else parts[0] + sep + Join(parts[1..], sep)
  }

  /** `s.split(", ")`: the pieces between the leftmost non-overlapping
      occurrences of ", ". */
  function SplitOnCommaSpace(s: string): (parts: seq<string>)
    ensures |parts| >= 1
  {
    if |s| >= 2 && s[0] == ',' && s[1] == ' ' then [""] + SplitOnCommaSpace(s[2..])
    else if |s| == 0 then [""]
    else
      var rest := SplitOnCommaSpace(s[1..]);
      [[s[0]] + rest[0]] + rest[1..]
  }

  lemma {:induction false} SplitWithoutComma(p: string)
    requires ',' !in p
    ensures SplitOnCommaSpace(p) == [p]
  {
    if |p| > 0 {
      SplitWithoutComma(p[1..]);
      assert [p[0]] + p[1..] == p;
    }
  }

  lemma {:induction false} SplitAtFirstSeparator(p: string, rest: string)
    requires ',' !in p
    ensures SplitOnCommaSpace(p + ", " + rest) == [p] + SplitOnCommaSpace(rest)
  {
    var s := p + ", " + rest;
    if |p| == 0 {
      assert s[2..] == rest;
    } else {
      assert s[1..] == p[1..] + ", " + rest;
      SplitAtFirstSeparator(p[1..], rest);
      assert [p[0]] + p[1..] == p;
    }
  }

  /** Splitting on ", " undoes joining with ", " whenever no part holds a comma. */
  lemma {:induction false} SplitInvertsJoin(parts: seq<string>)
    requires |parts| >= 1
    requires forall i :: 0 <= i < |parts| ==> ',' !in parts[i]
    ensures SplitOnCommaSpace(Join(parts, ", ")) == parts
  {
    if |parts| == 1 {
      SplitWithoutComma(parts[0]);
    } else {
      SplitInvertsJoin(parts[1..]);
      SplitAtFirstSeparator(parts[0], Join(parts[1..], ", "));
      assert [parts[0]] + parts[1..] == parts;
    }
  }

  /** The position of the last `c` in `s`, if any. */
  function LastIndexOf(s: string, c: char): (r: Option<nat>)
    ensures r.Some? ==> r.value < |s| && s[r.value] == c
    ensures r.Some? ==> forall j :: r.value < j < |s| ==> s[j] != c
    ensures r.None? ==> forall j :: 0 <= j < |s| ==> s[j] != c
  {
    if |s| == 0 then None
    else if s[|s| - 1] == c then Some(|s| - 1)
    else LastIndexOf(s[..|s| - 1], c)
  }

  /** A `c` followed by text without `c` is the last one. */
  lemma {:induction false} LastIndexOfBefore(a: string, c: char, b: string)
    requires c !in b
    ensures LastIndexOf(a + [c] + b, c) == Some(|a|)
  {
    var s := a + [c] + b;
    if |b| > 0 {
      assert s[|s| - 1] == b[|b| - 1];
      assert s[..|s| - 1] == a + [c] + b[..|b| - 1];
      LastIndexOfBefore(a, c, b[..|b| - 1]);
    }
  }
}
