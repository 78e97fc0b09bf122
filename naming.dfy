/** The names the macro invents for the i-th sourced branch: the generic type
    parameter `T{i}` and the message variant `M{i}`, where `{i}` is the decimal
    rendering of the index. */
module Naming {
  import opened Syntax

  predicate IsDigit(c: char) {
    '0' <= c <= '9'
  }

  function DigitChar(d: nat): (c: char)
    requires d < 10
    ensures IsDigit(c) && c as int - '0' as int == d
  {
    ('0' as int + d) as char
  }

  function DigitValue(c: char): (d: nat)
    requires IsDigit(c)
    ensures d < 10 && DigitChar(d) == c
  {
    c as int - '0' as int
  }

  /** A decimal numeral as the formatter writes it: digits only, at least one,
      and no leading zero unless the number is zero itself. */
  predicate Canonical(s: string) {
    |s| >= 1 && (forall i :: 0 <= i < |s| ==> IsDigit(s[i])) && (|s| > 1 ==> s[0] != '0')
  }

  /** `format!("{i}")` on an unsigned index. */
  function Decimal(n: nat): (r: string)
    ensures Canonical(r)
    decreases n
  {
    if n < 10 then [DigitChar(n)]
    else Decimal(n / 10) + [DigitChar(n % 10)]
  }

  /** The number a string of digits denotes, most significant digit first. */
  function DecimalValue(s: string): nat
    requires forall i :: 0 <= i < |s| ==> IsDigit(s[i])
    decreases |s|
  {
    if s == [] then 0
    else DecimalValue(s[..|s| - 1]) * 10 + DigitValue(s[|s| - 1])
  }

  /** Reading back what the formatter wrote gives the index. */
  lemma {:induction false} DecimalRoundTrip(n: nat)
    ensures DecimalValue(Decimal(n)) == n
    decreases n
  {
    if n >= 10 {
      DecimalRoundTrip(n / 10);
      var s := Decimal(n);
      assert s[..|s| - 1] == Decimal(n / 10);
    }
  }

  /** A numeral with no leading zero is at least its first digit's worth. */
  lemma {:induction false} LeadingDigitBound(s: string)
    requires |s| >= 1 && forall i :: 0 <= i < |s| ==> IsDigit(s[i])
    ensures DecimalValue(s) >= DigitValue(s[0])
    decreases |s|
  {
    if |s| > 1 {
      LeadingDigitBound(s[..|s| - 1]);
    }
  }

  /** Every canonical numeral is what the formatter writes for its value, so
      `Decimal` and `DecimalValue` are inverse bijections between indices and
      canonical numerals. */
  lemma {:induction false} CanonicalRoundTrip(s: string)
    requires Canonical(s)
    ensures Decimal(DecimalValue(s)) == s
    decreases |s|
  {
    if |s| > 1 {
      var p := s[..|s| - 1];
      assert p[0] == s[0];
      CanonicalRoundTrip(p);
      LeadingDigitBound(p);
      var n := DecimalValue(s);
      assert n / 10 == DecimalValue(p) && n % 10 == DigitValue(s[|s| - 1]);
      assert s == p + [s[|s| - 1]];
    }
  }

  /** Different indices are written differently. */
  lemma DecimalInjective(m: nat, n: nat)
    ensures Decimal(m) == Decimal(n) <==> m == n
  {
    DecimalRoundTrip(m);
    DecimalRoundTrip(n);
  }

  /** `T{i}`: the generic parameter of the message enum carrying branch i's item. */
  function TypeParam(i: nat): string {
    "T" + Decimal(i)
  }

  /** `M{i}`: the message variant, and match arm, of branch i. */
  function VariantName(i: nat): string {
    "M" + Decimal(i)
  }

  /** Which branch a variant name belongs to, if it is one the macro generates. */
  function VariantIndex(name: string): (r: Option<nat>)
    ensures r.Some? ==> |name| >= 2
  {
    if |name| >= 2 && name[0] == 'M' && Canonical(name[1..]) then Some(DecimalValue(name[1..]))
    else None
  }

  /** `VariantIndex` inverts `VariantName`, in both directions: a generated
      name reads back as its index, and a name that reads back as an index is
      exactly the one generated for it. */
  lemma VariantIndexInverse(name: string, i: nat)
    ensures VariantIndex(name) == Some(i) <==> name == VariantName(i)
  {
    var v := VariantName(i);
    assert v[1..] == Decimal(i);
    DecimalRoundTrip(i);
    if VariantIndex(name) == Some(i) {
      CanonicalRoundTrip(name[1..]);
      assert name == [name[0]] + name[1..];
    }
  }

  /** The generated names are pairwise distinct, and no variant name is also a
      type parameter name. */
  lemma NamesDistinct(i: nat, j: nat)
    ensures VariantName(i) == VariantName(j) <==> i == j
    ensures TypeParam(i) == TypeParam(j) <==> i == j
    ensures VariantName(i) != TypeParam(j)
  {
    DecimalInjective(i, j);
    var vi, vj, ti, tj := VariantName(i), VariantName(j), TypeParam(i), TypeParam(j);
    assert vi[0] == 'M' && ti[0] == 'T' && tj[0] == 'T';
    assert vi[1..] == Decimal(i) && vj[1..] == Decimal(j);
    assert ti[1..] == Decimal(i) && tj[1..] == Decimal(j);
  }
}
