/**
 * The few pieces of Ruby's String behaviour that the puzzle scripts lean on:
 * character classes of their regular expressions, String#split(" "),
 * String#to_i and String#count.
 */
module RubyText {
  import opened Wrappers

  /** Blank characters for String#split(" ") and String#to_i: space, \t, \n, \v, \f, \r. */
  predicate IsSpace(c: char) { c == ' ' || '\t' <= c <= '\r' }

  predicate IsNonSpace(c: char) { !IsSpace(c) }

  /** Regexp \d */
  predicate IsDigit(c: char) { '0' <= c <= '9' }

  /** Regexp [a-z] */
  predicate IsLower(c: char) { 'a' <= c <= 'z' }

  /** Regexp \w, which is ASCII-only in Ruby: [a-zA-Z0-9_] */
  predicate IsWordChar(c: char) { IsDigit(c) || IsLower(c) || 'A' <= c <= 'Z' || c == '_' }

  predicate All(s: string, p: char -> bool) { forall i :: 0 <= i < |s| ==> p(s[i]) }

  /** Length of the longest prefix of `s` whose characters all satisfy `p`. */
  function Span(s: string, p: char -> bool): (n: nat)
    ensures n <= |s|
    ensures forall i :: 0 <= i < n ==> p(s[i])
    ensures n < |s| ==> !p(s[n])
  {
    if s == [] || !p(s[0]) then 0 else 1 + Span(s[1..], p)
  }

  lemma {:induction false} SpanAll(s: string, t: string, p: char -> bool)
    requires All(s, p)
    requires t == [] || !p(t[0])
    ensures Span(s + t, p) == |s|
  {
    if s != [] {
      assert (s + t)[1..] == s[1..] + t;
      SpanAll(s[1..], t, p);
    }
  }

  // ---------------------------------------------------------------------------
  // String#split(" "): awk-style splitting on runs of blanks, leading blanks ignored

  function Fields(s: string): (r: seq<string>)
    ensures forall k :: 0 <= k < |r| ==> r[k] != [] && All(r[k], IsNonSpace)
    decreases |s|
  {
    if s == [] then []
    else if IsSpace(s[0]) then Fields(s[1..])
    else
      var n := Span(s, IsNonSpace);
      [s[..n]] + Fields(s[n..])
  }

  /** Words joined by single spaces, the shape of a well-formed input line. */
  function JoinWords(words: seq<string>): string
  {
    if words == [] then [] else if |words| == 1 then words[0] else words[0] + " " + JoinWords(words[1..])
  }

  /** Splitting undoes joining for blank-free non-empty words. */
  lemma {:induction false} FieldsOfJoinWords(words: seq<string>)
    requires forall k :: 0 <= k < |words| ==> words[k] != [] && All(words[k], IsNonSpace)
    ensures Fields(JoinWords(words)) == words
  {
    if |words| == 1 {
      var w := words[0];
      SpanAll(w, [], IsNonSpace);
      assert w + [] == w;
      assert w[|w|..] == [];
    } else if |words| > 1 {
      var w, rest := words[0], JoinWords(words[1..]);
      var s := w + " " + rest;
      assert s == w + (" " + rest);
      SpanAll(w, " " + rest, IsNonSpace);
      assert s[..|w|] == w;
      assert s[|w|..] == " " + rest;
      assert (" " + rest)[1..] == rest;
      FieldsOfJoinWords(words[1..]);
    }
  }

  // ---------------------------------------------------------------------------
  // String#to_i (base 10): leading blanks, an optional sign, an optional radix
  // prefix 0d or 0D, then digits where a single underscore may separate two
  // digits; anything else ends the number.

  function DigitValue(c: char): nat
    requires IsDigit(c)
  {
    c as int - '0' as int
  }

  /** Value of a string of decimal digits. */
  function DecimalValue(ds: string): nat
    requires All(ds, IsDigit)
  {
    if ds == [] then 0 else 10 * DecimalValue(ds[..|ds| - 1]) + DigitValue(ds[|ds| - 1])
  }

  /** The digits of the numeric prefix that String#to_i reads, underscores dropped. */
  function NumeralDigits(s: string): (ds: string)
    ensures All(ds, IsDigit)
    ensures |ds| <= |s|
  {
    if s == [] || !IsDigit(s[0]) then []
    else if |s| >= 3 && s[1] == '_' && IsDigit(s[2]) then [s[0]] + NumeralDigits(s[2..])
    else [s[0]] + NumeralDigits(s[1..])
  }

  function ToI(s: string): int
  {
    var blanks := Span(s, IsSpace);
    var signed := blanks < |s| && (s[blanks] == '-' || s[blanks] == '+');
    var afterSign := if signed then blanks + 1 else blanks;
    var prefixed := afterSign + 1 < |s| && s[afterSign] == '0' && (s[afterSign + 1] == 'd' || s[afterSign + 1] == 'D');
    var magnitude: int := DecimalValue(NumeralDigits(s[if prefixed then afterSign + 2 else afterSign..]));
    if blanks < |s| && s[blanks] == '-' then -magnitude else magnitude
  }

  /** Canonical decimal digits of a natural number. */
  function NatDigits(n: nat): (ds: string)
    ensures ds != [] && All(ds, IsDigit)
  {
    if n < 10 then ['0' + n as char] else NatDigits(n / 10) + ['0' + (n % 10) as char]
  }

  /** A signed argument as the puzzle input writes it: "+4", "-99". */
  function SignedText(n: int): (s: string)
    ensures |s| >= 2 && All(s, IsNonSpace)
  {
    if n < 0 then "-" + NatDigits(-n) else "+" + NatDigits(n)
  }

  /** The signed arguments of the example programs, spelled out. */
  lemma SignedTexts()
    ensures SignedText(0) == "+0" && SignedText(1) == "+1" && SignedText(3) == "+3"
    ensures SignedText(4) == "+4" && SignedText(6) == "+6"
    ensures SignedText(-3) == "-3" && SignedText(-4) == "-4" && SignedText(-99) == "-99"
  {
    assert NatDigits(9) == "9";
    assert NatDigits(99) == NatDigits(9) + "9";
  }

  lemma {:induction false} NumeralDigitsOfDigits(ds: string)
    requires All(ds, IsDigit)
    ensures NumeralDigits(ds) == ds
  {
    if ds != [] {
      NumeralDigitsOfDigits(ds[1..]);
    }
  }

  lemma {:induction false} DecimalValueOfNatDigits(n: nat)
    ensures DecimalValue(NatDigits(n)) == n
  {
    if n >= 10 {
      var ds := NatDigits(n);
      assert ds[..|ds| - 1] == NatDigits(n / 10);
      DecimalValueOfNatDigits(n / 10);
    }
  }

  /** String#to_i reads back every digit string. */
  lemma ToIOfDigits(ds: string)
    requires ds != [] && All(ds, IsDigit)
    ensures ToI(ds) == DecimalValue(ds)
  {
    assert Span(ds, IsSpace) == 0;
    assert ds[0..] == ds;
    NumeralDigitsOfDigits(ds);
  }

  /** String#to_i skips the radix prefix after the sign: "0d12" reads as 12 and "-0D12" as -12. */
  lemma ToIOfPrefixedDigits(sign: string, prefix: string, ds: string)
    requires sign == "" || sign == "+" || sign == "-"
    requires prefix == "0d" || prefix == "0D"
    requires ds != [] && All(ds, IsDigit)
    ensures sign == "-" ==> ToI(sign + prefix + ds) == -(DecimalValue(ds) as int)
    ensures sign != "-" ==> ToI(sign + prefix + ds) == DecimalValue(ds)
  {
    var s := sign + prefix + ds;
    var k := |sign|;
    assert !IsSpace(s[0]);
    assert Span(s, IsSpace) == 0;
    assert k + 1 < |s| && s[k] == '0' && s[k + 1] == prefix[1];
    assert k == 1 <==> s[0] == '-' || s[0] == '+';
    assert s[k + 2..] == ds;
    NumeralDigitsOfDigits(ds);
  }

  /** String#to_i reads back the signed text of every integer. */
  lemma ToIOfSignedText(n: int)
    ensures ToI(SignedText(n)) == n
  {
    var s := SignedText(n);
    var m: nat := if n < 0 then -n else n;
    assert s == (if n < 0 then "-" else "+") + NatDigits(m);
    assert Span(s, IsSpace) == 0;
    assert s[1..] == NatDigits(m);
    if |s| > 2 {
      assert s[2] == NatDigits(m)[1];
    }
    assert |s| > 2 ==> IsDigit(s[2]);
    NumeralDigitsOfDigits(NatDigits(m));
    DecimalValueOfNatDigits(m);
  }

  // ---------------------------------------------------------------------------
  // String#count with a plain character list (no ranges, no ^ negation)

  function Count(s: string, chars: string): (n: nat)
    ensures n <= |s|
  {
    if s == [] then 0 else (if s[0] in chars then 1 else 0) + Count(s[1..], chars)
  }

  lemma {:induction false} CountAppend(s: string, t: string, chars: string)
    ensures Count(s + t, chars) == Count(s, chars) + Count(t, chars)
  {
    if s == [] {
      assert s + t == t;
    } else {
      assert (s + t)[1..] == s[1..] + t;
      CountAppend(s[1..], t, chars);
    }
  }

  /**
   * Array#[] and String#[] with an integer index: from the start for 0 and
   * up, from the end for a negative index down to -length, nil past either end.
   */
  function At<T>(s: seq<T>, index: int): (r: Option<T>)
    ensures r.Some? <==> -|s| <= index < |s|
  {
    if 0 <= index < |s| then Some(s[index])
    else if -|s| <= index < 0 then Some(s[|s| + index])
    else None
  }
}
