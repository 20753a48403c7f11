/**
  Decimal strings of wei totals: `to_string` and `parse` of U256 and I256, as
  crates/common/src/pnl.rs uses them to keep its totals.
 */
module Decimal {
  import opened Wrappers
  import opened Words

  predicate IsDigit(c: char) { '0' <= c <= '9' }

  function DigitValue(c: char): (d: nat)
    requires IsDigit(c)
    ensures d < 10
  {
    c as int - '0' as int
  }

  function DigitChar(d: nat): (c: char)
    requires d < 10
    ensures IsDigit(c) && DigitValue(c) == d
  {
    d as char + '0'
  }

  // ------------------------------------------------------------------------
  // Unsigned
  // ------------------------------------------------------------------------

  function Print(n: nat): (s: string)
    ensures s != []
  {
    if n < 10 then [DigitChar(n)] else Print(n / 10) + [DigitChar(n % 10)]
  }

  /** Reads digits left to right onto `acc`; stops at a non-digit or once the value leaves 256 bits. */
  function ParseOnto(s: string, acc: u256): Option<u256> {
    if s == [] then Some(acc)
    else if !IsDigit(s[0]) || acc * 10 + DigitValue(s[0]) >= TWO_256 then None
    else ParseOnto(s[1..], acc * 10 + DigitValue(s[0]))
  }

  function Parse(s: string): Option<u256> { ParseOnto(s, 0) }

  /** The spelling `to_string` uses: no sign, no leading zero. */
  predicate Canonical(s: string) {
    s != [] && (forall i :: 0 <= i < |s| ==> IsDigit(s[i])) && (|s| > 1 ==> s[0] != '0')
  }

  lemma {:induction false} ParseSplits(s: string, t: string, acc: u256)
    requires ParseOnto(s, acc).Some?
    ensures ParseOnto(s + t, acc) == ParseOnto(t, ParseOnto(s, acc).value)
  {
    if s == [] {
      assert s + t == t;
    } else {
      assert (s + t)[0] == s[0] && (s + t)[1..] == s[1..] + t;
      ParseSplits(s[1..], t, acc * 10 + DigitValue(s[0]));
    }
  }

  /** Reading back a printed total gives the total. */
  lemma {:induction false} ParsePrint(n: nat)
    requires n < TWO_256
    ensures Parse(Print(n)) == Some(n)
  {
    if n >= 10 {
      ParsePrint(n / 10);
      ParseSplits(Print(n / 10), [DigitChar(n % 10)], 0);
      ParseOne(n % 10, n / 10);
    } else {
      ParseOne(n, 0);
    }
  }

  lemma ParseOne(d: nat, acc: u256)
    requires d < 10 && acc * 10 + d < TWO_256
    ensures ParseOnto([DigitChar(d)], acc) == Some(acc * 10 + d)
  {
    assert [DigitChar(d)][1..] == [];
  }

  lemma {:induction false} PrintIsCanonical(n: nat)
    ensures Canonical(Print(n)) && (Print(n)[0] == '0' <==> n == 0)
  {
    if n >= 10 {
      PrintIsCanonical(n / 10);
    }
  }

  /** Reading the last digit of a string: the rest, times ten, plus that digit. */
  lemma {:induction false} ParseLast(s: string, acc: u256)
    requires s != [] && ParseOnto(s, acc).Some?
    ensures var l := |s| - 1;
      && ParseOnto(s[..l], acc).Some? && IsDigit(s[l])
      && ParseOnto(s, acc).value == ParseOnto(s[..l], acc).value * 10 + DigitValue(s[l])
  {
    var l := |s| - 1;
    if l > 0 {
      ParseLast(s[1..], acc * 10 + DigitValue(s[0]));
      assert s[..l][1..] == s[1..][..l - 1];
    } else {
      assert s[1..] == [] && s[..l] == [];
    }
  }

  /** A string in canonical spelling is the one that printing its value produces. */
  lemma {:induction false} PrintParse(s: string)
    requires Canonical(s) && Parse(s).Some?
    ensures Print(Parse(s).value) == s
    ensures |s| > 1 ==> Parse(s).value >= 10
    decreases |s|
  {
    var l := |s| - 1;
    ParseLast(s, 0);
    assert s == s[..l] + [s[l]];
    if l > 0 {
      PrintParse(s[..l]);
      var rest := Parse(s[..l]).value;
      if l == 1 {
        assert s[..l] == [s[0]] && s[..l][1..] == [];
        assert DigitValue(s[0]) > 0;
      }
      assert rest >= 1 && (rest * 10 + DigitValue(s[l])) / 10 == rest;
    } else {
      assert s[..l] == [];
    }
  }

  // ------------------------------------------------------------------------
  // Signed
  // ------------------------------------------------------------------------

  function Magnitude(x: i256): nat { if x < 0 then 0 - x else x }

  function PrintSigned(x: i256): string {
    (if x < 0 then ['-'] else []) + Print(Magnitude(x))
  }

  /** An optional sign and a magnitude that must fit two's complement on 256 bits. */
  function ParseSigned(s: string): Option<i256> {
    var minus := s != [] && s[0] == '-';
    var digits := if minus || (s != [] && s[0] == '+') then s[1..] else s;
    match Parse(digits)
    case None => None
    case Some(n) =>
      var value: int := if minus then 0 - n else n;
      if -TWO_255 <= value < TWO_255 then Some(value) else None
  }

  lemma ParsePrintSigned(x: i256)
    ensures ParseSigned(PrintSigned(x)) == Some(x)
  {
    var n := Magnitude(x);
    ParsePrint(n);
    PrintIsCanonical(n);
    assert IsDigit(Print(n)[0]);
    assert if x < 0 then PrintSigned(x)[1..] == Print(n) else PrintSigned(x) == Print(n);
  }
}
