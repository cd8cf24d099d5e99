/** Decimal text as std::to_string writes it and std::stoi / std::stoll read it. */
module Decimal {
  import opened Wrappers

  const INT32_MIN: int := -0x8000_0000
  const INT32_MAX: int := 0x7fff_ffff
  const INT64_MIN: int := -0x8000_0000_0000_0000
  const INT64_MAX: int := 0x7fff_ffff_ffff_ffff

  type Int32 = x: int | INT32_MIN <= x <= INT32_MAX

  predicate IsSpace(c: char) {
    c == ' ' || '\t' <= c <= '\r'
  }

  predicate IsDigit(c: char) {
    '0' <= c <= '9'
  }

  function DigitChar(d: nat): (c: char)
    requires d < 10
    ensures IsDigit(c) && DigitValue(c) == d
  {
    ('0' as int + d) as char
  }

  function DigitValue(c: char): int {
    c as int - '0' as int
  }

  function PrintNat(n: nat): (s: string)
    ensures s != [] && IsDigit(s[0])
  {
    if n < 10 then [DigitChar(n)] else PrintNat(n / 10) + [DigitChar(n % 10)]
  }

  /** std::to_string */
  function Print(n: int): (s: string)
    ensures s != []
  {
    if n < 0 then "-" + PrintNat(-n) else PrintNat(n)
  }

  function DigitPrefix(s: string): nat {
    if s == [] || !IsDigit(s[0]) then 0 else 1 + DigitPrefix(s[1..])
  }

  lemma DigitPrefixBounded(s: string)
    ensures DigitPrefix(s) <= |s|
  {
    if s != [] { DigitPrefixBounded(s[1..]); }
  }

  function Value(s: string): int {
    if s == [] then 0 else Value(s[..|s| - 1]) * 10 + DigitValue(s[|s| - 1])
  }

  function SkipSpaces(s: string): string {
    if s != [] && IsSpace(s[0]) then SkipSpaces(s[1..]) else s
  }

  /** Digits after the sign; text after the last digit is ignored, no digit at all throws. */
  function ParseDigits(s: string): Option<int> {
    var n := DigitPrefix(s);
    DigitPrefixBounded(s);
    if n == 0 then None else Some(Value(s[..n]))
  }

  /** std::stoi and std::stoll for a result type with bounds [lo, hi]; None stands for a thrown error. */
  function Parse(s: string, lo: int, hi: int): (r: Option<int>)
    ensures r.Some? ==> lo <= r.value <= hi
  {
    var t := SkipSpaces(s);
    var negative := t != [] && t[0] == '-';
    var digits := ParseDigits(if t != [] && (t[0] == '-' || t[0] == '+') then t[1..] else t);
    if digits.None? then None
    else
      var v := if negative then -digits.value else digits.value;
      if lo <= v <= hi then Some(v) else None
  }

  lemma {:induction false} PrintNatIsDecimal(n: nat)
    ensures forall i :: 0 <= i < |PrintNat(n)| ==> IsDigit(PrintNat(n)[i])
    ensures Value(PrintNat(n)) == n
  {
    if n < 10 {
    } else {
      PrintNatIsDecimal(n / 10);
      var s := PrintNat(n);
      assert s[..|s| - 1] == PrintNat(n / 10);
    }
  }

  lemma {:induction false} AllDigitsPrefix(s: string)
    requires forall i :: 0 <= i < |s| ==> IsDigit(s[i])
    ensures DigitPrefix(s) == |s|
  {
    if s == [] {
    } else {
      AllDigitsPrefix(s[1..]);
    }
  }

  lemma PrintHasNoSpaces(n: int)
    ensures forall i :: 0 <= i < |Print(n)| ==> !IsSpace(Print(n)[i])
  {
    if n < 0 { PrintNatIsDecimal(-n); } else { PrintNatIsDecimal(n); }
  }

  /** Printed integers read back exactly when they fit the target width; otherwise the conversion throws. */
  lemma PrintParse(n: int, lo: int, hi: int)
    ensures Parse(Print(n), lo, hi) == if lo <= n <= hi then Some(n) else None
  {
    var m: nat := if n < 0 then -n else n;
    PrintNatIsDecimal(m);
    AllDigitsPrefix(PrintNat(m));
    PrintHasNoSpaces(n);
    assert SkipSpaces(Print(n)) == Print(n);
    assert PrintNat(m)[..|PrintNat(m)|] == PrintNat(m);
    if n < 0 { assert Print(n)[1..] == PrintNat(m); }
  }
}
