// Decimal numerals as the C library writes and reads them (lib/sh/itos.c,
// lib/sh/strtol.c), shared by brace sequences and arithmetic.

module Numerals {

  predicate IsDigit(c: char) { '0' <= c <= '9' }

  function DigitChar(d: int): (c: char)
    requires 0 <= d < 10
    ensures IsDigit(c) && c as int - '0' as int == d
  {
    ('0' as int + d) as char
  }

  predicate AllDigits(s: string) { forall k :: 0 <= k < |s| ==> IsDigit(s[k]) }

  // The value of a string of decimal digits, most significant first.
  function DigitsValue(s: string): nat
    requires AllDigits(s)
  {
    if s == [] then 0
    else 10 * DigitsValue(s[..|s| - 1]) + (s[|s| - 1] as int - '0' as int)
  }

  function Dec(n: nat): (s: string)
    ensures AllDigits(s) && s != []
    ensures n > 0 ==> s[0] != '0'
    ensures n == 0 ==> s == "0"
  {
    if n < 10 then [DigitChar(n)] else Dec(n / 10) + [DigitChar(n % 10)]
  }

  // itos.
  function Itos(n: int): (s: string)
    ensures s != []
  {
    if n < 0 then "-" + Dec(-n) else Dec(n)
  }

  lemma {:induction false} DecValue(n: nat)
    ensures DigitsValue(Dec(n)) == n
  {
    if n < 10 {
      assert Dec(n)[..0] == [];
    } else {
      var s := Dec(n);
      assert s[..|s| - 1] == Dec(n / 10);
      DecValue(n / 10);
    }
  }

  function DigitsEnd(s: string, i: nat): (j: nat)
    requires i <= |s|
    ensures i <= j <= |s|
    ensures AllDigits(s[i..j])
    ensures j < |s| ==> !IsDigit(s[j])
    decreases |s| - i
  {
    if i < |s| && IsDigit(s[i]) then
      var j := DigitsEnd(s, i + 1);
      assert s[i..j] == [s[i]] + s[i + 1..j];
      j
    else i
  }

  const IntMaxMin: int := -0x8000_0000_0000_0000
  const IntMaxMax: int := 0x7fff_ffff_ffff_ffff

  datatype Conversion = Conversion(value: int, end: nat, overflow: bool)

  predicate IsSpace(c: char) {
    c == ' ' || c == '\t' || c == '\n' || c == '\r' || c == 11 as char || c == 12 as char
  }

  function SkipSpaces(s: string, i: nat): (j: nat)
    requires i <= |s|
    ensures i <= j <= |s|
    ensures j < |s| ==> !IsSpace(s[j])
    decreases |s| - i
  {
    if i < |s| && IsSpace(s[i]) then SkipSpaces(s, i + 1) else i
  }

  // strtoimax in base 10.  Without digits nothing is converted and the end
  // is the start of the string; out of range it saturates.
  function StrToIMax(s: string): (r: Conversion)
    ensures r.end <= |s|
    ensures IntMaxMin <= r.value <= IntMaxMax
  {
    var b := SkipSpaces(s, 0);
    var signed := b < |s| && (s[b] == '-' || s[b] == '+');
    var d := if signed then b + 1 else b;
    var e := DigitsEnd(s, d);
    if e == d then Conversion(0, 0, false)
    else
      var m: int := DigitsValue(s[d..e]);
      var v: int := if signed && s[b] == '-' then -m else m;
      if v < IntMaxMin then Conversion(IntMaxMin, e, true)
      else if v > IntMaxMax then Conversion(IntMaxMax, e, true)
      else Conversion(v, e, false)
  }

  lemma {:induction false} DigitsEndStops(s: string, i: nat, j: nat)
    requires i <= j <= |s| && AllDigits(s[i..j]) && (j < |s| ==> !IsDigit(s[j]))
    ensures DigitsEnd(s, i) == j
    decreases j - i
  {
    if i < j {
      assert s[i] == s[i..j][0];
      assert s[i + 1..j] == s[i..j][1..];
      DigitsEndStops(s, i + 1, j);
    }
  }

  // Reading back a printed integer gives the integer and stops right after it.
  lemma StrToIMaxItos(n: int, rest: string)
    requires IntMaxMin <= n <= IntMaxMax
    requires rest == [] || !IsDigit(rest[0])
    ensures StrToIMax(Itos(n) + rest) == Conversion(n, |Itos(n)|, false)
  {
    var s := Itos(n) + rest;
    var m := if n < 0 then -n else n;
    var d := if n < 0 then 1 else 0;
    assert s[d..|Itos(n)|] == Dec(m);
    assert !IsSpace(s[0]);
    DigitsEndStops(s, d, |Itos(n)|);
    DecValue(m);
  }

  // ------------------------------------------------ numerals by their spelling

  const DigitChars := "0123456789"
  const SpaceChars: string := [' ', '\t', '\n', '\r', 11 as char, 12 as char]

  const LowerLetters := "abcdefghijklmnopqrstuvwxyz"
  const UpperLetters := "ABCDEFGHIJKLMNOPQRSTUVWXYZ"

  // Consecutive characters.
  predicate RunFrom(s: string, first: char) {
    forall k :: 0 <= k < |s| ==> s[k] as int == first as int + k
  }

  lemma LetterRuns()
    ensures |LowerLetters| == |UpperLetters| == 26 && RunFrom(LowerLetters, 'a') && RunFrom(UpperLetters, 'A')
  {
    forall k | 0 <= k < 26
      ensures LowerLetters[k] as int == 'a' as int + k && UpperLetters[k] as int == 'A' as int + k
    {
      LowerAt(k);
      UpperAt(k);
    }
  }

  lemma LowerAt(k: nat)
    requires k < 26
    ensures LowerLetters[k] as int == 'a' as int + k
  {
  }

  lemma UpperAt(k: nat)
    requires k < 26
    ensures UpperLetters[k] as int == 'A' as int + k
  {
  }

  lemma RunMembers(c: char, s: string, first: char)
    requires RunFrom(s, first)
    ensures c in s <==> first as int <= c as int < first as int + |s|
  {
    var k := c as int - first as int;
    if 0 <= k < |s| { assert s[k] == c; }
  }

  lemma LetterRanges(c: char)
    ensures c in LowerLetters <==> 'a' <= c <= 'z'
    ensures c in UpperLetters <==> 'A' <= c <= 'Z'
  {
    LetterRuns();
    hide RunFrom;
    RunMembers(c, LowerLetters, 'a');
    RunMembers(c, UpperLetters, 'A');
  }

  predicate Only(s: string, chars: string) { forall k :: 0 <= k < |s| ==> s[k] in chars }

  function Unsigned(s: string): string { if s != [] && (s[0] == '-' || s[0] == '+') then s[1..] else s }

  // Digits with a sign before them or none.
  predicate Numeral(s: string) { Unsigned(s) != [] && Only(Unsigned(s), DigitChars) }

  function Power10(k: nat): nat { if k == 0 then 1 else 10 * Power10(k - 1) }

  // The sum of the digits times their powers of ten.
  function PlaceSum(s: string): nat
    requires Only(s, DigitChars)
  {
    if s == [] then 0 else (s[0] as int - '0' as int) * Power10(|s| - 1) + PlaceSum(s[1..])
  }

  function NumeralValue(s: string): int
    requires Numeral(s)
  {
    var n: int := PlaceSum(Unsigned(s));
    if s[0] == '-' then -n else n
  }

  lemma {:induction false} DigitsArePlaces(s: string)
    requires AllDigits(s)
    ensures Only(s, DigitChars) && DigitsValue(s) == PlaceSum(s)
  {
    if s == [] {
    } else if |s| == 1 {
      assert s[..0] == [] && s[1..] == [];
    } else {
      var front := s[..|s| - 1];
      DigitsArePlaces(front);
      DigitsArePlaces(s[1..|s| - 1]);
      DigitsArePlaces(s[1..]);
      assert front[1..] == s[1..|s| - 1];
      assert s[1..][..|s| - 2] == s[1..|s| - 1];
      Distributes(s[0] as int - '0' as int, Power10(|s| - 2));
    }
  }

  lemma Distributes(d: int, p: int)
    ensures 10 * (d * p) == d * (10 * p)
  {
  }

  // Every printed number is the sum of its digits times their powers of ten,
  // without a zero before them.
  lemma DecIsPlaces(n: nat)
    ensures Only(Dec(n), DigitChars) && PlaceSum(Dec(n)) == n
    ensures n > 0 ==> Dec(n)[0] != '0'
  {
    DecValue(n);
    DigitsArePlaces(Dec(n));
  }

  function Clamped(v: int, end: nat): Conversion {
    Conversion(if v < IntMaxMin then IntMaxMin else if v > IntMaxMax then IntMaxMax else v,
               end, !(IntMaxMin <= v <= IntMaxMax))
  }

  // A numeral after spaces is converted, out of range to the nearest end.
  lemma ConvertNumeral(lead: string, num: string, rest: string)
    requires Only(lead, SpaceChars) && Numeral(num) && (rest == [] || rest[0] !in DigitChars)
    ensures StrToIMax(lead + num + rest) == Clamped(NumeralValue(num), |lead| + |num|)
  {
    hide StrToIMax, DigitsValue, PlaceSum, Only, AllDigits, Clamped;
    var digits := Unsigned(num);
    var sign := num[..|num| - |digits|];
    if rest != [] { DigitIsChar(rest[0]); }
    OnlyDigits(digits);
    DigitsArePlaces(digits);
    assert sign == [] || sign == [num[0]];
    assert sign in {"", "-", "+"};
    ConvertParts(lead, sign, digits, rest);
    assert lead + sign + digits == lead + num by { assert sign + digits == num; }
  }

  lemma ConvertParts(lead: string, sign: string, digits: string, rest: string)
    requires Only(lead, SpaceChars) && sign in {"", "-", "+"} && AllDigits(digits) && digits != []
    requires rest == [] || !IsDigit(rest[0])
    ensures StrToIMax(lead + sign + digits + rest) ==
      Clamped(if sign == "-" then 0 - DigitsValue(digits) else DigitsValue(digits), |lead + sign + digits|)
  {
    hide DigitsValue, SkipSpaces, DigitsEnd, Only, StrToIMax, AllDigits, Clamped;
    var s := lead + sign + digits + rest;
    assert s == lead + (sign + digits + rest);
    NumberStarts(sign, digits);
    assert (sign + digits + rest)[0] == (sign + digits)[0];
    SpacesSkipped(lead, sign + digits + rest);
    DigitsLocated(lead, sign, digits, rest);
    Conversions(s, |lead|, |lead + sign|, |lead + sign + digits|);
  }

  lemma NumberStarts(sign: string, digits: string)
    requires sign in {"", "-", "+"} && AllDigits(digits) && digits != []
    ensures (sign + digits)[0] !in SpaceChars
    ensures if sign == "" then (sign + digits)[0] !in {'-', '+'} else (sign + digits)[0] == sign[0] && |sign| == 1
  {
  }

  lemma DigitsLocated(lead: string, sign: string, digits: string, rest: string)
    requires sign in {"", "-", "+"} && AllDigits(digits) && digits != [] && (rest == [] || !IsDigit(rest[0]))
    ensures var s := lead + sign + digits + rest;
      && s[|lead|] == (sign + digits)[0]
      && s[|lead + sign|..|lead + sign + digits|] == digits
      && DigitsEnd(s, |lead + sign|) == |lead + sign + digits|
  {
    hide DigitsEnd, AllDigits;
    var s := lead + sign + digits + rest;
    DigitsEndStops(s, |lead + sign|, |lead + sign + digits|);
  }

  lemma Conversions(s: string, b: nat, d: nat, e: nat)
    requires b <= d < e <= |s| && SkipSpaces(s, 0) == b && DigitsEnd(s, d) == e && AllDigits(s[d..e])
    requires d == if s[b] == '-' || s[b] == '+' then b + 1 else b
    ensures StrToIMax(s) == Clamped(if s[b] == '-' then 0 - DigitsValue(s[d..e]) else DigitsValue(s[d..e]), e)
  {
    hide DigitsValue, SkipSpaces, DigitsEnd, AllDigits;
  }

  lemma OnlyDigits(s: string)
    ensures Only(s, DigitChars) <==> AllDigits(s)
  {
    forall k | 0 <= k < |s| ensures s[k] in DigitChars <==> IsDigit(s[k]) { DigitIsChar(s[k]); }
  }

  lemma DigitIsChar(c: char)
    ensures c in DigitChars <==> IsDigit(c)
  {
  }

  lemma {:induction false} SpacesSkipped(lead: string, rest: string)
    requires Only(lead, SpaceChars) && (rest == [] || rest[0] !in SpaceChars)
    ensures SkipSpaces(lead + rest, 0) == |lead|
  {
    SpacesSkippedFrom(lead, rest, 0);
  }

  lemma {:induction false} SpacesSkippedFrom(lead: string, rest: string, i: nat)
    requires Only(lead, SpaceChars) && (rest == [] || rest[0] !in SpaceChars) && i <= |lead|
    ensures SkipSpaces(lead + rest, i) == |lead|
    decreases |lead| - i
  {
    if i < |lead| { SpacesSkippedFrom(lead, rest, i + 1); }
  }

  lemma {:induction false} SkippedSpaces(s: string, i: nat)
    requires i <= |s|
    ensures Only(s[i..SkipSpaces(s, i)], SpaceChars)
    decreases |s| - i
  {
    if i < |s| && IsSpace(s[i]) {
      SkippedSpaces(s, i + 1);
      var j := SkipSpaces(s, i + 1);
      assert s[i..j] == [s[i]] + s[i + 1..j];
    }
  }

  // What is converted is a numeral after spaces; nothing else is.
  lemma ConvertedNumeral(s: string) returns (i: nat)
    requires StrToIMax(s).end > 0
    ensures i <= StrToIMax(s).end && Only(s[..i], SpaceChars) && Numeral(s[i..StrToIMax(s).end])
    ensures var e := StrToIMax(s).end; e == |s| || s[e] !in DigitChars
  {
    hide Only, AllDigits, DigitsValue;
    i := SkipSpaces(s, 0);
    SkippedSpaces(s, 0);
    assert s[0..i] == s[..i];
    var e := StrToIMax(s).end;
    var num := s[i..e];
    assert num[0] == s[i] && num[1..] == s[i + 1..e];
    OnlyDigits(Unsigned(num));
    if e < |s| { DigitIsChar(s[e]); }
  }
}
