// intmax_t arithmetic and numerals (expr.c).

module Arithmetic {
  import opened Options
  import opened Numerals

  const Two63: int := 0x8000_0000_0000_0000
  const Two64: int := 0x1_0000_0000_0000_0000

  predicate IntMax(n: int) { -Two63 <= n < Two63 }

  // Two's complement wrap-around.
  function Wrap(n: int): (r: int)
    ensures IntMax(r)
    ensures IntMax(n) ==> r == n
    ensures exists q :: n == q * Two64 + r
  {
    var m := n % Two64;
    assert n == (n / Two64) * Two64 + m;
    if m < Two63 then m
    else
      assert n == (n / Two64 + 1) * Two64 + (m - Two64);
      m - Two64
  }

  // Wrapping early or late makes no difference.
  lemma WrapCongruent(a: int, b: int, k: int)
    requires a == b + k * Two64
    ensures Wrap(a) == Wrap(b)
  {
  }

  lemma WrapStep(x: int, b: int, d: int)
    ensures Wrap(Wrap(x) * b + d) == Wrap(x * b + d)
  {
    var q :| x == q * Two64 + Wrap(x);
    assert Wrap(x) * b + d == x * b + d + (-(q * b)) * Two64 by { Distribute(q, Wrap(x), b); }
    WrapCongruent(Wrap(x) * b + d, x * b + d, -(q * b));
  }

  lemma Distribute(q: int, r: int, b: int)
    ensures (q * Two64 + r) * b == (q * b) * Two64 + r * b
  {
  }

  // Bit by bit, the connective being written like its operator; after n bits
  // only signs are left.
  function Joined(op: char, x: bool, y: bool): bool {
    if op == '|' then x || y else if op == '^' then x != y else x && y
  }

  function Bitwise(op: char, a: int, b: int, n: nat): (r: int)
    ensures 0 - Pow2(n) <= r < Pow2(n)
    decreases n
  {
    if n == 0 then if Joined(op, a < 0, b < 0) then -1 else 0
    else 2 * Bitwise(op, a / 2, b / 2, n - 1) + if Joined(op, a % 2 == 1, b % 2 == 1) then 1 else 0
  }

  function Bits(op: char, a: int, b: int): (r: int)
    ensures IntMax(r)
  {
    WordSize();
    Bitwise(op, Wrap(a), Wrap(b), 63)
  }

  lemma WordSize()
    ensures Pow2(63) == Two63
  {
    SevenBits();
    hide Pow2;
    assert Pow2(14) == 16384 by { Doublings(7, 7); }
    assert Pow2(21) == 2097152 by { Doublings(7, 14); }
    assert Pow2(42) == 4398046511104 by { Doublings(21, 21); }
    Doublings(21, 42);
  }

  lemma SevenBits()
    ensures Pow2(7) == 128
  {
    assert Pow2(4) == 16;
  }

  lemma {:induction false} Doublings(m: nat, n: nat)
    ensures Pow2(m + n) == Pow2(m) * Pow2(n)
    decreases n
  {
    if n > 0 { Doublings(m, n - 1); }
  }

  // C division truncates toward zero.
  function Quotient(a: int, b: int): int
    requires b != 0
  {
    if a >= 0 then a / b else -((-a) / b)
  }

  function Remainder(a: int, b: int): int
    requires b != 0
  {
    a - b * Quotient(a, b)
  }

  function Pow2(n: nat): (p: nat)
    ensures p > 0
  {
    if n == 0 then 1 else 2 * Pow2(n - 1)
  }

  // The machine uses the low six bits of a shift count.
  function ShiftCount(n: int): (c: nat) { n % 64 }

  // The value a computation leaves in an intmax_t: val1 ** val2 multiplies
  // val2 times, wrapping at every step.
  function Power(a: int, n: nat): (r: int)
    ensures IntMax(r)
    decreases n
  {
    if n == 0 then 1 else Wrap(Power(a, n - 1) * a)
  }

  // The loop of exppower.
  method RaiseTo(a: int, n: int) returns (c: int)
    requires n >= 0
    ensures c == Power(a, n)
  {
    c := 1;
    var left := n;
    while left != 0
      invariant 0 <= left <= n
      invariant c == Power(a, n - left)
    {
      left := left - 1;
      c := Wrap(c * a);
    }
  }

  // -------------------------------------------------------------- numerals

  datatype NumberError = InvalidNumber | InvalidBase | ValueTooGreat

  predicate IsUpper(c: char) { 'A' <= c <= 'Z' }

  predicate IsLower(c: char) { 'a' <= c <= 'z' }

  predicate NumeralChar(c: char) {
    IsDigit(c) || IsLower(c) || IsUpper(c) || c == '_' || c == '@'
  }

  function DigitValue(c: char, base: int): (d: nat)
    requires NumeralChar(c)
    ensures d < 64
  {
    if IsDigit(c) then c as int - '0' as int
    else if IsLower(c) then c as int - 'a' as int + 10
    else if IsUpper(c) then c as int - 'A' as int + (if base <= 36 then 10 else 36)
    else if c == '@' then 62
    else 63
  }

  // The loop of strlong from position i.
  function StrLongFrom(s: string, i: nat, base: int, found: bool, val: int): Result<int, NumberError>
    requires i <= |s|
    decreases |s| - i
  {
    if i == |s| then Ok(val)
    else if s[i] == '#' then
      if found then Err(InvalidNumber)
      else if val < 2 || val > 64 then Err(InvalidBase)
      else StrLongFrom(s, i + 1, val, true, 0)
    else if NumeralChar(s[i]) then
      var d := DigitValue(s[i], base);
      if d >= base then Err(ValueTooGreat)
      else StrLongFrom(s, i + 1, base, found, Wrap(val * base + d))
    else Ok(val)
  }

  function StrLong(s: string): Result<int, NumberError> {
    if s != [] && s[0] == '0' then
      if |s| == 1 then Ok(0)
      else if s[1] == 'x' || s[1] == 'X' then StrLongFrom(s, 2, 16, true, 0)
      else StrLongFrom(s, 1, 8, true, 0)
    else StrLongFrom(s, 0, 10, false, 0)
  }

  method ReadStrLong(num: string) returns (r: Result<int, NumberError>)
    ensures r == StrLong(num)
  {
    var i, base, foundbase := 0, 10, false;
    if |num| > 0 && num[0] == '0' {
      i := 1;
      if |num| == 1 { return Ok(0); }
      if num[1] == 'x' || num[1] == 'X' {
        base := 16;
        i := 2;
      } else {
        base := 8;
      }
      foundbase := true;
    }
    var val := 0;
    while i < |num|
      invariant i <= |num|
      invariant StrLongFrom(num, i, base, foundbase, val) == StrLong(num)
      decreases |num| - i
    {
      var c := num[i];
      if c == '#' {
        if foundbase { return Err(InvalidNumber); }
        if val < 2 || val > 64 { return Err(InvalidBase); }
        base := val;
        val := 0;
        foundbase := true;
      } else if NumeralChar(c) {
        var d := DigitValue(c, base);
        if d >= base { return Err(ValueTooGreat); }
        val := Wrap(val * base + d);
      } else {
        break;
      }
      i := i + 1;
    }
    r := Ok(val);
  }

  // ------------------------------------------------- numerals read back

  // The documented alphabet; up to base 36 upper-case letters are the same
  // digits as lower-case ones.
  const BaseAlphabet := "0123456789" + LowerLetters + UpperLetters + "@_"

  predicate DigitIs(c: char, d: nat, base: nat) {
    (d < 64 && c == BaseAlphabet[d]) || (base <= 36 && 10 <= d < 36 && c == UpperLetters[d - 10])
  }

  // s spells the digits ds in a base.
  predicate DigitText(s: string, ds: seq<nat>, base: nat) {
    |s| == |ds| && forall k :: 0 <= k < |s| ==> ds[k] < base && DigitIs(s[k], ds[k], base)
  }

  function Followed(v: nat, d: nat, base: nat): (r: nat)
    ensures r == v * base + d
  {
    assert v * base >= 0;
    v * base + d
  }

  // The number that digits make behind those of v.
  function Positional(v: nat, ds: seq<nat>, base: nat): nat
    decreases |ds|
  {
    if ds == [] then v else Positional(Followed(v, ds[0], base), ds[1..], base)
  }

  lemma DigitIsRead(c: char, d: nat, base: nat)
    requires d < base <= 64 && DigitIs(c, d, base)
    ensures NumeralChar(c) && DigitValue(c, base) == d
  {
    if d < 64 && c == BaseAlphabet[d] {
      if d < 36 { LowDigit(d); } else { HighDigit(d); }
    } else {
      UpperDigit(d);
    }
  }

  lemma LowDigit(d: nat)
    requires d < 36
    ensures BaseAlphabet[d] as int == if d < 10 then '0' as int + d else 'a' as int + d - 10
  {
    if d >= 10 { LowerDigit(d); }
  }

  lemma LowerDigit(d: nat)
    requires 10 <= d < 36
    ensures LowerLetters[d - 10] as int == 'a' as int + d - 10 && BaseAlphabet[d] == LowerLetters[d - 10]
  {
    LetterRuns();
  }

  lemma HighDigit(d: nat)
    requires 36 <= d < 64
    ensures BaseAlphabet[d] as int == if d < 62 then 'A' as int + d - 36 else if d == 62 then '@' as int else '_' as int
  {
    if d < 62 {
      assert BaseAlphabet[d] == UpperLetters[d - 36];
      UpperDigit(d - 26);
    }
  }

  lemma UpperDigit(d: nat)
    requires 10 <= d < 36
    ensures UpperLetters[d - 10] as int == 'A' as int + d - 10
  {
    LetterRuns();
  }

  lemma StrLongStep(s: string, i: nat, base: int, found: bool, val: int)
    requires i < |s| && NumeralChar(s[i]) && DigitValue(s[i], base) < base
    ensures StrLongFrom(s, i, base, found, val)
         == StrLongFrom(s, i + 1, base, found, Wrap(val * base + DigitValue(s[i], base)))
  {
  }

  lemma DigitsSplit(t: string, ds: seq<nat>, base: nat)
    requires ds != [] && DigitText(t, ds, base)
    ensures t != [] && ds[0] < base && DigitIs(t[0], ds[0], base) && DigitText(t[1..], ds[1..], base)
  {
    hide DigitIs;
  }

  // Reading digits behind those of v.
  lemma {:induction false} ReadDigits(s: string, i: nat, ds: seq<nat>, base: nat, found: bool, v: nat)
    requires i + |ds| <= |s| && base <= 64 && DigitText(s[i..i + |ds|], ds, base)
    ensures StrLongFrom(s, i, base, found, Wrap(v)) ==
            StrLongFrom(s, i + |ds|, base, found, Wrap(Positional(v, ds, base)))
    decreases |ds|
  {
    hide StrLongFrom, DigitValue, DigitIs, NumeralChar, DigitText, Wrap, Followed;
    if ds != [] {
      var t := s[i..i + |ds|];
      assert s[i] == t[0] && s[i + 1..i + 1 + |ds[1..]|] == t[1..];
      DigitsSplit(t, ds, base);
      DigitIsRead(s[i], ds[0], base);
      StrLongStep(s, i, base, found, Wrap(v));
      WrapStep(v, base, ds[0]);
      ReadDigits(s, i + 1, ds[1..], base, found, Followed(v, ds[0], base));
    }
  }

  lemma EndStep(s: string, base: int, found: bool, val: int)
    ensures StrLongFrom(s, |s|, base, found, val) == Ok(val)
  {
  }

  lemma ReadWhole(s: string, i: nat, ds: seq<nat>, base: nat, found: bool)
    requires i <= |s| && base <= 64 && DigitText(s[i..], ds, base)
    ensures StrLongFrom(s, i, base, found, 0) == Ok(Wrap(Positional(0, ds, base)))
  {
    hide StrLongFrom;
    assert s[i..i + |ds|] == s[i..];
    ReadDigits(s, i, ds, base, found, 0);
    EndStep(s, base, found, Wrap(Positional(0, ds, base)));
  }

  lemma FirstDigit(t: string, ds: seq<nat>, base: nat)
    requires t != [] && DigitText(t, ds, base) && base <= 64
    ensures NumeralChar(t[0]) && DigitValue(t[0], base) == ds[0] && (t[0] == '0' <==> ds[0] == 0)
  {
    hide NumeralChar;
    DigitIsRead(t[0], ds[0], base);
    if t[0] == '0' { assert DigitValue('0', base) == 0; }
  }

  // Octal, hexadecimal and decimal numerals have the value of their digits,
  // modulo 2^64 ...
  lemma OctalIsRead(t: string, ds: seq<nat>)
    requires DigitText(t, ds, 8)
    ensures StrLong("0" + t) == Ok(Wrap(Positional(0, ds, 8)))
  {
    hide StrLongFrom, DigitIs, DigitValue;
    var s := "0" + t;
    assert s[1..] == t;
    if t != [] {
      FirstDigit(t, ds, 8);
      assert s[1] == t[0] && s[1] != 'x' && s[1] != 'X' by { DigitsBelow(t[0], ds[0]); }
      ReadWhole(s, 1, ds, 8, true);
    }
  }

  lemma DigitsBelow(c: char, d: nat)
    requires DigitIs(c, d, 8) && d < 8
    ensures c != 'x' && c != 'X'
  {
    LowDigit(d);
  }

  lemma HexadecimalIsRead(x: char, t: string, ds: seq<nat>)
    requires (x == 'x' || x == 'X') && DigitText(t, ds, 16)
    ensures StrLong(['0', x] + t) == Ok(Wrap(Positional(0, ds, 16)))
  {
    hide StrLongFrom, DigitIs;
    var s := ['0', x] + t;
    assert s[2..] == t;
    ReadWhole(s, 2, ds, 16, true);
  }

  lemma DecimalIsRead(t: string, ds: seq<nat>)
    requires t != [] && DigitText(t, ds, 10) && ds[0] != 0
    ensures StrLong(t) == Ok(Wrap(Positional(0, ds, 10)))
  {
    hide StrLongFrom, DigitIs, DigitValue, NumeralChar;
    assert t[0..] == t;
    FirstDigit(t, ds, 10);
    ReadWhole(t, 0, ds, 10, false);
  }

  // ... and so have those behind a base: the digits before the # are its
  // decimal numeral, of any length.
  lemma BaseIsRead(b: string, bs: seq<nat>, rest: string)
    requires b != [] && DigitText(b, bs, 10) && bs[0] != 0
    ensures var base := Wrap(Positional(0, bs, 10));
      StrLong(b + "#" + rest) ==
      if 2 <= base <= 64 then StrLongFrom(b + "#" + rest, |b| + 1, base, true, 0) else Err(InvalidBase)
  {
    hide StrLongFrom, DigitIs, DigitValue, NumeralChar;
    var s := b + "#" + rest;
    assert s[0..0 + |b|] == b && s[0] == b[0] && s[|b|] == '#';
    FirstDigit(b, bs, 10);
    ReadDigits(s, 0, bs, 10, false, 0);
    HashStep(s, |b|, Wrap(Positional(0, bs, 10)));
  }

  lemma HashStep(s: string, i: nat, val: int)
    requires i < |s| && s[i] == '#'
    ensures StrLongFrom(s, i, 10, false, val) ==
            if val < 2 || val > 64 then Err(InvalidBase) else StrLongFrom(s, i + 1, val, true, 0)
  {
  }

  lemma BaseNumeralIsRead(b: string, bs: seq<nat>, t: string, ds: seq<nat>)
    requires b != [] && DigitText(b, bs, 10) && bs[0] != 0 && 2 <= Positional(0, bs, 10) <= 64
    requires DigitText(t, ds, Positional(0, bs, 10))
    ensures StrLong(b + "#" + t) == Ok(Wrap(Positional(0, ds, Positional(0, bs, 10))))
  {
    hide StrLong, StrLongFrom, DigitIs, Positional;
    BaseIsRead(b, bs, t);
    var s := b + "#" + t;
    assert s[|b| + 1..] == t;
    ReadWhole(s, |b| + 1, ds, Positional(0, bs, 10), true);
  }

  // Only one # may stand in a numeral, and none behind a leading zero.
  lemma SecondHash(s: string, i: nat, ds: seq<nat>, base: nat)
    requires i + |ds| < |s| && base <= 64 && DigitText(s[i..i + |ds|], ds, base) && s[i + |ds|] == '#'
    ensures StrLongFrom(s, i, base, true, 0) == Err(InvalidNumber)
  {
    hide DigitIs;
    ReadDigits(s, i, ds, base, true, 0);
  }

  lemma HashAfterZero(t: string, ds: seq<nat>, rest: string)
    requires DigitText(t, ds, 8)
    ensures StrLong("0" + t + "#" + rest) == Err(InvalidNumber)
  {
    hide StrLongFrom, DigitIs;
    var s := "0" + t + "#" + rest;
    assert |ds| == |t| && s == "0" + (t + ("#" + rest));
    assert s[1..1 + |t|] == t && s[1 + |t|] == '#';
    assert s[1] != 'x' && s[1] != 'X' by { if t != [] { DigitsBelow(t[0], ds[0]); } }
    SecondHash(s, 1, ds, 8);
  }

  lemma HashTwice(b: string, bs: seq<nat>, t: string, ds: seq<nat>, rest: string)
    requires b != [] && DigitText(b, bs, 10) && bs[0] != 0 && 2 <= Positional(0, bs, 10) <= 64
    requires DigitText(t, ds, Positional(0, bs, 10))
    ensures StrLong(b + "#" + (t + "#" + rest)) == Err(InvalidNumber)
  {
    hide StrLong, StrLongFrom, DigitIs, Positional;
    BaseIsRead(b, bs, t + "#" + rest);
    var s := b + "#" + (t + "#" + rest);
    assert s[|b| + 1..|b| + 1 + |ds|] == t && s[|b| + 1 + |ds|] == '#';
    SecondHash(s, |b| + 1, ds, Positional(0, bs, 10));
  }

  // ------------------------------------------------------- printed numerals

  // The digits of n in a base.
  function DigitsOf(n: nat, base: nat): (ds: seq<nat>)
    requires base >= 2
    ensures ds != [] && (n > 0 ==> ds[0] != 0)
    ensures forall k :: 0 <= k < |ds| ==> ds[k] < base
    decreases n
  {
    if n < base then [n]
    else
      SmallerQuotient(n, base);
      DigitsOf(n / base, base) + [n % base]
  }

  lemma SmallerQuotient(n: nat, base: nat)
    requires 2 <= base <= n
    ensures 0 < n / base < n && n == (n / base) * base + n % base
  {
    Division(n, base);
    AtLeastDouble(n / base, base);
  }

  lemma Division(n: nat, base: nat)
    requires base > 0
    ensures n == (n / base) * base + n % base && 0 <= n % base < base
  {
  }

  lemma {:induction false} AtLeastDouble(q: nat, base: nat)
    requires base >= 2
    ensures q * base >= 2 * q
  {
    if q > 0 {
      AtLeastDouble(q - 1, base);
      assert q * base == (q - 1) * base + base;
    }
  }

  lemma {:induction false} PositionalLast(v: nat, ds: seq<nat>, d: nat, base: nat)
    ensures Positional(v, ds + [d], base) == Positional(v, ds, base) * base + d
    decreases |ds|
  {
    if ds == [] {
      assert (ds + [d])[1..] == [];
    } else {
      assert (ds + [d])[1..] == ds[1..] + [d];
      PositionalLast(Followed(v, ds[0], base), ds[1..], d, base);
    }
  }

  lemma {:induction false} DigitsValueIs(n: nat, base: nat)
    requires base >= 2
    ensures Positional(0, DigitsOf(n, base), base) == n
    decreases n
  {
    if n < base {
      assert [n][1..] == [];
    } else {
      SmallerQuotient(n, base);
      DigitsValueIs(n / base, base);
      PositionalLast(0, DigitsOf(n / base, base), n % base, base);
    }
  }

  function DigitChars64(ds: seq<nat>): string
    requires forall k :: 0 <= k < |ds| ==> ds[k] < 64
  {
    seq(|ds|, k requires 0 <= k < |ds| => BaseAlphabet[ds[k]])
  }

  function InBase(n: nat, base: nat): string
    requires 2 <= base <= 64
  {
    DigitChars64(DigitsOf(n, base))
  }

  lemma InBaseSpells(n: nat, base: nat)
    requires 2 <= base <= 64
    ensures DigitText(InBase(n, base), DigitsOf(n, base), base)
  {
  }

  lemma {:induction false} DecIsBaseTen(n: nat)
    ensures DigitText(Dec(n), DigitsOf(n, 10), 10)
  {
    LowDigit(n % 10);
    if n >= 10 {
      hide DigitIs;
      DecIsBaseTen(n / 10);
      LastDigit(n % 10);
    } else {
      LastDigit(n);
    }
  }

  lemma LastDigit(d: nat)
    requires d < 10
    ensures DigitIs(DigitChar(d), d, 10)
  {
    LowDigit(d);
  }

  // Every number printed as base#digits is read back, modulo 2^64.
  lemma NumeralRoundTrip(n: nat, base: nat)
    requires 2 <= base <= 64
    ensures StrLong(Dec(base) + "#" + InBase(n, base)) == Ok(Wrap(n))
  {
    hide StrLong, DigitText, InBase, Dec, DigitsOf;
    DecIsBaseTen(base);
    DigitsValueIs(base, 10);
    InBaseSpells(n, base);
    DigitsValueIs(n, base);
    BaseNumeralIsRead(Dec(base), DigitsOf(base, 10), InBase(n, base), DigitsOf(n, base));
  }

  // Plain decimal numerals, as itos prints them.
  lemma DecimalRoundTrip(n: nat)
    ensures StrLong(Dec(n)) == Ok(Wrap(n))
  {
    hide DigitText, DigitsOf, StrLongFrom;
    if n > 0 {
      DecIsBaseTen(n);
      DigitsValueIs(n, 10);
      DecimalIsRead(Dec(n), DigitsOf(n, 10));
    }
  }

  // A digit that is not below the base is always rejected, wherever it stands.
  lemma {:induction false} DigitTooGreat(s: string, i: nat, base: int, found: bool, val: int, k: nat)
    requires i <= k < |s| && (forall j :: i <= j <= k ==> NumeralChar(s[j]))
    requires DigitValue(s[k], base) >= base
    ensures StrLongFrom(s, i, base, found, val) == Err(ValueTooGreat)
    decreases k - i
  {
    hide DigitValue;
    if i < k && DigitValue(s[i], base) < base {
      DigitTooGreat(s, i + 1, base, found, Wrap(val * base + DigitValue(s[i], base)), k);
    }
  }

  // Characters of the alphabet up to the first that is no digit of the base.
  predicate BadAt(s: string, i: nat, k: nat, base: int) {
    && i <= k < |s| && (forall j :: i <= j <= k ==> s[j] in BaseAlphabet)
    && forall d: nat :: d < base ==> !DigitIs(s[k], d, base)
  }

  lemma NumeralChars(c: char)
    ensures NumeralChar(c) <==> c in BaseAlphabet
  {
    LetterRanges(c);
    assert c in "0123456789" <==> IsDigit(c);
    hide IsLower, IsUpper, IsDigit;
    InParts(c, "0123456789", LowerLetters, UpperLetters, "@_");
  }

  lemma InParts(c: char, p: string, q: string, r: string, t: string)
    ensures c in p + q + r + t <==> c in p || c in q || c in r || c in t
  {
  }

  lemma ValueIsDigit(c: char, base: nat)
    requires NumeralChar(c)
    ensures DigitIs(c, DigitValue(c, base), base)
  {
    var d := DigitValue(c, base);
    if IsUpper(c) && base <= 36 { UpperDigit(d); }
    else if d < 36 { LowDigit(d); }
    else { HighDigit(d); }
  }

  lemma BadIsTooGreat(s: string, i: nat, k: nat, base: nat)
    requires BadAt(s, i, k, base)
    ensures i <= k < |s| && (forall j :: i <= j <= k ==> NumeralChar(s[j])) && DigitValue(s[k], base) >= base
  {
    hide NumeralChar, DigitIs, DigitValue;
    forall j | i <= j <= k
      ensures NumeralChar(s[j])
    {
      NumeralChars(s[j]);
    }
    ValueIsDigit(s[k], base);
  }

  // The base that a numeral starts in, and where its digits begin.
  function StartingBase(s: string): (r: (nat, nat))
    ensures r.1 <= |s|
  {
    if s == [] || s[0] != '0' then (10, 0)
    else if |s| > 1 && (s[1] == 'x' || s[1] == 'X') then (16, 2)
    else (8, 1)
  }

  // In a whole numeral: decimal, octal or hexadecimal ...
  lemma BadDigitRejected(s: string, k: nat)
    requires var (base, i) := StartingBase(s); BadAt(s, i, k, base)
    ensures StrLong(s) == Err(ValueTooGreat)
  {
    hide StrLongFrom, BadAt, NumeralChar, DigitValue;
    var (base, i) := StartingBase(s);
    BadIsTooGreat(s, i, k, base);
    DigitTooGreat(s, i, base, i > 0, 0, k);
  }

  // ... and after base#.
  lemma BadDigitAfterBase(base: nat, digits: string, k: nat)
    requires 2 <= base <= 64 && BadAt(digits, 0, k, base)
    ensures StrLong(Dec(base) + "#" + digits) == Err(ValueTooGreat)
  {
    hide StrLong, StrLongFrom, Dec, DigitText, DigitsOf, BadAt, NumeralChar, DigitValue;
    BadIsTooGreat(digits, 0, k, base);
    var b := Dec(base);
    var s := b + "#" + digits;
    DecIsBaseTen(base);
    DigitsValueIs(base, 10);
    BaseIsRead(b, DigitsOf(base, 10), digits);
    assert forall j :: 0 <= j <= k ==> s[|b| + 1 + j] == digits[j];
    assert forall j :: |b| + 1 <= j <= |b| + 1 + k ==> s[j] == digits[j - |b| - 1];
    DigitTooGreat(s, |b| + 1, base, true, 0, |b| + 1 + k);
  }

  lemma {:induction false} StrLongFromInRange(s: string, i: nat, base: int, found: bool, val: int)
    requires i <= |s| && IntMax(val)
    ensures StrLongFrom(s, i, base, found, val).Ok? ==> IntMax(StrLongFrom(s, i, base, found, val).value)
    decreases |s| - i
  {
    hide DigitValue;
    if i < |s| {
      if s[i] == '#' {
        StrLongFromInRange(s, i + 1, val, true, 0);
      } else if NumeralChar(s[i]) {
        StrLongFromInRange(s, i + 1, base, found, Wrap(val * base + DigitValue(s[i], base)));
      }
    }
  }

  lemma StrLongInRange(s: string)
    ensures StrLong(s).Ok? ==> IntMax(StrLong(s).value)
  {
    hide StrLongFrom;
    StrLongFromInRange(s, 0, 10, false, 0);
    if |s| > 0 { StrLongFromInRange(s, 1, 8, true, 0); }
    if |s| > 1 { StrLongFromInRange(s, 2, 16, true, 0); }
  }
}
