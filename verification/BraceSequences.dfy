// Sequence expressions: how numbers and letters are spelled between braces,
// with an increment or padding, and what the reader makes of them.

module BraceSequences {
  import opened Options
  import opened Numerals
  import opened Braces
  import opened BraceWords

  predicate Int32(n: int) { -0x8000_0000 <= n < 0x8000_0000 }

  // ------------------------------------------------ numbers with zeros before

  function Padded(n: int, zeros: nat): string {
    (if n < 0 then "-" else "") + Zeros(zeros) + Dec(Abs(n))
  }

  lemma {:induction false} ZerosAreDigits(n: nat, zeros: nat)
    ensures AllDigits(Zeros(zeros) + Dec(n)) && DigitsValue(Zeros(zeros) + Dec(n)) == n
  {
    var s := Zeros(zeros) + Dec(n);
    if n < 10 {
      OnlyZeros(zeros);
      assert s[..|s| - 1] == Zeros(zeros);
    } else {
      ZerosAreDigits(n / 10, zeros);
      assert s[..|s| - 1] == Zeros(zeros) + Dec(n / 10);
    }
  }

  lemma {:induction false} OnlyZeros(zeros: nat)
    ensures DigitsValue(Zeros(zeros)) == 0
  {
    if zeros > 0 {
      OnlyZeros(zeros - 1);
      assert Zeros(zeros)[..zeros - 1] == Zeros(zeros - 1);
    }
  }

  // Such a number is a numeral of that value.
  lemma PaddedIsNumeral(n: int, zeros: nat)
    ensures Numeral(Padded(n, zeros)) && NumeralValue(Padded(n, zeros)) == n
    ensures Only(Padded(n, zeros), "-0123456789")
  {
    hide PlaceSum, DigitsValue, Dec;
    var p := Padded(n, zeros);
    var digits := Zeros(zeros) + Dec(Abs(n));
    ZerosAreDigits(Abs(n), zeros);
    DigitsArePlaces(digits);
    assert n < 0 ==> p == ['-'] + digits;
    assert Unsigned(p) == digits;
  }

  // Leading zeros are seen exactly where there are some.
  lemma PaddingSeen(n: int, zeros: nat)
    ensures ZeroLed(Padded(n, zeros)) <==> zeros > 0
  {
  }

  // As many zeros as the width asks for.
  function ZeroPadded(n: int, width: int): string {
    Padded(n, if |Padded(n, 0)| < width then width - |Padded(n, 0)| else 0)
  }

  // What "%0*d" makes of a number is the number with zeros before it.
  lemma PrintedPadded(n: int, width: int)
    ensures TermText(n, ZInt, width) == ZeroPadded(n, width)
  {
    assert Padded(n, 0) == (if n < 0 then "-" else "") + Dec(Abs(n));
  }

  // ------------------------------------------- the spellings of a sequence

  // Two numbers or two letters with two dots between them, and maybe two more
  // and a number as increment.  The first number may have blanks around it,
  // the increment spaces before it.
  datatype Spelling =
    | Numbered(lead: string, a: string, trail: string, b: string, step: Option<Stepping>)
    | Lettered(x: char, y: char, step: Option<Stepping>)

  datatype Stepping = Stepping(lead: string, num: string)

  predicate Letter(c: char) { c in LowerLetters || c in UpperLetters }

  // The numbers are of any size, except the first.
  predicate Spelled(p: Spelling) {
    && (p.step.Some? ==> Only(p.step.value.lead, SpaceChars) && Numeral(p.step.value.num))
    && match p
       case Numbered(lead, a, trail, b, _) =>
         && Only(lead, SpaceChars) && Only(trail, " \t") && Numeral(a) && Numeral(b)
         && IntMaxMin <= NumeralValue(a) <= IntMaxMax
       case Lettered(x, y, _) => Letter(x) && Letter(y)
  }

  function StepText(step: Option<Stepping>): string {
    if step.Some? then ".." + (step.value.lead + step.value.num) else ""
  }

  function SpellingText(p: Spelling): string {
    match p
    case Numbered(lead, a, trail, b, step) => lead + a + trail + ".." + (b + StepText(step))
    case Lettered(x, y, step) => [x] + ".." + ([y] + StepText(step))
  }

  // A number as an int: cut to 64 bits at the nearest end, then to its low 32.
  function IntOf(num: string): int
    requires Numeral(num)
  {
    ToInt32(Clamped(NumeralValue(num), 0).value)
  }

  function StepOf(step: Option<Stepping>): int
    requires step.Some? ==> Numeral(step.value.num)
  {
    if step.Some? then IntOf(step.value.num) else 1
  }

  predicate ZeroLed(s: string) { (|s| > 1 && s[0] == '0') || (|s| > 2 && s[0] == '-' && s[1] == '0') }

  function Longer(s: string, t: string): nat { if |s| < |t| then |t| else |s| }

  // Zeros before either number pad all terms to the longer of the two.
  function SpelledElements(p: Spelling): seq<string>
    requires Spelled(p)
  {
    match p
    case Numbered(lead, a, trail, b, step) =>
      var lhs := lead + a + trail;
      if ZeroLed(lhs) || ZeroLed(b) then Sequence(IntOf(a), IntOf(b), StepOf(step), ZInt, Longer(lhs, b))
      else Sequence(IntOf(a), IntOf(b), StepOf(step), Int, 0)
    case Lettered(x, y, step) => Sequence(x as int, y as int, StepOf(step), Chr, 1)
  }

  // The k-th term is k steps of the increment's size from start towards end;
  // there is one as long as that does not pass the end.
  lemma SequenceIs(start: int, end: int, incr: int, kind: Kind, width: int, k: nat)
    ensures var r := Sequence(start, end, incr, kind, width);
      var size := if incr == 0 then 1 else if incr < 0 then -incr else incr;
      var n := if start <= end then start + k * size else start - k * size;
      && (k < |r| <==> if start <= end then n <= end else n >= end)
      && (k < |r| && kind == Int ==> r[k] == Itos(n))
      && (k < |r| && kind == Chr && 0 <= n < 128 ==> r[k] == [n as char])
      && (k < |r| && kind == ZInt ==> r[k] == ZeroPadded(n, width))
  {
    hide Dec;
    var d := Stride(start, end, incr);
    var size := if incr == 0 then 1 else if incr < 0 then -incr else incr;
    TermsAreTheProgression(start, end, d, kind, width, k);
    NthClosed(start, d, k);
    assert d == size || d == -size;
    Opposite(k, size);
    if start == end && k > 0 { AtLeastOne(k, size); }
    var n := start + k * d;
    PrintedPadded(n, width);
  }

  lemma Opposite(k: nat, n: int)
    ensures k * -n == -(k * n)
  {
  }

  lemma AtLeastOne(k: nat, n: int)
    requires k > 0 && n > 0
    ensures k * n > 0
  {
  }

  // ----------------------------------------------------------- how it is read

  lemma {:induction false} DotsFound(s: string, t: string, i: nat)
    requires i <= |s|
    requires forall k :: 0 <= k < |s| ==> s[k] != '.'
    ensures FindDots(s + ".." + t, i) == |s|
    decreases |s| - i
  {
    var text := s + ".." + t;
    if i < |s| {
      assert text[i] == s[i];
      DotsFound(s, t, i + 1);
    }
  }

  lemma LetterIsChar(c: char)
    ensures Letter(c) <==> IsAlpha(c)
  {
    LetterRanges(c);
  }

  // The increment after an operand.
  lemma IncrementRead(operand: string, step: Option<Stepping>)
    requires step.Some? ==> Only(step.value.lead, SpaceChars) && Numeral(step.value.num)
    ensures var rhs := operand + StepText(step);
      Increment(rhs, |operand|) == (StepOf(step), |rhs|)
  {
    hide StrToIMax, Numeral, NumeralValue, Only;
    var rhs := operand + StepText(step);
    if step.Some? {
      var Stepping(lead, num) := step.value;
      assert rhs[|operand| + 2..] == lead + num == lead + num + [];
      ConvertNumeral(lead, num, []);
      NumeralNotEmpty(num);
    }
  }

  lemma NumeralNotEmpty(num: string)
    requires Numeral(num)
    ensures num != [] && StartsNumber(num)
  {
    DigitIsChar(Unsigned(num)[0]);
  }

  lemma StepStarts(step: Option<Stepping>)
    ensures StepText(step) == [] || (|StepText(step)| >= 2 && StepText(step)[..2] == "..")
  {
  }

  lemma StartsLonger(s: string, t: string)
    requires StartsNumber(s)
    ensures StartsNumber(s + t)
  {
  }

  lemma RightRead(b: string, step: Option<Stepping>)
    requires Numeral(b)
    ensures var rhs := b + StepText(step);
      RightKind(rhs) == (Int, |b|) && ToInt32(StrToIMax(rhs).value) == IntOf(b)
  {
    hide StrToIMax, Numeral, NumeralValue, StartsNumber, StepText;
    StepStarts(step);
    assert Only("", SpaceChars);
    ConvertNumeral("", b, StepText(step));
    assert "" + b + StepText(step) == b + StepText(step);
    NumeralNotEmpty(b);
    StartsLonger(b, StepText(step));
  }

  lemma LeftRead(lead: string, a: string, trail: string)
    requires Only(lead, SpaceChars) && Numeral(a) && Only(trail, " \t")
    requires IntMaxMin <= NumeralValue(a) <= IntMaxMax
    ensures var lhs := lead + a + trail;
      LeftKind(lhs) == Int && ToInt32(StrToIMax(lhs).value) == IntOf(a)
  {
    hide StrToIMax, Numeral, NumeralValue;
    var lhs := lead + a + trail;
    ConvertNumeral(lead, a, trail);
    NumeralNotEmpty(a);
    assert lhs[|lead| + |a|..] == trail;
  }

  // The width that is asked for, the right operand being b without its step.
  lemma WidthAsked(lhs: string, b: string, more: string)
    requires lhs != [] && b != [] && (more == [] || more[0] == '.')
    ensures PadWidth(lhs, b + more, |b|) == if ZeroLed(lhs) || ZeroLed(b) then Longer(lhs, b) else 0
  {
    var rhs := b + more;
    assert rhs[0] == b[0] && (|b| > 1 ==> rhs[1] == b[1]);
  }

  lemma NoDotIn(p: Spelling)
    requires Spelled(p) && p.Numbered?
    ensures '.' !in p.lead + p.a + p.trail
  {
    hide Only, NumeralValue;
    assert p.a == Unsigned(p.a) || p.a == [p.a[0]] + Unsigned(p.a);
    NoDot(p.lead, SpaceChars);
    NoDot(p.trail, " \t");
    NoDot(Unsigned(p.a), DigitChars);
  }

  lemma NoDot(s: string, chars: string)
    requires Only(s, chars) && '.' !in chars
    ensures '.' !in s
  {
  }

  // Reading a sequence by its two sides, the right one with an operand that
  // ends at ep.
  lemma SidesRead(lhs: string, rhs: string, kind: Kind, ep: nat, incr: int)
    requires lhs != [] && rhs != [] && '.' !in lhs && kind != Bad
    requires LeftKind(lhs) == kind && RightKind(rhs) == (kind, ep) && Increment(rhs, ep) == (incr, |rhs|)
    ensures var w := PadWidth(lhs, rhs, ep);
      ExpandSeqterm(lhs + ".." + rhs) ==
        if kind == Chr then Some(Sequence(lhs[0] as int, rhs[0] as int, incr, Chr, 1))
        else Some(Sequence(ToInt32(StrToIMax(lhs).value), ToInt32(StrToIMax(rhs).value), incr,
                           if w > 0 then ZInt else Int, w))
  {
    hide StrToIMax, Sequence, LeftKind, RightKind, Increment, PadWidth;
    DotsFound(lhs, rhs, 0);
    var spec := lhs + ".." + rhs;
    assert spec[..|lhs|] == lhs && spec[|lhs| + 2..] == rhs;
  }

  lemma ReadNumbered(p: Spelling)
    requires Spelled(p) && p.Numbered?
    ensures ExpandSeqterm(SpellingText(p)) == Some(SpelledElements(p))
  {
    var Numbered(lead, a, trail, b, step) := p;
    hide StepText, StrToIMax, Sequence, LeftKind, RightKind, Increment, PadWidth, Numeral, NumeralValue, Only,
      IntOf, StepOf, ExpandSeqterm, ZeroLed, Longer, StartsNumber;
    var lhs, rhs := lead + a + trail, b + StepText(step);
    NumeralNotEmpty(a);
    NumeralNotEmpty(b);
    NoDotIn(p);
    LeftRead(lead, a, trail);
    RightRead(b, step);
    IncrementRead(b, step);
    assert PadWidth(lhs, rhs, |b|) == if ZeroLed(lhs) || ZeroLed(b) then Longer(lhs, b) else 0 by {
      StepStarts(step);
      WidthAsked(lhs, b, StepText(step));
    }
    LongerIs(lhs, b);
    SidesRead(lhs, rhs, Int, |b|, StepOf(step));
  }

  lemma LongerIs(s: string, t: string)
    requires s != []
    ensures Longer(s, t) > 0
  {
  }

  lemma LettersRead(x: char, y: char, step: Option<Stepping>)
    requires Letter(x) && Letter(y)
    ensures LeftKind([x]) == Chr && RightKind([y] + StepText(step)) == (Chr, 1)
  {
    hide Letter, StepText, StrToIMax;
    LetterIsChar(x);
    LetterIsChar(y);
    StepStarts(step);
    LetterIsNoNumber(x);
  }

  lemma LetterIsNoNumber(x: char)
    requires IsAlpha(x)
    ensures StrToIMax([x]).end == 0
  {
    assert DigitsEnd([x], 0) == 0;
  }

  lemma ReadLettered(p: Spelling)
    requires Spelled(p) && p.Lettered?
    ensures ExpandSeqterm(SpellingText(p)) == Some(SpelledElements(p))
  {
    var Lettered(x, y, step) := p;
    hide StepText, StrToIMax, Sequence, LeftKind, RightKind, Increment, PadWidth, Numeral, Only, StepOf,
      ExpandSeqterm, Letter;
    assert x != '.' by { LetterIsChar(x); }
    LettersRead(x, y, step);
    IncrementRead([y], step);
    SidesRead([x], [y] + StepText(step), Chr, 1, StepOf(step));
  }

  // Every spelling is read as the sequence it spells.
  lemma SpellingIsRead(p: Spelling)
    requires Spelled(p)
    ensures ExpandSeqterm(SpellingText(p)) == Some(SpelledElements(p))
  {
    hide Spelled, ExpandSeqterm, SpellingText, SpelledElements;
    match p
    case Numbered(_, _, _, _, _) => ReadNumbered(p);
    case Lettered(_, _, _) => ReadLettered(p);
  }

  // ------------------------------------------------- and nothing else is read

  lemma StepFound(rhs: string, ep: nat) returns (step: Option<Stepping>)
    requires ep <= |rhs| && Increment(rhs, ep).1 == |rhs|
    ensures rhs[ep..] == StepText(step)
    ensures step.Some? ==> Only(step.value.lead, SpaceChars) && Numeral(step.value.num)
  {
    hide StrToIMax, Only, Numeral;
    if ep == |rhs| {
      step := None;
    } else {
      var more := rhs[ep + 2..];
      var i := ConvertedNumeral(more);
      assert StrToIMax(more).end == |more|;
      step := Some(Stepping(more[..i], more[i..]));
      assert rhs[ep..] == ".." + more && more == more[..i] + more[i..|more|];
    }
  }

  lemma LeftFound(lhs: string) returns (lead: string, a: string, trail: string)
    requires LegalNumber(lhs)
    ensures lhs == lead + a + trail && Only(lead, SpaceChars) && Numeral(a) && Only(trail, " \t")
    ensures IntMaxMin <= NumeralValue(a) <= IntMaxMax
  {
    hide StrToIMax, Numeral, NumeralValue, Only;
    var e := StrToIMax(lhs).end;
    var i := ConvertedNumeral(lhs);
    lead, a, trail := lhs[..i], lhs[i..e], lhs[e..];
    assert lhs == lead + a + trail;
    ConvertNumeral(lead, a, trail);
    BlanksOnly(trail);
  }

  lemma BlanksOnly(s: string)
    ensures Only(s, " \t") <==> OnlyBlanks(s)
  {
  }

  // Only spellings are taken for sequences.
  lemma OnlySpellings(text: string) returns (p: Spelling)
    requires ExpandSeqterm(text).Some?
    ensures Spelled(p) && SpellingText(p) == text
  {
    hide StrToIMax, Sequence, PadWidth, LegalNumber, Numeral, NumeralValue, Only, StepText, Increment, StartsNumber;
    var l := FindDots(text, 0);
    var lhs, rhs := text[..l], text[l + 2..];
    assert text == lhs + ".." + rhs;
    var (kind, ep) := RightKind(rhs);
    var step := StepFound(rhs, ep);
    assert rhs == rhs[..ep] + rhs[ep..];
    if kind == Chr {
      LetterIsChar(lhs[0]);
      LetterIsChar(rhs[0]);
      p := Lettered(lhs[0], rhs[0], step);
      assert lhs == [lhs[0]] && rhs[..ep] == [rhs[0]];
    } else {
      var lead, a, trail := LeftFound(lhs);
      RightFound(rhs);
      p := Numbered(lead, a, trail, rhs[..ep], step);
    }
  }

  lemma RightFound(rhs: string)
    requires RightKind(rhs).0 == Int
    ensures Numeral(rhs[..RightKind(rhs).1])
  {
    hide StrToIMax, Numeral, Only;
    var e := StrToIMax(rhs).end;
    assert rhs[0] != '.' && e > 0;
    var i := ConvertedNumeral(rhs);
    assert i == 0 by { if i > 0 { FirstOf(rhs[..i]); } }
    assert rhs[0..e] == rhs[..e];
  }

  lemma FirstOf(s: string)
    requires s != [] && Only(s, SpaceChars)
    ensures s[0] in SpaceChars
  {
  }

  // ------------------------------------------------------- what is counted

  // {a..b}, {a..b..step} with 32-bit numbers, zeros before them or not, and
  // {x..y}, {x..y..step} with letters.
  datatype Counting =
    | Numbers(a: int, zerosA: nat, b: int, zerosB: nat, step: Option<int>)
    | Letters(x: char, y: char, step: Option<int>)

  function Step(step: Option<int>): int { step.GetOr(1) }

  function Steps(step: Option<int>): Option<Stepping> {
    if step.Some? then Some(Stepping("", Padded(step.value, 0))) else None
  }

  function SpellingOf(c: Counting): Spelling {
    match c
    case Numbers(a, za, b, zb, step) => Numbered("", Padded(a, za), "", Padded(b, zb), Steps(step))
    case Letters(x, y, step) => Lettered(x, y, Steps(step))
  }

  function Spec(c: Counting): string { SpellingText(SpellingOf(c)) }

  predicate Countable(c: Counting) {
    && (c.step.Some? ==> Int32(c.step.value))
    && match c
       case Numbers(a, _, b, _, _) => Int32(a) && Int32(b)
       case Letters(x, y, _) => Letter(x) && Letter(y)
  }

  // Zeros before either number pad all terms to the longer of the two.
  function Elements(c: Counting): (r: seq<string>)
    ensures r != []
  {
    match c
    case Numbers(a, za, b, zb, step) =>
      if za > 0 || zb > 0 then Sequence(a, b, Step(step), ZInt, Longer(Padded(a, za), Padded(b, zb)))
      else Sequence(a, b, Step(step), Int, 0)
    case Letters(x, y, step) => Sequence(x as int, y as int, Step(step), Chr, 1)
  }

  lemma StepIs(step: Option<int>)
    requires step.Some? ==> Int32(step.value)
    ensures Steps(step).Some? ==> Only(Steps(step).value.lead, SpaceChars) && Numeral(Steps(step).value.num)
    ensures StepOf(Steps(step)) == Step(step)
  {
    hide Padded, Numeral, NumeralValue;
    if step.Some? { PaddedIsNumeral(step.value, 0); }
  }

  lemma CountingSpelled(c: Counting)
    requires Countable(c)
    ensures Spelled(SpellingOf(c)) && SpelledElements(SpellingOf(c)) == Elements(c)
  {
    hide Padded, Numeral, NumeralValue, Sequence, StepOf, ZeroLed;
    StepIs(c.step);
    if c.Numbers? {
      PaddedIsNumeral(c.a, c.zerosA);
      PaddedIsNumeral(c.b, c.zerosB);
      PaddingSeen(c.a, c.zerosA);
      PaddingSeen(c.b, c.zerosB);
      assert "" + Padded(c.a, c.zerosA) + "" == Padded(c.a, c.zerosA);
    }
  }

  // Every sequence expression of numbers or letters is read as what it counts.
  lemma CountingIsRead(c: Counting)
    requires Countable(c)
    ensures ExpandSeqterm(Spec(c)) == Some(Elements(c)) && IsRange(Spec(c))
  {
    hide ExpandSeqterm, Elements, SpellingText, Spelled, SpelledElements, SpellingOf;
    CountingSpelled(c);
    SpellingIsRead(SpellingOf(c));
    SpecIsPlain(c);
  }

  predicate AllPlain(s: string) { forall k :: 0 <= k < |s| ==> PlainChar(s[k]) }

  lemma PlainAppend(s: string, t: string)
    requires AllPlain(s) && AllPlain(t)
    ensures AllPlain(s + t)
  {
  }

  lemma SpecIsPlain(c: Counting)
    requires Countable(c)
    ensures AllPlain(Spec(c))
  {
    hide AllPlain;
    StepIsPlain(c.step);
    DotsArePlain();
    match c
    case Numbers(a, za, b, zb, step) =>
      PaddedIsPlain(a, za);
      PaddedIsPlain(b, zb);
      hide Padded, StepText;
      PlainAppend(Padded(b, zb), StepText(Steps(step)));
      PlainAppend(Padded(a, za), "..");
      PlainAppend(Padded(a, za) + "..", Padded(b, zb) + StepText(Steps(step)));
      assert "" + Padded(a, za) + "" == Padded(a, za);
    case Letters(x, y, step) =>
      LetterIsPlain(x);
      LetterIsPlain(y);
      hide StepText;
      PlainAppend([y], StepText(Steps(step)));
      PlainAppend([x], "..");
      PlainAppend([x] + "..", [y] + StepText(Steps(step)));
  }

  lemma DotsArePlain()
    ensures AllPlain("..")
  {
  }

  lemma LetterIsPlain(x: char)
    requires Letter(x)
    ensures AllPlain([x])
  {
    LetterIsChar(x);
  }

  lemma PaddedIsPlain(n: int, zeros: nat)
    ensures AllPlain(Padded(n, zeros))
  {
    hide Padded;
    PaddedIsNumeral(n, zeros);
    var p := Padded(n, zeros);
    forall k | 0 <= k < |p| ensures PlainChar(p[k]) { NumberCharIsPlain(p[k]); }
  }

  lemma NumberCharIsPlain(c: char)
    requires c in "-0123456789"
    ensures PlainChar(c)
  {
  }

  lemma StepIsPlain(step: Option<int>)
    ensures AllPlain(StepText(Steps(step)))
  {
    hide Padded;
    if step.Some? {
      PaddedIsPlain(step.value, 0);
      DotsArePlain();
      assert "" + Padded(step.value, 0) == Padded(step.value, 0);
      PlainAppend("..", Padded(step.value, 0));
    }
  }
}
