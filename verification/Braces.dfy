// Brace expansion of shell words (braces.c).
//
// A C string is a Dafny string; the terminating NUL is the position |text|.
// The methods follow the loops of the source; the functions beside them say
// what each loop computes, and BraceWords.dfy says what the functions mean.

module Braces {
  import opened Numerals
  import opened Options

  // ------------------------------------------------------------ the scanner

  // `quoted == NoQuote` is the scanner's quoted == 0.
  const NoQuote: char := '\0'

  // The variables of brace_gobbler other than its position.
  datatype Scan = Scan(level: nat, quoted: char, commas: nat, passNext: bool)

  datatype Step = Stop | Go(st: Scan)

  // A closing brace only counts once a separator was seen at its own level.
  function ScanStart(satisfy: char): Scan {
    Scan(0, NoQuote, if satisfy == '}' then 0 else 1, false)
  }

  predicate BraceWhitespace(c: char) { c == ' ' || c == '\t' || c == '\n' }

  // An open brace with nothing but white space around it, or one that opens
  // an empty group after white space, is an ordinary character.
  predicate LoneBrace(text: string, i: nat)
    requires i < |text| && text[i] == '{'
  {
    && (i == 0 || BraceWhitespace(text[i - 1]))
    && (i + 1 == |text| || BraceWhitespace(text[i + 1]) || text[i + 1] == '}')
  }

  predicate SequenceDots(text: string, i: nat)
    requires i < |text|
  {
    && i + 1 < |text| && text[i] == '.' && text[i + 1] == '.'
    && (i + 2 == |text| || text[i + 2] != '}')
  }

  // One turn of brace_gobbler's loop at position i; every turn that does not
  // stop moves on by one character.
  function ScanStep(text: string, i: nat, satisfy: char, st: Scan): Step
    requires i < |text|
  {
    var c := text[i];
    if st.passNext then
      Go(st.(passNext := false))
    else if c == '\\' && (st.quoted == NoQuote || st.quoted == '"' || st.quoted == '`') then
      Go(st.(passNext := true))
    else if c == '$' && i + 1 < |text| && text[i + 1] == '{' && st.quoted != '\'' then
      Go(st.(passNext := true, level := if st.quoted == NoQuote then st.level + 1 else st.level))
    else if st.quoted != NoQuote then
      Go(if c == st.quoted then st.(quoted := NoQuote) else st)
    else if c == '"' || c == '\'' || c == '`' then
      Go(st.(quoted := c))
    else if c == satisfy && st.level == 0 && st.commas > 0 then
      if c == '{' && LoneBrace(text, i) then Go(st) else Stop
    else if c == '{' then
      Go(st.(level := st.level + 1))
    else if c == '}' && st.level > 0 then
      Go(st.(level := st.level - 1))
    else if satisfy == '}' && c == ',' && st.level == 0 then
      Go(st.(commas := st.commas + 1))
    else if satisfy == '}' && SequenceDots(text, i) && st.level == 0 then
      Go(st.(commas := st.commas + 1))
    else
      Go(st)
  }

  // Where brace_gobbler ends when it is at i in state st; |text| means that
  // it ran into the end of the text and reports 0.
  function Gobble(text: string, i: nat, satisfy: char, st: Scan): (j: nat)
    requires i <= |text|
    ensures i <= j <= |text|
    ensures j < |text| ==> text[j] == satisfy
    decreases |text| - i
  {
    if i == |text| then i
    else match ScanStep(text, i, satisfy, st)
      case Stop => i
      case Go(st') => Gobble(text, i + 1, satisfy, st')
  }

  method BraceGobbler(text: string, indx: nat, satisfy: char) returns (i: nat, found: bool)
    requires indx <= |text|
    ensures i == Gobble(text, indx, satisfy, ScanStart(satisfy))
    ensures indx <= i <= |text|
    ensures found <==> i < |text|
  {
    i := indx;
    var level, quoted, passNext := 0, NoQuote, false;
    var commas := if satisfy == '}' then 0 else 1;
    while i < |text|
      invariant indx <= i <= |text|
      invariant Gobble(text, i, satisfy, Scan(level, quoted, commas, passNext))
             == Gobble(text, indx, satisfy, ScanStart(satisfy))
    {
      var c := text[i];
      if passNext {
        passNext := false;
        i := i + 1;
        continue;
      }
      if c == '\\' && (quoted == NoQuote || quoted == '"' || quoted == '`') {
        passNext := true;
        i := i + 1;
        continue;
      }
      if c == '$' && i + 1 < |text| && text[i + 1] == '{' && quoted != '\'' {
        passNext := true;
        i := i + 1;
        if quoted == NoQuote { level := level + 1; }
        continue;
      }
      if quoted != NoQuote {
        if c == quoted { quoted := NoQuote; }
        i := i + 1;
        continue;
      }
      if c == '"' || c == '\'' || c == '`' {
        quoted := c;
        i := i + 1;
        continue;
      }
      if c == satisfy && level == 0 && quoted == NoQuote && commas > 0 {
        if c == '{' && LoneBrace(text, i) {
          i := i + 1;
          continue;
        }
        break;
      }
      if c == '{' {
        level := level + 1;
      } else if c == '}' && level > 0 {
        level := level - 1;
      } else if satisfy == '}' && c == ',' && level == 0 {
        commas := commas + 1;
      } else if satisfy == '}' && SequenceDots(text, i) && level == 0 {
        commas := commas + 1;
      }
      i := i + 1;
    }
    found := i < |text|;
  }

  // ---------------------------------------------------------- array_concat

  function Prefixed(s: string, ys: seq<string>): (r: seq<string>)
    ensures |r| == |ys|
  {
    if ys == [] then [] else [s + ys[0]] + Prefixed(s, ys[1..])
  }

  // Every string of xs followed by every string of ys, xs varying slowest.
  function Product(xs: seq<string>, ys: seq<string>): seq<string> {
    if xs == [] then [] else Prefixed(xs[0], ys) + Product(xs[1..], ys)
  }

  lemma ProductStep(acc: seq<string>, xs: seq<string>, ys: seq<string>, i: nat)
    requires i < |xs|
    ensures acc + Product(xs[i..], ys) == acc + Prefixed(xs[i], ys) + Product(xs[i + 1..], ys)
  {
    hide Prefixed;
    assert xs[i..][1..] == xs[i + 1..];
  }

  lemma PrefixedStep(acc: seq<string>, s: string, ys: seq<string>, j: nat)
    requires j < |ys|
    ensures acc + Prefixed(s, ys[j..]) == acc + [s + ys[j]] + Prefixed(s, ys[j + 1..])
  {
    assert ys[j..][1..] == ys[j + 1..];
  }

  lemma ProductEnds(xs: seq<string>, ys: seq<string>)
    ensures Product(xs[0..], ys) == Product(xs, ys) && Product(xs[|xs|..], ys) == []
  {
    assert xs[0..] == xs;
  }

  lemma PrefixedEnds(s: string, ys: seq<string>)
    ensures Prefixed(s, ys[0..]) == Prefixed(s, ys) && Prefixed(s, ys[|ys|..]) == []
  {
    assert ys[0..] == ys;
  }

  method ArrayConcat(arr1: seq<string>, arr2: seq<string>) returns (result: seq<string>)
    ensures result == Product(arr1, arr2)
  {
    hide Prefixed, Product;
    ProductEnds(arr1, arr2);
    result := [];
    var i := 0;
    while i < |arr1|
      invariant i <= |arr1|
      invariant result + Product(arr1[i..], arr2) == Product(arr1, arr2)
    {
      ghost var before := result;
      PrefixedEnds(arr1[i], arr2);
      ProductStep(before, arr1, arr2, i);
      var j := 0;
      while j < |arr2|
        invariant j <= |arr2|
        invariant result + Prefixed(arr1[i], arr2[j..]) == before + Prefixed(arr1[i], arr2)
      {
        PrefixedStep(result, arr1[i], arr2, j);
        result := result + [arr1[i] + arr2[j]];
        j := j + 1;
      }
      i := i + 1;
    }
  }

  // ---------------------------------------------------- sequence expressions

  datatype Kind = Bad | Int | Chr | ZInt

  function Abs(x: int): nat { if x < 0 then -x else x }

  predicate IsAlpha(c: char) { 'a' <= c <= 'z' || 'A' <= c <= 'Z' }

  // Conversion of intmax_t to int keeps the low 32 bits.
  function ToInt32(x: int): (r: int)
    ensures -0x8000_0000 <= r < 0x8000_0000
    ensures -0x8000_0000 <= x < 0x8000_0000 ==> r == x
    ensures (x - r) % 0x1_0000_0000 == 0
  {
    var m := x % 0x1_0000_0000;
    if m >= 0x8000_0000 then m - 0x1_0000_0000 else m
  }

  function Zeros(n: nat): string { seq(n, _ => '0') }

  // The text of one term: itos, "%0*d" or a single character.
  function TermText(n: int, kind: Kind, width: int): string {
    match kind
    case ZInt =>
      var digits := Dec(Abs(n));
      var sign := if n < 0 then "-" else "";
      if |sign| + |digits| < width then sign + Zeros(width - |sign| - |digits|) + digits
      else sign + digits
    case Chr => if 0 <= n < 128 then [n as char] else []
    case _ => Itos(n)
  }

  // The increment always points from start to end and is never zero.
  function Stride(start: int, end: int, incr: int): (d: int)
    ensures d != 0
    ensures start > end ==> d < 0
    ensures start < end ==> d > 0
    ensures if incr == 0 then d == 1 || d == -1 else d == incr || d == -incr
  {
    var d := if incr == 0 then 1 else incr;
    if (start > end && d > 0) || (start < end && d < 0) then -d else d
  }

  predicate Passed(n: int, end: int, d: int) { (d < 0 && n < end) || (d > 0 && n > end) }

  // The terms n, n + d, n + 2d, ... up to the last that does not pass end.
  function Terms(n: int, end: int, d: int, kind: Kind, width: int): (r: seq<string>)
    requires d != 0 && !Passed(n, end, d)
    ensures 0 < |r| <= Abs(end - n) + 1
    decreases Abs(end - n)
  {
    [TermText(n, kind, width)] + if Passed(n + d, end, d) then [] else Terms(n + d, end, d, kind, width)
  }

  function Sequence(start: int, end: int, incr: int, kind: Kind, width: int): (r: seq<string>)
    ensures r != []
  {
    Terms(start, end, Stride(start, end, incr), kind, width)
  }

  // start + k * d, by repeated addition as the loop computes it.
  function Nth(n: int, d: int, k: nat): int
    decreases k
  {
    if k == 0 then n else Nth(n + d, d, k - 1)
  }

  lemma {:induction false} NthClosed(n: int, d: int, k: nat)
    ensures Nth(n, d, k) == n + k * d
    decreases k
  {
    if k > 0 {
      NthClosed(n + d, d, k - 1);
      MulPredecessor(k, d);
    }
  }

  lemma MulPredecessor(k: int, d: int)
    ensures (k - 1) * d == k * d - d
  {
  }

  // The terms are start, start + d, ...; the last one is the last of them on
  // this side of end.
  lemma {:induction false} TermsAreTheProgression(n: int, end: int, d: int, kind: Kind, width: int, k: nat)
    requires d != 0 && !Passed(n, end, d)
    ensures k < |Terms(n, end, d, kind, width)| <==> !Passed(Nth(n, d, k), end, d)
    ensures k < |Terms(n, end, d, kind, width)| ==>
              Terms(n, end, d, kind, width)[k] == TermText(Nth(n, d, k), kind, width)
    decreases Abs(end - n)
  {
    hide TermText;
    if k > 0 {
      if Passed(n + d, end, d) {
        PassedStays(n + d, end, d, k - 1);
      } else {
        TermsAreTheProgression(n + d, end, d, kind, width, k - 1);
      }
    }
  }

  lemma {:induction false} PassedStays(n: int, end: int, d: int, k: nat)
    requires Passed(n, end, d)
    ensures Passed(Nth(n, d, k), end, d)
    decreases k
  {
    if k > 0 { PassedStays(n + d, end, d, k - 1); }
  }

  lemma TermsStep(acc: seq<string>, n: int, end: int, d: int, kind: Kind, width: int)
    requires d != 0 && !Passed(n, end, d)
    ensures Passed(n + d, end, d) ==>
              acc + Terms(n, end, d, kind, width) == acc + [TermText(n, kind, width)]
    ensures !Passed(n + d, end, d) ==>
              acc + Terms(n, end, d, kind, width) ==
              acc + [TermText(n, kind, width)] + Terms(n + d, end, d, kind, width)
  {
    hide TermText;
  }

  // The result never outgrows the vector of abs(end - start) + 1 slots.
  method MkSeq(start: int, end: int, incr0: int, kind: Kind, width: int) returns (result: seq<string>)
    ensures result == Sequence(start, end, incr0, kind, width)
    ensures |result| <= Abs(end - start) + 1
  {
    hide Terms, TermText;
    var incr := if incr0 == 0 then 1 else incr0;
    if start > end && incr > 0 {
      incr := -incr;
    } else if start < end && incr < 0 {
      incr := -incr;
    }
    result := [];
    var n := start;
    while true
      invariant !Passed(n, end, incr)
      invariant result + Terms(n, end, incr, kind, width) == Terms(start, end, incr, kind, width)
      decreases Abs(end - n)
    {
      TermsStep(result, n, end, incr, kind, width);
      result := result + [TermText(n, kind, width)];
      n := n + incr;
      if (incr < 0 && n < end) || (incr > 0 && n > end) { break; }
    }
  }

  function FindDots(text: string, i: nat): (j: nat)
    requires i <= |text|
    ensures i <= j <= |text|
    ensures j < |text| ==> j + 1 < |text| && text[j] == '.' && text[j + 1] == '.'
    decreases |text| - i
  {
    if i + 1 >= |text| then |text|
    else if text[i] == '.' && text[i + 1] == '.' then i
    else FindDots(text, i + 1)
  }

  predicate OnlyBlanks(s: string) { forall k :: 0 <= k < |s| ==> s[k] == ' ' || s[k] == '\t' }

  // legal_number (general.c): the whole string is one number that fits.
  predicate LegalNumber(s: string) {
    var r := StrToIMax(s);
    !r.overflow && r.end > 0 && OnlyBlanks(s[r.end..])
  }

  predicate StartsNumber(s: string) {
    || (|s| > 0 && IsDigit(s[0]))
    || (|s| > 1 && (s[0] == '+' || s[0] == '-') && IsDigit(s[1]))
  }

  function LeftKind(lhs: string): Kind {
    if LegalNumber(lhs) then Int
    else if |lhs| == 1 && IsAlpha(lhs[0]) then Chr
    else Bad
  }

  // The kind of the right-hand side and the end of its first operand.
  function RightKind(rhs: string): (r: (Kind, nat))
    ensures r.1 <= |rhs|
  {
    if StartsNumber(rhs) then
      var ep := StrToIMax(rhs).end;
      (if ep < |rhs| && rhs[ep] != '.' then Bad else Int, ep)
    else if |rhs| > 0 && IsAlpha(rhs[0]) && (|rhs| == 1 || rhs[1] == '.') then (Chr, 1)
    else (Bad, 0)
  }

  // The increment after the operand that ends at ep, and where it ends.
  function Increment(rhs: string, ep: nat): (r: (int, nat))
    requires ep <= |rhs|
    ensures ep <= r.1 <= |rhs|
  {
    if ep + 2 < |rhs| && rhs[ep] == '.' && rhs[ep + 1] == '.' then
      var c := StrToIMax(rhs[ep + 2..]);
      (ToInt32(c.value), ep + 2 + c.end)
    else (1, ep)
  }

  // The field width that leading zeros of either operand ask for; 0 for none.
  function PadWidth(lhs: string, rhs: string, rlen: int): int {
    var w0 := if |lhs| > 1 && lhs[0] == '0' then |lhs| else 0;
    var w1 := if |lhs| > 2 && lhs[0] == '-' && lhs[1] == '0' then |lhs| else w0;
    var w2 := if rlen > 1 && |rhs| > 0 && rhs[0] == '0' && w1 < rlen then rlen else w1;
    var w3 := if rlen > 2 && |rhs| > 1 && rhs[0] == '-' && rhs[1] == '0' && w2 < rlen then rlen else w2;
    if w3 == 0 then 0 else if w3 < |lhs| then |lhs| else if w3 < rlen then rlen else w3
  }

  function ExpandSeqterm(text: string): (r: Option<seq<string>>)
    ensures r.Some? ==> r.value != []
  {
    var l := FindDots(text, 0);
    if l == |text| then None
    else
      var lhs, rhs := text[..l], text[l + 2..];
      if lhs == [] || rhs == [] then None
      else
        var (rk, ep) := RightKind(rhs);
        var (incr, e) := Increment(rhs, ep);
        if rk == Bad || e < |rhs| || LeftKind(lhs) != rk then None
        else if rk == Chr then
          Some(Sequence(lhs[0] as int, rhs[0] as int, incr, Chr, 1))
        else
          var w := PadWidth(lhs, rhs, |rhs| - (e - ep));
          Some(Sequence(ToInt32(StrToIMax(lhs).value), ToInt32(StrToIMax(rhs).value), incr,
                        if w > 0 then ZInt else Int, w))
  }

  // -------------------------------------------------------------- expansion

  // The search for a comma in the amble skips backslash pairs only.
  predicate HasComma(amble: string, j: nat)
    requires j <= |amble|
    decreases |amble| - j
  {
    if j == |amble| then false
    else if amble[j] == '\\' then j + 2 <= |amble| && HasComma(amble, j + 2)
    else amble[j] == ',' || HasComma(amble, j + 1)
  }

  // The first open brace at or after i that has a matching close brace with
  // a separator between them; |text| when there is none.
  function FindBrace(text: string, i: nat): (j: nat)
    requires i <= |text|
    ensures i <= j <= |text|
    ensures j < |text| ==> text[j] == '{' && Gobble(text, j + 1, '}', ScanStart('}')) < |text|
    decreases |text| - i
  {
    var j := Gobble(text, i, '{', ScanStart('{'));
    if j == |text| then j
    else if Gobble(text, j + 1, '}', ScanStart('}')) == |text| then FindBrace(text, j + 1)
    else j
  }

  // A word as brace_expand takes it apart: the preamble, the amble and the
  // postamble of its first brace expression, or a text without one.
  datatype Word = Text(text: string) | Group(pre: string, amble: Amble, post: Word)

  // A sequence expression, or the pieces between separators.
  datatype Amble = Range(spec: string) | One(word: Word) | More(word: Word, rest: Amble)

  function Parse(text: string): Word
    decreases |text|, 1, 0
  {
    var i := FindBrace(text, 0);
    if i == |text| then Text(text)
    else
      var j := Gobble(text, i + 1, '}', ScanStart('}'));
      match ParseInside(text[i + 1..j])
      case None => Text(text)
      case Some(amble) => Group(text[..i], amble, Parse(text[j + 1..]))
  }

  function ParseInside(text: string): Option<Amble>
    decreases |text|, 3, 0
  {
    if HasComma(text, 0) then Some(ParseAmble(text, 0))
    else if ExpandSeqterm(text).Some? then Some(Range(text))
    else None
  }

  // The pieces of an amble from `start` on.
  function ParseAmble(text: string, start: nat): Amble
    requires start <= |text|
    decreases |text|, 2, |text| - start
  {
    var i := Gobble(text, start, ',', ScanStart(','));
    if i == |text| then One(Parse(text[start..i]))
    else More(Parse(text[start..i]), ParseAmble(text, i + 1))
  }

  // What a word stands for.
  function Meaning(w: Word): (r: seq<string>)
  {
    match w
    case Text(t) => [t]
    case Group(pre, amble, post) => Product(Product([pre], Choices(amble)), Meaning(post))
  }

  function Choices(a: Amble): (r: seq<string>)
  {
    match a
    case Range(spec) => ExpandSeqterm(spec).GetOr([])
    case One(w) => Meaning(w)
    case More(w, rest) => Meaning(w) + Choices(rest)
  }

  // The do-while loop at the head of brace_expand: on return i == |text|, or
  // text[i] begins a valid brace expression that closes at `close`.
  method SeekBrace(text: string) returns (i: nat, close: nat)
    ensures i == FindBrace(text, 0)
    ensures i < |text| ==> close == Gobble(text, i + 1, '}', ScanStart('}'))
  {
    i, close := 0, 0;
    var found := false;
    while true
      invariant i <= |text|
      invariant FindBrace(text, i) == FindBrace(text, 0)
      decreases |text| - i
    {
      i, found := BraceGobbler(text, i, '{');
      if !found { break; }
      close, found := BraceGobbler(text, i + 1, '}');
      if found { break; }
      i := i + 1;
    }
  }

  method SeekComma(amble: string) returns (found: bool)
    ensures found <==> HasComma(amble, 0)
  {
    var j := 0;
    while j < |amble| && amble[j] != ','
      invariant j <= |amble| + 1
      invariant HasComma(amble, 0) <==> j <= |amble| && HasComma(amble, j)
    {
      j := if amble[j] == '\\' then j + 2 else j + 1;
    }
    found := j < |amble|;
  }

  method BraceExpand(text: string) returns (result: seq<string>)
    ensures result == Meaning(Parse(text))
    decreases |text|, 1, 0
  {
    hide Gobble, FindBrace, ParseInside, Choices, Product;
    var i, close := SeekBrace(text);
    if i == |text| { return [text]; }
    var ok, tack := ExpandInside(text[i + 1..close]);
    if !ok { return [text]; }
    var rest := BraceExpand(text[close + 1..]);
    result := Tack(text[..i], tack, rest);
  }

  method Tack(preamble: string, amble: seq<string>, postamble: seq<string>) returns (result: seq<string>)
    ensures result == Product(Product([preamble], amble), postamble)
  {
    result := ArrayConcat([preamble], amble);
    result := ArrayConcat(result, postamble);
  }

  // expand_seqterm
  method ExpandTerm(text: string) returns (ok: bool, terms: seq<string>)
    ensures ok <==> ExpandSeqterm(text).Some?
    ensures ok ==> terms == ExpandSeqterm(text).value
  {
    hide LeftKind, RightKind, Increment, StrToIMax, PadWidth, Sequence;
    ok, terms := false, [];
    var l := FindDots(text, 0);
    if l == |text| { return; }
    var lhs, rhs := text[..l], text[l + 2..];
    if lhs == [] || rhs == [] { return; }
    var (rk, ep) := RightKind(rhs);
    var (incr, e) := Increment(rhs, ep);
    if rk == Bad || e < |rhs| || LeftKind(lhs) != rk { return; }
    ok := true;
    if rk == Chr {
      terms := MkSeq(lhs[0] as int, rhs[0] as int, incr, Chr, 1);
    } else {
      var w := PadWidth(lhs, rhs, |rhs| - (e - ep));
      terms := MkSeq(ToInt32(StrToIMax(lhs).value), ToInt32(StrToIMax(rhs).value), incr,
                     if w > 0 then ZInt else Int, w);
    }
  }

  // An amble without a comma that is no sequence expression is not expanded.
  method ExpandInside(text: string) returns (ok: bool, tack: seq<string>)
    ensures ok <==> ParseInside(text).Some?
    ensures ok ==> tack == Choices(ParseInside(text).value)
    decreases |text|, 3, 0
  {
    var comma := SeekComma(text);
    if comma {
      tack := SplitAmble(text);
      ok := true;
    } else {
      ok, tack := ExpandTerm(text);
    }
  }

  lemma PiecesStep(acc: seq<string>, text: string, start: nat, i: nat)
    requires start <= |text| && i == Gobble(text, start, ',', ScanStart(','))
    ensures i == |text| ==>
              acc + Choices(ParseAmble(text, start)) == acc + Meaning(Parse(text[start..i]))
    ensures i < |text| ==>
              acc + Choices(ParseAmble(text, start)) ==
              acc + Meaning(Parse(text[start..i])) + Choices(ParseAmble(text, i + 1))
  {
    hide Gobble, Parse, Meaning;
  }

  // The loop of expand_amble.
  method SplitAmble(text: string) returns (result: seq<string>)
    ensures result == Choices(ParseAmble(text, 0))
    decreases |text|, 2, 0
  {
    hide Gobble, Parse, Meaning;
    result := [];
    var start := 0;
    var c := true;
    while c
      invariant c ==> start <= |text|
      invariant result + (if c then Choices(ParseAmble(text, start)) else []) == Choices(ParseAmble(text, 0))
      decreases c, |text| - start
    {
      var i;
      i, c := BraceGobbler(text, start, ',');
      PiecesStep(result, text, start, i);
      var partial := BraceExpand(text[start..i]);
      result := result + partial;
      start := i + 1;
    }
  }
}
