// What brace expansion means: printing a word and parsing it are inverse, and
// a word of texts, concatenations, alternatives and sequences expands to the
// product of its parts, the leftmost part varying slowest.

module BraceWords {
  import opened Options
  import opened Braces

  // ---------------------------------------------------------- inert text

  // Characters that brace expansion never looks at twice.
  predicate PlainChar(c: char) {
    c !in {'\\', '$', '\'', '"', '`', '<', '>', '{', '}', ',', ' ', '\t', '\n'}
  }

  predicate QuoteMark(c: char) { c in {'"', '\'', '`'} }

  function Behind(n: nat, rest: Option<nat>): Option<nat> {
    if rest.Some? then Some(n + rest.value) else None
  }

  // How much of s a run quoted by q takes, its closing quote included, the
  // opening one having been read.  A backslash hides the character after it,
  // except between single quotes.
  function RunLength(s: string, q: char): (n: Option<nat>)
    ensures n.Some? ==> 0 < n.value <= |s| && s[n.value - 1] == q
  {
    if s == [] then None
    else if s[0] == q then Some(1)
    else if s[0] == '\\' && q != '\'' then if |s| == 1 then None else Behind(2, RunLength(s[2..], q))
    else Behind(1, RunLength(s[1..], q))
  }

  // What goes together at the start of text that stands for itself, inside so
  // many ${: a plain character, a backslash pair, a quoted run, or a ${ with
  // anything up to its }.  How long it is, and the depth behind it.
  function FirstUnit(s: string, depth: nat): (u: Option<(nat, nat)>)
    requires s != []
    ensures u.Some? ==> 0 < u.value.0 <= |s|
  {
    if s[0] == '\\' then if |s| >= 2 then Some((2, depth)) else None
    else if QuoteMark(s[0]) then
      var n := RunLength(s[1..], s[0]);
      if n.Some? then Some((1 + n.value, depth)) else None
    else if s[0] in {'$', '<', '>'} then
      if |s| < 2 || s[1] == '(' then None
      else if s[0] == '$' && s[1] == '{' then Some((2, depth + 1))
      else Some((1, depth))
    else if s[0] == '}' then if depth > 0 then Some((1, depth - 1)) else None
    else if if depth > 0 then s[0] != '{' else PlainChar(s[0]) then Some((1, depth))
    else None
  }

  predicate InertIn(s: string, depth: nat) {
    if s == [] then depth == 0
    else
      var u := FirstUnit(s, depth);
      u.Some? && InertIn(s[u.value.0..], u.value.1)
  }

  predicate Inert(s: string) { InertIn(s, 0) }

  lemma {:induction false} RunAppend(s: string, t: string, q: char)
    requires RunLength(s, q).Some?
    ensures RunLength(s + t, q) == RunLength(s, q)
  {
    if s[0] == q {
    } else if s[0] == '\\' && q != '\'' {
      assert (s + t)[2..] == s[2..] + t;
      RunAppend(s[2..], t, q);
    } else {
      assert (s + t)[1..] == s[1..] + t;
      RunAppend(s[1..], t, q);
    }
  }

  // The first unit is the same before more text.
  lemma UnitStays(s: string, t: string, depth: nat)
    requires s != [] && FirstUnit(s, depth).Some?
    ensures FirstUnit(s + t, depth) == FirstUnit(s, depth)
  {
    hide RunLength;
    var u := s + t;
    assert u[0] == s[0] && u[1..] == s[1..] + t && (|s| > 1 ==> u[1] == s[1]);
    if QuoteMark(s[0]) && s[0] != '\\' { RunAppend(s[1..], t, s[0]); }
  }

  lemma {:induction false} InertAppendIn(s: string, t: string, depth: nat)
    requires InertIn(s, depth) && Inert(t)
    ensures InertIn(s + t, depth)
    decreases |s|
  {
    if s == [] {
      assert s + t == t;
    } else {
      hide FirstUnit;
      var (n, d) := FirstUnit(s, depth).value;
      assert InertIn(s[n..], d);
      hide InertIn;
      InertAppendIn(s[n..], t, d);
      UnitStays(s, t, depth);
      DropAppend(s, t, n);
      InertFrom(s + t, depth);
    }
  }

  lemma DropAppend(s: string, t: string, n: nat)
    requires n <= |s|
    ensures (s + t)[n..] == s[n..] + t
  {
  }

  lemma InertFrom(s: string, depth: nat)
    requires s != [] && FirstUnit(s, depth).Some?
    requires var (n, d) := FirstUnit(s, depth).value; InertIn(s[n..], d)
    ensures InertIn(s, depth)
  {
    hide FirstUnit;
  }

  lemma InertAppend(s: string, t: string)
    requires Inert(s) && Inert(t)
    ensures Inert(s + t)
  {
    InertAppendIn(s, t, 0);
  }

  // ------------------------------------------------------------- printing

  function Print(w: Word): string {
    match w
    case Text(t) => t
    case Group(pre, amble, post) => pre + "{" + PrintAmble(amble) + "}" + Print(post)
  }

  function PrintAmble(a: Amble): string {
    match a
    case Range(spec) => spec
    case One(w) => Print(w)
    case More(w, rest) => Print(w) + "," + PrintAmble(rest)
  }

  predicate IsRange(spec: string) {
    (forall k :: 0 <= k < |spec| ==> PlainChar(spec[k])) && ExpandSeqterm(spec).Some?
  }

  // Every text is inert, every group has two branches or is a sequence.
  predicate WellFormed(w: Word) {
    match w
    case Text(t) => Inert(t)
    case Group(pre, amble, post) =>
      Inert(pre) && !amble.One? && WellFormedAmble(amble) && WellFormed(post)
  }

  predicate WellFormedAmble(a: Amble) {
    match a
    case Range(spec) => IsRange(spec)
    case One(w) => WellFormed(w)
    case More(w, rest) => WellFormed(w) && !rest.Range? && WellFormedAmble(rest)
  }

  // ------------------------------------------------------------- scanning

  // The scanner outside quotes.
  function Open(level: nat, commas: nat): Scan { Scan(level, NoQuote, commas, false) }

  predicate At(text: string, i: nat, s: string) { i + |s| <= |text| && text[i..i + |s|] == s }

  lemma AtDrop(text: string, i: nat, s: string, n: nat)
    requires At(text, i, s) && 0 < n <= |s|
    ensures text[i] == s[0] && At(text, i + n, s[n..]) && i + |s| <= |text|
  {
    assert text[i] == text[i..i + |s|][0];
    assert text[i + n..i + |s|] == text[i..i + |s|][n..];
  }

  lemma StepPlain(text: string, i: nat, satisfy: char, level: nat, commas: nat) returns (c: nat)
    requires i < |text| && PlainChar(text[i]) && satisfy in {'{', '}', ','}
    ensures c >= commas
    ensures satisfy == '}' && level == 0 && SequenceDots(text, i) ==> c == commas + 1
    ensures Gobble(text, i, satisfy, Open(level, commas)) == Gobble(text, i + 1, satisfy, Open(level, c))
  {
    c := ScanStep(text, i, satisfy, Open(level, commas)).st.commas;
  }

  lemma StepEscape(text: string, i: nat, satisfy: char, level: nat, commas: nat)
    requires i + 1 < |text| && text[i] == '\\'
    ensures Gobble(text, i, satisfy, Open(level, commas)) == Gobble(text, i + 2, satisfy, Open(level, commas))
  {
    assert ScanStep(text, i, satisfy, Open(level, commas)) == Go(Scan(level, NoQuote, commas, true));
    assert ScanStep(text, i + 1, satisfy, Scan(level, NoQuote, commas, true)) == Go(Open(level, commas));
  }

  lemma StepOpen(text: string, i: nat, satisfy: char, level: nat, commas: nat)
    requires i < |text| && text[i] == '{' && satisfy != '{'
    ensures Gobble(text, i, satisfy, Open(level, commas)) == Gobble(text, i + 1, satisfy, Open(level + 1, commas))
  {
  }

  lemma StepClose(text: string, i: nat, satisfy: char, level: nat, commas: nat)
    requires i < |text| && text[i] == '}'
    ensures Gobble(text, i, satisfy, Open(level + 1, commas)) == Gobble(text, i + 1, satisfy, Open(level, commas))
  {
  }

  // A comma separates at level 0 only; there it stops a search for a comma
  // and counts in a search for a close brace.
  lemma StepComma(text: string, i: nat, satisfy: char, level: nat, commas: nat)
    requires i < |text| && text[i] == ','
    requires satisfy == '}' || (satisfy == ',' && level > 0)
    ensures Gobble(text, i, satisfy, Open(level, commas))
         == Gobble(text, i + 1, satisfy, Open(level, if level == 0 then commas + 1 else commas))
  {
  }

  // The scanner inside a run quoted by q.
  function Quoted(q: char, level: nat, commas: nat): Scan { Scan(level, q, commas, false) }

  // ${ in quotes takes two turns, like any two characters there.
  lemma StepQuoted(text: string, i: nat, q: char, satisfy: char, level: nat, commas: nat)
    requires i + 1 < |text| && QuoteMark(q) && text[i] != q
    ensures var two := (text[i] == '\\' && q != '\'') || (text[i] == '$' && text[i + 1] == '{' && q != '\'');
      Gobble(text, i, satisfy, Quoted(q, level, commas)) ==
      Gobble(text, if two then i + 2 else i + 1, satisfy, Quoted(q, level, commas))
  {
    var st, passing := Quoted(q, level, commas), Scan(level, q, commas, true);
    assert ScanStep(text, i + 1, satisfy, passing) == Go(st);
  }

  lemma CloseQuote(text: string, i: nat, q: char, satisfy: char, level: nat, commas: nat)
    requires i < |text| && QuoteMark(q) && text[i] == q
    ensures Gobble(text, i, satisfy, Quoted(q, level, commas)) == Gobble(text, i + 1, satisfy, Open(level, commas))
  {
  }

  // The first turn of the scanner in a run takes this many characters.
  function RunStep(s: string, q: char): (n: nat)
    requires QuoteMark(q) && RunLength(s, q).Some?
    ensures 0 < n <= RunLength(s, q).value
    ensures s[0] != q ==> |s| >= 2 && RunLength(s, q) == Behind(n, RunLength(s[n..], q)) && RunLength(s[n..], q).Some?
    ensures s[0] != q ==>
              n == if (s[0] == '\\' && q != '\'') || (s[0] == '$' && s[1] == '{' && q != '\'') then 2 else 1
  {
    if s[0] != q && s[0] == '\\' && q != '\'' then 2
    else if s[0] != q && s[0] == '$' && s[1] == '{' && q != '\'' then
      assert RunLength(s, q) == Behind(1, RunLength(s[1..], q));
      assert RunLength(s[1..], q) == Behind(1, RunLength(s[1..][1..], q));
      assert s[1..][1..] == s[2..];
      2
    else 1
  }

  // A quoted run is passed over, and nothing in it counts.
  lemma {:induction false} SkipRun(text: string, i: nat, s: string, q: char, satisfy: char, level: nat, commas: nat)
    requires At(text, i, s) && QuoteMark(q) && RunLength(s, q).Some?
    ensures Gobble(text, i, satisfy, Quoted(q, level, commas))
         == Gobble(text, i + RunLength(s, q).value, satisfy, Open(level, commas))
    decreases |s|
  {
    hide Gobble, At, RunLength, QuoteMark;
    var n := RunStep(s, q);
    AtDrop(text, i, s, 1);
    if s[0] == q {
      RunCloses(s, q);
      CloseQuote(text, i, q, satisfy, level, commas);
    } else {
      AtDrop(text, i + 1, s[1..], 1);
      AtDrop(text, i, s, n);
      StepQuoted(text, i, q, satisfy, level, commas);
      SkipRun(text, i + n, s[n..], q, satisfy, level, commas);
    }
  }

  lemma RunCloses(s: string, q: char)
    requires s != [] && s[0] == q
    ensures RunLength(s, q) == Some(1)
  {
  }

  lemma StepOpenQuote(text: string, i: nat, satisfy: char, level: nat, commas: nat)
    requires i < |text| && QuoteMark(text[i])
    ensures Gobble(text, i, satisfy, Open(level, commas)) == Gobble(text, i + 1, satisfy, Quoted(text[i], level, commas))
  {
  }

  lemma StepDollarBrace(text: string, i: nat, satisfy: char, level: nat, commas: nat)
    requires i + 1 < |text| && text[i] == '$' && text[i + 1] == '{'
    ensures Gobble(text, i, satisfy, Open(level, commas)) == Gobble(text, i + 2, satisfy, Open(level + 1, commas))
  {
    var passing := Scan(level + 1, NoQuote, commas, true);
    assert ScanStep(text, i, satisfy, Open(level, commas)) == Go(passing);
    assert ScanStep(text, i + 1, satisfy, passing) == Go(Open(level + 1, commas));
  }

  // Any other character, inside ${ or plain.
  lemma StepOther(text: string, i: nat, satisfy: char, level: nat, depth: nat, commas: nat) returns (c: nat)
    requires i < |text| && satisfy in {'{', '}', ','}
    requires text[i] !in {'\\', '{', '}'} && !QuoteMark(text[i])
    requires text[i] == '$' ==> i + 1 < |text| && text[i + 1] != '{'
    requires depth > 0 || PlainChar(text[i]) || text[i] in {'$', '<', '>'}
    ensures c >= commas && (level + depth > 0 || text[i] != '.' ==> c == commas)
    ensures Gobble(text, i, satisfy, Open(level + depth, commas)) == Gobble(text, i + 1, satisfy, Open(level + depth, c))
  {
    c := ScanStep(text, i, satisfy, Open(level + depth, commas)).st.commas;
  }

  lemma SkipUnit(text: string, i: nat, s: string, depth: nat, satisfy: char, level: nat, commas: nat) returns (c: nat)
    requires At(text, i, s) && s != [] && FirstUnit(s, depth).Some? && satisfy in {'{', '}', ','}
    ensures c >= commas && (level > 0 || '.' !in s ==> c == commas)
    ensures var (n, d) := FirstUnit(s, depth).value;
      && At(text, i + n, s[n..]) && i + n <= |text|
      && Gobble(text, i, satisfy, Open(level + depth, commas)) == Gobble(text, i + n, satisfy, Open(level + d, c))
  {
    hide Gobble, PlainChar, At, RunLength, QuoteMark;
    AtDrop(text, i, s, 1);
    AtDrop(text, i, s, FirstUnit(s, depth).value.0);
    c := commas;
    if s[0] == '\\' {
      StepEscape(text, i, satisfy, level + depth, commas);
    } else if QuoteMark(s[0]) {
      StepOpenQuote(text, i, satisfy, level + depth, commas);
      SkipRun(text, i + 1, s[1..], s[0], satisfy, level + depth, commas);
    } else if s[0] == '$' && s[1] == '{' {
      AtDrop(text, i + 1, s[1..], 1);
      StepDollarBrace(text, i, satisfy, level + depth, commas);
    } else if s[0] == '}' {
      StepClose(text, i, satisfy, level + depth - 1, commas);
    } else {
      if s[0] == '$' { AtDrop(text, i + 1, s[1..], 1); }
      PlainIsNoBrace(s[0]);
      c := StepOther(text, i, satisfy, level, depth, commas);
    }
  }

  lemma PlainIsNoBrace(c: char)
    ensures PlainChar(c) ==> c != '{'
  {
  }

  lemma {:induction false} SkipInertIn(text: string, i: nat, s: string, depth: nat, satisfy: char, level: nat,
                                       commas: nat) returns (c: nat)
    requires At(text, i, s) && InertIn(s, depth)
    requires satisfy in {'{', '}', ','}
    ensures c >= commas && (level > 0 || '.' !in s ==> c == commas)
    ensures Gobble(text, i, satisfy, Open(level + depth, commas)) == Gobble(text, i + |s|, satisfy, Open(level, c))
    decreases |s|
  {
    hide Gobble, FirstUnit, At;
    if s == [] {
      c := commas;
    } else {
      var (n, d) := FirstUnit(s, depth).value;
      c := SkipUnit(text, i, s, depth, satisfy, level, commas);
      c := SkipInertIn(text, i + n, s[n..], d, satisfy, level, c);
    }
  }

  lemma SkipInert(text: string, i: nat, s: string, satisfy: char, level: nat, commas: nat) returns (c: nat)
    requires At(text, i, s) && Inert(s)
    requires satisfy in {'{', '}', ','}
    ensures c >= commas && (level > 0 || '.' !in s ==> c == commas)
    ensures Gobble(text, i, satisfy, Open(level, commas)) == Gobble(text, i + |s|, satisfy, Open(level, c))
  {
    hide Gobble;
    c := SkipInertIn(text, i, s, 0, satisfy, level, commas);
  }

  // No dots outside its groups.
  predicate Quiet(w: Word) {
    match w
    case Text(t) => '.' !in t
    case Group(pre, _, post) => '.' !in pre && Quiet(post)
  }

  // A word is skipped as a whole: its braces are balanced, and its commas lie
  // inside them.
  lemma {:induction false} SkipWord(text: string, i: nat, w: Word, satisfy: char, level: nat, commas: nat)
    returns (c: nat)
    requires At(text, i, Print(w)) && WellFormed(w)
    requires satisfy in {'}', ','}
    ensures c >= commas && (level > 0 || Quiet(w) ==> c == commas)
    ensures Gobble(text, i, satisfy, Open(level, commas))
         == Gobble(text, i + |Print(w)|, satisfy, Open(level, c))
    decreases w, 0
  {
    hide Gobble, Inert, At, PrintAmble, WellFormedAmble;
    match w
    case Text(t) =>
      c := SkipInert(text, i, t, satisfy, level, commas);
    case Group(pre, amble, post) =>
      var inner := PrintAmble(amble);
      GroupAt(text, i, pre, amble, post);
      c := SkipInert(text, i, pre, satisfy, level, commas);
      StepOpen(text, i + |pre|, satisfy, level, c);
      c := SkipAmble(text, i + |pre| + 1, amble, satisfy, level + 1, c);
      StepClose(text, i + |pre| + 1 + |inner|, satisfy, level, c);
      c := SkipWord(text, i + |pre| + 1 + |inner| + 1, post, satisfy, level, c);
  }

  lemma GroupAt(text: string, i: nat, pre: string, amble: Amble, post: Word)
    requires At(text, i, Print(Group(pre, amble, post)))
    ensures At(text, i, pre) && At(text, i + |pre| + 1, PrintAmble(amble))
    ensures At(text, i + |pre| + 1 + |PrintAmble(amble)| + 1, Print(post))
    ensures i + |pre| + 1 + |PrintAmble(amble)| < |text|
    ensures text[i + |pre|] == '{' && text[i + |pre| + 1 + |PrintAmble(amble)|] == '}'
    ensures |Print(Group(pre, amble, post))| == |pre| + 1 + |PrintAmble(amble)| + 1 + |Print(post)|
  {
    var inner, rest := PrintAmble(amble), Print(post);
    BracesAt(text, i, pre, inner, rest);
  }

  lemma BracesAt(text: string, i: nat, pre: string, inner: string, post: string)
    requires At(text, i, pre + "{" + inner + "}" + post)
    ensures At(text, i, pre) && At(text, i + |pre| + 1, inner) && At(text, i + |pre| + 1 + |inner| + 1, post)
    ensures text[i + |pre|] == '{' && text[i + |pre| + 1 + |inner|] == '}'
  {
    hide At;
    assert pre + "{" + inner + "}" + post == pre + "{" + (inner + "}" + post);
    AtSeparated(text, i, pre, "{", inner + "}" + post);
    AtSeparated(text, i + |pre| + 1, inner, "}", post);
  }

  lemma AtSeparated(text: string, i: nat, left: string, sep: string, right: string)
    requires At(text, i, left + sep + right) && |sep| == 1
    ensures At(text, i, left) && At(text, i + |left| + 1, right)
    ensures i + |left| < |text| && text[i + |left|] == sep[0]
  {
    var s := text[i..i + |left| + 1 + |right|];
    assert text[i..i + |left|] == s[..|left|];
    assert text[i + |left| + 1..i + |left| + 1 + |right|] == s[|left| + 1..];
    assert text[i + |left|] == s[|left|];
  }

  lemma {:induction false} SkipAmble(text: string, i: nat, a: Amble, satisfy: char, level: nat, commas: nat)
    returns (c: nat)
    requires At(text, i, PrintAmble(a)) && WellFormedAmble(a)
    requires satisfy == '}' || (satisfy == ',' && level > 0)
    requires i + |PrintAmble(a)| < |text|
    ensures c >= commas && (level > 0 ==> c == commas)
    ensures level == 0 && !a.One? ==> c > commas
    ensures Gobble(text, i, satisfy, Open(level, commas))
         == Gobble(text, i + |PrintAmble(a)|, satisfy, Open(level, c))
    decreases a, 0
  {
    hide Gobble, ExpandSeqterm, IsRange, Inert, At, Print, WellFormed;
    match a
    case Range(spec) =>
      RangeIsInert(spec);
      if level == 0 {
        c := SkipRange(text, i, spec, commas);
      } else {
        c := SkipInert(text, i, spec, satisfy, level, commas);
      }
    case One(w) =>
      c := SkipWord(text, i, w, satisfy, level, commas);
    case More(w, rest) =>
      c := SkipPiece(text, i, Print(w), PrintAmble(rest), w, satisfy, level, commas);
      c := SkipAmble(text, i + |Print(w)| + 1, rest, satisfy, level, c);
  }

  // A piece and the comma after it.
  lemma SkipPiece(text: string, i: nat, piece: string, others: string, w: Word,
                  satisfy: char, level: nat, commas: nat) returns (c: nat)
    requires piece == Print(w) && WellFormed(w)
    requires At(text, i, piece + "," + others)
    requires satisfy == '}' || (satisfy == ',' && level > 0)
    ensures c >= commas && (if level == 0 then c > commas else c == commas)
    ensures At(text, i + |piece| + 1, others) && i + |piece| + 1 <= |text|
    ensures Gobble(text, i, satisfy, Open(level, commas))
         == Gobble(text, i + |piece| + 1, satisfy, Open(level, c))
    decreases w, 1
  {
    hide Gobble, At, Print, WellFormed;
    AtSeparated(text, i, piece, ",", others);
    c := SkipWord(text, i, w, satisfy, level, commas);
    StepComma(text, i + |piece|, satisfy, level, c);
    c := if level == 0 then c + 1 else c;
  }

  lemma {:induction false} PlainIsInert(s: string)
    requires forall k :: 0 <= k < |s| ==> PlainChar(s[k])
    ensures Inert(s)
  {
    if s != [] { PlainIsInert(s[1..]); }
  }

  lemma RangeIsInert(spec: string)
    requires IsRange(spec)
    ensures Inert(spec)
  {
    hide ExpandSeqterm;
    PlainIsInert(spec);
  }

  // The dots of a sequence expression count as a separator.
  lemma SkipRange(text: string, i: nat, spec: string, commas: nat) returns (c: nat)
    requires At(text, i, spec) && IsRange(spec) && i + |spec| < |text|
    ensures c > commas
    ensures Gobble(text, i, '}', Open(0, commas)) == Gobble(text, i + |spec|, '}', Open(0, c))
  {
    hide Gobble, Inert, ExpandSeqterm, At;
    var l := DotsOf(spec);
    var left, right := spec[..l], spec[l + 1..];
    PlainIsInert(left);
    PlainIsInert(right);
    DotsAt(text, i, spec, l);
    c := SkipInert(text, i, left, '}', 0, commas);
    c := StepPlain(text, i + l, '}', 0, c);
    c := SkipInert(text, i + l + 1, right, '}', 0, c);
  }

  lemma DotsAt(text: string, i: nat, spec: string, l: nat)
    requires At(text, i, spec) && l + 2 < |spec|
    ensures At(text, i, spec[..l]) && At(text, i + l + 1, spec[l + 1..])
    ensures i + l + 2 < |text|
    ensures text[i + l] == spec[l] && text[i + l + 1] == spec[l + 1] && text[i + l + 2] == spec[l + 2]
  {
    var s := text[i..i + |spec|];
    assert text[i..i + l] == s[..l];
    assert text[i + l + 1..i + |spec|] == s[l + 1..];
    assert text[i + l] == s[l] && text[i + l + 1] == s[l + 1] && text[i + l + 2] == s[l + 2];
  }

  lemma DotsOf(spec: string) returns (l: nat)
    requires ExpandSeqterm(spec).Some?
    ensures l + 2 < |spec| && spec[l] == '.' && spec[l + 1] == '.'
  {
    l := FindDots(spec, 0);
  }

  // ---------------------------------------------- parsing undoes printing

  // The first character after an open brace is neither white space nor '}'.
  lemma {:induction false} PrintStarts(w: Word)
    requires WellFormed(w) && Print(w) != []
    ensures !BraceWhitespace(Print(w)[0]) && Print(w)[0] != '}'
  {
  }

  lemma {:induction false} AmbleStarts(a: Amble)
    requires WellFormedAmble(a) && !a.One?
    ensures PrintAmble(a) != []
    ensures !BraceWhitespace(PrintAmble(a)[0]) && PrintAmble(a)[0] != '}'
  {
    hide Inert, ExpandSeqterm;
    match a
    case Range(spec) =>
      var l := DotsOf(spec);
      assert PlainChar(spec[0]);
    case More(w, rest) =>
      if Print(w) != [] { PrintStarts(w); }
  }

  lemma StopOpen(text: string, i: nat, commas: nat)
    requires i + 1 < |text| && text[i] == '{' && commas > 0
    requires !BraceWhitespace(text[i + 1]) && text[i + 1] != '}'
    ensures Gobble(text, i, '{', Open(0, commas)) == i
  {
  }

  lemma StopSatisfied(text: string, i: nat, satisfy: char, commas: nat)
    requires i < |text| && text[i] == satisfy && satisfy in {'}', ','} && commas > 0
    ensures Gobble(text, i, satisfy, Open(0, commas)) == i
  {
  }

  lemma StopEnd(text: string, satisfy: char, st: Scan)
    ensures Gobble(text, |text|, satisfy, st) == |text|
  {
  }

  lemma FindNoBrace(text: string)
    requires Inert(text)
    ensures FindBrace(text, 0) == |text|
  {
    hide Gobble, Inert;
    WholeAt(text);
    var c := SkipInert(text, 0, text, '{', 0, 1);
    StopEnd(text, '{', Open(0, c));
  }

  lemma WholeAt(text: string)
    ensures At(text, 0, text)
  {
    assert text[0..|text|] == text;
  }

  // A printed group in a text: where the search for it stops, and its end.
  lemma GroupOpens(text: string, i: nat, pre: string, amble: Amble, post: Word, commas: nat)
    requires At(text, i, Print(Group(pre, amble, post))) && WellFormed(Group(pre, amble, post)) && commas > 0
    ensures i + |pre| < |text| && Gobble(text, i, '{', Open(0, commas)) == i + |pre|
  {
    hide Gobble, Inert, At, Print, PrintAmble, WellFormedAmble;
    GroupAt(text, i, pre, amble, post);
    AmbleStarts(amble);
    AtDrop(text, i + |pre| + 1, PrintAmble(amble), 1);
    var c := SkipInert(text, i, pre, '{', 0, commas);
    StopOpen(text, i + |pre|, c);
  }

  lemma GroupCloses(text: string, i: nat, pre: string, amble: Amble, post: Word)
    requires At(text, i, Print(Group(pre, amble, post))) && WellFormed(Group(pre, amble, post))
    ensures i + |pre| + 1 + |PrintAmble(amble)| < |text|
    ensures Gobble(text, i + |pre| + 1, '}', ScanStart('}')) == i + |pre| + 1 + |PrintAmble(amble)|
  {
    hide Gobble, Inert, At, Print, PrintAmble, WellFormedAmble;
    GroupAt(text, i, pre, amble, post);
    var d := SkipAmble(text, i + |pre| + 1, amble, '}', 0, 0);
    StopSatisfied(text, i + |pre| + 1 + |PrintAmble(amble)|, '}', d);
  }

  lemma FindGroup(pre: string, amble: Amble, post: Word)
    requires WellFormed(Group(pre, amble, post))
    ensures var text := Print(Group(pre, amble, post));
      && FindBrace(text, 0) == |pre| < |text|
      && Gobble(text, |pre| + 1, '}', ScanStart('}')) == |pre| + 1 + |PrintAmble(amble)|
  {
    hide Gobble, At, Print, PrintAmble, WellFormed;
    var text := Print(Group(pre, amble, post));
    WholeAt(text);
    GroupOpens(text, 0, pre, amble, post, 1);
    GroupCloses(text, 0, pre, amble, post);
  }

  lemma {:induction false} CommaPastRun(text: string, i: nat, s: string, q: char)
    requires At(text, i, s) && QuoteMark(q) && RunLength(s, q).Some?
    requires HasComma(text, i + RunLength(s, q).value)
    ensures HasComma(text, i)
    decreases |s|
  {
    hide At;
    AtDrop(text, i, s, 1);
    if s[0] == q {
    } else if s[0] == '\\' {
      assert |s| >= 2;
      AtDrop(text, i, s, 2);
      if q == '\'' && s[1] == q {
        assert RunLength(s[1..], q) == Some(1);
      } else {
        if q == '\'' {
          assert s[1..][1..] == s[2..];
          assert RunLength(s, q) == Behind(1, Behind(1, RunLength(s[2..], q)));
        }
        CommaPastRun(text, i + 2, s[2..], q);
      }
    } else {
      CommaPastRun(text, i + 1, s[1..], q);
    }
  }

  lemma CommaPastUnit(text: string, i: nat, s: string, depth: nat)
    requires At(text, i, s) && s != [] && FirstUnit(s, depth).Some?
    requires i + FirstUnit(s, depth).value.0 <= |text| && HasComma(text, i + FirstUnit(s, depth).value.0)
    ensures HasComma(text, i)
  {
    hide At, PlainChar, RunLength;
    AtDrop(text, i, s, 1);
    if QuoteMark(s[0]) {
      CommaPastRun(text, i + 1, s[1..], s[0]);
    } else if s[0] == '$' && s[1] == '{' {
      AtDrop(text, i + 1, s[1..], 1);
      assert HasComma(text, i + 1);
    }
  }

  // A comma behind inert text is found from before it.
  lemma {:induction false} CommaPastInertIn(text: string, i: nat, s: string, depth: nat)
    requires At(text, i, s) && InertIn(s, depth) && HasComma(text, i + |s|)
    ensures HasComma(text, i)
    decreases |s|
  {
    hide At, FirstUnit;
    if s != [] {
      var (n, d) := FirstUnit(s, depth).value;
      AtDrop(text, i, s, n);
      CommaPastInertIn(text, i + n, s[n..], d);
      CommaPastUnit(text, i, s, depth);
    }
  }

  lemma CommaPastInert(text: string, i: nat, s: string)
    requires At(text, i, s) && Inert(s) && HasComma(text, i + |s|)
    ensures HasComma(text, i)
  {
    CommaPastInertIn(text, i, s, 0);
  }

  // A comma after a word or an amble is still found from before it.
  lemma {:induction false} CommaPastWord(text: string, i: nat, w: Word)
    requires At(text, i, Print(w)) && WellFormed(w) && HasComma(text, i + |Print(w)|)
    ensures HasComma(text, i)
    decreases w
  {
    hide Inert, At, PrintAmble, WellFormedAmble;
    match w
    case Text(t) =>
      CommaPastInert(text, i, t);
    case Group(pre, amble, post) =>
      var j := i + |pre| + 1 + |PrintAmble(amble)|;
      GroupAt(text, i, pre, amble, post);
      CommaPastWord(text, j + 1, post);
      assert HasComma(text, j);
      CommaPastAmble(text, i + |pre| + 1, amble);
      assert HasComma(text, i + |pre|);
      CommaPastInert(text, i, pre);
  }

  lemma {:induction false} CommaPastAmble(text: string, i: nat, a: Amble)
    requires At(text, i, PrintAmble(a)) && WellFormedAmble(a)
    requires i + |PrintAmble(a)| <= |text|
    requires a.More? || HasComma(text, i + |PrintAmble(a)|)
    ensures HasComma(text, i)
    decreases a
  {
    hide Inert, At, ExpandSeqterm, WellFormed, Print;
    match a
    case Range(spec) =>
      RangeIsInert(spec);
      CommaPastInert(text, i, spec);
    case One(w) =>
      CommaPastWord(text, i, w);
    case More(w, rest) =>
      AtSeparated(text, i, Print(w), ",", PrintAmble(rest));
      CommaPastWord(text, i, w);
  }

  lemma {:induction false} RangeHasNoComma(spec: string, i: nat)
    requires forall k :: 0 <= k < |spec| ==> PlainChar(spec[k])
    requires i <= |spec|
    ensures !HasComma(spec, i)
    decreases |spec| - i
  {
    if i < |spec| { RangeHasNoComma(spec, i + 1); }
  }

  lemma ParseStep(text: string, i: nat, j: nat, amble: Amble, post: Word)
    requires FindBrace(text, 0) == i < |text|
    requires Gobble(text, i + 1, '}', ScanStart('}')) == j
    requires ParseInside(text[i + 1..j]) == Some(amble) && Parse(text[j + 1..]) == post
    ensures Parse(text) == Group(text[..i], amble, post)
  {
    hide Gobble, FindBrace, ParseInside;
  }

  lemma ParseGroup(pre: string, inner: string, rest: string, amble: Amble, post: Word)
    requires var text := pre + "{" + inner + "}" + rest;
      && FindBrace(text, 0) == |pre| < |text|
      && Gobble(text, |pre| + 1, '}', ScanStart('}')) == |pre| + 1 + |inner|
    requires ParseInside(inner) == Some(amble) && Parse(rest) == post
    ensures Parse(pre + "{" + inner + "}" + rest) == Group(pre, amble, post)
  {
    hide Gobble, FindBrace, ParseInside, Parse;
    Slices(pre, inner, rest);
    ParseStep(pre + "{" + inner + "}" + rest, |pre|, |pre| + 1 + |inner|, amble, post);
  }

  // Parsing a printed word gives the word back.
  lemma {:induction false} ParsePrint(w: Word)
    requires WellFormed(w)
    ensures Parse(Print(w)) == w
    decreases w, 1
  {
    hide Gobble, FindBrace, Inert, PrintAmble, ParseInside, Parse;
    match w
    case Text(t) =>
      ParseText(t);
    case Group(pre, amble, post) =>
      FindGroup(pre, amble, post);
      ParsePrintInside(amble);
      ParsePrint(post);
      ParseGroup(pre, PrintAmble(amble), Print(post), amble, post);
  }

  lemma ParseText(t: string)
    requires Inert(t)
    ensures Parse(t) == Text(t)
  {
    hide Gobble, FindBrace, Inert;
    FindNoBrace(t);
  }

  lemma Slices(pre: string, inner: string, post: string)
    ensures var text := pre + "{" + inner + "}" + post;
      && text[..|pre|] == pre
      && text[|pre| + 1..|pre| + 1 + |inner|] == inner
      && text[|pre| + 1 + |inner| + 1..] == post
  {
  }

  lemma {:induction false} ParsePrintInside(a: Amble)
    requires WellFormedAmble(a) && !a.One?
    ensures ParseInside(PrintAmble(a)) == Some(a)
    decreases a, 2
  {
    hide Gobble, Inert, ExpandSeqterm, ParseAmble, WellFormed;
    var text := PrintAmble(a);
    match a
    case Range(spec) =>
      RangeHasNoComma(spec, 0);
    case More(w, rest) =>
      WholeAt(text);
      CommaPastAmble(text, 0, a);
      ParsePrintAmble(text, 0, a);
  }

  // From the start of a piece on, the pieces are read off one by one.
  lemma {:induction false} ParsePrintAmble(text: string, start: nat, a: Amble)
    requires WellFormedAmble(a) && !a.Range?
    requires At(text, start, PrintAmble(a)) && start + |PrintAmble(a)| == |text|
    ensures ParseAmble(text, start) == a
    decreases a, 1
  {
    hide Gobble, Inert, Print, WellFormed, Parse;
    match a
    case One(w) =>
      var c := SkipWord(text, start, w, ',', 0, 1);
      StopEnd(text, ',', Open(0, c));
      ParsePrint(w);
    case More(w, rest) =>
      var i := start + |Print(w)|;
      AtSeparated(text, start, Print(w), ",", PrintAmble(rest));
      var c := SkipWord(text, start, w, ',', 0, 1);
      StopSatisfied(text, i, ',', c);
      ParsePrint(w);
      ParsePrintAmble(text, i + 1, rest);
  }
}
