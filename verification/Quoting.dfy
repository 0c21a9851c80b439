// Backslash quoting (lib/sh/shquote.c), and how the shell reads a quoted word
// back: every character that means something else to it is hidden.

module Quoting {
  import opened Options
  import opened BraceWords

  predicate NeedsBackslash(c: char) {
    c in {' ', '\t', '\n', '\'', '"', '\\', '|', '&', ';', '(', ')', '<', '>', '!',
          '{', '}', '*', '[', '?', ']', '^', '$', '`', ','}
  }

  // A comment character is quoted at the start of the string only.
  function QuoteChar(c: char, first: bool): string {
    if NeedsBackslash(c) || (first && c == '#') then ['\\', c] else [c]
  }

  function QuoteFrom(s: string, first: bool): string {
    if s == [] then [] else QuoteChar(s[0], first) + QuoteFrom(s[1..], false)
  }

  function Quote(s: string): string { QuoteFrom(s, true) }

  method ShBackslashQuote(s: string) returns (r: string)
    ensures r == Quote(s)
  {
    hide QuoteChar;
    r := [];
    var i := 0;
    while i < |s|
      invariant i <= |s|
      invariant r + QuoteFrom(s[i..], i == 0) == Quote(s)
    {
      QuoteStep(r, s, i);
      r := r + QuoteChar(s[i], i == 0);
      i := i + 1;
    }
  }

  lemma QuoteStep(acc: string, s: string, i: nat)
    requires i < |s|
    ensures acc + QuoteFrom(s[i..], i == 0)
         == acc + QuoteChar(s[i], i == 0) + QuoteFrom(s[i + 1..], false)
  {
    hide QuoteChar;
    assert s[i..][1..] == s[i + 1..];
  }

  // Quote removal: a backslash stands for the character after it.
  function Unquote(s: string): string {
    if s == [] then []
    else if s[0] == '\\' && |s| >= 2 then [s[1]] + Unquote(s[2..])
    else [s[0]] + Unquote(s[1..])
  }

  lemma {:induction false} QuoteIsInert(s: string, first: bool)
    ensures Inert(QuoteFrom(s, first))
  {
    if s != [] {
      QuoteIsInert(s[1..], false);
      InertAppend(QuoteChar(s[0], first), QuoteFrom(s[1..], false));
    }
  }

  // Every backslash has a character after it.
  predicate Paired(s: string) {
    s == [] || (if s[0] == '\\' then |s| >= 2 && Paired(s[2..]) else Paired(s[1..]))
  }

  lemma {:induction false} PairedAppend(s: string, t: string)
    requires Paired(s) && Paired(t)
    ensures Paired(s + t)
  {
    if s == [] {
      assert s + t == t;
    } else if s[0] == '\\' {
      assert (s + t)[2..] == s[2..] + t;
      PairedAppend(s[2..], t);
    } else {
      assert (s + t)[1..] == s[1..] + t;
      PairedAppend(s[1..], t);
    }
  }

  lemma {:induction false} QuoteIsPaired(s: string, first: bool)
    ensures Paired(QuoteFrom(s, first))
  {
    if s != [] {
      QuoteIsPaired(s[1..], false);
      PairedAppend(QuoteChar(s[0], first), QuoteFrom(s[1..], false));
    }
  }

  lemma {:induction false} UnquoteAppend(s: string, t: string)
    requires Paired(s)
    ensures Unquote(s + t) == Unquote(s) + Unquote(t)
  {
    if s == [] {
      assert s + t == t;
    } else if s[0] == '\\' {
      assert (s + t)[2..] == s[2..] + t;
      UnquoteAppend(s[2..], t);
    } else {
      assert (s + t)[1..] == s[1..] + t;
      UnquoteAppend(s[1..], t);
    }
  }

  lemma {:induction false} UnquoteQuote(s: string, first: bool)
    ensures Unquote(QuoteFrom(s, first)) == s
  {
    if s != [] {
      UnquoteQuote(s[1..], false);
      UnquoteAppend(QuoteChar(s[0], first), QuoteFrom(s[1..], false));
    }
  }

  // ------------------------------------------------------- what is special

  // The characters that the shell does not read as themselves, by what it
  // takes them for.
  const BlankChars := " \t\n"
  const QuotingChars := "'\"\\"
  const OperatorChars := "|&;()<>"
  const ReservedChars := "!{}"
  const PatternChars := "*[?]"
  const ExpansionChars := "$`"
  const CaretChar := "^"
  const BraceSeparator := ","

  predicate Special(c: char) {
    || c in BlankChars || c in QuotingChars || c in OperatorChars || c in ReservedChars
    || c in PatternChars || c in ExpansionChars || c in CaretChar || c in BraceSeparator
  }

  lemma SpecialIsQuoted(c: char)
    ensures NeedsBackslash(c) <==> Special(c)
  {
  }

  // A character of a text, and whether a backslash stands before it.
  datatype Mark = Mark(c: char, hidden: bool)

  function Marks(s: string): seq<Mark> {
    if s == [] then []
    else if s[0] == '\\' && |s| >= 2 then [Mark(s[1], true)] + Marks(s[2..])
    else [Mark(s[0], false)] + Marks(s[1..])
  }

  lemma {:induction false} MarksAppend(s: string, t: string)
    requires Paired(s)
    ensures Marks(s + t) == Marks(s) + Marks(t)
  {
    if s == [] {
      assert s + t == t;
    } else if s[0] == '\\' {
      assert (s + t)[2..] == s[2..] + t;
      MarksAppend(s[2..], t);
    } else {
      assert (s + t)[1..] == s[1..] + t;
      MarksAppend(s[1..], t);
    }
  }

  // Quote removal keeps the characters.
  lemma {:induction false} MarksUnquoted(s: string)
    ensures |Marks(s)| == |Unquote(s)|
    ensures forall k :: 0 <= k < |Marks(s)| ==> Marks(s)[k].c == Unquote(s)[k]
  {
    if s == [] {
    } else if s[0] == '\\' && |s| >= 2 {
      MarksUnquoted(s[2..]);
    } else {
      MarksUnquoted(s[1..]);
    }
  }

  // Quoting puts a backslash before the special characters and a leading #,
  // and before no other.
  lemma {:induction false} QuoteHides(s: string, first: bool)
    ensures |Marks(QuoteFrom(s, first))| == |s|
    ensures forall k :: 0 <= k < |s| ==>
              Marks(QuoteFrom(s, first))[k] == Mark(s[k], Special(s[k]) || (first && k == 0 && s[k] == '#'))
  {
    if s != [] {
      var q, rest := QuoteChar(s[0], first), QuoteFrom(s[1..], false);
      QuoteHides(s[1..], false);
      MarksAppend(q, rest);
      CharHidden(s[0], first);
    }
  }

  lemma CharHidden(c: char, first: bool)
    ensures Marks(QuoteChar(c, first)) == [Mark(c, Special(c) || (first && c == '#'))]
    ensures Paired(QuoteChar(c, first))
  {
    SpecialIsQuoted(c);
    hide Special;
    var q := QuoteChar(c, first);
    if |q| == 2 {
      assert q[2..] == [];
    } else {
      assert q[1..] == [];
    }
  }

  // Every special character but those in `open', and a leading #, is behind a
  // backslash, and nothing else is.
  predicate Shielded(s: string, open: string) {
    && Paired(s)
    && (forall m :: m in Marks(s) ==>
          && (Special(m.c) && m.c !in open ==> m.hidden)
          && (m.hidden ==> Special(m.c) || m.c == '#'))
    && (s != [] ==> s[0] != '#')
  }

  lemma ShieldedAppend(s: string, t: string, open: string)
    requires Shielded(s, open) && Shielded(t, open)
    ensures Shielded(s + t, open)
  {
    hide Special, Marks;
    PairedAppend(s, t);
    MarksAppend(s, t);
  }

  lemma ShieldedMore(s: string, open: string)
    requires Shielded(s, "")
    ensures Shielded(s, open)
  {
    hide Special, Marks;
  }

  lemma QuoteIsShielded(s: string)
    ensures Shielded(Quote(s), "")
  {
    hide Special, Marks, QuoteFrom, QuoteChar;
    QuoteIsPaired(s, true);
    QuoteHides(s, true);
    QuoteStarts(s);
  }

  lemma QuoteStarts(s: string)
    ensures Quote(s) != [] ==> Quote(s)[0] != '#'
  {
    if s != [] { assert Quote(s)[0] == QuoteChar(s[0], true)[0]; }
  }

  // -------------------------------------------------------- how it is read

  // The words the shell makes of the text of a simple command, when nothing in
  // it is an operator, a quotation, an expansion, a pattern, a brace, a comment
  // or a tilde; None when something is.  Blanks separate words, a backslash
  // stands for the character after it, and with a newline it is no character
  // at all.  `word' is what was read of the current word.
  function Words(s: string, word: Option<string>): Option<seq<string>> {
    if s == [] then Some(if word.Some? then [word.value] else [])
    else if s[0] == '\\' then
      if |s| == 1 then None
      else if s[1] == '\n' then Words(s[2..], word)
      else Words(s[2..], Some(word.GetOr("") + [s[1]]))
    else if s[0] == ' ' || s[0] == '\t' then
      var rest := Words(s[1..], None);
      if rest.Some? && word.Some? then Some([word.value] + rest.value) else rest
    else if Special(s[0]) || (word.None? && s[0] == '#') || (s[0] == '~' && TildeAfter(word.GetOr(""))) then None
    else Words(s[1..], Some(word.GetOr("") + [s[0]]))
  }

  // A tilde is expanded at the start of a word and behind = or :.
  predicate TildeAfter(w: string) { w == [] || w[|w| - 1] == '=' || w[|w| - 1] == ':' }

  predicate TildeFrom(w: string, n: nat) {
    exists k :: n <= k < |w| && w[k] == '~' && TildeAfter(w[..k])
  }

  // What a backslash cannot keep: nothing at all, a newline, a tilde.
  predicate Readable(s: string) { s != [] && '\n' !in s && !TildeFrom(s, 0) }

  // What is read of the rest s of a word begun as `word'.
  predicate ReadOn(s: string, word: Option<string>) {
    var w, r := word.GetOr("") + Unquote(s), Words(s, word);
    if '\n' in Unquote(s) then r.Some? ==> |r.value| <= 1 && (|r.value| == 1 ==> |r.value[0]| < |w|)
    else if (word.None? && s != [] && s[0] == '#') || TildeFrom(w, |word.GetOr("")|) then r == None
    else r == Some(if w == [] then [] else [w])
  }

  lemma TildeStep(w: string, n: nat)
    requires n < |w|
    ensures TildeFrom(w, n) <==> (w[n] == '~' && TildeAfter(w[..n])) || TildeFrom(w, n + 1)
  {
    hide TildeAfter;
  }

  // A newline goes with the backslash before it.
  lemma NewlineRead(s: string, word: Option<string>)
    requires |s| >= 2 && s[0] == '\\' && s[1] == '\n' && ReadOn(s[2..], word)
    ensures ReadOn(s, word)
  {
    hide TildeFrom, Special;
    assert Unquote(s) == ['\n'] + Unquote(s[2..]);
  }

  lemma HiddenRead(s: string, word: Option<string>)
    requires |s| >= 2 && s[0] == '\\' && s[1] !in {'\n', '~'}
    requires ReadOn(s[2..], Some(word.GetOr("") + [s[1]]))
    ensures ReadOn(s, word)
  {
    hide TildeFrom, Special, Words;
    var w := word.GetOr("");
    WordsHidden(s, word);
    assert Unquote(s) == [s[1]] + Unquote(s[2..]);
    assert w + Unquote(s) == w + [s[1]] + Unquote(s[2..]);
    TildeStep(w + Unquote(s), |w|);
  }

  lemma WordsHidden(s: string, word: Option<string>)
    requires |s| >= 2 && s[0] == '\\' && s[1] != '\n'
    ensures Words(s, word) == Words(s[2..], Some(word.GetOr("") + [s[1]]))
  {
  }

  lemma PlainRead(s: string, word: Option<string>)
    requires s != [] && !Special(s[0]) && (word.Some? ==> word.value != [])
    requires ReadOn(s[1..], Some(word.GetOr("") + [s[0]]))
    ensures ReadOn(s, word)
  {
    hide TildeFrom, Words;
    var w := word.GetOr("");
    WordsPlain(s, word);
    assert s[0] !in {'\n', '\\'};
    hide Special;
    assert Unquote(s) == [s[0]] + Unquote(s[1..]);
    assert w + Unquote(s) == w + [s[0]] + Unquote(s[1..]);
    assert (w + Unquote(s))[..|w|] == w;
    TildeStep(w + Unquote(s), |w|);
  }

  lemma WordsPlain(s: string, word: Option<string>)
    requires s != [] && !Special(s[0])
    ensures Words(s, word) ==
            if (word.None? && s[0] == '#') || (s[0] == '~' && TildeAfter(word.GetOr(""))) then None
            else Words(s[1..], Some(word.GetOr("") + [s[0]]))
  {
  }

  lemma ReadEnd(word: Option<string>)
    requires word.Some? ==> word.value != []
    ensures ReadOn([], word)
  {
    assert word.GetOr("") + [] == word.GetOr("");
  }

  lemma {:induction false} ReadsOn(s: string, word: Option<string>)
    requires Paired(s) && forall m :: m in Marks(s) ==> (Special(m.c) ==> m.hidden) && (m.hidden ==> m.c != '~')
    requires word.Some? ==> word.value != []
    ensures ReadOn(s, word)
  {
    hide Special;
    if s == [] {
      ReadEnd(word);
    } else if s[0] == '\\' {
      assert Mark(s[1], true) in Marks(s);
      assert forall m :: m in Marks(s[2..]) ==> m in Marks(s);
      if s[1] == '\n' {
        ReadsOn(s[2..], word);
        NewlineRead(s, word);
      } else {
        ReadsOn(s[2..], Some(word.GetOr("") + [s[1]]));
        HiddenRead(s, word);
      }
    } else {
      assert Mark(s[0], false) in Marks(s);
      assert forall m :: m in Marks(s[1..]) ==> m in Marks(s);
      ReadsOn(s[1..], Some(word.GetOr("") + [s[0]]));
      PlainRead(s, word);
    }
  }

  // A shielded string is one word, its own characters, if and only if it is
  // readable.
  lemma ShieldedIsRead(s: string)
    requires Shielded(s, "")
    ensures Words(s, None) == Some([Unquote(s)]) <==> Readable(Unquote(s))
  {
    assert !Special('~');
    hide Special, Words, Marks, TildeFrom;
    assert ReadOn(s, None) by { ReadsOn(s, None); }
    assert "" + Unquote(s) == Unquote(s);
    if s == [] {
      assert Unquote(s) == [];
      assert Words([], None) == Some([]) by { EmptyIsNoWord(); }
    }
  }

  lemma EmptyIsNoWord()
    ensures Words([], None) == Some([])
  {
  }

  // The shell reads a quoted string back as one word if and only if the string
  // is readable.
  lemma QuoteIsRead(s: string)
    ensures Words(Quote(s), None) == Some([s]) <==> Readable(s)
  {
    hide Special, Words, Marks, Shielded, QuoteFrom, Readable;
    QuoteIsShielded(s);
    ShieldedIsRead(Quote(s));
    UnquoteQuote(s, true);
  }

  // A newline is quoted with a backslash, with which it disappears.
  lemma NewlineIsLost()
    ensures Quote("a\nb") == "a\\\nb" && Words("a\\\nb", None) == Some(["ab"])
  {
    hide Words;
    assert "a\nb"[1..] == "\nb" && "\nb"[1..] == "b" && "b"[1..] == "";
    assert QuoteFrom("b", false) == "b" && QuoteFrom("\nb", false) == "\\\nb";
    NewlineIsRead();
  }

  lemma NewlineIsRead()
    ensures Words("a\\\nb", None) == Some(["ab"])
  {
    hide Special;
    SpecialIsQuoted('a');
    SpecialIsQuoted('b');
    var q := "a\\\nb";
    assert q[1..] == "\\\nb" && q[1..][2..] == "b" && "b"[1..] == "";
    assert "a" + ['b'] == "ab" && [] + ['a'] == "a";
    WordsPlain("b", Some("a"));
    WordsPlain(q, None);
  }
}
