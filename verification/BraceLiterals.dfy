// Braces that are no brace expression: where brace expansion leaves them, and
// goes on behind them.

module BraceLiterals {
  import opened Options
  import opened Braces
  import opened BraceWords
  import opened BraceTrees

  predicate BlankChar(c: char) { c in {' ', '\t', '\n'} }

  // The backslashes right before position k.
  function Slashes(s: string, k: nat): nat
    requires k <= |s|
  {
    if k > 0 && s[k - 1] == '\\' then 1 + Slashes(s, k - 1) else 0
  }

  // A comma that no backslash hides.
  predicate CommaAt(s: string, k: nat) { k < |s| && s[k] == ',' && Slashes(s, k) % 2 == 0 }

  lemma {:induction false} CommaFrom(s: string, j: nat)
    requires j <= |s| && Slashes(s, j) % 2 == 0
    ensures HasComma(s, j) <==> exists k :: j <= k && CommaAt(s, k)
    decreases |s| - j
  {
    if j < |s| {
      if s[j] == '\\' {
        if j + 2 <= |s| {
          assert !CommaAt(s, j) && !CommaAt(s, j + 1);
          CommaFrom(s, j + 2);
        }
      } else {
        if s[j] == ',' { assert CommaAt(s, j); }
        CommaFrom(s, j + 1);
      }
    }
  }

  // An amble is split at commas if and only if there is one that no backslash
  // hides.
  lemma CommaCounts(s: string)
    ensures HasComma(s, 0) <==> exists k :: CommaAt(s, k)
  {
    CommaFrom(s, 0);
    assert forall k :: CommaAt(s, k) ==> 0 <= k && CommaAt(s, k);
  }

  // A brace expression needs both braces, and a comma or two dots.
  lemma NothingToExpand(text: string)
    requires
      || '{' !in text || '}' !in text
      || ((forall k :: !CommaAt(text, k))
          && forall k :: 0 <= k < |text| - 1 ==> !(text[k] == '.' && text[k + 1] == '.'))
    ensures Meaning(Parse(text)) == [text]
  {
    hide Gobble, HasComma, ExpandSeqterm, Meaning, FindBrace, Parse, CommaAt;
    var i := FindBrace(text, 0);
    if i < |text| {
      var j := Gobble(text, i + 1, '}', ScanStart('}'));
      assert text[i] == '{' && text[j] == '}';
      NothingInside(text, i + 1, j);
    }
    ParsesAsText(text);
    TextMeans(text);
  }

  lemma NothingInside(text: string, i: nat, j: nat)
    requires 0 < i <= j <= |text| && text[i - 1] != '\\' && forall k :: !CommaAt(text, k)
    requires forall k :: 0 <= k < |text| - 1 ==> !(text[k] == '.' && text[k + 1] == '.')
    ensures !HasComma(text[i..j], 0) && ExpandSeqterm(text[i..j]) == None
  {
    hide HasComma, ExpandSeqterm;
    var inside := text[i..j];
    forall k: nat ensures !CommaAt(inside, k) {
      if k < |inside| {
        SlashesInside(text, i, j, k);
        assert !CommaAt(text, i + k);
      }
    }
    CommaCounts(inside);
    assert forall k :: 0 <= k < |inside| ==> inside[k] == text[i + k];
    NoDots(inside);
  }

  lemma {:induction false} SlashesInside(text: string, i: nat, j: nat, k: nat)
    requires 0 < i <= j <= |text| && k <= j - i && text[i - 1] != '\\'
    ensures Slashes(text[i..j], k) == Slashes(text, i + k)
  {
    if k > 0 {
      assert text[i..j][k - 1] == text[i + k - 1];
      SlashesInside(text, i, j, k - 1);
    }
  }

  lemma ParsesAsText(text: string)
    requires var i := FindBrace(text, 0); i < |text| ==>
               var inside := text[i + 1..Gobble(text, i + 1, '}', ScanStart('}'))];
               !HasComma(inside, 0) && ExpandSeqterm(inside) == None
    ensures Parse(text) == Text(text)
  {
    hide Gobble, HasComma, ExpandSeqterm, FindBrace;
  }

  lemma TextMeans(text: string)
    ensures Meaning(Text(text)) == [text]
  {
  }

  lemma NoDots(s: string)
    requires forall k :: 0 <= k < |s| - 1 ==> !(s[k] == '.' && s[k + 1] == '.')
    ensures ExpandSeqterm(s) == None
  {
    var l := FindDots(s, 0);
  }

  // The brace at i opens the first brace expression from i on if and only if
  // it does not stand by itself between blanks and has a closing one.
  lemma OpensHere(text: string, i: nat)
    requires i < |text| && text[i] == '{'
    ensures var alone := (i == 0 || BlankChar(text[i - 1]))
                         && (i + 1 == |text| || BlankChar(text[i + 1]) || text[i + 1] == '}');
      && (FindBrace(text, i) == i <==> !alone && Gobble(text, i + 1, '}', ScanStart('}')) < |text|)
      && (FindBrace(text, i) != i ==> FindBrace(text, i) == FindBrace(text, i + 1))
  {
    hide Gobble;
    var alone := LoneBrace(text, i);
    OpenTurn(text, i);
    if alone && i + 1 < |text| { FromNext(text, i); }
  }

  lemma OpenTurn(text: string, i: nat)
    requires i < |text| && text[i] == '{'
    ensures Gobble(text, i, '{', ScanStart('{')) ==
            if LoneBrace(text, i) then Gobble(text, i + 1, '{', ScanStart('{')) else i
  {
    hide LoneBrace;
  }

  lemma FromNext(text: string, i: nat)
    requires i + 1 < |text| && Gobble(text, i, '{', ScanStart('{')) == Gobble(text, i + 1, '{', ScanStart('{'))
    ensures FindBrace(text, i) == FindBrace(text, i + 1)
  {
    hide Gobble;
  }

  // Braces around text without a separator, with dots before the closing one
  // or not.
  function Literal(body: string, dots: bool): string { "{" + body + (if dots then ".." else "") + "}" }

  lemma {:induction false} CloseIgnored(text: string, i: nat, satisfy: char, commas: nat)
    requires i < |text| && text[i] == '}' && (satisfy == '{' || (satisfy == '}' && commas == 0))
    ensures Gobble(text, i, satisfy, Open(0, commas)) == Gobble(text, i + 1, satisfy, Open(0, commas))
  {
  }

  // Dots before a closing brace do not separate.
  lemma LastDotsIgnored(text: string, i: nat, satisfy: char, commas: nat)
    requires i + 2 < |text| && text[i] == '.' && text[i + 1] == '.' && text[i + 2] == '}'
    requires satisfy == '{' || satisfy == '}'
    ensures Gobble(text, i, satisfy, Open(0, commas)) == Gobble(text, i + 2, satisfy, Open(0, commas))
  {
    assert ScanStep(text, i, satisfy, Open(0, commas)) == Go(Open(0, commas));
    assert ScanStep(text, i + 1, satisfy, Open(0, commas)) == Go(Open(0, commas));
  }

  // From behind the open brace to behind the closing one.
  lemma PastLiteral(text: string, body: string, dots: bool, satisfy: char, commas: nat)
    requires At(text, 0, Literal(body, dots)) && Inert(body) && '.' !in body
    requires satisfy == '{' || (satisfy == '}' && commas == 0)
    ensures Gobble(text, 1, satisfy, Open(0, commas)) == Gobble(text, |Literal(body, dots)|, satisfy, Open(0, commas))
  {
    hide Gobble, Inert, At;
    var n := |Literal(body, dots)|;
    LiteralAt(text, body, dots);
    var c := SkipInert(text, 1, body, satisfy, 0, commas);
    if dots { LastDotsIgnored(text, 1 + |body|, satisfy, commas); }
    CloseIgnored(text, n - 1, satisfy, commas);
  }

  lemma LiteralAt(text: string, body: string, dots: bool)
    requires At(text, 0, Literal(body, dots))
    ensures var n := |Literal(body, dots)|;
      && 2 <= n <= |text| && text[0] == '{' && At(text, 1, body) && text[n - 1] == '}'
      && (dots ==> text[1 + |body|] == '.' && text[2 + |body|] == '.' && n == |body| + 4)
      && (!dots ==> n == |body| + 2)
  {
    hide At;
    var s, rest := Literal(body, dots), (if dots then ".." else "") + "}";
    assert s == "{" + (body + rest) && s[1..] == body + rest;
    AtDrop(text, 0, s, 1);
    AtFront(text, 1, body, rest);
    AtDrop(text, 1 + |body|, rest, 1);
    if dots {
      AtDrop(text, 2 + |body|, rest[1..], 1);
      AtDrop(text, 3 + |body|, rest[1..][1..], 1);
    }
  }

  lemma AtFront(text: string, i: nat, a: string, b: string)
    requires At(text, i, a + b)
    ensures At(text, i, a) && At(text, i + |a|, b)
  {
    var s := text[i..i + |a| + |b|];
    assert text[i..i + |a|] == s[..|a|] && text[i + |a|..i + |a| + |b|] == s[|a|..];
  }

  // Its open brace has no closing one in the whole word.
  lemma NoGroupHere(body: string, dots: bool, w: Word)
    requires Inert(body) && '.' !in body && WellFormed(w) && Quiet(w)
    ensures var text := Literal(body, dots) + Print(w);
      Gobble(text, 1, '}', ScanStart('}')) == |text| && FindBrace(text, 0) == FindBrace(text, 1)
  {
    hide Gobble, Inert, At, Print, WellFormed, Quiet, FindBrace;
    var lit := Literal(body, dots);
    var text := lit + Print(w);
    Halves(lit, Print(w));
    LiteralAt(text, body, dots);
    PastLiteral(text, body, dots, '}', 0);
    var c := SkipWord(text, |lit|, w, '}', 0, 0);
    StopEnd(text, '}', Open(0, 0));
    OpensHere(text, 0);
  }

  lemma Halves(s: string, t: string)
    ensures At(s + t, 0, s) && At(s + t, |s|, t) && (s + t)[|s|..] == t && (s + t)[..|s|] == s
  {
    assert (s + t)[0..|s|] == s && (s + t)[|s|..|s| + |t|] == t;
  }

  // The group of w is found behind the literal braces.
  lemma FoundBehind(body: string, dots: bool, pre: string, amble: Amble, post: Word)
    requires Inert(body) && '.' !in body && WellFormed(Group(pre, amble, post)) && Quiet(Group(pre, amble, post))
    ensures var text := Literal(body, dots) + Print(Group(pre, amble, post));
      var i := |Literal(body, dots)| + |pre|;
      && FindBrace(text, 0) == i < |text|
      && Gobble(text, i + 1, '}', ScanStart('}')) == i + 1 + |PrintAmble(amble)|
  {
    hide Gobble, Inert, At, Print, PrintAmble, WellFormed, Quiet, FindBrace, Literal;
    var lit, w := Literal(body, dots), Group(pre, amble, post);
    var text, n := lit + Print(w), |lit|;
    NoGroupHere(body, dots, w);
    Halves(lit, Print(w));
    GroupOpens(text, n, pre, amble, post, 1);
    GroupCloses(text, n, pre, amble, post);
    PastLiteral(text, body, dots, '{', 1);
    LiteralAt(text, body, dots);
    FoundFrom(text, 1, n + |pre|);
  }

  lemma FoundFrom(text: string, i: nat, j: nat)
    requires i <= j < |text| && Gobble(text, i, '{', ScanStart('{')) == j
    requires Gobble(text, j + 1, '}', ScanStart('}')) < |text|
    ensures FindBrace(text, i) == j
  {
    hide Gobble;
  }

  lemma NoneBehind(body: string, dots: bool, t: string)
    requires Inert(body) && '.' !in body && Inert(t) && '.' !in t
    ensures var text := Literal(body, dots) + t; FindBrace(text, 0) == |text|
  {
    hide Gobble, Inert, At, FindBrace;
    var lit := Literal(body, dots);
    var text := lit + t;
    NoGroupHere(body, dots, Text(t));
    Halves(lit, t);
    PastLiteral(text, body, dots, '{', 1);
    var c := SkipInert(text, |lit|, t, '{', 0, 1);
    StopEnd(text, '{', Open(0, c));
    NotFoundFrom(text, 1);
  }

  lemma NotFoundFrom(text: string, i: nat)
    requires i <= |text| && Gobble(text, i, '{', ScanStart('{')) == |text|
    ensures FindBrace(text, i) == |text|
  {
    hide Gobble;
  }

  lemma GroupParts(pre: string, amble: Amble, post: Word)
    requires WellFormed(Group(pre, amble, post))
    ensures !amble.One? && WellFormedAmble(amble) && WellFormed(post)
  {
    hide WellFormedAmble, Inert;
  }

  lemma GroupBehind(body: string, dots: bool, pre: string, amble: Amble, post: Word)
    requires Inert(body) && '.' !in body && WellFormed(Group(pre, amble, post)) && Quiet(Group(pre, amble, post))
    ensures var lit := Literal(body, dots);
      Parse(lit + Print(Group(pre, amble, post))) == Group(lit + pre, amble, post)
  {
    hide Gobble, Inert, PrintAmble, WellFormedAmble, Quiet, ParseInside, Parse, FindBrace, Literal, WellFormed;
    GroupParts(pre, amble, post);
    var lit := Literal(body, dots);
    FoundBehind(body, dots, pre, amble, post);
    Regrouped(lit, pre, PrintAmble(amble), Print(post));
    ParsePrintInside(amble);
    ParsePrint(post);
    ParseGroup(lit + pre, PrintAmble(amble), Print(post), amble, post);
  }

  // A word in braces that are no expression, and any word behind it: the
  // braces stay, and what follows is expanded all the same.
  lemma LiteralBracesStay(body: string, dots: bool, w: Word)
    requires Inert(body) && '.' !in body && WellFormed(w) && Quiet(w)
    ensures Parse(Literal(body, dots) + Print(w)) == Append(Text(Literal(body, dots)), w)
    ensures Meaning(Parse(Literal(body, dots) + Print(w))) == Prefixed(Literal(body, dots), Meaning(w))
  {
    hide Gobble, Inert, PrintAmble, Parse, FindBrace, Product, Prefixed, Meaning, WellFormed, Quiet, Literal;
    var lit := Literal(body, dots);
    match w {
      case Text(t) =>
        QuietText(t);
        NoneBehind(body, dots, t);
        ParseNothing(lit + t);
      case Group(pre, amble, post) =>
        GroupBehind(body, dots, pre, amble, post);
    }
    AppendMeaning(Text(lit), w);
    TextMeans(lit);
    ProductOne(lit, Meaning(w));
  }

  lemma QuietText(t: string)
    requires WellFormed(Text(t)) && Quiet(Text(t))
    ensures Inert(t) && '.' !in t
  {
    hide Inert;
  }

  lemma ParseNothing(text: string)
    requires FindBrace(text, 0) == |text|
    ensures Parse(text) == Text(text)
  {
    hide FindBrace;
  }

  lemma Regrouped(lit: string, pre: string, inner: string, post: string)
    ensures lit + (pre + "{" + inner + "}" + post) == (lit + pre) + "{" + inner + "}" + post
  {
  }

  // ----------------------------------------------------------- quoted pieces

  lemma {:induction false} RunAround(q: char, body: string)
    requires QuoteMark(q) && q !in body && '\\' !in body
    ensures RunLength(body + [q], q) == Some(|body| + 1)
  {
    if body != [] {
      assert (body + [q])[1..] == body[1..] + [q];
      RunAround(q, body[1..]);
    }
  }

  lemma RunIsInert(q: char, body: string)
    requires QuoteMark(q) && q !in body && '\\' !in body
    ensures Inert([q] + body + [q])
  {
    hide RunLength;
    var s := [q] + body + [q];
    RunAround(q, body);
    assert s[1..] == body + [q] && s[|s|..] == [];
    assert FirstUnit(s, 0) == Some((|s|, 0));
    InertFrom(s, 0);
  }

  lemma {:induction false} ParameterBody(body: string)
    requires forall k :: 0 <= k < |body| ==> body[k] !in {'\\', '"', '\'', '`', '$', '<', '>', '{', '}'}
    ensures InertIn(body + "}", 1)
  {
    var s := body + "}";
    if body == [] {
      assert s[1..] == [];
    } else {
      assert s[1..] == body[1..] + "}";
      ParameterBody(body[1..]);
      assert FirstUnit(s, 1) == Some((1, 1));
    }
  }

  lemma ParameterIsInert(body: string)
    requires forall k :: 0 <= k < |body| ==> body[k] !in {'\\', '"', '\'', '`', '$', '<', '>', '{', '}'}
    ensures Inert("${" + body + "}")
  {
    var s := "${" + body + "}";
    ParameterBody(body);
    assert s[2..] == body + "}";
    assert FirstUnit(s, 0) == Some((2, 1));
    InertFrom(s, 0);
  }

  // Two inert pieces in braces are two words, whatever is quoted in them:
  // commas, blanks and braces between quotes or in ${ } do not count.
  lemma TwoPiecesStay(a: string, b: string)
    requires Inert(a) && Inert(b)
    ensures Meaning(Parse("{" + a + "," + b + "}")) == [a, b]
  {
    hide Meaning, Parse, Inert, Strings;
    var others := Final(Lit(b));
    var t := Alt(Lit(a), others);
    assert Show(Lit(a)) == a && Show(Lit(b)) == b && ShowBranches(others) == b;
    assert Proper(Lit(a)) && Proper(Lit(b)) && ProperBranches(others);
    assert Show(t) == "{" + a + "," + b + "}";
    ExpansionIsMeaning(t);
    assert Strings(t) == [a, b] by { TwoStrings(a, b); }
  }

  lemma TwoStrings(a: string, b: string)
    ensures Strings(Alt(Lit(a), Final(Lit(b)))) == [a, b]
  {
    var others := Final(Lit(b));
    assert Strings(Lit(a)) == [a] && Strings(Lit(b)) == [b] && BranchStrings(others) == [b];
  }

  // Whatever is quoted, by any of the three marks, stays together.
  lemma QuotedPieceStays(q: char, body: string, b: string)
    requires QuoteMark(q) && q !in body && '\\' !in body && Inert(b)
    ensures Meaning(Parse("{" + ([q] + body + [q]) + "," + b + "}")) == [[q] + body + [q], b]
  {
    hide Meaning, Parse, Inert;
    RunIsInert(q, body);
    TwoPiecesStay([q] + body + [q], b);
  }

  lemma ParameterStays(body: string, b: string)
    requires forall k :: 0 <= k < |body| ==> body[k] !in {'\\', '"', '\'', '`', '$', '<', '>', '{', '}'}
    requires Inert(b)
    ensures Meaning(Parse("{" + ("${" + body + "}") + "," + b + "}")) == ["${" + body + "}", b]
  {
    hide Meaning, Parse, Inert;
    ParameterIsInert(body);
    TwoPiecesStay("${" + body + "}", b);
  }

  // For instance {"a,b",c}.
  lemma QuotedCommaStays()
    ensures Meaning(Parse("{\"a,b\",c}")) == ["\"a,b\"", "c"]
  {
    hide Meaning, Parse;
    assert Inert("c") by { assert "c"[1..] == []; }
    QuotedPieceStays('"', "a,b", "c");
    assert ['"'] + "a,b" + ['"'] == "\"a,b\"";
    assert "{" + "\"a,b\"" + "," + "c" + "}" == "{\"a,b\",c}";
  }
}
