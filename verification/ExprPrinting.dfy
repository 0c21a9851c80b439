// A printer for expressions: the lexemes of a tree with a blank after each.
// Printing and then evaluating gives what the tree means.

module ExprPrinting {
  import opened Options
  import opened Arithmetic
  import opened Expr
  import opened ExprTrees
  import opened ExprLexing
  import opened ExprParsing
  import opened ExprRoundTrip

  function Spaced(ls: Lexemes): string {
    match ls
    case Nil => ""
    case Cons(h, t) => Spelling(h) + " " + Spaced(t)
  }

  function Printed(e: Tree): string
    requires Valid(e)
  {
    Spaced(Spell(e, 0, Nil))
  }

  predicate Prefix(h: Lexeme) { h == Punct(PreInc) || h == Punct(PreDec) }

  predicate ValidLexeme(h: Lexeme) {
    match h
    case Ident(x) => ValidName(x)
    case Number(n) => ValidNumeral(n)
    case _ => ValidOperator(h)
  }

  // A prefix ++ or -- only stands before a name.
  predicate Printable(ls: Lexemes) {
    ls.Cons? ==> ValidLexeme(ls.head) && (Prefix(ls.head) ==> ls.tail.Cons? && ls.tail.head.Ident?) && Printable(ls.tail)
  }

  predicate Infix(t: Token) {
    BinaryLevel(t) != -1
    || t in {LOr, LAnd, Pow, Char(','), Char('?'), Char(':'), Char('('), Char(')'), Char('='), Char('!'), Char('~')}
  }

  lemma Led(t: Token, rest: Lexemes)
    requires Infix(t) && Printable(rest)
    ensures Printable(Cons(Punct(t), rest))
  {
    hide Printable;
    assert ValidOperator(Punct(t));
    LedBy(Punct(t), rest);
  }

  lemma LedBy(h: Lexeme, rest: Lexemes)
    requires ValidLexeme(h) && !Prefix(h) && Printable(rest)
    ensures Printable(Cons(h, rest))
  {
    hide ValidLexeme;
  }

  lemma LedByName(x: string, t: Lexeme, rest: Lexemes)
    requires ValidName(x) && ValidLexeme(t) && !Prefix(t) && Printable(rest)
    ensures Printable(Cons(Ident(x), Cons(t, rest)))
  {
    hide ValidName, Printable;
    LedBy(t, rest);
    LedBy(Ident(x), Cons(t, rest));
  }

  lemma PrintableAtom(e: Tree, rest: Lexemes)
    requires Valid(e) && (e.Literal? || e.Name? || e.Pre? || e.Post?) && Printable(rest)
    ensures Printable(Spell(e, 15, rest))
  {
    hide ValidName, ValidNumeral;
  }

  // A printed tree has only such lexemes.
  lemma {:induction false} SpellPrintable(e: Tree, l: nat, rest: Lexemes)
    requires Valid(e) && l <= 15 && Printable(rest)
    ensures Printable(Spell(e, l, rest))
    decreases e, if Level(e) < l then 2 else 1
  {
    hide ValidNumeral, ValidName, Printable, BinaryLevel;
    if Level(e) < l {
      Led(Char(')'), rest);
      SpellPrintable(e, 0, Cons(Punct(Char(')')), rest));
      Led(Char('('), Spell(e, 0, Cons(Punct(Char(')')), rest)));
    } else {
      match e
      case Set(x, e1) =>
        SpellPrintable(e1, 1, rest);
        LedByName(x, Punct(Char('=')), Spell(e1, 1, rest));
      case Update(op, x, e1) =>
        SpellPrintable(e1, 1, rest);
        LedByName(x, Assigns(op), Spell(e1, 1, rest));
      case IfElse(c, a, b) =>
        SpellPrintable(b, 2, rest);
        var t := Cons(Punct(Char(':')), Spell(b, 2, rest));
        Led(Char(':'), Spell(b, 2, rest));
        SpellPrintable(a, 0, t);
        Led(Char('?'), Spell(a, 0, t));
        SpellPrintable(c, 3, Cons(Punct(Char('?')), Spell(a, 0, t)));
      case Or(a, b) => PrintableTwo(e, a, 3, LOr, b, 4, rest);
      case And(a, b) => PrintableTwo(e, a, 4, LAnd, b, 5, rest);
      case Binary(op, a, b) => PrintableTwo(e, a, Level(e), op, b, Level(e) + 1, rest);
      case Raise(a, b) => PrintableTwo(e, a, 14, Pow, b, 13, rest);
      case Sequence(a, b) => PrintableTwo(e, a, 0, Char(','), b, 1, rest);
      case Not(e1) =>
        SpellPrintable(e1, 14, rest);
        Led(Char('!'), Spell(e1, 14, rest));
      case Complement(e1) =>
        SpellPrintable(e1, 14, rest);
        Led(Char('~'), Spell(e1, 14, rest));
      case Minus(e1) => PrintableSigned(e, e1, Char('-'), rest);
      case Plus(e1) => PrintableSigned(e, e1, Char('+'), rest);
      case _ =>
        AtomAnywhere(e, l, rest);
        PrintableAtom(e, rest);
    }
  }

  lemma AtomAnywhere(e: Tree, l: nat, rest: Lexemes)
    requires Valid(e) && (e.Literal? || e.Name? || e.Pre? || e.Post?) && l <= 15
    ensures Spell(e, l, rest) == Spell(e, 15, rest)
  {
  }

  lemma {:induction false} PrintableTwo(e: Tree, a: Tree, la: nat, op: Token, b: Tree, lb: nat, rest: Lexemes)
    requires a < e && b < e && Valid(a) && Valid(b) && la <= 15 && lb <= 15 && Infix(op) && Printable(rest)
    ensures Printable(Spell(a, la, Cons(Punct(op), Spell(b, lb, rest))))
    decreases e, 0
  {
    hide Printable, Spell, Infix;
    SpellPrintable(b, lb, rest);
    Led(op, Spell(b, lb, rest));
    SpellPrintable(a, la, Cons(Punct(op), Spell(b, lb, rest)));
  }

  lemma {:induction false} PrintableSigned(e: Tree, e1: Tree, sign: Token, rest: Lexemes)
    requires e1 < e && Valid(e1) && (sign == Char('-') || sign == Char('+')) && Printable(rest)
    ensures Printable(Cons(Punct(sign), Spell(e1, 15, rest)))
    decreases e, 0
  {
    hide Printable, Spell;
    SpellPrintable(e1, 15, rest);
    Led(sign, Spell(e1, 15, rest));
  }

  // Every lexeme begins with a character that is not blank.
  lemma LexemeStarts(h: Lexeme)
    requires ValidLexeme(h)
    ensures Spelling(h) != [] && !Blank(Spelling(h)[0])
    ensures h.Ident? ==> NameStart(Spelling(h)[0])
  {
    hide StrLong;
  }

  // With a blank behind it a lexeme ends there, a prefix operator with a name
  // behind the blank as well.
  lemma BlankIsBoundary(s: string, i: nat, h: Lexeme)
    requires i < |s| && s[i] == ' ' && ValidLexeme(h)
    requires Prefix(h) ==> i + 1 < |s| && NameStart(s[i + 1])
    ensures Boundary(s, i, h)
  {
    hide StrLong, ValidNumeral, ValidName;
    if Prefix(h) {
      assert SkipBlanks(s, i) == SkipBlanks(s, i + 1) == i + 1;
    }
  }

  lemma {:induction false} SpacedSpells(s: string, i: nat, ls: Lexemes)
    requires i <= |s| && s[i..] == Spaced(ls) && Printable(ls)
    ensures Spells(s, i, ls)
    decreases ls
  {
    hide ValidLexeme, SpelledAt, Spells;
    match ls
    case Nil => NothingLeft(s, i);
    case Cons(h, t) =>
      var j := i + |Spelling(h)|;
      NextSpelled(s, i, h, t);
      SpacedSpells(s, j + 1, t);
      BlankSkipped(s, j, t);
      SpellsFrom(s, i, h, t);
  }

  lemma NothingLeft(s: string, i: nat)
    requires i == |s|
    ensures Spells(s, i, Nil)
  {
  }

  lemma SpellsFrom(s: string, i: nat, h: Lexeme, t: Lexemes)
    requires i < |s| && !Blank(s[i]) && SpelledAt(s, i, h) && i + |Spelling(h)| <= |s|
    requires Spells(s, i + |Spelling(h)|, t)
    ensures Spells(s, i, Cons(h, t))
  {
    hide SpelledAt, Spelling;
  }

  lemma NextSpelled(s: string, i: nat, h: Lexeme, t: Lexemes)
    requires i <= |s| && s[i..] == Spaced(Cons(h, t)) && Printable(Cons(h, t))
    ensures var j := i + |Spelling(h)|;
      i < j < |s| && !Blank(s[i]) && s[j] == ' ' && SpelledAt(s, i, h) && s[j + 1..] == Spaced(t)
  {
    hide ValidLexeme, Boundary, Spelling;
    var n := |Spelling(h)|;
    var rest := s[i..];
    LexemeStarts(h);
    assert rest == Spelling(h) + " " + Spaced(t);
    assert rest[..n] == Spelling(h) && rest[n] == ' ' && rest[n + 1..] == Spaced(t);
    assert s[i..i + n] == rest[..n] && s[i + n] == rest[n] && s[i + n + 1..] == rest[n + 1..] && s[i] == rest[0];
    if Prefix(h) {
      LexemeStarts(t.head);
      assert s[i + n + 1] == Spaced(t)[0] == Spelling(t.head)[0];
    }
    BlankIsBoundary(s, i + n, h);
  }

  lemma BlankSkipped(s: string, j: nat, ls: Lexemes)
    requires j < |s| && s[j] == ' ' && Spells(s, j + 1, ls)
    ensures Spells(s, j, ls)
  {
    hide SpelledAt;
  }

  // Every tree has a text that spells it.
  lemma PrintedSpells(e: Tree)
    requires Valid(e)
    ensures Spells(Printed(e), 0, Spell(e, 0, Nil))
  {
    hide Spell;
    SpellPrintable(e, 0, Nil);
    assert Printed(e)[0..] == Printed(e);
    SpacedSpells(Printed(e), 0, Spell(e, 0, Nil));
  }

  // Print, then evaluate: the tree's value and store, or its error.
  lemma PrintThenEvaluate(e: Tree, s: State, m: Store)
    requires Valid(e) && Known(e, m.texts) && Ready(s) && s.stack == [] && Holds(s.vars, m)
    ensures var r := EvalExp(s, Printed(e));
      match Eval(e, m, true)
      case Value(v, m') => r.Val? && r.val == v && Holds(r.st.vars, m') && r.st.stack == []
      case Error(err, m') => r.Fail? && r.error == err && Holds(r.st.vars, m') && r.st.stack == []
  {
    hide EvalExp, Eval, Holds, Spells, Spell;
    PrintedSpells(e);
    EvaluationIsTheTrees(e, Printed(e), s, m);
  }
}
