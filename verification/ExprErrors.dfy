// Texts that are no expressions, and the error each of them ends in.

module ExprErrors {
  import opened Options
  import opened Numerals
  import opened Arithmetic
  import opened Expr
  import opened ExprTrees
  import opened ExprLexing
  import opened ExprParsing
  import opened ExprRoundTrip
  import opened Operators
  import opened ExprOperations
  import opened ExprForms

  predicate FailsWith(s: State, text: string, x: ExprError)
    requires Ready(s)
  {
    EvalExp(s, text).Fail? && EvalExp(s, text).error == x
  }

  // ------------------------------------------------------------- first tokens

  function Begun(s: State): State { s.(cx := s.cx.(noeval := 0)) }

  // The state behind the first token of a text that spells ls.
  lemma FirstToken(text: string, ls: Lexemes, s: State, m: Store) returns (first: State)
    requires Spells(text, 0, ls) && StartsWell(ls, End, m.texts) && Fresh(s, m)
    ensures Usable(first, m) && Loaded(first, m, ls) && ReadTok(Pushed(Begun(s), text)) == Val(0, first)
    ensures SkipBlanks(text, 0) < |text| && first.stack == Pushed(Begun(s), text).stack
    ensures first.cx.noeval == 0
  {
    hide ReadTok, Holds, Spells, Loaded, StartsWell;
    StartsReadable(ls, End, m.texts);
    NotBlank(text, ls, m.texts);
    first := Next(Pushed(Begun(s), text), m, ls);
  }

  // What the parser makes of it decides.
  lemma Decides(text: string, s: State, m: Store, first: State)
    requires Fresh(s, m) && Ready(first) && ReadTok(Pushed(Begun(s), text)) == Val(0, first)
    requires SkipBlanks(text, 0) < |text| && first.stack == Pushed(Begun(s), text).stack
    ensures Exp(0, first).Fail? ==> FailsWith(s, text, Exp(0, first).error)
    ensures Exp(0, first).Val? && Exp(0, first).st.cx.curtok != End ==> FailsWith(s, text, SyntaxError)
  {
    hide ReadTok, Exp;
  }

  // An error in an operand is handed up.
  lemma {:induction false} FailureClimbs(l: nat, k: nat, s: State)
    requires Ready(s) && l <= k <= 15 && Exp(k, s).Fail?
    requires k <= 14 || (s.cx.curtok != Char('!') && s.cx.curtok != Char('~'))
    ensures Exp(l, s) == Exp(k, s)
    decreases k - l
  {
    hide Exp0, Cont;
    if l < k {
      if k == 15 {
        hide Exp1;
        LastRoutine(s);
      } else {
        hide Exp1;
        ExpStep(k - 1, s);
      }
      FailureClimbs(l, k - 1, s);
    }
  }

  lemma LastRoutine(s: State)
    requires Ready(s) && s.cx.curtok != Char('!') && s.cx.curtok != Char('~')
    ensures Exp(14, s) == Exp(15, s)
  {
    hide Exp0;
  }

  // A natural number is read, and what stands behind it is next.
  lemma NumberThen(s: State, m: Store, n: nat, rest: Lexemes) returns (t: State)
    requires Usable(s, m) && Loaded(s, m, Cons(Number(Dec(n)), rest)) && Readable(Num, rest, m.texts)
    ensures Exp(15, s) == Val(Wrap(n), t) && Usable(t, m) && Beside(s, t) && Loaded(t, m, rest) && t.cx.lasttok == Num
    ensures s.cx.curtok == Num && t.cx.curtok == TokenOf(rest)
  {
    hide ReadTok, Holds, Spells, Readable, Dec, StrLong;
    DecIsNumeral(n);
    t := Next(s, m, rest);
    LoadedToken(t, m, rest);
    OperandIsNumber(s, t);
  }

  predicate Leads(text: string, s: State, first: State)
    requires Ready(s) && s.stack == []
  {
    && Ready(first) && ReadTok(Pushed(Begun(s), text)) == Val(0, first)
    && SkipBlanks(text, 0) < |text| && first.stack == Pushed(Begun(s), text).stack
  }

  // A text that begins with a number, up to what is behind it.
  lemma LeadingNumber(l: nat, n: nat, rest: Lexemes, text: string, s: State, m: Store) returns (first: State, t: State)
    requires l <= 15 && Spells(text, 0, Cons(Number(Dec(n)), rest)) && Fresh(s, m)
    requires Readable(Num, rest, m.texts) && TokenLevel(TokenOf(rest)) < l
    ensures Leads(text, s, first) && first.cx.curtok == Num && Exp(l, first) == Val(Wrap(n), t)
    ensures Usable(t, m) && Loaded(t, m, rest) && t.cx.lasttok == Num && t.cx.curtok == TokenOf(rest)
  {
    hide Holds, Spells, Loaded, Exp, ReadTok, Dec, Usable, StartsWell, Readable, TokenLevel;
    NumberStarts(n, rest, m);
    first := FirstToken(text, Cons(Number(Dec(n)), rest), s, m);
    t := NumberThen(first, m, n, rest);
    UsableIs(t, m);
    Climb(l, first, Wrap(n), t);
  }

  // An error of a routine that began a text is the error of the text.
  lemma LeadsToFailure(k: nat, text: string, s: State, m: Store, first: State)
    requires Fresh(s, m) && Leads(text, s, first) && k <= 15 && Exp(k, first).Fail?
    requires first.cx.curtok != Char('!') && first.cx.curtok != Char('~')
    ensures FailsWith(s, text, Exp(k, first).error)
  {
    hide ReadTok, Exp, Holds, FailsWith;
    FailureClimbs(0, k, first);
    Decides(text, s, m, first);
  }

  lemma OperandIsNumber(s: State, t: State)
    requires Ready(s) && s.cx.curtok == Num && ReadTok(s) == Val(0, t)
    ensures Exp(15, s) == Val(s.cx.tokval, t)
  {
    hide ReadTok;
    ExpLast(s);
  }

  // ------------------------------------------------------------ syntax errors

  // Another operand where an operator is wanted.
  lemma SecondOperand(n: nat, g: string, o: Operand, s: State, m: Store)
    requires Blanks(g) && g != "" && Proper(o, m) && (o.Int? ==> o.n >= 0) && Fresh(s, m)
    ensures FailsWith(s, Itos(n) + (g + Text(o)), SyntaxError)
  {
    hide Holds, Spells, Dec, StartsWell, FailsWith, Blanks, Free, Proper, Text, TreeOf, Readable;
    NothingSpelled();
    PrependOperand(o, m, "", Nil);
    assert Text(o) + "" == Text(o);
    var rest := Spell(TreeOf(o), 15, Nil);
    OperandReadable(o, m);
    PrependBlanks(g, Text(o), rest);
    BlanksFirst(g, Text(o));
    PrependInt(n, g + Text(o), rest);
    NumberStarts(n, rest, m);
    SecondFails(n, rest, Itos(n) + (g + Text(o)), s, m);
  }

  lemma SecondFails(n: nat, rest: Lexemes, text: string, s: State, m: Store)
    requires Spells(text, 0, Cons(Number(Dec(n)), rest)) && Fresh(s, m)
    requires Readable(Num, rest, m.texts) && TokenOf(rest) in {Num, Str}
    ensures FailsWith(s, text, SyntaxError)
  {
    OperandLevel(TokenOf(rest));
    hide Holds, Spells, Loaded, Exp, ReadTok, Dec, Usable, FailsWith, Readable, TokenLevel;
    var first, t := LeadingNumber(0, n, rest, text, s, m);
    Decides(text, s, m, first);
  }

  lemma OperandLevel(t: Token)
    requires t in {Num, Str}
    ensures TokenLevel(t) == -1
  {
  }

  lemma OperandReadable(o: Operand, m: Store)
    requires Proper(o, m) && (o.Int? ==> o.n >= 0)
    ensures Valid(TreeOf(o)) && Readable(Num, Spell(TreeOf(o), 15, Nil), m.texts)
    ensures TokenOf(Spell(TreeOf(o), 15, Nil)) in {Num, Str}
  {
    hide Dec, ValidNumeral, ValidName, Identifier;
    if o.Int? { DecIsNumeral(o.n); } else { IdentifierIsName(o.x); }
  }

  lemma BlanksFirst(g: string, t: string)
    requires Blanks(g) && g != ""
    ensures Free(g + t)
  {
    assert (g + t)[0] == g[0];
  }

  lemma NumberStarts(n: nat, rest: Lexemes, m: Store)
    ensures StartsWell(Cons(Number(Dec(n)), rest), End, m.texts)
    ensures Spell(IntTree(n), 15, rest) == Cons(Number(Dec(n)), rest)
  {
    hide Dec, ValidNumeral;
    DecIsNumeral(n);
  }

  // An open parenthesis, an expression and no closing one: the error of the
  // expression, or the missing parenthesis.
  lemma OpenParenthesis(e: Tree, text: string, s: State, m: Store)
    requires Valid(e) && Known(e, m.texts) && Fresh(s, m) && Spells(text, 0, Cons(Punct(Char('(')), Spell(e, 0, Nil)))
    ensures FailsWith(s, text, match Eval(e, m, true) case Value(_, _) => MissingParen case Error(x, _) => x)
  {
    hide Holds, Spells, Loaded, Exp, ReadTok, Usable, StartsWell, FailsWith, Spell, Eval, Parses;
    var ls := Cons(Punct(Char('(')), Spell(e, 0, Nil));
    assert StartsWell(ls, End, m.texts) by { ParenStarts(Spell(e, 0, Nil), m); }
    var first := FirstToken(text, ls, s, m);
    LoadedToken(first, m, ls);
    SpellReadable(e, 0, Nil, Char('('), m.texts);
    StartsReadable(Spell(e, 0, Nil), Char('('), m.texts);
    LoadedRest(first, m, Punct(Char('(')), Spell(e, 0, Nil));
    UsableIs(first, m);
    var s1 := Next(first, m, Spell(e, 0, Nil));
    var t := ParseLevel(0, e, s1, m, Nil);
    InsideParens(e, first, s1, m, t);
    FailureClimbs(0, 15, first);
    Decides(text, s, m, first);
  }

  lemma UsableIs(s: State, m: Store)
    requires Usable(s, m)
    ensures Sound(s, m) && Steady(s)
  {
  }

  lemma ParenStarts(rest: Lexemes, m: Store)
    ensures StartsWell(Cons(Punct(Char('(')), rest), End, m.texts)
  {
  }

  lemma LoadedRest(s: State, m: Store, h: Lexeme, rest: Lexemes)
    requires Ready(s) && Loaded(s, m, Cons(h, rest))
    ensures Spells(s.cx.expr, s.cx.tp, rest)
  {
    hide Spells;
  }

  lemma InsideParens(e: Tree, first: State, s1: State, m: Store, t: State)
    requires Valid(e) && Ready(first) && Ready(s1) && first.cx.curtok == Char('(') && first.cx.noeval == 0
    requires ReadTok(first) == Val(0, s1) && Beside(first, s1) && Parses(0, e, s1, m, Nil, t)
    ensures Exp(15, first).Fail?
    ensures Exp(15, first).error == match Eval(e, m, true) case Value(_, _) => MissingParen case Error(x, _) => x
  {
    hide Holds, Spells, ReadTok, Eval, Cont, Exp;
    ExpLast(first);
    var r := Eval(e, m, true);
    if r.Value? {
      Parsed(0, e, s1, m, Nil, t);
      Done(0, r.v, t, r.m, Nil);
      LoadedToken(t, r.m, Nil);
    }
    ParenthesisIs(first, s1);
  }

  lemma ParenthesisIs(s: State, s1: State)
    requires Ready(s) && Ready(s1) && s.cx.curtok == Char('(') && ReadTok(s) == Val(0, s1)
    ensures var r := Exp(0, s1);
      && (r.Fail? ==> Exp0(s) == r)
      && (r.Val? && r.st.cx.curtok != Char(')') ==> Exp0(s) == Fail(MissingParen, r.st))
  {
    hide ReadTok, Exp;
  }

  // --------------------------------------------------- assignments to numbers

  // A number before = or op= is no variable, whatever stands behind it.
  lemma AssignToNumber(n: nat, h: Lexeme, rest: Lexemes, text: string, s: State, m: Store)
    requires h == Punct(Char('=')) || (h.Assigns? && AssignOp(h.op))
    requires Spells(text, 0, Cons(Number(Dec(n)), Cons(h, rest))) && Fresh(s, m)
    ensures FailsWith(s, text, AssignmentToNonVariable)
  {
    AssignReadable(h, rest, m);
    hide Holds, Spells, Loaded, Exp, ReadTok, Dec, Usable, FailsWith, Readable, TokenLevel, AssignOp;
    var first, t := LeadingNumber(2, n, Cons(h, rest), text, s, m);
    UsableIs(t, m);
    ExpStep(1, first);
    NoVariable(Wrap(n), t);
    LeadsToFailure(1, text, s, m, first);
  }

  lemma AssignReadable(h: Lexeme, rest: Lexemes, m: Store)
    requires h == Punct(Char('=')) || (h.Assigns? && AssignOp(h.op))
    ensures Readable(Num, Cons(h, rest), m.texts) && TokenLevel(LexemeToken(h)) == 1
    ensures LexemeToken(h) == Char('=') || LexemeToken(h) == OpAssign
  {
    hide AssignOp;
  }

  lemma NoVariable(v: int, t: State)
    requires Ready(t) && (t.cx.curtok == Char('=') || t.cx.curtok == OpAssign) && t.cx.lasttok != Str
    ensures Cont(1, v, t) == Fail(AssignmentToNonVariable, t)
  {
    hide ReadTok, Exp;
  }

  // ------------------------------------------------------------- conditionals

  // n ? with nothing or a colon behind it.
  lemma NothingChosen(n: nat, rest: Lexemes, text: string, s: State, m: Store)
    requires rest.Nil? || rest.head == Punct(Char(':'))
    requires Spells(text, 0, Cons(Number(Dec(n)), Cons(Punct(Char('?')), rest))) && Fresh(s, m)
    ensures FailsWith(s, text, ExpressionExpected)
  {
    var ls := Cons(Punct(Char('?')), rest);
    ChoiceReadable(rest, m);
    assert Readable(Char('?'), rest, m.texts);
    hide Holds, Spells, Loaded, Exp, ReadTok, Dec, Usable, FailsWith, Readable, TokenLevel;
    var first, t := LeadingNumber(3, n, ls, text, s, m);
    UsableIs(t, m);
    LoadedRest(t, m, Punct(Char('?')), rest);
    var t1 := Next(t, m, rest);
    LoadedToken(t1, m, rest);
    ExpStep(2, first);
    ChoiceIs(Wrap(n), t, t1);
    LeadsToFailure(2, text, s, m, first);
  }

  lemma ChoiceReadable(rest: Lexemes, m: Store)
    ensures Readable(Num, Cons(Punct(Char('?')), rest), m.texts) && TokenLevel(Char('?')) == 2
  {
  }

  lemma ChoiceIs(v: int, t: State, t1: State)
    requires Ready(t) && t.cx.curtok == Char('?') && ReadTok(t) == Val(0, t1)
    requires t1.cx.curtok == End || t1.cx.curtok == Char(':')
    ensures Cont(2, v, t) == Fail(ExpressionExpected, t1)
  {
    hide ReadTok, Exp;
  }

  // n ? k with no colon behind it, and n ? k : with nothing behind that.
  lemma ChoiceUnfinished(n: nat, k: nat, colon: bool, text: string, s: State, m: Store)
    requires var rest := if colon then Cons(Punct(Char(':')), Nil) else Nil;
      Spells(text, 0, Cons(Number(Dec(n)), Cons(Punct(Char('?')), Cons(Number(Dec(k)), rest))))
    requires Fresh(s, m)
    ensures FailsWith(s, text, if colon then ExpressionExpected else ColonExpected)
  {
    hide Holds, Spells, Loaded, Exp, ReadTok, Dec, Usable, StartsWell, FailsWith;
    var rest := if colon then Cons(Punct(Char(':')), Nil) else Nil;
    ChoiceReadable(Cons(Number(Dec(k)), rest), m);
    hide Loaded, Exp, ReadTok, Usable, Readable, TokenLevel, FailsWith, Holds, Spells, Dec;
    var first, t := LeadingNumber(3, n, Cons(Punct(Char('?')), Cons(Number(Dec(k)), rest)), text, s, m);
    UsableIs(t, m);
    ExpStep(2, first);
    ChoiceFails(Wrap(n), k, rest, t, m);
    LeadsToFailure(2, text, s, m, first);
  }

  // From the question mark on.
  lemma ChoiceFails(v: int, k: nat, rest: Lexemes, t: State, m: Store)
    requires rest == Nil || rest == Cons(Punct(Char(':')), Nil)
    requires Usable(t, m) && Loaded(t, m, Cons(Punct(Char('?')), Cons(Number(Dec(k)), rest)))
    ensures Cont(2, v, t).Fail? && Cont(2, v, t).error == if rest.Nil? then ColonExpected else ExpressionExpected
  {
    hide Holds, Spells, Loaded, Exp, ReadTok, Dec, Usable;
    var l2 := Cons(Number(Dec(k)), rest);
    UsableIs(t, m);
    LoadedToken(t, m, Cons(Punct(Char('?')), l2));
    LoadedRest(t, m, Punct(Char('?')), l2);
    NumberReadable(k, rest, m);
    var t1 := Next(t, m, l2);
    LoadedToken(t1, m, l2);
    MoreKeeps(t1, v == 0, m, l2);
    var u := ChosenNumber(MoreNoeval(t1, v == 0), k, rest, m);
    CondStep(v, t, t1);
    NoElse(v, Wrap(k), Lowered(u, v == 0), m, rest, v == 0, u);
  }

  lemma ChosenNumber(s: State, k: nat, rest: Lexemes, m: Store) returns (u: State)
    requires rest == Nil || rest == Cons(Punct(Char(':')), Nil)
    requires Usable(s, m) && Loaded(s, m, Cons(Number(Dec(k)), rest))
    ensures Exp(0, s) == Val(Wrap(k), u) && Usable(u, m) && Loaded(u, m, rest)
  {
    BehindChoice(rest, m);
    hide Holds, Spells, Loaded, Exp, ReadTok, Dec, Usable, Readable, TokenLevel;
    u := NumberThen(s, m, k, rest);
    UsableIs(u, m);
    Climb(0, s, Wrap(k), u);
  }

  lemma BehindChoice(rest: Lexemes, m: Store)
    requires rest == Nil || rest == Cons(Punct(Char(':')), Nil)
    ensures Readable(Num, rest, m.texts) && TokenLevel(TokenOf(rest)) == -1
  {
  }

  lemma NumberReadable(k: nat, rest: Lexemes, m: Store)
    ensures Readable(Char('?'), Cons(Number(Dec(k)), rest), m.texts)
  {
    hide Dec, ValidNumeral;
    DecIsNumeral(k);
  }

  lemma NoElse(v: int, a: int, c: State, m: Store, rest: Lexemes, more: bool, u: State)
    requires rest == Nil || rest == Cons(Punct(Char(':')), Nil)
    requires Usable(u, m) && Loaded(u, m, rest) && c == Lowered(u, more)
    ensures Ready(c) && CondElse(v, a, c).Fail?
    ensures CondElse(v, a, c).error == if rest.Nil? then ColonExpected else ExpressionExpected
  {
    hide Holds, Exp, ReadTok;
    if rest.Cons? {
      LoadedKept(u, more, m, rest);
      var c1 := Next(c, m, Nil);
      LoadedToken(c1, m, Nil);
    }
  }

  lemma LoadedKept(u: State, more: bool, m: Store, rest: Lexemes)
    requires Usable(u, m) && Loaded(u, m, rest)
    ensures Usable(Lowered(u, more), m) && Loaded(Lowered(u, more), m, rest)
  {
    hide Holds, Spells;
  }

  // -------------------------------------------------------- missing operands

  lemma {:induction false} NothingThere(l: nat, s: State)
    requires Ready(s) && l <= 15 && s.cx.curtok == End
    ensures Exp(l, s) == Fail(OperandExpected, s)
  {
    hide ReadTok, Cont;
    ExpLast(s);
    assert Exp(15, s) == Fail(OperandExpected, s);
    FailureClimbs(l, 15, s);
  }

  // n op with nothing behind it.
  lemma NoRightOperand(n: nat, op: string, text: string, s: State, m: Store)
    requires Operator2(op) && Fresh(s, m)
    requires Spells(text, 0, Cons(Number(Dec(n)), Cons(Punct(OperatorToken(op)), Nil)))
    ensures FailsWith(s, text, OperandExpected)
  {
    hide Holds, Spells, Loaded, Exp, ReadTok, Dec, Usable, FailsWith, OperatorToken, BinaryLevel, Operator2, Readable,
      TokenLevel, Rank;
    var ls := Cons(Punct(OperatorToken(op)), Nil);
    BinaryRank(op);
    var l := Rank(op) + 2;
    BinaryLevelOf(l, OperatorToken(op));
    OperatorReadable(op, m);
    OperatorLevel(op);
    var first, t := LeadingNumber(l + 1, n, ls, text, s, m);
    UsableIs(t, m);
    LoadedRest(t, m, Punct(OperatorToken(op)), Nil);
    NothingReadable(OperatorToken(op), m);
    var t1 := Next(t, m, Nil);
    LoadedToken(t1, m, Nil);
    NothingThere(l + 1, t1);
    ExpStep(l, first);
    BinaryStep(l, Wrap(n), t, t1);
    LeadsToFailure(l, text, s, m, first);
  }

  lemma NothingReadable(curtok: Token, m: Store)
    ensures Readable(curtok, Nil, m.texts)
  {
  }

  lemma OperatorReadable(op: string, m: Store)
    requires BinaryLevel(OperatorToken(op)) != -1
    ensures Readable(Num, Cons(Punct(OperatorToken(op)), Nil), m.texts)
  {
    hide OperatorToken;
  }

  lemma OperatorLevel(op: string)
    requires BinaryLevel(OperatorToken(op)) == Rank(op) + 2
    ensures TokenLevel(OperatorToken(op)) == Rank(op) + 2
  {
    hide OperatorToken, Rank;
  }

  // --------------------------------------------------------- what is no token

  // A character that begins no token.
  predicate Illegal(c: char) {
    !NameLetter(c) && c !in "0123456789" && c !in " \t\n=<>+-*/%!()&|^~?:,"
  }

  // What is read behind an operator or at the start is to be an operand.
  predicate WantsOperand(curtok: Token) {
    || curtok == End
    || (curtok.Char? && curtok.c in "=<>+-*/%!()&|^~?:,")
    || curtok in {EqEq, Neq, Leq, Geq, LAnd, LOr, LSh, RSh, OpAssign, Cond, Pow, PreInc, PreDec, PostInc, PostDec}
  }

  lemma IllegalIsBad(text: string, i: nat, curtok: Token)
    requires i < |text| && Illegal(text[i])
    ensures !NameStart(text[i]) && !IsDigit(text[i]) && !Blank(text[i])
    ensures OperatorAt(text, i, curtok) == Bad(if WantsOperand(curtok) then OperandExpected else InvalidOperator)
  {
    IllegalFacts(text[i]);
    WantsIs(curtok);
    hide Illegal, IsMultiop, WantsOperand, NameStart, IsDigit, Blank;
  }

  lemma IllegalFacts(c: char)
    requires Illegal(c)
    ensures !NameStart(c) && !IsDigit(c) && !Blank(c) && !IsArithop(Char(c))
    ensures c !in {'=', '!', '>', '<', '&', '|', '*', '-', '+', '/', '%', '^'}
  {
    NameLetters(c);
    DigitIsChar(c);
  }

  lemma WantsIs(t: Token)
    ensures WantsOperand(t) <==> t == End || IsArithop(t) || IsMultiop(t)
  {
  }

  // At the start of a text an operand is wanted ...
  lemma IllegalFirst(g: string, c: char, t: string, s: State, m: Store)
    requires Blanks(g) && Illegal(c) && Fresh(s, m)
    ensures FailsWith(s, g + ([c] + t), OperandExpected)
  {
    var text := g + ([c] + t);
    BlanksSkipped(g, [c] + t, 0);
    IllegalIsBad(text, |g|, End);
    hide Illegal, OperatorAt;
    NoBlankAt(text, |g|);
    var p := Pushed(Begun(s), text);
    BadToken(p, |g|, OperandExpected);
    hide ReadTok, SkipBlanks;
    FirstFails(text, s, m);
  }

  lemma BadToken(p: State, i: nat, x: ExprError)
    requires Ready(p) && i < |p.cx.expr| && SkipBlanks(p.cx.expr, p.cx.tp) == i
    requires !NameStart(p.cx.expr[i]) && !IsDigit(p.cx.expr[i]) && OperatorAt(p.cx.expr, i, p.cx.curtok) == Bad(x)
    ensures ReadTok(p).Fail? && ReadTok(p).error == x
  {
    hide OperatorAt, SkipBlanks, ReadName, ReadNumber;
  }

  lemma FirstFails(text: string, s: State, m: Store)
    requires Fresh(s, m) && SkipBlanks(text, 0) < |text| && ReadTok(Pushed(Begun(s), text)).Fail?
    ensures FailsWith(s, text, ReadTok(Pushed(Begun(s), text)).error)
  {
    hide ReadTok, Exp;
  }

  // ... behind a number an operator.
  lemma IllegalAfter(n: nat, g: string, c: char, t: string, s: State, m: Store)
    requires Blanks(g) && Illegal(c) && (g == "" ==> !NumberChar(c)) && Fresh(s, m)
    ensures FailsWith(s, Dec(n) + (g + ([c] + t)), InvalidOperator)
  {
    var rest := g + ([c] + t);
    var text := Dec(n) + rest;
    NotNumeral(g, c, t);
    hide Illegal, OperatorAt, Dec, ReadTok, SkipBlanks, NumberChar, Holds, Blanks, Exp, FailsWith;
    var first := NumberFirst(n, rest, s, m);
    SkipBehind(Dec(n), rest, 0);
    BlanksSkipped(g, [c] + t, 0);
    SkipThere(g, c, t);
    IllegalNext(first, |Dec(n)| + |g|, c);
    LeadsToFailure(15, text, s, m, first);
  }

  lemma NotNumeral(g: string, c: char, t: string)
    requires Blanks(g) && (g == "" ==> !NumberChar(c))
    ensures !NumberChar((g + ([c] + t))[0])
  {
    if g != "" { assert (g + ([c] + t))[0] in " \t\n"; }
  }

  lemma IllegalNext(s: State, i: nat, c: char)
    requires Ready(s) && s.cx.curtok == Num && SkipBlanks(s.cx.expr, s.cx.tp) == i < |s.cx.expr|
    requires s.cx.expr[i] == c && Illegal(c)
    ensures Exp(15, s).Fail? && Exp(15, s).error == InvalidOperator
  {
    hide Illegal, OperatorAt, ReadTok, SkipBlanks, Exp;
    IllegalIsBad(s.cx.expr, i, Num);
    BadToken(s, i, InvalidOperator);
    NumberFails(s);
  }

  lemma SkipThere(g: string, c: char, t: string)
    requires Illegal(c)
    ensures SkipBlanks(g + ([c] + t), |g|) == |g|
  {
    NotBlankAt(c);
    hide Illegal, Blank;
    assert (g + ([c] + t))[|g|] == c;
    NoBlankAt(g + ([c] + t), |g|);
  }

  lemma NotBlankAt(c: char)
    requires Illegal(c)
    ensures !Blank(c)
  {
  }

  lemma SkipStart(n: nat, rest: string)
    ensures SkipBlanks(Dec(n) + rest, 0) == 0 < |Dec(n) + rest|
  {
    hide Dec;
    assert IsDigit((Dec(n) + rest)[0]);
  }

  lemma NumberFails(s: State)
    requires Ready(s) && s.cx.curtok == Num && ReadTok(s).Fail?
    ensures Exp(15, s) == ReadTok(s)
  {
    hide ReadTok;
    ExpLast(s);
  }

  // A number in front of anything that does not make it longer.
  lemma NumberFirst(n: nat, rest: string, s: State, m: Store) returns (first: State)
    requires Fresh(s, m) && rest != [] && !NumberChar(rest[0])
    ensures Ready(first) && ReadTok(Pushed(Begun(s), Dec(n) + rest)) == Val(0, first)
    ensures first.cx.expr == Dec(n) + rest && first.cx.tp == |Dec(n)| && first.cx.curtok == Num
    ensures Leads(Dec(n) + rest, s, first)
  {
    hide StrLong, ReadTok, ReadNumber, NumberEnd, ValidNumeral, Dec, NumberChar, Holds;
    var text := Dec(n) + rest;
    var p := Pushed(Begun(s), text);
    DecIsNumeral(n);
    SkipStart(n, rest);
    assert text[0..|Dec(n)|] == Dec(n) && text[|Dec(n)|] == rest[0];
    NumeralIs(text, 0, Dec(n));
    NumberTurn(p);
    NumeralRead(p, 0, Dec(n));
    first := ReadTok(p).st;
  }

  // A subscript ends in an error of its own.
  lemma SubscriptFails(x: string, t: string, s: State, m: Store)
    requires Identifier(x) && Fresh(s, m)
    ensures FailsWith(s, x + ("[" + t), Subscript)
  {
    var text := x + ("[" + t);
    var p := Pushed(Begun(s), text);
    NameAhead(x, "[" + t);
    assert CharAt(text, |x|) == '[';
    hide Holds, NameStart, NameChar, SkipBlanks, NameEnd, Identifier, CharAt;
    NameTurn(p);
    SubscriptRead(p, |x|);
    hide ReadTok;
    FirstFails(text, s, m);
  }

  lemma NameAhead(x: string, t: string)
    requires Identifier(x) && t != "" && !NameChar(t[0])
    ensures var text := x + t;
      SkipBlanks(text, 0) == 0 && NameStart(text[0]) && NameEnd(text, 0) == |x| && text[|x|] == t[0]
  {
    var text := x + t;
    IdentifierIsName(x);
    NameBegins(x);
    NameStarts(x);
    hide NameStart, NameChar, Identifier;
    assert text[0] == x[0];
    NoBlankAt(text, 0);
    forall k | 0 <= k < |x|
      ensures NameChar(text[k])
    {
      assert text[k] == x[k];
    }
    NameEndAt(text, 0, |x|);
  }

  lemma SubscriptRead(p: State, e: nat)
    requires Ready(p) && p.cx.tp == 0 && SkipBlanks(p.cx.expr, 0) == 0 < |p.cx.expr| && NameStart(p.cx.expr[0])
    requires NameEnd(p.cx.expr, 0) == e && CharAt(p.cx.expr, e) == '['
    ensures ReadName(p, 0).Fail? && ReadName(p, 0).error == Subscript
  {
    hide NameStart, SkipBlanks, NameEnd, CharAt;
  }

  // ----------------------------------------------------------------- numerals

  // A text of digits, letters, @, _ and # that begins with a digit has the
  // value of the numeral, or its error.
  lemma NumeralText(n: string, s: State, m: Store)
    requires n != "" && n[0] in "0123456789" && Only(n, BaseAlphabet + "#") && Fresh(s, m)
    ensures match StrLong(n)
      case Ok(v) => Evaluates(s, n, Ok(v), m)
      case Err(x) => FailsWith(s, n, Numeral(x))
  {
    hide StrLong, Holds, FailsWith, Evaluates, StrLongFrom;
    NumeralChars64(n);
    DigitIsChar(n[0]);
    if StrLong(n).Ok? {
      NothingSpelled();
      assert ValidNumeral(n);
      assert Free("");
      FreeIsBoundary("", Number(n));
      PrependLexeme(Number(n), "", Nil);
      assert n + "" == n;
      LiteralComes(n, m);
      TextComes(Literal(n), n, s, m, Ok(StrLong(n).value), m);
    } else {
      NumeralFails(n, s, m);
    }
  }

  lemma NumeralChars64(n: string)
    requires Only(n, BaseAlphabet + "#")
    ensures forall k :: 0 <= k < |n| ==> NumberChar(n[k])
  {
    hide NumeralChar;
    forall k | 0 <= k < |n|
      ensures NumberChar(n[k])
    {
      assert n[k] in BaseAlphabet || n[k] == '#';
      NumeralChars(n[k]);
    }
  }

  lemma LiteralComes(n: string, m: Store)
    requires ValidNumeral(n)
    ensures Valid(Literal(n)) && Known(Literal(n), m.texts) && Spell(Literal(n), 0, Nil) == Cons(Number(n), Nil)
    ensures Eval(Literal(n), m, true) == EvaluationOf(Ok(StrLong(n).value), m)
  {
    hide StrLong;
  }

  lemma NumeralFails(n: string, s: State, m: Store)
    requires n != "" && IsDigit(n[0]) && (forall k :: 0 <= k < |n| ==> NumberChar(n[k])) && StrLong(n).Err? && Fresh(s, m)
    ensures FailsWith(s, n, Numeral(StrLong(n).error))
  {
    hide StrLong, Holds;
    var p := Pushed(Begun(s), n);
    assert !Blank(n[0]) && !NameStart(n[0]);
    NoBlankAt(n, 0);
    NumberEndAt(n, 0, |n|);
    assert n[0..|n|] == n;
    NumberTurn(p);
    hide NumberEnd, SkipBlanks;
    assert ReadNumber(p, 0).Fail? && ReadNumber(p, 0).error == Numeral(StrLong(n).error);
    hide ReadTok;
    FirstFails(n, s, m);
  }

  // Nothing at all is 0.
  lemma BlankText(g: string, s: State, m: Store)
    requires Blanks(g) && Fresh(s, m)
    ensures Evaluates(s, g, Ok(0), m)
  {
    hide Holds;
    BlanksSkipped(g, "", 0);
    assert g + "" == g;
  }

  // -------------------------------------------------------------- recursion

  // A variable that holds its own name is asked for its value until the stack
  // of 1024 contexts is full.
  lemma {:induction false} NameInside(x: string, s: State)
    requires Identifier(x) && Ready(s) && x in s.vars && s.vars[x] == x
    ensures SubExpr(s, x).Fail? && SubExpr(s, x).error == RecursionLevelExceeded
    decreases Room(s)
  {
    hide Identifier, ReadTok, SubExpr;
    NameBegins(x);
    assert SkipBlanks(x, 0) == 0 by { NoBlankAt(x, 0); }
    if |s.stack| < MaxRecursion {
      var asking := AskingAgain(x, s);
      NameInside(x, asking);
      ValueFails(x, asking);
      PushedFails(x, s);
    } else {
      StackFull(x, s);
    }
  }

  lemma StackFull(x: string, s: State)
    requires Ready(s) && SkipBlanks(x, 0) < |x| && |s.stack| == MaxRecursion
    ensures SubExpr(s, x) == Fail(RecursionLevelExceeded, s)
  {
    hide ReadTok, Exp;
  }

  lemma PushedFails(x: string, s: State)
    requires Ready(s) && SkipBlanks(x, 0) < |x| && |s.stack| < MaxRecursion
    requires ReadTok(Pushed(s, x)).Fail?
    ensures SubExpr(s, x) == ReadTok(Pushed(s, x))
  {
    hide ReadTok, Exp;
  }

  // Reading the name asks for its value in a deeper context.
  lemma AskingAgain(x: string, s: State) returns (asking: State)
    requires Identifier(x) && Ready(s) && |s.stack| < MaxRecursion
    ensures Ready(asking) && asking.vars == s.vars && |asking.stack| == |s.stack| + 1
    ensures ReadTok(Pushed(s, x)) ==
            var r := NameValue(asking, x, End);
            if r.Fail? then r else NameRead(Pushed(s, x), |x|, r.val, r.st)
  {
    var p := Pushed(s, x);
    IdentifierIsName(x);
    NameBegins(x);
    NameStarts(x);
    NoBlankAt(x, 0);
    NameEndAt(x, 0, |x|);
    var i := 0;
    assert x[0..|x|] == x;
    var named := p.(cx := p.cx.(tp := 0, tokstr := x));
    var peeking := Peeking(named, x, 0, |x|);
    NothingSpelled();
    assert Spells(x, |x|, Nil);
    ReadEndOfText(peeking);
    var peeked := ReadTok(peeking).st;
    asking := peeked.(cx := named.cx);
    hide NameValue, ReadTok, NameStart, NameEnd, Identifier, Peeking, SkipBlanks, CharAt;
    NameTurn(p);
    ReadNameIs(p, 0, x, peeking, peeked, asking);
  }

  lemma ValueFails(x: string, s: State)
    requires Ready(s) && x in s.vars && s.vars[x] == x && x != "" && SubExpr(s, x).Fail?
    ensures NameValue(s, x, End) == SubExpr(s, x)
  {
    hide SubExpr;
  }

  lemma NameHoldsItself(x: string, s: State, m: Store)
    requires Identifier(x) && Fresh(s, m) && x in s.vars && s.vars[x] == x
    ensures FailsWith(s, x, RecursionLevelExceeded)
  {
    hide SubExpr, Holds;
    NameInside(x, Begun(s));
  }

  // ------------------------------------------------------------ double signs

  // ++ and -- are two signs, except behind a name and before one.
  lemma TwoSigns(c: char, text: string, i: nat, curtok: Token)
    requires (c == '+' || c == '-') && i + 1 < |text| && text[i] == text[i + 1] == c && curtok != Str
    requires var j := SkipBlanks(text, i + 2); j == |text| || !NameLetter(text[j])
    ensures OperatorAt(text, i, curtok) == Op(Char(c), 1)
  {
    var j := SkipBlanks(text, i + 2);
    if j < |text| { NameLetters(text[j]); }
  }
}
