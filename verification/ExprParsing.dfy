// The parser-evaluator run on the spelling of a tree computes the tree's
// value and leaves the tree's store.

module ExprParsing {
  import opened Options
  import opened Numerals
  import opened Arithmetic
  import opened Expr
  import opened ExprTrees
  import opened ExprLexing

  // The current token is the first of ls and the rest is still to be read.
  predicate Loaded(s: State, m: Store, ls: Lexemes)
    requires Ready(s)
  {
    match ls
    case Nil => s.cx.curtok == End
    case Cons(h, t) =>
      && Spells(s.cx.expr, s.cx.tp, t)
      && s.cx.curtok == LexemeToken(h)
      && match h
         case Ident(x) => s.cx.tokstr == x && (NextIs(t, Punct(Char('='))) || s.cx.tokval == Lookup(m, x))
         case Number(n) => StrLong(n) == Ok(s.cx.tokval)
         case Punct(_) => true
         case Assigns(op) => s.assigntok == op
  }

  // The lexeme after a token can be read as itself.
  predicate Readable(curtok: Token, ls: Lexemes, texts: map<string, string>) {
    match ls
    case Nil => true
    case Cons(h, t) =>
      match h
      case Ident(x) => ValidName(x) && Peekable(t) && (NextIs(t, Punct(Char('='))) || Plain(texts, x))
      case Number(n) => ValidNumeral(n)
      case _ => ValidOperator(h) && Fits(curtok, h)
  }

  // The variables are those of m, and one more context fits on the stack.
  predicate Sound(s: State, m: Store) {
    Ready(s) && |s.stack| < MaxRecursion && Holds(s.vars, m)
  }

  predicate Usable(s: State, m: Store) { Sound(s, m) && Steady(s) }

  // A name before `='.
  predicate NamesTarget(ls: Lexemes) { ls.Cons? && ls.head.Ident? && NextIs(ls.tail, Punct(Char('='))) }

  predicate StepToken(t: Token) { t == PreInc || t == PreDec }

  // t belongs to the same run of the parser as s.
  predicate Beside(s: State, t: State) {
    t.stack == s.stack && t.cx.expr == s.cx.expr && t.cx.noeval == s.cx.noeval
  }

  lemma Next(s: State, m: Store, ls: Lexemes) returns (t: State)
    requires Sound(s, m) && Spells(s.cx.expr, s.cx.tp, ls) && Readable(s.cx.curtok, ls, m.texts)
    requires Steady(s) || !NamesTarget(ls)
    ensures ReadTok(s) == Val(0, t) && Sound(t, m) && Beside(s, t) && Loaded(t, m, ls)
    ensures !StepToken(s.cx.curtok) ==> Usable(t, m)
    ensures t.vars == s.vars && t.cx.lasttok == s.cx.curtok
    ensures ls.Nil? || !ls.head.Ident? ==> t.cx.tokstr == s.cx.tokstr
  {
    hide ReadTok, Holds, Peekable, ValidName, ValidNumeral, ValidOperator, Fits, Spells;
    t := ReadTok(s).st;
    match ls
    case Nil =>
      ReadEndOfText(s);
    case Cons(h, rest) =>
      match h
      case Ident(x) =>
        var v := ReadNameLexeme(s, m, x, rest);
      case Number(n) =>
        ReadNumberLexeme(s, n, rest);
        NumeralReads(n);
      case _ =>
        ReadOperatorLexeme(s, h, rest);
  }

  lemma NumeralReads(n: string)
    requires ValidNumeral(n)
    ensures StrLong(n) == Ok(StrLong(n).value)
  {
    hide StrLong;
  }

  // ---------------------------------------------------------------- levels

  // The level whose Cont consumes a token.
  function TokenLevel(t: Token): int {
    if t == Char(',') then 0
    else if t == Char('=') || t == OpAssign then 1
    else if t == Char('?') then 2
    else if t == LOr then 3
    else if t == LAnd then 4
    else if t == Pow then 13
    else BinaryLevel(t)
  }

  predicate Loops(l: nat) { l == 0 || 3 <= l <= 12 }

  // What may follow an operand that was spelled for level l.
  predicate Follows(l: nat, rest: Lexemes) {
    match rest
    case Nil => true
    case Cons(h, _) =>
      match h
      case Punct(t) =>
        if t == Char(')') || t == Char(':') then true
        else
          && t != Char('=') && t != OpAssign && TokenLevel(t) != -1
          && (TokenLevel(t) < l || (TokenLevel(t) == l && Loops(l)))
      case _ => false
  }

  lemma FollowsTokens(l: nat, rest: Lexemes)
    requires Follows(l, rest)
    ensures Peekable(rest) && TokenOf(rest) != PostInc && TokenOf(rest) != PostDec
    ensures !NextIs(rest, Punct(Char('=')))
    ensures forall curtok, texts :: Readable(curtok, rest, texts)
    ensures TokenLevel(TokenOf(rest)) <= l
    ensures TokenLevel(TokenOf(rest)) == l ==> Loops(l)
  {
  }

  lemma FollowsHigher(l: nat, k: nat, rest: Lexemes)
    requires Follows(l, rest) && l < k
    ensures Follows(k, rest)
  {
  }

  lemma BinaryLevelOf(l: nat, t: Token)
    requires l <= 13
    ensures BinaryAt(l, t) <==> BinaryLevel(t) == l
  {
  }

  lemma ContStops(l: nat, v: int, s: State)
    requires Ready(s) && l <= 13 && TokenLevel(s.cx.curtok) != l
    ensures Cont(l, v, s) == Val(v, s)
  {
    hide ReadTok, Exp;
    BinaryLevelOf(l, s.cx.curtok);
  }

  // ------------------------------------------------------------ the contract

  // Where a routine at level l stands once its operand was parsed.
  function Rest(l: nat, v: int, t: State): Out
    requires Ready(t) && l <= 15
  {
    if l <= 13 then Cont(l, v, t) else Val(v, t)
  }

  predicate Starts(l: nat, e: Tree, s: State, m: Store, rest: Lexemes) {
    && l <= 15 && Valid(e) && Known(e, m.texts) && Usable(s, m) && Follows(l, rest)
    && Loaded(s, m, Spell(e, l, rest))
  }

  // The operand e was parsed from s, up to t, as the tree evaluates.
  predicate Parses(l: nat, e: Tree, s: State, m: Store, rest: Lexemes, t: State)
    requires Ready(s) && l <= 15 && Valid(e)
  {
    match Eval(e, m, s.cx.noeval == 0)
    case Value(v, m') =>
      Usable(t, m') && Beside(s, t) && Loaded(t, m', rest) && Exp(l, s) == Rest(l, v, t)
    case Error(err, m') =>
      Exp(l, s).Fail? && Exp(l, s).error == err && Holds(Exp(l, s).st.vars, m')
  }

  // A routine above the follower's level has nothing left to do.
  lemma Done(l: nat, v: int, t: State, m: Store, rest: Lexemes)
    requires Ready(t) && l <= 15 && Loaded(t, m, rest)
    requires TokenLevel(TokenOf(rest)) != l
    ensures Rest(l, v, t) == Val(v, t)
  {
    hide Cont, Spells;
    if l <= 13 { ContStops(l, v, t); }
  }

  // The first lexeme of a spelling can be read after any operator.
  predicate StartsWell(ls: Lexemes, curtok: Token, texts: map<string, string>) {
    && ls.Cons? && Readable(curtok, ls, texts)
    && LexemeToken(ls.head) != End && LexemeToken(ls.head) != Char(':')
  }

  lemma BinaryPeekable(t: Token, rest: Lexemes)
    requires BinaryLevel(t) != -1 || t in {Char('?'), Char(','), LOr, LAnd, Pow}
    ensures Peekable(Cons(Punct(t), rest))
  {
  }

  lemma {:induction false} SpellReadable(e: Tree, l: nat, rest: Lexemes, curtok: Token, texts: map<string, string>)
    requires Valid(e) && Known(e, texts) && l <= 15 && Peekable(rest) && curtok != Str
    ensures StartsWell(Spell(e, l, rest), curtok, texts)
    decreases e
  {
    if Level(e) < l {
    } else if e.IfElse? {
      hide StartsWell, Peekable;
      var r1 := Spell(e.a, 0, Cons(Punct(Char(':')), Spell(e.b, 2, rest)));
      BinaryPeekable(Char('?'), r1);
      SpellReadable(e.c, 3, Cons(Punct(Char('?')), r1), curtok, texts);
    } else if e.Or? {
      hide StartsWell, Peekable;
      BinaryPeekable(LOr, Spell(e.b, 4, rest));
      SpellReadable(e.a, 3, Cons(Punct(LOr), Spell(e.b, 4, rest)), curtok, texts);
    } else if e.And? {
      hide StartsWell, Peekable;
      BinaryPeekable(LAnd, Spell(e.b, 5, rest));
      SpellReadable(e.a, 4, Cons(Punct(LAnd), Spell(e.b, 5, rest)), curtok, texts);
    } else if e.Binary? {
      hide StartsWell, Peekable, BinaryLevel;
      BinaryPeekable(e.op, Spell(e.b, Level(e) + 1, rest));
      SpellReadable(e.a, Level(e), Cons(Punct(e.op), Spell(e.b, Level(e) + 1, rest)), curtok, texts);
    } else if e.Raise? {
      hide StartsWell, Peekable;
      BinaryPeekable(Pow, Spell(e.b, 13, rest));
      SpellReadable(e.a, 14, Cons(Punct(Pow), Spell(e.b, 13, rest)), curtok, texts);
    } else if e.Sequence? {
      hide StartsWell, Peekable;
      BinaryPeekable(Char(','), Spell(e.b, 1, rest));
      SpellReadable(e.a, 0, Cons(Punct(Char(',')), Spell(e.b, 1, rest)), curtok, texts);
    } else {
      SpellReadableLeaf(e, l, rest, curtok, texts);
    }
  }

  lemma SpellReadableLeaf(e: Tree, l: nat, rest: Lexemes, curtok: Token, texts: map<string, string>)
    requires Valid(e) && Known(e, texts) && l <= Level(e) && Peekable(rest) && curtok != Str
    requires !(e.IfElse? || e.Or? || e.And? || e.Binary? || e.Raise? || e.Sequence?)
    ensures StartsWell(Spell(e, l, rest), curtok, texts)
  {
    hide ValidName, ValidNumeral, AssignOp, Plain;
  }

  // ------------------------------------------- one turn of each routine

  // An operand is handed up unchanged through the levels above the follower.
  lemma {:induction false} Climb(l: nat, s: State, v: int, t: State)
    requires Ready(s) && Ready(t) && l <= 15
    requires s.cx.curtok != Char('!') && s.cx.curtok != Char('~')
    requires Exp(15, s) == Val(v, t) && TokenLevel(t.cx.curtok) < l
    ensures Exp(l, s) == Val(v, t)
    decreases 15 - l
  {
    hide Exp0, TokenLevel, Cont;
    if l == 15 {
    } else if l == 14 {
    } else {
      hide Exp1;
      Climb(l + 1, s, v, t);
      ContStops(l, v, t);
    }
  }

  lemma ExpStep(l: nat, s: State)
    requires Ready(s) && l <= 13
    ensures Exp(l + 1, s).Fail? ==> Exp(l, s) == Exp(l + 1, s)
    ensures Exp(l + 1, s).Val? ==> Exp(l, s) == Cont(l, Exp(l + 1, s).val, Exp(l + 1, s).st)
  {
    hide Cont, Exp0, Exp1;
  }

  lemma CommaStep(v: int, s: State, s1: State)
    requires Ready(s) && Ready(s1) && s.cx.curtok == Char(',') && ReadTok(s) == Val(0, s1)
    ensures var r := Exp(1, s1);
      Cont(0, v, s) == if r.Fail? then r else Cont(0, r.val, r.st)
  {
    hide ReadTok, Exp;
  }

  lemma BinaryStep(l: nat, v: int, s: State, s1: State)
    requires Ready(s) && Ready(s1) && 5 <= l <= 12 && BinaryAt(l, s.cx.curtok) && ReadTok(s) == Val(0, s1)
    ensures var r := Exp(l + 1, s1);
      Cont(l, v, s) ==
      if r.Fail? then r
      else match Apply(s.cx.curtok, v, r.val)
           case None => Fail(DivisionByZero, r.st)
           case Some(x) => Cont(l, x, r.st)
  {
    hide ReadTok, Exp, Apply, BinaryAt;
  }

  lemma PowerStep(v: int, s: State, s1: State)
    requires Ready(s) && Ready(s1) && s.cx.curtok == Pow && ReadTok(s) == Val(0, s1)
    ensures var r := Exp(13, s1);
      Cont(13, v, s) ==
      if r.Fail? then r
      else if r.val == 0 then Val(1, r.st)
      else if r.val < 0 then Fail(NegativeExponent, r.st)
      else Cont(13, Power(v, r.val), r.st)
  {
    hide ReadTok, Exp, Power;
  }

  // The state after an operand that may have been evaluated with one more
  // noeval.
  function Lowered(t: State, less: bool): State {
    if less && t.cx.noeval > 0 then LessNoeval(t, true) else t
  }

  function Resumed(t: State, less: bool, last: Token): State { SetLast(Lowered(t, less), last) }

  // Around an operand that C would skip, noeval goes up and down again.
  lemma SkippedOperand(s: State, s1: State, more: bool, s2: State)
    requires Beside(s, s1) && Beside(MoreNoeval(s1, more), s2)
    ensures s2.cx.noeval == 0 <==> s.cx.noeval == 0 && !more
  {
  }

  lemma AfterOperand(s: State, s1: State, more: bool, s2: State, s3: State, last: Token, m: Store, rest: Lexemes)
    requires Beside(s, s1) && Beside(MoreNoeval(s1, more), s2) && Beside(s2, s3)
    requires Usable(s3, m) && Loaded(s3, m, rest) && !StepToken(last)
    ensures Usable(Lowered(s3, more), m) && Loaded(Lowered(s3, more), m, rest) && Beside(s, Lowered(s3, more))
    ensures Usable(Resumed(s3, more, last), m) && Loaded(Resumed(s3, more, last), m, rest)
    ensures Beside(s, Resumed(s3, more, last))
  {
    hide Holds, Spells;
  }

  lemma OrStep(v: int, s: State, s1: State)
    requires Ready(s) && Ready(s1) && s.cx.curtok == LOr && ReadTok(MoreNoeval(s, v != 0)) == Val(0, s1)
    ensures var r := Exp(4, s1);
      && (r.Fail? ==> Cont(3, v, s) == r)
      && (r.Val? ==> Cont(3, v, s) == Cont(3, Truth(v != 0 || r.val != 0), Resumed(r.st, v != 0, LOr)))
  {
    hide ReadTok, Exp;
  }

  lemma AndStep(v: int, s: State, s1: State)
    requires Ready(s) && Ready(s1) && s.cx.curtok == LAnd && ReadTok(MoreNoeval(s, v == 0)) == Val(0, s1)
    ensures var r := Exp(5, s1);
      && (r.Fail? ==> Cont(4, v, s) == r)
      && (r.Val? ==> Cont(4, v, s) == Cont(4, Truth(v != 0 && r.val != 0), Resumed(r.st, v == 0, LAnd)))
  {
    hide ReadTok, Exp;
  }

  lemma CondStep(v: int, s: State, s1: State)
    requires Ready(s) && Ready(s1) && s.cx.curtok == Char('?') && ReadTok(s) == Val(0, s1)
    requires s1.cx.curtok != End && s1.cx.curtok != Char(':')
    ensures var r := Exp(0, MoreNoeval(s1, v == 0));
      && (r.Fail? ==> Cont(2, v, s) == r)
      && (r.Val? ==> Cont(2, v, s) == CondElse(v, r.val, Lowered(r.st, v == 0)))
  {
    hide ReadTok, Exp, CondElse;
  }

  lemma ElseStep(v: int, a: int, s: State, s1: State)
    requires Ready(s) && Ready(s1) && s.cx.curtok == Char(':') && ReadTok(s) == Val(0, s1)
    requires s1.cx.curtok != End
    ensures var r := Exp(2, MoreNoeval(s1, v != 0));
      && (r.Fail? ==> CondElse(v, a, s) == r)
      && (r.Val? ==>
            CondElse(v, a, s) == Val(if v != 0 then a else r.val, Resumed(r.st, v != 0, Cond)))
  {
    hide ReadTok, Exp;
  }

  function ClearName(s: State): State { s.(cx := s.cx.(tokstr := "")) }

  lemma AssignStep(v: int, s: State, s1: State)
    requires Ready(s) && Ready(s1) && s.cx.curtok == Char('=') && s.cx.lasttok == Str
    requires ReadTok(s) == Val(0, s1)
    ensures var r := Exp(1, s1);
      Cont(1, v, s) == if r.Fail? then r else Val(r.val, ClearName(Bind(r.st, s.cx.tokstr, r.val)))
  {
    hide ReadTok, Exp, Apply, AssignOp;
  }

  lemma UpdateStep(v: int, s: State, s1: State)
    requires Ready(s) && Ready(s1) && s.cx.curtok == OpAssign && s.cx.lasttok == Str && AssignOp(s.assigntok)
    requires ReadTok(s) == Val(0, s1)
    ensures var r := Exp(1, s1);
      Cont(1, v, s) ==
      if r.Fail? then r
      else match Apply(s.assigntok, v, r.val)
           case None => Fail(DivisionByZero, r.st)
           case Some(x) => Val(x, ClearName(Bind(r.st, s.cx.tokstr, x)))
  {
    hide ReadTok, Exp, Apply, AssignOp;
  }

  lemma UnaryStep(s: State, s1: State)
    requires Ready(s) && Ready(s1) && ReadTok(s) == Val(0, s1)
    ensures s.cx.curtok == Char('!') ==>
              Exp(14, s) == if Exp(14, s1).Fail? then Exp(14, s1) else Val(Truth(Exp(14, s1).val == 0), Exp(14, s1).st)
    ensures s.cx.curtok == Char('~') ==>
              Exp(14, s) == if Exp(14, s1).Fail? then Exp(14, s1) else Val(-Exp(14, s1).val - 1, Exp(14, s1).st)
  {
    hide ReadTok, Exp0;
    var r := Exp(14, s1);
    hide Exp;
    assert Exp(14, s) == Exp1(s) by { ExpLast(s); }
  }

  lemma ExpLast(s: State)
    requires Ready(s)
    ensures Exp(14, s) == Exp1(s) && Exp(15, s) == Exp0(s)
  {
    hide Exp0, Exp1;
  }

  lemma SignStep(s: State, s1: State)
    requires Ready(s) && Ready(s1) && ReadTok(s) == Val(0, s1)
    ensures s.cx.curtok == Char('-') ==>
              Exp(15, s) == if Exp(15, s1).Fail? then Exp(15, s1) else Val(Wrap(-Exp(15, s1).val), Exp(15, s1).st)
    ensures s.cx.curtok == Char('+') ==> Exp(15, s) == Exp(15, s1)
  {
    hide ReadTok, Exp;
    ExpLast(s);
  }

  lemma ParenStep(s: State, s1: State)
    requires Ready(s) && Ready(s1) && s.cx.curtok == Char('(') && ReadTok(s) == Val(0, s1)
    ensures var r := Exp(0, s1);
      && (r.Fail? ==> Exp(15, s) == r)
      && (r.Val? && r.st.cx.curtok == Char(')') && ReadTok(r.st).Val? ==>
            Exp(15, s) == Val(r.val, ReadTok(r.st).st))
  {
    hide ReadTok, Exp;
    ExpLast(s);
  }
}
