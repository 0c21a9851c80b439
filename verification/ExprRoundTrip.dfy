// The induction over trees: parsing the spelling of a tree evaluates it.

module ExprRoundTrip {
  import opened Options
  import opened Numerals
  import opened Arithmetic
  import opened Expr
  import opened ExprTrees
  import opened ExprLexing
  import opened ExprParsing

  predicate Live(s: State) { s.cx.noeval == 0 }

  // ------------------------------------------------------------- operands

  lemma ParseLiteral(s: State, m: Store, n: string, rest: Lexemes) returns (t: State)
    requires Usable(s, m) && Loaded(s, m, Cons(Number(n), rest)) && Readable(Num, rest, m.texts)
    ensures Exp(15, s) == Val(s.cx.tokval, t) && StrLong(n) == Ok(s.cx.tokval)
    ensures Usable(t, m) && Beside(s, t) && Loaded(t, m, rest)
  {
    hide ReadTok, StrLong, Readable, Holds, Spells;
    t := Next(s, m, rest);
    hide Loaded;
    ExpLast(s);
  }

  // A name that is not followed by ++ or --.
  lemma ParseName(s: State, m: Store, x: string, rest: Lexemes) returns (t: State)
    requires Usable(s, m) && Loaded(s, m, Cons(Ident(x), rest)) && Peekable(rest)
    requires TokenOf(rest) != PostInc && TokenOf(rest) != PostDec
    ensures Exp(15, s) == Val(s.cx.tokval, t)
    ensures Usable(t, m) && Beside(s, t) && Loaded(t, m, rest)
    ensures t.vars == s.vars && t.cx.lasttok == Str && t.cx.tokstr == x
  {
    hide ReadTok, Holds, Spells, ValidOperator;
    var peeking := s.(cx := s.cx.(tokstr := "", noeval := 1));
    PeekAhead(peeking, rest);
    var p := ReadTok(peeking).st;
    var back := p.(cx := s.cx);
    assert back == s.(assigntok := PeekAssign(s, rest));
    PeekableReadable(rest);
    t := NextAfterName(s, back, m, x, rest);
    hide Loaded, Peekable;
    ExpLast(s);
  }

  lemma PeekableReadable(rest: Lexemes)
    requires Peekable(rest)
    ensures forall texts :: Readable(Str, rest, texts)
    ensures rest.Nil? || !rest.head.Ident?
    ensures !NamesTarget(rest)
  {
  }

  lemma NextAfterName(s: State, back: State, m: Store, x: string, rest: Lexemes) returns (t: State)
    requires Usable(s, m) && Loaded(s, m, Cons(Ident(x), rest)) && Readable(Str, rest, m.texts)
    requires rest.Nil? || !rest.head.Ident?
    requires back.cx == s.cx && back.vars == s.vars && back.stack == s.stack
    ensures ReadTok(back) == Val(0, t) && Usable(t, m) && Beside(s, t) && Loaded(t, m, rest)
    ensures t.vars == s.vars && t.cx.lasttok == Str && t.cx.tokstr == x
  {
    hide ReadTok, Holds, Spells, Readable;
    t := Next(back, m, rest);
  }

  lemma NameLoaded(s: State, m: Store, x: string, rest: Lexemes)
    requires Ready(s) && Loaded(s, m, Cons(Ident(x), rest)) && !NextIs(rest, Punct(Char('=')))
    ensures s.cx.curtok == Str && s.cx.tokstr == x && s.cx.tokval == Lookup(m, x)
    ensures Spells(s.cx.expr, s.cx.tp, rest)
  {
    hide Spells, Lookup;
  }

  // The state in which the token after an assigned name is read.
  function Assigned(s: State, x: string, v: int): State {
    var b := Bind(s, x, v);
    b.(cx := b.cx.(curtok := Num))
  }

  lemma NextAfterAssigned(s: State, s1: State, m: Store, x: string, v: int, rest: Lexemes) returns (t: State)
    requires Sound(s1, m) && Beside(s, s1) && IntMax(v)
    requires Steady(s1) || !NamesTarget(rest)
    requires Spells(s1.cx.expr, s1.cx.tp, rest) && Readable(Num, rest, m.texts)
    ensures var s3 := Assigned(s1, x, v);
      && Ready(s3) && ReadTok(s3) == Val(0, t)
      && Usable(t, Put(m, x, v, Live(s))) && Beside(s, t) && Loaded(t, Put(m, x, v, Live(s)), rest)
  {
    hide ReadTok, Holds, Readable, Loaded, Spells;
    HoldsPut(s1.vars, m, x, v);
    t := Next(Assigned(s1, x, v), Put(m, x, v, Live(s)), rest);
  }

  // What is known after an update of x to v.
  predicate Stepped(s: State, t: State, m: Store, x: string, v: int, rest: Lexemes) {
    && Usable(t, Put(m, x, v, Live(s))) && Beside(s, t)
    && Loaded(t, Put(m, x, v, Live(s)), rest)
  }

  // Looking ahead at ++ or --.
  lemma PeekStep(s: State, inc: bool, rest: Lexemes) returns (p: State)
    requires Ready(s) && s.cx.curtok == Str
    requires Spells(s.cx.expr, s.cx.tp, Cons(Punct(if inc then PostInc else PostDec), rest))
    ensures ReadTok(s.(cx := s.cx.(tokstr := "", noeval := 1))) == Val(0, p)
    ensures p.cx.curtok == (if inc then PostInc else PostDec)
    ensures p.vars == s.vars && p.stack == s.stack && p.cx.expr == s.cx.expr
    ensures Ready(p) && Spells(p.cx.expr, p.cx.tp, rest)
  {
    hide ReadTok, Spells;
    var h := Punct(if inc then PostInc else PostDec);
    var peeking := s.(cx := s.cx.(tokstr := "", noeval := 1));
    ReadOperatorLexeme(peeking, h, rest);
    p := AfterOperator(peeking, h);
  }

  lemma ParsePost(s: State, m: Store, inc: bool, x: string, rest: Lexemes) returns (t: State)
    requires Usable(s, m) && Readable(Num, rest, m.texts)
    requires Loaded(s, m, Cons(Ident(x), Cons(Punct(if inc then PostInc else PostDec), rest)))
    ensures Exp(15, s) == Val(Lookup(m, x), t)
    ensures Stepped(s, t, m, x, Wrap(Lookup(m, x) + if inc then 1 else -1), rest)
  {
    hide ReadTok, Holds, Readable, Wrap, Exp, Loaded, Spells, NamesTarget, Lookup, Assigned;
    NameLoaded(s, m, x, Cons(Punct(if inc then PostInc else PostDec), rest));
    var p := PeekStep(s, inc, rest);
    var v := Wrap(s.cx.tokval + (if inc then 1 else -1));
    WrapIsIntMax(s.cx.tokval + (if inc then 1 else -1));
    t := NextAfterPost(s, p, m, x, v, rest);
    ExpLast(s);
    PostValue(s, p, Assigned(Peeked(s, p), x, v), t, v);
  }

  // The state with the name put back after the operator was looked at.
  function Peeked(s: State, p: State): State {
    p.(cx := p.cx.(tokstr := s.cx.tokstr, noeval := s.cx.noeval, lasttok := Str))
  }

  lemma NextAfterPost(s: State, p: State, m: Store, x: string, v: int, rest: Lexemes) returns (t: State)
    requires Usable(s, m) && Readable(Num, rest, m.texts) && IntMax(v)
    requires p.vars == s.vars && p.stack == s.stack && p.cx.expr == s.cx.expr
    requires Ready(p) && Spells(p.cx.expr, p.cx.tp, rest)
    ensures var s3 := Assigned(Peeked(s, p), x, v);
      Ready(s3) && ReadTok(s3) == Val(0, t) && Stepped(s, t, m, x, v, rest)
  {
    hide ReadTok, Holds, Readable, Spells, NamesTarget, Assigned, Loaded;
    t := NextAfterAssigned(s, Peeked(s, p), m, x, v, rest);
  }

  lemma WrapIsIntMax(n: int)
    ensures IntMax(Wrap(n))
  {
  }

  lemma PostValue(s: State, p: State, s3: State, t: State, v: int)
    requires Ready(s) && s.cx.curtok == Str && Ready(p)
    requires ReadTok(s.(cx := s.cx.(tokstr := "", noeval := 1))) == Val(0, p)
    requires p.cx.curtok == PostInc || p.cx.curtok == PostDec
    requires v == Wrap(s.cx.tokval + (if p.cx.curtok == PostInc then 1 else -1))
    requires s3 == Assigned(Peeked(s, p), s.cx.tokstr, v)
    requires Ready(s3) && ReadTok(s3) == Val(0, t)
    ensures Exp0(s) == Val(s.cx.tokval, t)
  {
    hide ReadTok, Exp, Wrap, Bind, Exp0;
    assert PeekResult(p, s.cx, s.cx.tokval) == s3;
    NameOperandIs(s, p, t);
  }

  lemma NameOperandIs(s: State, p: State, t: State)
    requires Ready(s) && s.cx.curtok == Str && Ready(p)
    requires ReadTok(s.(cx := s.cx.(tokstr := "", noeval := 1))) == Val(0, p)
    requires Ready(PeekResult(p, s.cx, s.cx.tokval)) && ReadTok(PeekResult(p, s.cx, s.cx.tokval)) == Val(0, t)
    ensures Exp0(s) == Val(s.cx.tokval, t)
  {
    hide ReadTok, PeekResult;
    assert Exp0(s) == NameOperand(s) by { hide NameOperand, PreStep, Parenthesis; }
    hide Exp0;
  }

  // The name after a prefix ++ or --.
  lemma NextStepped(s: State, m: Store, inc: bool, x: string, rest: Lexemes) returns (s1: State)
    requires Usable(s, m) && !NextIs(rest, Punct(Char('=')))
    requires Peekable(rest) && ValidName(x) && Plain(m.texts, x)
    requires Loaded(s, m, Cons(Punct(if inc then PreInc else PreDec), Cons(Ident(x), rest)))
    ensures s.cx.curtok == (if inc then PreInc else PreDec)
    ensures ReadTok(SetLast(s, s.cx.curtok)) == Val(0, s1) && Sound(s1, m) && Beside(s, s1)
    ensures Loaded(s1, m, Cons(Ident(x), rest))
  {
    hide ReadTok, Holds, ValidName, Peekable, Spells, Plain;
    s1 := Next(SetLast(s, if inc then PreInc else PreDec), m, Cons(Ident(x), rest));
  }

  lemma ParsePre(s: State, m: Store, inc: bool, x: string, rest: Lexemes) returns (t: State)
    requires Usable(s, m) && Readable(Num, rest, m.texts) && !NextIs(rest, Punct(Char('=')))
    requires Peekable(rest) && ValidName(x) && Plain(m.texts, x)
    requires Loaded(s, m, Cons(Punct(if inc then PreInc else PreDec), Cons(Ident(x), rest)))
    ensures Exp(15, s) == Val(Wrap(Lookup(m, x) + if inc then 1 else -1), t)
    ensures Stepped(s, t, m, x, Wrap(Lookup(m, x) + if inc then 1 else -1), rest)
  {
    hide ReadTok, Holds, ValidName, Peekable, Wrap, Exp, Loaded, Spells, Readable, Plain, NamesTarget, Usable;
    var s1 := NextStepped(s, m, inc, x, rest);
    PeekableReadable(rest);
    NameLoaded(s1, m, x, rest);
    var v := Wrap(s1.cx.tokval + (if inc then 1 else -1));
    WrapIsIntMax(s1.cx.tokval + (if inc then 1 else -1));
    t := NextAfterAssigned(s, s1, m, x, v, rest);
    ExpLast(s);
    PreValue(s, s1, Assigned(s1, x, v), t, v);
  }

  lemma PreValue(s: State, s1: State, s3: State, t: State, v: int)
    requires Ready(s) && (s.cx.curtok == PreInc || s.cx.curtok == PreDec)
    requires Ready(s1) && ReadTok(SetLast(s, s.cx.curtok)) == Val(0, s1) && s1.cx.curtok == Str
    requires v == Wrap(s1.cx.tokval + (if s.cx.curtok == PreInc then 1 else -1))
    requires s3 == Assigned(s1, s1.cx.tokstr, v)
    requires Ready(s3) && ReadTok(s3) == Val(0, t)
    ensures Exp0(s) == Val(v, t)
  {
    hide ReadTok, Exp, Wrap, Bind;
    assert Exp0(s) == PreStep(s);
  }

  // -------------------------------------------------------------- the cases

  // An operand of a higher level, or one in parentheses, comes from the next
  // routine, which then finds nothing to do at this level.
  lemma ParseDescend(l: nat, e: Tree, s: State, m: Store, rest: Lexemes) returns (t: State)
    requires Starts(l, e, s, m, rest) && l < 15 && Level(e) != l
    ensures Parses(l, e, s, m, rest, t)
    decreases e, if Level(e) < l then 1 else 0, 16 - l, 0
  {
    hide Exp, Cont, Eval, Follows, Holds, TokenLevel, Level, Parses, Loaded;
    FollowsHigher(l, l + 1, rest);
    FollowsTokens(l, rest);
    SpellSame(e, l, rest);
    if l == 14 {
      NotUnary(e, rest);
      UnaryPasses14(e, s, m, rest);
    } else {
      ExpStep(l, s);
    }
    hide Spell;
    t := ParseLevel(l + 1, e, s, m, rest);
    Lift(l, e, s, m, rest, t);
  }

  lemma UnaryPasses14(e: Tree, s: State, m: Store, rest: Lexemes)
    requires Starts(14, e, s, m, rest) && Level(e) != 14
    ensures Exp(14, s) == Exp(15, s)
  {
    hide Exp, Follows, Holds, Level, Spells, Spell, Eval;
    NotUnary(e, rest);
    UnaryPasses(s);
  }

  lemma Lift(l: nat, e: Tree, s: State, m: Store, rest: Lexemes, t: State)
    requires Ready(s) && Valid(e) && l < 15 && Parses(l + 1, e, s, m, rest, t)
    requires TokenLevel(TokenOf(rest)) <= l
    requires l == 14 ==> Exp(14, s) == Exp(15, s)
    requires l < 14 && Exp(l + 1, s).Fail? ==> Exp(l, s) == Exp(l + 1, s)
    requires l < 14 && Exp(l + 1, s).Val? ==> Exp(l, s) == Cont(l, Exp(l + 1, s).val, Exp(l + 1, s).st)
    ensures Parses(l, e, s, m, rest, t)
  {
    hide Exp, Cont, Eval, Holds, TokenLevel, Level, Loaded;
    if Eval(e, m, Live(s)).Value? {
      Done(l + 1, Eval(e, m, Live(s)).v, t, Eval(e, m, Live(s)).m, rest);
    }
  }

  lemma SpellSame(e: Tree, l: nat, rest: Lexemes)
    requires Valid(e) && l < 15 && Level(e) != l
    ensures Spell(e, l + 1, rest) == Spell(e, l, rest)
  {
  }

  lemma NotUnary(e: Tree, rest: Lexemes)
    requires Valid(e) && Level(e) != 14
    ensures Spell(e, 14, rest).Cons?
    ensures LexemeToken(Spell(e, 14, rest).head) != Char('!')
    ensures LexemeToken(Spell(e, 14, rest).head) != Char('~')
  {
  }

  lemma UnaryPasses(s: State)
    requires Ready(s) && s.cx.curtok != Char('!') && s.cx.curtok != Char('~')
    ensures Exp(14, s) == Exp(15, s)
  {
    ExpLast(s);
    hide Exp0, ReadTok;
  }

  lemma ParseParen(e: Tree, s: State, m: Store, rest: Lexemes) returns (t: State)
    requires Starts(15, e, s, m, rest) && Level(e) < 15
    ensures Parses(15, e, s, m, rest, t)
    decreases e, 1, 1, 0
  {
    hide Plain, Eval, Follows, Holds, Level, ReadTok, Spells, Parses, Exp, Spell, Loaded;
    var close := Cons(Punct(Char(')')), rest);
    SpellParen(e, rest);
    CloseFollows(rest);
    LoadedToken(s, m, Cons(Punct(Char('(')), Spell(e, 0, close)));
    var s1 := OperatorNext(0, s, m, Char('('), e, 0, close, false);
    t := ParseLevel(0, e, s1, m, close);
    var s2 := t;
    if Eval(e, m, Live(s)).Value? {
      Parsed(0, e, s1, m, close, s2);
      FollowsTokens(15, rest);
      t := NextAfter(s2, Eval(e, m, Live(s)).m, Char(')'), rest);
    }
    ParenTurn(e, s, m, rest, s1, s2, t);
  }

  // Reading on after a token other than a name.
  lemma NextAfter(s: State, m: Store, tok: Token, rest: Lexemes) returns (t: State)
    requires Usable(s, m) && Loaded(s, m, Cons(Punct(tok), rest)) && Readable(tok, rest, m.texts) && !StepToken(tok)
    ensures ReadTok(s) == Val(0, t) && Usable(t, m) && Beside(s, t) && Loaded(t, m, rest)
  {
    hide ReadTok, Holds, Spells, Readable;
    t := Next(s, m, rest);
  }

  lemma ParenTurn(e: Tree, s: State, m: Store, rest: Lexemes, s1: State, s2: State, t: State)
    requires Ready(s) && Valid(e) && s.cx.curtok == Char('(')
    requires Ready(s1) && ReadTok(s) == Val(0, s1) && Beside(s, s1)
    requires Parses(0, e, s1, m, Cons(Punct(Char(')')), rest), s2)
    requires Eval(e, m, Live(s)).Value? ==>
               && Ready(s2) && ReadTok(s2) == Val(0, t) && Usable(t, Eval(e, m, Live(s)).m)
               && Beside(s2, t) && Loaded(t, Eval(e, m, Live(s)).m, rest)
    ensures Parses(15, e, s, m, rest, t)
  {
    hide Exp, Cont, Eval, Holds, ReadTok, Loaded, TokenLevel;
    ParenStep(s, s1);
    var r := Eval(e, m, Live(s));
    if r.Value? {
      Parsed(0, e, s1, m, Cons(Punct(Char(')')), rest), s2);
      CloseFollows(rest);
      Done(0, r.v, s2, r.m, Cons(Punct(Char(')')), rest));
    }
  }

  lemma SpellParen(e: Tree, rest: Lexemes)
    requires Valid(e) && Level(e) < 15
    ensures Spell(e, 15, rest) == Cons(Punct(Char('(')), Spell(e, 0, Cons(Punct(Char(')')), rest)))
  {
  }

  lemma CloseFollows(rest: Lexemes)
    ensures forall l: nat :: Follows(l, Cons(Punct(Char(')')), rest))
    ensures forall l: nat :: Follows(l, Cons(Punct(Char(':')), rest))
    ensures Peekable(Cons(Punct(Char(')')), rest)) && Peekable(Cons(Punct(Char(':')), rest))
    ensures TokenLevel(Char(')')) == -1 && TokenLevel(Char(':')) == -1
  {
  }

  // The operator after a left operand, and the start of the right operand.
  lemma OperatorNext(l: nat, s1: State, m1: Store, op: Token, e: Tree, k: nat, rest: Lexemes, more: bool)
    returns (s2: State)
    requires Usable(s1, m1) && Valid(e) && Known(e, m1.texts) && k <= 15 && l <= 15
    requires Loaded(s1, m1, Cons(Punct(op), Spell(e, k, rest))) && op != Str && Follows(l, rest)
    requires !StepToken(op)
    ensures ReadTok(MoreNoeval(s1, more)) == Val(0, s2) && Usable(s2, m1) && Loaded(s2, m1, Spell(e, k, rest))
    ensures Beside(MoreNoeval(s1, more), s2)
    ensures s2.cx.curtok != End && s2.cx.curtok != Char(':')
  {
    hide ReadTok, Holds, Spells, Spell, Readable;
    FollowsTokens(l, rest);
    SpellReadable(e, k, rest, op, m1.texts);
    s2 := Next(MoreNoeval(s1, more), m1, Spell(e, k, rest));
  }

  // What Parses says of the state it leads to.
  lemma Parsed(l: nat, e: Tree, s: State, m: Store, rest: Lexemes, t: State)
    requires Ready(s) && l <= 15 && Valid(e) && Parses(l, e, s, m, rest, t)
    requires Eval(e, m, Live(s)).Value?
    ensures Usable(t, Eval(e, m, Live(s)).m) && Beside(s, t) && Loaded(t, Eval(e, m, Live(s)).m, rest)
    ensures t.cx.curtok == TokenOf(rest) && Ready(t) && Holds(t.vars, Eval(e, m, Live(s)).m)
    ensures Exp(l, s) == Rest(l, Eval(e, m, Live(s)).v, t)
  {
    hide Exp, Eval, Holds, Spells, Rest;
  }

  lemma OneRun(s: State, s1: State, s2: State)
    requires Beside(s, s1)
    ensures Live(s1) == Live(s)
    ensures Beside(s, s2) == Beside(s1, s2)
    ensures Beside(s, s2) ==> Live(s2) == Live(s)
  {
  }

  // The same for an error, and the ways to conclude.
  lemma Failed(l: nat, e: Tree, s: State, m: Store, rest: Lexemes, t: State)
    requires Ready(s) && l <= 15 && Valid(e) && Parses(l, e, s, m, rest, t)
    requires Eval(e, m, Live(s)).Error?
    ensures var r := Eval(e, m, Live(s));
      Exp(l, s).Fail? && Exp(l, s).error == r.error && Holds(Exp(l, s).st.vars, r.m)
  {
    hide Exp, Eval, Holds;
  }

  lemma ParsesError(l: nat, e: Tree, s: State, m: Store, rest: Lexemes, t: State, r: Evaluation)
    requires Ready(s) && l <= 15 && Valid(e) && Eval(e, m, Live(s)) == r && r.Error?
    requires Exp(l, s).Fail? && Exp(l, s).error == r.error && Holds(Exp(l, s).st.vars, r.m)
    ensures Parses(l, e, s, m, rest, t)
  {
    hide Exp, Eval, Holds;
  }

  lemma ParsesValue(l: nat, e: Tree, s: State, m: Store, rest: Lexemes, t: State, v: int, m1: Store)
    requires Ready(s) && l <= 15 && Valid(e) && Eval(e, m, Live(s)) == Value(v, m1)
    requires Usable(t, m1) && Beside(s, t) && Loaded(t, m1, rest) && Exp(l, s) == Rest(l, v, t)
    ensures Parses(l, e, s, m, rest, t)
  {
    hide Exp, Eval, Holds, Loaded, Rest, Beside;
  }

  lemma ParseBinary(l: nat, op: Token, a: Tree, b: Tree, s: State, m: Store, rest: Lexemes) returns (t: State)
    requires Starts(l, Binary(op, a, b), s, m, rest) && BinaryLevel(op) == l
    ensures Parses(l, Binary(op, a, b), s, m, rest, t)
    decreases Binary(op, a, b), 0, 16 - l, 0
  {
    hide Plain, Eval, Follows, Holds, Loaded, Spell, Parses, BinaryLevel, ReadTok, Exp, Spells;
    var r1 := Cons(Punct(op), Spell(b, l + 1, rest));
    SpellBinary(op, a, b, rest);
    OperatorFollows(l, op, Spell(b, l + 1, rest));
    BinaryToken(op);
    var s1 := ParseLevel(l, a, s, m, r1);
    var s2 := s1;
    t := s1;
    if Eval(a, m, Live(s)).Value? {
      var m1 := Eval(a, m, Live(s)).m;
      Parsed(l, a, s, m, r1, s1);
      s2 := OperatorNext(l, s1, m1, op, b, l + 1, rest, false);
      FollowsHigher(l, l + 1, rest);
      t := ParseLevel(l + 1, b, s2, m1, rest);
    }
    BinaryTurn(l, op, a, b, s, m, rest, s1, s2, t);
  }

  lemma BinaryToken(op: Token)
    requires BinaryLevel(op) != -1
    ensures !StepToken(op) && op != Str
  {
  }

  lemma EvalBinary(op: Token, a: Tree, b: Tree, m: Store, live: bool)
    requires Valid(Binary(op, a, b))
    ensures var r := Eval(a, m, live);
      Eval(Binary(op, a, b), m, live) ==
      if r.Error? then r
      else
        var q := Eval(b, r.m, live);
        if q.Error? then q else Checked(op, r.v, q.v, q.m)
  {
    hide Raised, Checked, Put, Lookup, StrLong, Wrap, Truth;
  }

  lemma BinaryValues(l: nat, op: Token, e: Tree, s: State, m: Store, rest: Lexemes, t: State, v: int, w: int, m1: Store)
    requires Ready(s) && l <= 12 && Valid(e) && Eval(e, m, Live(s)) == Checked(op, v, w, m1)
    requires Usable(t, m1) && Beside(s, t) && Loaded(t, m1, rest)
    requires Exp(l, s) ==
             match Apply(op, v, w)
             case None => Fail(DivisionByZero, t)
             case Some(x) => Cont(l, x, t)
    ensures Parses(l, e, s, m, rest, t)
  {
    hide Exp, Cont, Holds, Loaded, Eval, Apply, Beside;
  }

  lemma BinaryTurn(l: nat, op: Token, a: Tree, b: Tree, s: State, m: Store, rest: Lexemes,
                   s1: State, s2: State, t: State)
    requires Ready(s) && l <= 15 && Valid(Binary(op, a, b)) && BinaryLevel(op) == l && Follows(l, rest)
    requires Parses(l, a, s, m, Cons(Punct(op), Spell(b, l + 1, rest)), s1)
    requires Eval(a, m, Live(s)).Value? ==>
               && Ready(s1) && ReadTok(s1) == Val(0, s2) && Ready(s2) && Beside(s, s2)
               && Parses(l + 1, b, s2, Eval(a, m, Live(s)).m, rest, t)
    ensures Parses(l, Binary(op, a, b), s, m, rest, t)
  {
    hide Exp, Cont, Follows, Holds, ReadTok, Loaded, Spell, Eval, TokenLevel, Parses, Usable, Beside, Apply, BinaryAt, BinaryLevel, Checked;
    EvalBinary(op, a, b, m, Live(s));
    var r, first := Eval(a, m, Live(s)), Cons(Punct(op), Spell(b, l + 1, rest));
    if r.Error? {
      Failed(l, a, s, m, first, s1);
      ParsesError(l, Binary(op, a, b), s, m, rest, t, r);
    } else {
      Parsed(l, a, s, m, first, s1);
      BinaryRest(l, op, a, b, s, m, rest, s1, s2, t, r.v, r.m);
    }
  }

  lemma BinaryRest(l: nat, op: Token, a: Tree, b: Tree, s: State, m: Store, rest: Lexemes,
                   s1: State, s2: State, t: State, v: int, m1: Store)
    requires Ready(s) && Valid(Binary(op, a, b)) && BinaryLevel(op) == l && Follows(l, rest)
    requires l <= 15 && Eval(a, m, Live(s)) == Value(v, m1)
    requires Ready(s1) && Beside(s, s1) && Exp(l, s) == Rest(l, v, s1) && s1.cx.curtok == op
    requires ReadTok(s1) == Val(0, s2) && Ready(s2) && Beside(s, s2) && Parses(l + 1, b, s2, m1, rest, t)
    ensures Parses(l, Binary(op, a, b), s, m, rest, t)
  {
    hide Exp, Cont, Follows, Holds, ReadTok, Loaded, Spell, Eval, TokenLevel, Parses, Usable, Beside, Apply, BinaryAt, BinaryLevel, Checked;
    EvalBinary(op, a, b, m, Live(s));
    BinaryLevelOf(l, op);
    BinaryStep(l, v, s1, s2);
    OneRun(s, s1, s2);
    OneRun(s, s2, t);
    var e, q := Binary(op, a, b), Eval(b, m1, Live(s));
    if q.Error? {
      Failed(l + 1, b, s2, m1, rest, t);
      ParsesError(l, e, s, m, rest, t, q);
    } else {
      Parsed(l + 1, b, s2, m1, rest, t);
      FollowsTokens(l, rest);
      Done(l + 1, q.v, t, q.m, rest);
      BinaryValues(l, op, e, s, m, rest, t, v, q.v, q.m);
    }
  }

  lemma LoadedToken(s: State, m: Store, ls: Lexemes)
    requires Ready(s) && Loaded(s, m, ls)
    ensures s.cx.curtok == TokenOf(ls)
  {
  }

  lemma SpellBinary(op: Token, a: Tree, b: Tree, rest: Lexemes)
    requires Valid(Binary(op, a, b))
    ensures var l := BinaryLevel(op);
      Spell(Binary(op, a, b), l, rest) == Spell(a, l, Cons(Punct(op), Spell(b, l + 1, rest)))
  {
  }

  lemma OperatorFollows(l: nat, op: Token, rest: Lexemes)
    requires TokenLevel(op) != -1 && op != Char('=') && op != OpAssign
    requires TokenLevel(op) < l || (TokenLevel(op) == l && Loops(l))
    ensures Follows(l, Cons(Punct(op), rest))
  {
  }

  // ----------------------------------------------------- the comma operator

  lemma EvalSequence(a: Tree, b: Tree, m: Store, live: bool)
    requires Valid(Sequence(a, b))
    ensures var r := Eval(a, m, live);
      Eval(Sequence(a, b), m, live) == if r.Error? then r else Eval(b, r.m, live)
  {
  }

  lemma SpellSequence(a: Tree, b: Tree, rest: Lexemes)
    requires Valid(Sequence(a, b))
    ensures Spell(Sequence(a, b), 0, rest) == Spell(a, 0, Cons(Punct(Char(',')), Spell(b, 1, rest)))
  {
  }

  lemma ParseSequence(a: Tree, b: Tree, s: State, m: Store, rest: Lexemes) returns (t: State)
    requires Starts(0, Sequence(a, b), s, m, rest)
    ensures Parses(0, Sequence(a, b), s, m, rest, t)
    decreases Sequence(a, b), 0, 16, 0
  {
    hide Plain, Eval, Follows, Holds, Loaded, Spell, Parses, ReadTok, Exp, Spells;
    var r1 := Cons(Punct(Char(',')), Spell(b, 1, rest));
    SpellSequence(a, b, rest);
    OperatorFollows(0, Char(','), Spell(b, 1, rest));
    var s1 := ParseLevel(0, a, s, m, r1);
    var s2 := s1;
    t := s1;
    if Eval(a, m, Live(s)).Value? {
      var m1 := Eval(a, m, Live(s)).m;
      Parsed(0, a, s, m, r1, s1);
      s2 := OperatorNext(0, s1, m1, Char(','), b, 1, rest, false);
      FollowsHigher(0, 1, rest);
      t := ParseLevel(1, b, s2, m1, rest);
    }
    SequenceTurn(a, b, s, m, rest, s1, s2, t);
  }

  lemma SequenceTurn(a: Tree, b: Tree, s: State, m: Store, rest: Lexemes, s1: State, s2: State, t: State)
    requires Ready(s) && Valid(Sequence(a, b)) && Follows(0, rest)
    requires Parses(0, a, s, m, Cons(Punct(Char(',')), Spell(b, 1, rest)), s1)
    requires Eval(a, m, Live(s)).Value? ==>
               && Ready(s1) && ReadTok(s1) == Val(0, s2) && Ready(s2) && Beside(s, s2)
               && Parses(1, b, s2, Eval(a, m, Live(s)).m, rest, t)
    ensures Parses(0, Sequence(a, b), s, m, rest, t)
  {
    hide Exp, Cont, Follows, Holds, ReadTok, Loaded, Spell, Eval, TokenLevel, Parses, Usable, Beside;
    EvalSequence(a, b, m, Live(s));
    var e, r, first := Sequence(a, b), Eval(a, m, Live(s)), Cons(Punct(Char(',')), Spell(b, 1, rest));
    if r.Error? {
      Failed(0, a, s, m, first, s1);
      ParsesError(0, e, s, m, rest, t, r);
    } else {
      Parsed(0, a, s, m, first, s1);
      CommaStep(r.v, s1, s2);
      OneRun(s, s1, s2);
      var q := Eval(b, r.m, Live(s));
      if q.Error? {
        Failed(1, b, s2, r.m, rest, t);
        ParsesError(0, e, s, m, rest, t, q);
      } else {
        Parsed(1, b, s2, r.m, rest, t);
        OneRun(s, s2, t);
        FollowsTokens(0, rest);
        Done(1, q.v, t, q.m, rest);
        ParsesValue(0, e, s, m, rest, t, q.v, q.m);
      }
    }
  }

  // ------------------------------------------------------------ ** (power)

  lemma EvalRaise(a: Tree, b: Tree, m: Store, live: bool)
    requires Valid(Raise(a, b))
    ensures var r := Eval(a, m, live);
      Eval(Raise(a, b), m, live) ==
      if r.Error? then r
      else
        var q := Eval(b, r.m, live);
        if q.Error? then q else Raised(r.v, q.v, q.m)
  {
    assert Valid(a) && Valid(b);
    hide Valid, Raised, Checked, Put, Lookup, StrLong, Wrap, Truth;
  }

  lemma SpellRaise(a: Tree, b: Tree, rest: Lexemes)
    requires Valid(Raise(a, b))
    ensures Spell(Raise(a, b), 13, rest) == Spell(a, 14, Cons(Punct(Pow), Spell(b, 13, rest)))
  {
  }

  lemma ParseRaise(a: Tree, b: Tree, s: State, m: Store, rest: Lexemes) returns (t: State)
    requires Starts(13, Raise(a, b), s, m, rest)
    ensures Parses(13, Raise(a, b), s, m, rest, t)
    decreases Raise(a, b), 0, 3, 0
  {
    hide Plain, Eval, Follows, Holds, Loaded, Spell, Parses, ReadTok, Exp, Spells;
    var r1 := Cons(Punct(Pow), Spell(b, 13, rest));
    SpellRaise(a, b, rest);
    OperatorFollows(14, Pow, Spell(b, 13, rest));
    var s1 := ParseLevel(14, a, s, m, r1);
    var s2 := s1;
    t := s1;
    if Eval(a, m, Live(s)).Value? {
      var m1 := Eval(a, m, Live(s)).m;
      Parsed(14, a, s, m, r1, s1);
      s2 := OperatorNext(13, s1, m1, Pow, b, 13, rest, false);
      t := ParseLevel(13, b, s2, m1, rest);
    }
    RaiseTurn(a, b, s, m, rest, s1, s2, t);
  }

  lemma RaiseTurn(a: Tree, b: Tree, s: State, m: Store, rest: Lexemes, s1: State, s2: State, t: State)
    requires Ready(s) && Valid(Raise(a, b)) && Follows(13, rest)
    requires Parses(14, a, s, m, Cons(Punct(Pow), Spell(b, 13, rest)), s1)
    requires Eval(a, m, Live(s)).Value? ==>
               && Ready(s1) && ReadTok(s1) == Val(0, s2) && Ready(s2) && Beside(s, s2)
               && Parses(13, b, s2, Eval(a, m, Live(s)).m, rest, t)
    ensures Parses(13, Raise(a, b), s, m, rest, t)
  {
    hide Exp, Cont, Follows, Holds, ReadTok, Loaded, Spell, Eval, TokenLevel, Power, Parses, Usable, Beside;
    EvalRaise(a, b, m, Live(s));
    ExpStep(13, s);
    var e, r, first := Raise(a, b), Eval(a, m, Live(s)), Cons(Punct(Pow), Spell(b, 13, rest));
    if r.Error? {
      Failed(14, a, s, m, first, s1);
      ParsesError(13, e, s, m, rest, t, r);
    } else {
      Parsed(14, a, s, m, first, s1);
      PowerStep(r.v, s1, s2);
      OneRun(s, s1, s2);
      var q := Eval(b, r.m, Live(s));
      if q.Error? {
        Failed(13, b, s2, r.m, rest, t);
        ParsesError(13, e, s, m, rest, t, q);
      } else {
        Parsed(13, b, s2, r.m, rest, t);
        OneRun(s, s2, t);
        FollowsTokens(13, rest);
        Done(13, q.v, t, q.m, rest);
        Done(13, 1, t, q.m, rest);
        PowerZero(r.v);
        if q.v < 0 { ParsesError(13, e, s, m, rest, t, Error(NegativeExponent, q.m)); }
        else { ParsesValue(13, e, s, m, rest, t, Power(r.v, q.v), q.m); }
      }
    }
  }

  lemma PowerZero(a: int)
    ensures Power(a, 0) == 1
  {
  }

  // ------------------------------------------------------- || and &&

  lemma EvalOr(a: Tree, b: Tree, m: Store, live: bool)
    requires Valid(Or(a, b))
    ensures var r := Eval(a, m, live);
      Eval(Or(a, b), m, live) ==
      if r.Error? then r
      else
        var q := Eval(b, r.m, live && r.v == 0);
        if q.Error? then q else Value(Truth(r.v != 0 || q.v != 0), q.m)
  {
  }

  lemma EvalAnd(a: Tree, b: Tree, m: Store, live: bool)
    requires Valid(And(a, b))
    ensures var r := Eval(a, m, live);
      Eval(And(a, b), m, live) ==
      if r.Error? then r
      else
        var q := Eval(b, r.m, live && r.v != 0);
        if q.Error? then q else Value(Truth(r.v != 0 && q.v != 0), q.m)
  {
  }

  lemma SpellOr(a: Tree, b: Tree, rest: Lexemes)
    requires Valid(Or(a, b))
    ensures Spell(Or(a, b), 3, rest) == Spell(a, 3, Cons(Punct(LOr), Spell(b, 4, rest)))
  {
  }

  lemma SpellAnd(a: Tree, b: Tree, rest: Lexemes)
    requires Valid(And(a, b))
    ensures Spell(And(a, b), 4, rest) == Spell(a, 4, Cons(Punct(LAnd), Spell(b, 5, rest)))
  {
  }

  lemma ParseOr(a: Tree, b: Tree, s: State, m: Store, rest: Lexemes) returns (t: State)
    requires Starts(3, Or(a, b), s, m, rest)
    ensures Parses(3, Or(a, b), s, m, rest, t)
    decreases Or(a, b), 0, 13, 0
  {
    hide Plain, Eval, Follows, Holds, Loaded, Spell, Parses, ReadTok, Exp, Spells;
    var r1 := Cons(Punct(LOr), Spell(b, 4, rest));
    SpellOr(a, b, rest);
    OperatorFollows(3, LOr, Spell(b, 4, rest));
    var s1 := ParseLevel(3, a, s, m, r1);
    var s2, s3 := s1, s1;
    var less := false;
    if Eval(a, m, Live(s)).Value? {
      var m1 := Eval(a, m, Live(s)).m;
      less := Eval(a, m, Live(s)).v != 0;
      Parsed(3, a, s, m, r1, s1);
      s2 := OperatorNext(3, s1, m1, LOr, b, 4, rest, less);
      FollowsHigher(3, 4, rest);
      s3 := ParseLevel(4, b, s2, m1, rest);
    }
    OrTurn(a, b, s, m, rest, s1, s2, s3);
    t := Resumed(s3, less, LOr);
  }

  lemma OrTurn(a: Tree, b: Tree, s: State, m: Store, rest: Lexemes, s1: State, s2: State, s3: State)
    requires Ready(s) && Valid(Or(a, b)) && Follows(3, rest)
    requires Parses(3, a, s, m, Cons(Punct(LOr), Spell(b, 4, rest)), s1)
    requires var r := Eval(a, m, Live(s)); r.Value? ==>
               && Ready(s1) && ReadTok(MoreNoeval(s1, r.v != 0)) == Val(0, s2) && Ready(s2)
               && Beside(MoreNoeval(s1, r.v != 0), s2)
               && Parses(4, b, s2, r.m, rest, s3)
    ensures var r := Eval(a, m, Live(s));
      Parses(3, Or(a, b), s, m, rest, Resumed(s3, r.Value? && r.v != 0, LOr))
  {
    hide Exp, Cont, Follows, Holds, ReadTok, Loaded, Spell, Eval, TokenLevel, Parses, Usable, Beside, Resumed, MoreNoeval;
    EvalOr(a, b, m, Live(s));
    var r, first := Eval(a, m, Live(s)), Cons(Punct(LOr), Spell(b, 4, rest));
    if r.Error? {
      Failed(3, a, s, m, first, s1);
      ParsesError(3, Or(a, b), s, m, rest, Resumed(s3, false, LOr), r);
    } else {
      Parsed(3, a, s, m, first, s1);
      OrRest(a, b, s, m, rest, s1, s2, s3, r.v, r.m);
    }
  }

  lemma OrRest(a: Tree, b: Tree, s: State, m: Store, rest: Lexemes, s1: State, s2: State, s3: State, v: int, m1: Store)
    requires Ready(s) && Valid(Or(a, b)) && Follows(3, rest) && Eval(a, m, Live(s)) == Value(v, m1)
    requires Ready(s1) && Beside(s, s1) && Exp(3, s) == Cont(3, v, s1) && s1.cx.curtok == LOr
    requires ReadTok(MoreNoeval(s1, v != 0)) == Val(0, s2) && Ready(s2) && Beside(MoreNoeval(s1, v != 0), s2)
    requires Parses(4, b, s2, m1, rest, s3)
    ensures Parses(3, Or(a, b), s, m, rest, Resumed(s3, v != 0, LOr))
  {
    hide Exp, Cont, Follows, Holds, ReadTok, Loaded, Spell, Eval, TokenLevel, Parses, Usable, Beside, Resumed, MoreNoeval;
    EvalOr(a, b, m, Live(s));
    OrStep(v, s1, s2);
    SkippedOperand(s, s1, v != 0, s2);
    var e, q, t := Or(a, b), Eval(b, m1, Live(s2)), Resumed(s3, v != 0, LOr);
    if q.Error? {
      Failed(4, b, s2, m1, rest, s3);
      ParsesError(3, e, s, m, rest, t, q);
    } else {
      Parsed(4, b, s2, m1, rest, s3);
      FollowsTokens(3, rest);
      Done(4, q.v, s3, q.m, rest);
      AfterOperand(s, s1, v != 0, s2, s3, LOr, q.m, rest);
      ParsesValue(3, e, s, m, rest, t, Truth(v != 0 || q.v != 0), q.m);
    }
  }

  lemma ParseAnd(a: Tree, b: Tree, s: State, m: Store, rest: Lexemes) returns (t: State)
    requires Starts(4, And(a, b), s, m, rest)
    ensures Parses(4, And(a, b), s, m, rest, t)
    decreases And(a, b), 0, 12, 0
  {
    hide Plain, Eval, Follows, Holds, Loaded, Spell, Parses, ReadTok, Exp, Spells;
    var r1 := Cons(Punct(LAnd), Spell(b, 5, rest));
    SpellAnd(a, b, rest);
    OperatorFollows(4, LAnd, Spell(b, 5, rest));
    var s1 := ParseLevel(4, a, s, m, r1);
    var s2, s3 := s1, s1;
    var less := false;
    if Eval(a, m, Live(s)).Value? {
      var m1 := Eval(a, m, Live(s)).m;
      less := Eval(a, m, Live(s)).v == 0;
      Parsed(4, a, s, m, r1, s1);
      s2 := OperatorNext(4, s1, m1, LAnd, b, 5, rest, less);
      FollowsHigher(4, 5, rest);
      s3 := ParseLevel(5, b, s2, m1, rest);
    }
    AndTurn(a, b, s, m, rest, s1, s2, s3);
    t := Resumed(s3, less, LAnd);
  }

  lemma AndTurn(a: Tree, b: Tree, s: State, m: Store, rest: Lexemes, s1: State, s2: State, s3: State)
    requires Ready(s) && Valid(And(a, b)) && Follows(4, rest)
    requires Parses(4, a, s, m, Cons(Punct(LAnd), Spell(b, 5, rest)), s1)
    requires var r := Eval(a, m, Live(s)); r.Value? ==>
               && Ready(s1) && ReadTok(MoreNoeval(s1, r.v == 0)) == Val(0, s2) && Ready(s2)
               && Beside(MoreNoeval(s1, r.v == 0), s2)
               && Parses(5, b, s2, r.m, rest, s3)
    ensures var r := Eval(a, m, Live(s));
      Parses(4, And(a, b), s, m, rest, Resumed(s3, r.Value? && r.v == 0, LAnd))
  {
    hide Exp, Cont, Follows, Holds, ReadTok, Loaded, Spell, Eval, TokenLevel, Parses, Usable, Beside, Resumed, MoreNoeval;
    EvalAnd(a, b, m, Live(s));
    var r, first := Eval(a, m, Live(s)), Cons(Punct(LAnd), Spell(b, 5, rest));
    if r.Error? {
      Failed(4, a, s, m, first, s1);
      ParsesError(4, And(a, b), s, m, rest, Resumed(s3, false, LAnd), r);
    } else {
      Parsed(4, a, s, m, first, s1);
      AndRest(a, b, s, m, rest, s1, s2, s3, r.v, r.m);
    }
  }

  lemma AndRest(a: Tree, b: Tree, s: State, m: Store, rest: Lexemes, s1: State, s2: State, s3: State, v: int, m1: Store)
    requires Ready(s) && Valid(And(a, b)) && Follows(4, rest) && Eval(a, m, Live(s)) == Value(v, m1)
    requires Ready(s1) && Beside(s, s1) && Exp(4, s) == Cont(4, v, s1) && s1.cx.curtok == LAnd
    requires ReadTok(MoreNoeval(s1, v == 0)) == Val(0, s2) && Ready(s2) && Beside(MoreNoeval(s1, v == 0), s2)
    requires Parses(5, b, s2, m1, rest, s3)
    ensures Parses(4, And(a, b), s, m, rest, Resumed(s3, v == 0, LAnd))
  {
    hide Exp, Cont, Follows, Holds, ReadTok, Loaded, Spell, Eval, TokenLevel, Parses, Usable, Beside, Resumed, MoreNoeval;
    EvalAnd(a, b, m, Live(s));
    AndStep(v, s1, s2);
    SkippedOperand(s, s1, v == 0, s2);
    var e, q, t := And(a, b), Eval(b, m1, Live(s2)), Resumed(s3, v == 0, LAnd);
    if q.Error? {
      Failed(5, b, s2, m1, rest, s3);
      ParsesError(4, e, s, m, rest, t, q);
    } else {
      Parsed(5, b, s2, m1, rest, s3);
      FollowsTokens(4, rest);
      Done(5, q.v, s3, q.m, rest);
      AfterOperand(s, s1, v == 0, s2, s3, LAnd, q.m, rest);
      ParsesValue(4, e, s, m, rest, t, Truth(v != 0 && q.v != 0), q.m);
    }
  }

  // -------------------------------------------------------------- c ? a : b

  lemma EvalIfElse(c: Tree, a: Tree, b: Tree, m: Store, live: bool)
    requires Valid(IfElse(c, a, b))
    ensures var r := Eval(c, m, live);
      Eval(IfElse(c, a, b), m, live) ==
      if r.Error? then r
      else
        var p := Eval(a, r.m, live && r.v != 0);
        if p.Error? then p
        else
          var q := Eval(b, p.m, live && r.v == 0);
          if q.Error? then q else Value(if r.v != 0 then p.v else q.v, q.m)
  {
  }

  lemma SpellIfElse(c: Tree, a: Tree, b: Tree, rest: Lexemes)
    requires Valid(IfElse(c, a, b))
    ensures Spell(IfElse(c, a, b), 2, rest) ==
            Spell(c, 3, Cons(Punct(Char('?')), Spell(a, 0, Cons(Punct(Char(':')), Spell(b, 2, rest)))))
  {
  }

  lemma MoreKeeps(s: State, more: bool, m: Store, ls: Lexemes)
    requires Usable(s, m) && Loaded(s, m, ls)
    ensures Usable(MoreNoeval(s, more), m) && Loaded(MoreNoeval(s, more), m, ls)
  {
    hide Holds, Spells;
  }

  // How an outcome of a routine matches an outcome of the tree.
  predicate Matches(r: Out, e: Evaluation, s: State, t: State, rest: Lexemes) {
    match e
    case Value(v, m) => r == Val(v, t) && Usable(t, m) && Beside(s, t) && Loaded(t, m, rest)
    case Error(err, m) => r.Fail? && r.error == err && Holds(r.st.vars, m)
  }

  // From the colon on.
  lemma ParseElse(e: Tree, b: Tree, v: int, va: int, s: State, u: State, m: Store, rest: Lexemes)
    returns (t: State)
    requires Valid(b) && Known(b, m.texts) && Usable(u, m) && Beside(s, u) && Follows(2, rest)
    requires Loaded(u, m, Cons(Punct(Char(':')), Spell(b, 2, rest)))
    requires b < e
    ensures var q := Eval(b, m, Live(s) && v == 0);
      Matches(CondElse(v, va, u), if q.Error? then q else Value(if v != 0 then va else q.v, q.m), s, t, rest)
    decreases e, 0, 14, 0
  {
    hide Plain, Eval, Follows, Holds, Loaded, Spell, Parses, ReadTok, Exp, Spells, CondElse, Resumed;
    LoadedToken(u, m, Cons(Punct(Char(':')), Spell(b, 2, rest)));
    var u1 := OperatorNext(2, u, m, Char(':'), b, 2, rest, false);
    MoreKeeps(u1, v != 0, m, Spell(b, 2, rest));
    var u2 := MoreNoeval(u1, v != 0);
    var u3 := ParseLevel(2, b, u2, m, rest);
    t := Resumed(u3, v != 0, Cond);
    ElseTurn(b, v, va, s, u, u1, u2, u3, m, rest);
  }

  lemma ElseTurn(b: Tree, v: int, va: int, s: State, u: State, u1: State, u2: State, u3: State, m: Store, rest: Lexemes)
    requires Valid(b) && Usable(u, m) && Beside(s, u) && Follows(2, rest)
    requires u.cx.curtok == Char(':') && Ready(u1) && ReadTok(u) == Val(0, u1) && u1.cx.curtok != End
    requires Beside(u, u1) && u2 == MoreNoeval(u1, v != 0) && Ready(u2)
    requires Parses(2, b, u2, m, rest, u3)
    ensures var q := Eval(b, m, Live(s) && v == 0);
      Matches(CondElse(v, va, u), if q.Error? then q else Value(if v != 0 then va else q.v, q.m), s,
              Resumed(u3, v != 0, Cond), rest)
  {
    hide Exp, Cont, Follows, Holds, ReadTok, Loaded, Spell, Eval, TokenLevel, Resumed, CondElse;
    ElseStep(v, va, u, u1);
    assert Live(u2) <==> Live(s) && v == 0;
    var q := Eval(b, m, Live(u2));
    if q.Value? {
      Parsed(2, b, u2, m, rest, u3);
      FollowsTokens(2, rest);
      Done(2, q.v, u3, q.m, rest);
      AfterOperand(s, u1, v != 0, u2, u3, Cond, q.m, rest);
    }
  }

  // From the question mark on.
  lemma ParseThen(c: Tree, a: Tree, b: Tree, v: int, s: State, s1: State, m1: Store, rest: Lexemes)
    returns (t: State)
    requires Valid(IfElse(c, a, b)) && Known(IfElse(c, a, b), m1.texts)
    requires Usable(s1, m1) && Beside(s, s1) && Follows(2, rest)
    requires Loaded(s1, m1, Cons(Punct(Char('?')), Spell(a, 0, Cons(Punct(Char(':')), Spell(b, 2, rest)))))
    ensures Matches(Cont(2, v, s1), Chosen(a, b, v, m1, Live(s)), s, t, rest)
    decreases IfElse(c, a, b), 0, 14, 1
  {
    hide Plain, Eval, Follows, Holds, Loaded, Spell, Parses, ReadTok, Exp, Spells, Cont, CondElse, Lowered, Matches;
    var rc := Cons(Punct(Char(':')), Spell(b, 2, rest));
    CloseFollows(Spell(b, 2, rest));
    LoadedToken(s1, m1, Cons(Punct(Char('?')), Spell(a, 0, rc)));
    var s2 := OperatorNext(0, s1, m1, Char('?'), a, 0, rc, false);
    MoreKeeps(s2, v == 0, m1, Spell(a, 0, rc));
    var s3 := MoreNoeval(s2, v == 0);
    var s4 := ParseLevel(0, a, s3, m1, rc);
    var u := Lowered(s4, v == 0);
    t := u;
    ThenTurn(a, v, s, s1, s2, s3, s4, m1, rc);
    var p := Eval(a, m1, Live(s) && v != 0);
    if p.Value? {
      t := ParseElse(IfElse(c, a, b), b, v, p.v, s, u, p.m, rest);
    } else {
      MatchesError(Cont(2, v, s1), p, s, t, rest);
    }
  }

  function Chosen(a: Tree, b: Tree, v: int, m: Store, live: bool): Evaluation
    requires Valid(a) && Valid(b)
  {
    var p := Eval(a, m, live && v != 0);
    if p.Error? then p
    else
      var q := Eval(b, p.m, live && v == 0);
      if q.Error? then q else Value(if v != 0 then p.v else q.v, q.m)
  }

  lemma MatchesError(r: Out, e: Evaluation, s: State, t: State, rest: Lexemes)
    requires e.Error? && r.Fail? && r.error == e.error && Holds(r.st.vars, e.m)
    ensures Matches(r, e, s, t, rest)
  {
  }

  lemma ThenTurn(a: Tree, v: int, s: State, s1: State, s2: State, s3: State, s4: State, m1: Store, rc: Lexemes)
    requires Valid(a) && Usable(s1, m1) && Beside(s, s1) && Follows(0, rc) && TokenLevel(TokenOf(rc)) == -1
    requires s1.cx.curtok == Char('?') && Ready(s2) && ReadTok(s1) == Val(0, s2)
    requires s2.cx.curtok != End && s2.cx.curtok != Char(':')
    requires Beside(s1, s2) && s3 == MoreNoeval(s2, v == 0) && Ready(s3)
    requires Parses(0, a, s3, m1, rc, s4)
    ensures var p := Eval(a, m1, Live(s) && v != 0);
      && (p.Error? ==> Cont(2, v, s1).Fail? && Cont(2, v, s1).error == p.error && Holds(Cont(2, v, s1).st.vars, p.m))
      && (p.Value? ==>
            var u := Lowered(s4, v == 0);
            Usable(u, p.m) && Beside(s, u) && Loaded(u, p.m, rc) && Cont(2, v, s1) == CondElse(v, p.v, u))
  {
    hide Exp, Cont, Follows, Holds, ReadTok, Loaded, Spell, Eval, TokenLevel, Lowered, CondElse;
    CondStep(v, s1, s2);
    assert Live(s3) <==> Live(s) && v != 0;
    var p := Eval(a, m1, Live(s3));
    if p.Value? {
      Parsed(0, a, s3, m1, rc, s4);
      Done(0, p.v, s4, p.m, rc);
      AfterOperand(s, s2, v == 0, s3, s4, Cond, p.m, rc);
    }
  }

  lemma ParseIfElse(c: Tree, a: Tree, b: Tree, s: State, m: Store, rest: Lexemes) returns (t: State)
    requires Starts(2, IfElse(c, a, b), s, m, rest)
    ensures Parses(2, IfElse(c, a, b), s, m, rest, t)
    decreases IfElse(c, a, b), 0, 14, 2
  {
    hide Plain, Eval, Follows, Holds, Loaded, Spell, Parses, ReadTok, Exp, Spells, Cont, Matches, Chosen;
    var rq := Cons(Punct(Char('?')), Spell(a, 0, Cons(Punct(Char(':')), Spell(b, 2, rest))));
    SpellIfElse(c, a, b, rest);
    OperatorFollows(3, Char('?'), Spell(a, 0, Cons(Punct(Char(':')), Spell(b, 2, rest))));
    var s1 := ParseLevel(3, c, s, m, rq);
    t := s1;
    if Eval(c, m, Live(s)).Value? {
      var r := Eval(c, m, Live(s));
      Parsed(3, c, s, m, rq, s1);
      t := ParseThen(c, a, b, r.v, s, s1, r.m, rest);
    }
    IfElseTurn(c, a, b, s, m, rest, rq, s1, t);
  }

  lemma IfElseTurn(c: Tree, a: Tree, b: Tree, s: State, m: Store, rest: Lexemes, rq: Lexemes, s1: State, t: State)
    requires Ready(s) && Valid(IfElse(c, a, b)) && Follows(2, rest)
    requires TokenOf(rq) == Char('?') && Parses(3, c, s, m, rq, s1)
    requires var r := Eval(c, m, Live(s)); r.Value? ==>
               Ready(s1) && Matches(Cont(2, r.v, s1), Chosen(a, b, r.v, r.m, Live(s)), s, t, rest)
    ensures Parses(2, IfElse(c, a, b), s, m, rest, t)
  {
    hide Exp, Cont, Follows, Holds, Loaded, Eval, TokenLevel;
    EvalIfElse(c, a, b, m, Live(s));
    ExpStep(2, s);
    var r := Eval(c, m, Live(s));
    if r.Value? {
      Parsed(3, c, s, m, rq, s1);
      QuestionLevel();
      Done(3, r.v, s1, r.m, rq);
      var w := Chosen(a, b, r.v, r.m, Live(s));
      if w.Value? {
        FollowsTokens(2, rest);
        Done(2, w.v, t, w.m, rest);
      }
    }
  }

  lemma QuestionLevel()
    ensures TokenLevel(Char('?')) == 2
  {
  }

  // ------------------------------------------------------------- assignment

  lemma EvalSet(x: string, e: Tree, m: Store, live: bool)
    requires Valid(Set(x, e))
    ensures var r := Eval(e, m, live);
      Eval(Set(x, e), m, live) == if r.Error? then r else Value(r.v, Put(r.m, x, r.v, live))
  {
  }

  lemma EvalUpdate(op: Token, x: string, e: Tree, m: Store, live: bool)
    requires Valid(Update(op, x, e))
    ensures var r := Eval(e, m, live);
      Eval(Update(op, x, e), m, live) ==
      if r.Error? then r
      else match Apply(op, Lookup(m, x), r.v)
           case None => Error(DivisionByZero, r.m)
           case Some(v) => Value(v, Put(r.m, x, v, live))
  {
    hide Apply;
  }

  lemma SpellSet(x: string, e: Tree, rest: Lexemes)
    requires Valid(Set(x, e))
    ensures Spell(Set(x, e), 1, rest) == Cons(Ident(x), Cons(Punct(Char('=')), Spell(e, 1, rest)))
  {
  }

  lemma SpellUpdate(op: Token, x: string, e: Tree, rest: Lexemes)
    requires Valid(Update(op, x, e))
    ensures Spell(Update(op, x, e), 1, rest) == Cons(Ident(x), Cons(Assigns(op), Spell(e, 1, rest)))
  {
  }

  lemma AssignmentPeekable(op: Token, rest: Lexemes)
    ensures Peekable(Cons(Punct(Char('=')), rest)) && TokenLevel(Char('=')) == 1
    ensures AssignOp(op) ==> Peekable(Cons(Assigns(op), rest))
    ensures TokenLevel(OpAssign) == 1
  {
  }

  // The variable to be assigned, read up to the assignment operator.
  lemma ParseTarget(s: State, m: Store, x: string, h: Lexeme, ls: Lexemes) returns (s1: State)
    requires Usable(s, m) && Loaded(s, m, Cons(Ident(x), Cons(h, ls))) && Peekable(Cons(h, ls))
    requires h == Punct(Char('=')) || h.Assigns?
    ensures Usable(s1, m) && Beside(s, s1) && Loaded(s1, m, Cons(h, ls))
    ensures Exp(1, s) == Cont(1, s.cx.tokval, s1)
    ensures s1.cx.lasttok == Str && s1.cx.tokstr == x && s1.cx.curtok == LexemeToken(h)
    ensures h.Assigns? ==> s1.assigntok == h.op && s.cx.tokval == Lookup(m, x)
    ensures Spells(s1.cx.expr, s1.cx.tp, ls)
  {
    hide ReadTok, Holds, Spells, Peekable, Exp, Cont;
    s1 := ParseName(s, m, x, Cons(h, ls));
    Climb(2, s, s.cx.tokval, s1);
    ExpStep(1, s);
  }

  // Reading on after the assignment operator.
  lemma OperandNext(s1: State, m: Store, h: Lexeme, e: Tree, k: nat, l: nat, rest: Lexemes) returns (s2: State)
    requires Usable(s1, m) && Valid(e) && Known(e, m.texts) && k <= 15 && Follows(l, rest)
    requires s1.cx.curtok == LexemeToken(h) && (h == Punct(Char('=')) || h.Assigns?)
    requires Spells(s1.cx.expr, s1.cx.tp, Spell(e, k, rest))
    ensures ReadTok(s1) == Val(0, s2) && Usable(s2, m) && Loaded(s2, m, Spell(e, k, rest)) && Beside(s1, s2)
  {
    hide ReadTok, Holds, Spells, Spell, Readable;
    FollowsTokens(l, rest);
    SpellReadable(e, k, rest, s1.cx.curtok, m.texts);
    s2 := Next(s1, m, Spell(e, k, rest));
  }

  // The value was bound and the name forgotten.
  lemma BoundFacts(s: State, t: State, m: Store, x: string, v: int, rest: Lexemes)
    requires Usable(t, m) && Beside(s, t) && Loaded(t, m, rest) && IntMax(v)
    requires rest.Nil? || !rest.head.Ident?
    ensures var u := ClearName(Bind(t, x, v));
      Usable(u, Put(m, x, v, Live(s))) && Beside(s, u) && Loaded(u, Put(m, x, v, Live(s)), rest)
  {
    hide Spells, Holds;
    HoldsPut(t.vars, m, x, v);
  }

  // Values and stores stay within intmax_t.
  predicate InRange(m: Store) { forall x | x in m.ints :: IntMax(m.ints[x]) }

  predicate Bounded(r: Evaluation) { InRange(r.m) && (r.Value? ==> IntMax(r.v)) }

  lemma PutInRange(m: Store, x: string, v: int, live: bool)
    requires InRange(m) && IntMax(v)
    ensures InRange(Put(m, x, v, live)) && IntMax(Lookup(m, x))
  {
  }

  lemma LookupInRange(m: Store, x: string)
    requires InRange(m)
    ensures IntMax(Lookup(m, x))
  {
  }

  lemma CheckedBounded(op: Token, a: int, b: int, m: Store)
    requires InRange(m)
    ensures Bounded(Checked(op, a, b, m)) && Bounded(Raised(a, b, m))
  {
    hide Apply, InRange, Power;
  }

  lemma {:induction false} EvalInRange(e: Tree, m: Store, live: bool)
    requires Valid(e) && InRange(m)
    ensures Bounded(Eval(e, m, live))
    decreases e
  {
    hide Eval, InRange, Apply, Put, Lookup, Power;
    match e
    case Set(x, e1) =>
      EvalInRange(e1, m, live);
      EvalSet(x, e1, m, live);
      var r := Eval(e1, m, live);
      if r.Value? { PutInRange(r.m, x, r.v, live); }
    case Update(op, x, e1) =>
      EvalInRange(e1, m, live);
      EvalUpdate(op, x, e1, m, live);
      var r := Eval(e1, m, live);
      if r.Value? {
        var v := Apply(op, Lookup(m, x), r.v);
        if v.Some? { PutInRange(r.m, x, v.value, live); }
      }
    case IfElse(c, a, b) =>
      EvalInRange(c, m, live);
      EvalIfElse(c, a, b, m, live);
      var r := Eval(c, m, live);
      if r.Value? {
        EvalInRange(a, r.m, live && r.v != 0);
        var p := Eval(a, r.m, live && r.v != 0);
        if p.Value? { EvalInRange(b, p.m, live && r.v == 0); }
      }
    case Or(a, b) =>
      EvalInRange(a, m, live);
      EvalOr(a, b, m, live);
      var r := Eval(a, m, live);
      if r.Value? { EvalInRange(b, r.m, live && r.v == 0); }
    case And(a, b) =>
      EvalInRange(a, m, live);
      EvalAnd(a, b, m, live);
      var r := Eval(a, m, live);
      if r.Value? { EvalInRange(b, r.m, live && r.v != 0); }
    case Binary(op, a, b) =>
      EvalInRange(a, m, live);
      EvalBinary(op, a, b, m, live);
      var r := Eval(a, m, live);
      if r.Value? {
        EvalInRange(b, r.m, live);
        var q := Eval(b, r.m, live);
        if q.Value? { CheckedBounded(op, r.v, q.v, q.m); }
      }
    case Raise(a, b) =>
      EvalInRange(a, m, live);
      EvalRaise(a, b, m, live);
      var r := Eval(a, m, live);
      if r.Value? {
        EvalInRange(b, r.m, live);
        var q := Eval(b, r.m, live);
        if q.Value? { CheckedBounded(Pow, r.v, q.v, q.m); }
      }
    case Sequence(a, b) =>
      EvalInRange(a, m, live);
      EvalSequence(a, b, m, live);
      var r := Eval(a, m, live);
      if r.Value? { EvalInRange(b, r.m, live); }
    case Not(e1) =>
      EvalInRange(e1, m, live);
      EvalNot(e1, m, live);
    case Complement(e1) =>
      EvalInRange(e1, m, live);
      EvalComplement(e1, m, live);
    case Minus(e1) =>
      EvalInRange(e1, m, live);
      EvalMinus(e1, m, live);
    case Plus(e1) =>
      EvalInRange(e1, m, live);
      EvalPlus(e1, m, live);
    case _ =>
      AtomInRange(e, m, live);
  }

  lemma EvalNot(e: Tree, m: Store, live: bool)
    requires Valid(e)
    ensures var r := Eval(e, m, live);
      Eval(Not(e), m, live) == if r.Error? then r else Value(Truth(r.v == 0), r.m)
  {
    hide Checked, Raised, Put, Lookup, StrLong, Wrap;
    assert Valid(Not(e));
  }

  lemma EvalComplement(e: Tree, m: Store, live: bool)
    requires Valid(e)
    ensures var r := Eval(e, m, live);
      Eval(Complement(e), m, live) == if r.Error? then r else Value(-r.v - 1, r.m)
  {
    hide Checked, Raised, Put, Lookup, StrLong, Wrap;
    assert Valid(Complement(e));
  }

  lemma EvalMinus(e: Tree, m: Store, live: bool)
    requires Valid(e)
    ensures var r := Eval(e, m, live);
      Eval(Minus(e), m, live) == if r.Error? then r else Value(Wrap(-r.v), r.m)
  {
    hide Checked, Raised, Put, Lookup, StrLong, Wrap;
    assert Valid(Minus(e));
  }

  lemma EvalPlus(e: Tree, m: Store, live: bool)
    requires Valid(e)
    ensures Eval(Plus(e), m, live) == Eval(e, m, live)
  {
    hide Checked, Raised, Put, Lookup, StrLong, Wrap;
    assert Valid(Plus(e));
  }

  lemma AtomInRange(e: Tree, m: Store, live: bool)
    requires Valid(e) && InRange(m) && (e.Literal? || e.Name? || e.Pre? || e.Post?)
    ensures Bounded(Eval(e, m, live))
  {
    hide InRange, Put, Lookup, StrLong, ValidNumeral, ValidName, Bounded;
    match e
    case Literal(n) =>
      LiteralInRange(n);
      LiteralEval(n, m, live);
    case Name(x) =>
      LookupInRange(m, x);
      assert Bounded(Value(Lookup(m, x), m)) by { BoundedValue(Lookup(m, x), m); }
    case Pre(inc, x) =>
      var v := Wrap(Lookup(m, x) + if inc then 1 else -1);
      PutInRange(m, x, v, live);
      BoundedValue(v, Put(m, x, v, live));
    case Post(inc, x) =>
      var v := Wrap(Lookup(m, x) + if inc then 1 else -1);
      PutInRange(m, x, v, live);
      BoundedValue(Lookup(m, x), Put(m, x, v, live));
  }

  lemma BoundedValue(v: int, m: Store)
    requires IntMax(v) && InRange(m)
    ensures Bounded(Value(v, m))
  {
    hide InRange;
  }

  lemma LiteralEval(n: string, m: Store, live: bool)
    requires ValidNumeral(n) && IntMax(StrLong(n).value) && InRange(m)
    ensures Bounded(Eval(Literal(n), m, live))
  {
    hide StrLong, InRange;
  }

  lemma LiteralInRange(n: string)
    requires ValidNumeral(n)
    ensures IntMax(StrLong(n).value)
  {
    hide StrLong;
    StrLongInRange(n);
  }

  lemma HoldsInRange(vars: map<string, string>, m: Store)
    requires Holds(vars, m)
    ensures InRange(m)
  {
    hide Itos;
  }

  lemma ParseSet(x: string, e: Tree, s: State, m: Store, rest: Lexemes) returns (t: State)
    requires Starts(1, Set(x, e), s, m, rest)
    ensures Parses(1, Set(x, e), s, m, rest, t)
    decreases Set(x, e), 0, 15, 0
  {
    hide Plain, Eval, Follows, Holds, Loaded, Spell, Parses, ReadTok, Exp, Spells, Cont, Peekable, Bind, ClearName;
    var h := Punct(Char('='));
    SpellSet(x, e, rest);
    AssignmentPeekable(Char('+'), Spell(e, 1, rest));
    var s1 := ParseTarget(s, m, x, h, Spell(e, 1, rest));
    var s2 := OperandNext(s1, m, h, e, 1, 1, rest);
    var s3 := ParseLevel(1, e, s2, m, rest);
    t := s3;
    var r := Eval(e, m, Live(s));
    if r.Value? { t := ClearName(Bind(s3, x, r.v)); }
    SetTurn(x, e, s, m, rest, s1, s2, s3, t);
  }

  lemma SetTurn(x: string, e: Tree, s: State, m: Store, rest: Lexemes, s1: State, s2: State, s3: State, t: State)
    requires Usable(s, m) && Valid(Set(x, e)) && Follows(1, rest)
    requires Ready(s1) && Beside(s, s1) && Exp(1, s) == Cont(1, s.cx.tokval, s1)
    requires s1.cx.curtok == Char('=') && s1.cx.lasttok == Str && s1.cx.tokstr == x
    requires Usable(s2, m) && Beside(s1, s2) && ReadTok(s1) == Val(0, s2) && Parses(1, e, s2, m, rest, s3)
    requires var r := Eval(e, m, Live(s)); r.Value? ==> t == ClearName(Bind(s3, x, r.v))
    ensures Parses(1, Set(x, e), s, m, rest, t)
  {
    hide Exp, Cont, Follows, Holds, ReadTok, Loaded, Eval, TokenLevel, Bind, ClearName, Put, InRange;
    EvalSet(x, e, m, Live(s));
    AssignStep(s.cx.tokval, s1, s2);
    var r := Eval(e, m, Live(s));
    if r.Value? {
      FollowsTokens(1, rest);
      Done(1, r.v, s3, r.m, rest);
      HoldsInRange(s.vars, m);
      EvalInRange(e, m, Live(s));
      PeekableReadable(rest);
      BoundFacts(s, s3, r.m, x, r.v, rest);
      Done(1, r.v, t, Put(r.m, x, r.v, Live(s)), rest);
    }
  }

  lemma ParseUpdate(op: Token, x: string, e: Tree, s: State, m: Store, rest: Lexemes) returns (t: State)
    requires Starts(1, Update(op, x, e), s, m, rest)
    ensures Parses(1, Update(op, x, e), s, m, rest, t)
    decreases Update(op, x, e), 0, 15, 0
  {
    hide Plain, Eval, Follows, Holds, Loaded, Spell, Parses, ReadTok, Exp, Spells, Cont, Peekable, Bind, ClearName, Apply;
    hide AssignOp;
    var h := Assigns(op);
    SpellUpdate(op, x, e, rest);
    AssignmentPeekable(op, Spell(e, 1, rest));
    var s1 := ParseTarget(s, m, x, h, Spell(e, 1, rest));
    var s2 := OperandNext(s1, m, h, e, 1, 1, rest);
    var s3 := ParseLevel(1, e, s2, m, rest);
    t := s3;
    var r := Eval(e, m, Live(s));
    if r.Value? {
      var v := Apply(op, Lookup(m, x), r.v);
      if v.Some? { t := ClearName(Bind(s3, x, v.value)); }
    }
    UpdateTurn(op, x, e, s, m, rest, s1, s2, s3, t);
  }

  lemma UpdateTurn(op: Token, x: string, e: Tree, s: State, m: Store, rest: Lexemes,
                   s1: State, s2: State, s3: State, t: State)
    requires Usable(s, m) && Valid(Update(op, x, e)) && Follows(1, rest)
    requires Ready(s1) && Beside(s, s1) && Exp(1, s) == Cont(1, Lookup(m, x), s1)
    requires s1.cx.curtok == OpAssign && s1.cx.lasttok == Str && s1.cx.tokstr == x && s1.assigntok == op
    requires Usable(s2, m) && Beside(s1, s2) && ReadTok(s1) == Val(0, s2) && Parses(1, e, s2, m, rest, s3)
    requires var r := Eval(e, m, Live(s)); r.Value? ==>
               var v := Apply(op, Lookup(m, x), r.v); v.Some? ==> t == ClearName(Bind(s3, x, v.value))
    ensures Parses(1, Update(op, x, e), s, m, rest, t)
  {
    hide Exp, Cont, Follows, Holds, ReadTok, Loaded, Eval, TokenLevel, Bind, ClearName, Put, InRange, Apply, AssignOp;
    hide Lookup;
    EvalUpdate(op, x, e, m, Live(s));
    UpdateStep(Lookup(m, x), s1, s2);
    var r := Eval(e, m, Live(s));
    if r.Value? {
      FollowsTokens(1, rest);
      Done(1, r.v, s3, r.m, rest);
      var v := Apply(op, Lookup(m, x), r.v);
      if v.Some? {
        PeekableReadable(rest);
        BoundFacts(s, s3, r.m, x, v.value, rest);
        Done(1, v.value, t, Put(r.m, x, v.value, Live(s)), rest);
      }
    }
  }

  // ------------------------------------------------------- prefix operators

  lemma ParseUnary(e: Tree, e1: Tree, s: State, m: Store, rest: Lexemes) returns (t: State)
    requires e == Not(e1) || e == Complement(e1)
    requires Starts(14, e, s, m, rest)
    ensures Parses(14, e, s, m, rest, t)
    decreases e, 0, 2, 0
  {
    hide Plain, Eval, Follows, Holds, Loaded, Spell, Parses, ReadTok, Exp, Spells;
    var op := if e.Not? then Char('!') else Char('~');
    SpellUnary(e1, rest);
    LoadedToken(s, m, Cons(Punct(op), Spell(e1, 14, rest)));
    var s1 := OperatorNext(14, s, m, op, e1, 14, rest, false);
    t := ParseLevel(14, e1, s1, m, rest);
    UnaryTurn(e, e1, s, m, rest, s1, t);
  }

  lemma SpellUnary(e: Tree, rest: Lexemes)
    requires Valid(e)
    ensures Spell(Not(e), 14, rest) == Cons(Punct(Char('!')), Spell(e, 14, rest))
    ensures Spell(Complement(e), 14, rest) == Cons(Punct(Char('~')), Spell(e, 14, rest))
  {
    assert Valid(Not(e)) && Valid(Complement(e));
  }

  lemma UnaryTurn(e: Tree, e1: Tree, s: State, m: Store, rest: Lexemes, s1: State, t: State)
    requires Ready(s) && Valid(e) && Ready(s1) && Beside(s, s1) && ReadTok(s) == Val(0, s1)
    requires (e == Not(e1) && s.cx.curtok == Char('!')) || (e == Complement(e1) && s.cx.curtok == Char('~'))
    requires Parses(14, e1, s1, m, rest, t)
    ensures Parses(14, e, s, m, rest, t)
  {
    hide Exp, Holds, ReadTok, Loaded, Eval, Parses, Usable, Beside;
    EvalNot(e1, m, Live(s));
    EvalComplement(e1, m, Live(s));
    UnaryStep(s, s1);
    OneRun(s, s1, t);
    var r := Eval(e1, m, Live(s));
    if r.Error? {
      Failed(14, e1, s1, m, rest, t);
      ParsesError(14, e, s, m, rest, t, r);
    } else {
      Parsed(14, e1, s1, m, rest, t);
      ParsesValue(14, e, s, m, rest, t, if e.Not? then Truth(r.v == 0) else -r.v - 1, r.m);
    }
  }

  lemma ParseSign(e: Tree, e1: Tree, s: State, m: Store, rest: Lexemes) returns (t: State)
    requires e == Minus(e1) || e == Plus(e1)
    requires Starts(15, e, s, m, rest)
    ensures Parses(15, e, s, m, rest, t)
    decreases e, 0, 1, 0
  {
    hide Plain, Eval, Follows, Holds, Loaded, Spell, Parses, ReadTok, Exp, Spells;
    var op := if e.Minus? then Char('-') else Char('+');
    SpellSign(e1, rest);
    LoadedToken(s, m, Cons(Punct(op), Spell(e1, 15, rest)));
    var s1 := OperatorNext(15, s, m, op, e1, 15, rest, false);
    t := ParseLevel(15, e1, s1, m, rest);
    SignTurn(e, e1, s, m, rest, s1, t);
  }

  lemma SpellSign(e: Tree, rest: Lexemes)
    requires Valid(e)
    ensures Spell(Minus(e), 15, rest) == Cons(Punct(Char('-')), Spell(e, 15, rest))
    ensures Spell(Plus(e), 15, rest) == Cons(Punct(Char('+')), Spell(e, 15, rest))
  {
    assert Valid(Minus(e)) && Valid(Plus(e));
  }

  lemma SignTurn(e: Tree, e1: Tree, s: State, m: Store, rest: Lexemes, s1: State, t: State)
    requires Ready(s) && Valid(e) && Ready(s1) && Beside(s, s1) && ReadTok(s) == Val(0, s1)
    requires (e == Minus(e1) && s.cx.curtok == Char('-')) || (e == Plus(e1) && s.cx.curtok == Char('+'))
    requires Parses(15, e1, s1, m, rest, t)
    ensures Parses(15, e, s, m, rest, t)
  {
    hide Exp, Holds, ReadTok, Loaded, Eval, Parses, Usable, Beside, Wrap;
    EvalMinus(e1, m, Live(s));
    EvalPlus(e1, m, Live(s));
    SignStep(s, s1);
    OneRun(s, s1, t);
    var r := Eval(e1, m, Live(s));
    if r.Error? {
      Failed(15, e1, s1, m, rest, t);
      ParsesError(15, e, s, m, rest, t, r);
    } else {
      Parsed(15, e1, s1, m, rest, t);
      ParsesValue(15, e, s, m, rest, t, if e.Minus? then Wrap(-r.v) else r.v, r.m);
    }
  }

  // ------------------------------------------------------------ the theorem

  lemma ParseAtom(e: Tree, s: State, m: Store, rest: Lexemes) returns (t: State)
    requires Starts(15, e, s, m, rest) && (e.Literal? || e.Name? || e.Pre? || e.Post?)
    ensures Parses(15, e, s, m, rest, t)
  {
    hide Exp, Holds, ReadTok, Readable, Peekable, StrLong, Loaded, Follows, ValidName, ValidNumeral, Wrap, Put;
    hide Spell, Eval;
    FollowsTokens(15, rest);
    SpellAtom(e, rest);
    EvalAtom(e, m, Live(s));
    match e
    case Literal(n) => t := ParseLiteral(s, m, n, rest);
    case Name(x) =>
      NameLoaded(s, m, x, rest);
      t := ParseName(s, m, x, rest);
    case Pre(inc, x) => t := ParsePre(s, m, inc, x, rest);
    case Post(inc, x) => t := ParsePost(s, m, inc, x, rest);
  }

  lemma SpellAtom(e: Tree, rest: Lexemes)
    requires Valid(e)
    ensures e.Literal? ==> Spell(e, 15, rest) == Cons(Number(e.text), rest)
    ensures e.Name? ==> Spell(e, 15, rest) == Cons(Ident(e.x), rest)
    ensures e.Pre? ==>
              Spell(e, 15, rest) == Cons(Punct(if e.inc then PreInc else PreDec), Cons(Ident(e.x), rest))
    ensures e.Post? ==>
              Spell(e, 15, rest) == Cons(Ident(e.x), Cons(Punct(if e.inc then PostInc else PostDec), rest))
  {
  }

  lemma EvalAtom(e: Tree, m: Store, live: bool)
    requires Valid(e)
    ensures e.Literal? ==> Eval(e, m, live) == Value(StrLong(e.text).value, m)
    ensures e.Name? ==> Eval(e, m, live) == Value(Lookup(m, e.x), m)
    ensures e.Pre? ==>
              var v := Wrap(Lookup(m, e.x) + if e.inc then 1 else -1);
              Eval(e, m, live) == Value(v, Put(m, e.x, v, live))
    ensures e.Post? ==>
              var v := Wrap(Lookup(m, e.x) + if e.inc then 1 else -1);
              Eval(e, m, live) == Value(Lookup(m, e.x), Put(m, e.x, v, live))
  {
    hide StrLong, Wrap, Put, Lookup;
  }

  // Each routine of the parser, given the spelling of a tree for its level,
  // stops after it with the tree's value, or fails with the tree's error.
  lemma {:induction false} ParseLevel(l: nat, e: Tree, s: State, m: Store, rest: Lexemes) returns (t: State)
    requires Starts(l, e, s, m, rest)
    ensures Parses(l, e, s, m, rest, t)
    decreases e, if Level(e) < l then 1 else 0, 16 - l, 3
  {
    if Level(e) != l {
      hide Starts, Parses;
      LevelBounds(l, e, s, m, rest);
      if l == 15 { t := ParseParen(e, s, m, rest); }
      else { t := ParseDescend(l, e, s, m, rest); }
    } else {
      hide Starts, Parses, BinaryLevel;
      LevelBounds(l, e, s, m, rest);
      match e
      case Set(x, e1) => t := ParseSet(x, e1, s, m, rest);
      case Update(op, x, e1) => t := ParseUpdate(op, x, e1, s, m, rest);
      case IfElse(c, a, b) => t := ParseIfElse(c, a, b, s, m, rest);
      case Or(a, b) => t := ParseOr(a, b, s, m, rest);
      case And(a, b) => t := ParseAnd(a, b, s, m, rest);
      case Binary(op, a, b) => t := ParseBinary(l, op, a, b, s, m, rest);
      case Raise(a, b) => t := ParseRaise(a, b, s, m, rest);
      case Sequence(a, b) => t := ParseSequence(a, b, s, m, rest);
      case Not(e1) => t := ParseUnary(e, e1, s, m, rest);
      case Complement(e1) => t := ParseUnary(e, e1, s, m, rest);
      case Minus(e1) => t := ParseSign(e, e1, s, m, rest);
      case Plus(e1) => t := ParseSign(e, e1, s, m, rest);
      case _ => t := ParseAtom(e, s, m, rest);
    }
  }

  lemma LevelBounds(l: nat, e: Tree, s: State, m: Store, rest: Lexemes)
    requires Starts(l, e, s, m, rest)
    ensures l <= 15 && Valid(e) && Ready(s) && Level(e) <= 15
  {
  }

  lemma SubExprStep(s: State, text: string, first: State)
    requires Ready(s) && SkipBlanks(text, 0) < |text| && |s.stack| < MaxRecursion
    requires Ready(first) && ReadTok(Pushed(s, text)) == Val(0, first)
    requires first.stack == Pushed(s, text).stack
    ensures var r := Exp(0, first);
      && (r.Fail? ==> SubExpr(s, text) == r)
      && (r.Val? && r.st.cx.curtok == End ==> SubExpr(s, text) == Val(r.val, Popped(r.st)))
  {
    hide ReadTok, Exp;
  }

  // The value of a text: for every tree, every text that spells it, with
  // blanks anywhere between the lexemes, and every store in which the names
  // that the tree asks for are integers or unset.
  lemma SubExprSpelled(e: Tree, text: string, s: State, m: Store)
    requires Valid(e) && Known(e, m.texts) && Sound(s, m)
    requires Spells(text, 0, Spell(e, 0, Nil)) && |s.stack| + 1 < MaxRecursion
    ensures var r := SubExpr(s, text);
      match Eval(e, m, Live(s))
      case Value(v, m') =>
        r.Val? && r.val == v && Holds(r.st.vars, m') && r.st.cx == s.cx && r.st.stack == s.stack
      case Error(err, m') => r.Fail? && r.error == err && Holds(r.st.vars, m')
  {
    hide Exp, Eval, ReadTok, Holds, Spells, Loaded, Spell, SubExpr, Parses, StartsWell;
    SpellReadable(e, 0, Nil, End, m.texts);
    var p := Pushed(s, text);
    StartsReadable(Spell(e, 0, Nil), End, m.texts);
    var first := Next(p, m, Spell(e, 0, Nil));
    var last := ParseLevel(0, e, first, m, Nil);
    NotBlank(text, Spell(e, 0, Nil), m.texts);
    SubExprStep(s, text, first);
    SubExprTurn(e, text, s, m, first, last);
  }

  lemma StartsReadable(ls: Lexemes, curtok: Token, texts: map<string, string>)
    requires StartsWell(ls, curtok, texts)
    ensures Readable(curtok, ls, texts)
  {
  }

  lemma SubExprTurn(e: Tree, text: string, s: State, m: Store, first: State, last: State)
    requires Valid(e) && Ready(s) && Ready(first) && Beside(Pushed(s, text), first)
    requires Parses(0, e, first, m, Nil, last)
    ensures var q := Exp(0, first);
      match Eval(e, m, Live(s))
      case Value(v, m') =>
        q == Val(v, last) && last.cx.curtok == End && last.stack == s.stack + [s.cx]
        && Popped(last).cx == s.cx && Popped(last).stack == s.stack && Holds(Popped(last).vars, m')
      case Error(err, m') => q.Fail? && q.error == err && Holds(q.st.vars, m')
  {
    hide Exp, Eval, Holds, Loaded, Cont;
    PoppedPushed(s, text);
    var r := Eval(e, m, Live(s));
    if r.Value? {
      Parsed(0, e, first, m, Nil, last);
      Done(0, r.v, last, r.m, Nil);
    }
  }

  lemma NotBlank(text: string, ls: Lexemes, texts: map<string, string>)
    requires Spells(text, 0, ls) && StartsWell(ls, End, texts)
    ensures SkipBlanks(text, 0) < |text|
  {
    hide StrLong;
    match ls.head
    case Ident(x) => NameIs(text, SkipBlanks(text, 0), x);
    case Number(n) => NumeralIs(text, SkipBlanks(text, 0), n);
    case _ => OperatorRead(text, SkipBlanks(text, 0), ls.head, End);
  }

  // evalexp returns the tree's value and leaves its store; or it fails with
  // the tree's error, leaving the store at the point of failure.
  lemma EvaluationIsTheTrees(e: Tree, text: string, s: State, m: Store)
    requires Valid(e) && Known(e, m.texts) && Spells(text, 0, Spell(e, 0, Nil))
    requires Ready(s) && s.stack == [] && Holds(s.vars, m)
    ensures var r := EvalExp(s, text);
      match Eval(e, m, true)
      case Value(v, m') => r.Val? && r.val == v && Holds(r.st.vars, m') && r.st.stack == []
      case Error(err, m') => r.Fail? && r.error == err && Holds(r.st.vars, m') && r.st.stack == []
  {
    hide SubExpr, Eval, Holds, Spells, Spell;
    SubExprSpelled(e, text, s.(cx := s.cx.(noeval := 0)), m);
  }
}
