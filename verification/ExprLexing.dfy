// Reading lexemes: what readtok does on a text that spells them.

module ExprLexing {
  import opened Options
  import opened Numerals
  import opened Arithmetic
  import opened Expr
  import opened ExprTrees

  // The shell variables hold the printed integers of m, and its texts under
  // the other names.
  predicate Holds(vars: map<string, string>, m: Store) {
    && vars.Keys == m.ints.Keys + m.texts.Keys
    && (forall x | x in m.ints :: IntMax(m.ints[x]) && vars[x] == Itos(m.ints[x]))
    && (forall x | x in m.texts && x !in m.ints :: vars[x] == m.texts[x])
  }

  lemma HoldsPut(vars: map<string, string>, m: Store, x: string, v: int)
    requires Holds(vars, m) && IntMax(v)
    ensures Holds(vars[x := Itos(v)], Put(m, x, v, true))
  {
    hide Itos;
  }

  predicate ValidOperator(h: Lexeme) {
    match h
    case Punct(t) => IsArithop(t) || (IsMultiop(t) && t != OpAssign && t != Cond)
    case Assigns(op) => AssignOp(op)
    case _ => false
  }

  // ++ and -- are read as postfix exactly after a name.
  predicate Fits(curtok: Token, h: Lexeme) {
    && ((h == Punct(PostInc) || h == Punct(PostDec)) ==> curtok == Str)
    && ((h == Punct(PreInc) || h == Punct(PreDec)) ==> curtok != Str)
  }

  lemma CharOperatorRead(s: string, i: nat, c: char, curtok: Token)
    requires i < |s| && s[i] == c && IsArithop(Char(c)) && !Joins(c, CharAt(s, i + 1))
    ensures OperatorAt(s, i, curtok) == Op(Char(c), 1)
  {
  }

  lemma DoubleOperatorRead(s: string, i: nat, t: Token, curtok: Token)
    requires t in {EqEq, Neq, Leq, Geq, LAnd, LOr, LSh, RSh, Pow}
    requires i + 2 <= |s| && s[i] == TokenText(t)[0] && s[i + 1] == TokenText(t)[1]
    requires Boundary(s, i + 2, Punct(t))
    ensures OperatorAt(s, i, curtok) == Op(t, 2)
  {
  }

  lemma StepOperatorRead(s: string, i: nat, t: Token, curtok: Token)
    requires t in {PreInc, PreDec, PostInc, PostDec} && Fits(curtok, Punct(t))
    requires i + 2 <= |s| && s[i] == TokenText(t)[0] && s[i + 1] == TokenText(t)[1]
    requires Boundary(s, i + 2, Punct(t))
    ensures OperatorAt(s, i, curtok) == Op(t, 2)
  {
  }

  lemma AssignOperatorRead(s: string, i: nat, op: Token, curtok: Token)
    requires AssignOp(op) && SpelledAt(s, i, Assigns(op))
    ensures OperatorAt(s, i, curtok) == Assign(op, |TokenText(op)| + 1)
  {
    var text := TokenText(op) + "=";
    assert s[i] == s[i..i + |text|][0] && s[i + 1] == s[i..i + |text|][1];
    if op == LSh || op == RSh {
      assert s[i + 2] == s[i..i + 3][2];
    }
  }

  lemma OperatorRead(s: string, i: nat, h: Lexeme, curtok: Token)
    requires ValidOperator(h) && Fits(curtok, h) && SpelledAt(s, i, h)
    ensures i < |s| && |Spelling(h)| > 0
    ensures h.Punct? ==> OperatorAt(s, i, curtok) == Op(h.t, |Spelling(h)|)
    ensures h.Assigns? ==> OperatorAt(s, i, curtok) == Assign(h.op, |Spelling(h)|)
    ensures !NameStart(s[i]) && !IsDigit(s[i])
    ensures h.Punct? || h.Assigns?
  {
    hide OperatorAt;
    var text := Spelling(h);
    assert s[i] == s[i..i + |text|][0];
    match h
    case Assigns(op) =>
      AssignOperatorRead(s, i, op, curtok);
    case Punct(t) =>
      if t.Char? {
        CharOperatorRead(s, i, t.c, curtok);
      } else {
        assert s[i + 1] == s[i..i + 2][1];
        if t in {PreInc, PreDec, PostInc, PostDec} {
          StepOperatorRead(s, i, t, curtok);
        } else {
          DoubleOperatorRead(s, i, t, curtok);
        }
      }
  }

  // ----------------------------------------------------- the states after

  function LexemeToken(h: Lexeme): Token {
    match h
    case Ident(_) => Str
    case Number(_) => Num
    case Punct(t) => t
    case Assigns(_) => OpAssign
  }

  function LexemeEnd(s: State, h: Lexeme): nat
    requires Ready(s)
  {
    SkipBlanks(s.cx.expr, s.cx.tp) + |Spelling(h)|
  }

  // The state after an operator was read.
  function AfterOperator(s: State, h: Lexeme): State
    requires Ready(s)
  {
    s.(cx := s.cx.(tp := LexemeEnd(s, h), lasttok := s.cx.curtok, curtok := LexemeToken(h)),
       assigntok := if h.Assigns? then h.op else s.assigntok)
  }

  lemma ReadOperatorLexeme(s: State, h: Lexeme, t: Lexemes)
    requires Ready(s) && Spells(s.cx.expr, s.cx.tp, Cons(h, t))
    requires ValidOperator(h) && Fits(s.cx.curtok, h)
    ensures ReadTok(s) == Val(0, AfterOperator(s, h))
    ensures LexemeEnd(s, h) <= |s.cx.expr| && Spells(s.cx.expr, LexemeEnd(s, h), t)
  {
    hide OperatorAt, SpelledAt, ReadName, ReadNumber, ValidOperator, Fits;
    OperatorRead(s.cx.expr, SkipBlanks(s.cx.expr, s.cx.tp), h, s.cx.curtok);
    SpelledInside(s.cx.expr, SkipBlanks(s.cx.expr, s.cx.tp), h);
  }

  lemma SpelledInside(s: string, i: nat, h: Lexeme)
    requires SpelledAt(s, i, h)
    ensures i + |Spelling(h)| <= |s|
  {
  }

  lemma ReadEndOfText(s: State)
    requires Ready(s) && Spells(s.cx.expr, s.cx.tp, Nil)
    ensures ReadTok(s) ==
            Val(0, s.(cx := s.cx.(tp := |s.cx.expr|, lasttok := s.cx.curtok, curtok := End)))
  {
  }

  lemma {:induction false} NumberEndAt(s: string, i: nat, j: nat)
    requires i <= j <= |s| && (forall k :: i <= k < j ==> NumberChar(s[k])) && !NumberChar(CharAt(s, j))
    ensures NumberEnd(s, i) == j
    decreases j - i
  {
    if i < j { NumberEndAt(s, i + 1, j); }
  }

  lemma {:induction false} NameEndAt(s: string, i: nat, j: nat)
    requires i <= j <= |s| && (forall k :: i <= k < j ==> NameChar(s[k])) && !NameChar(CharAt(s, j))
    ensures NameEnd(s, i) == j
    decreases j - i
  {
    if i < j { NameEndAt(s, i + 1, j); }
  }

  lemma NumeralIs(s: string, i: nat, n: string)
    requires ValidNumeral(n) && SpelledAt(s, i, Number(n))
    ensures i < i + |n| <= |s| && IsDigit(s[i]) && !NameStart(s[i])
    ensures NumberEnd(s, i) == i + |n| && s[i..i + |n|] == n
  {
    hide StrLong, NumberEnd, SkipBlanks, Joins, TokenText, NumberChar;
    var j := i + |n|;
    forall k | i <= k < j
      ensures NumberChar(s[k])
    {
      assert s[k] == s[i..j][k - i];
    }
    assert s[i] == s[i..j][0];
    NumberEndAt(s, i, j);
  }

  lemma ReadNumberLexeme(s: State, n: string, t: Lexemes)
    requires Ready(s) && Spells(s.cx.expr, s.cx.tp, Cons(Number(n), t)) && ValidNumeral(n)
    ensures ReadTok(s) ==
            Val(0, s.(cx := s.cx.(tp := LexemeEnd(s, Number(n)), tokval := StrLong(n).value,
                                  lasttok := s.cx.curtok, curtok := Num)))
    ensures LexemeEnd(s, Number(n)) <= |s.cx.expr| && Spells(s.cx.expr, LexemeEnd(s, Number(n)), t)
  {
    hide StrLong, SpelledAt, ReadTok, ReadNumber, NumberEnd, ValidNumeral;
    var i := SkipBlanks(s.cx.expr, s.cx.tp);
    NumeralIs(s.cx.expr, i, n);
    NumberTurn(s);
    NumeralRead(s, i, n);
  }

  lemma NumberTurn(s: State)
    requires Ready(s)
    requires var i := SkipBlanks(s.cx.expr, s.cx.tp);
      i < |s.cx.expr| && IsDigit(s.cx.expr[i]) && !NameStart(s.cx.expr[i])
    ensures ReadTok(s) == ReadNumber(s, SkipBlanks(s.cx.expr, s.cx.tp))
  {
    hide ReadName, ReadNumber, ReadOperator, NameStart, IsDigit;
  }

  lemma NumeralRead(s: State, i: nat, n: string)
    requires Ready(s) && s.cx.tp <= i < |s.cx.expr| && IsDigit(s.cx.expr[i]) && ValidNumeral(n)
    requires i + |n| <= |s.cx.expr| && NumberEnd(s.cx.expr, i) == i + |n| && s.cx.expr[i..i + |n|] == n
    ensures ReadNumber(s, i) ==
            Val(0, s.(cx := s.cx.(tp := i + |n|, tokval := StrLong(n).value, lasttok := s.cx.curtok, curtok := Num)))
  {
    hide StrLong, NumberEnd;
    assert StrLong(n).Ok?;
  }

  lemma NameIs(s: string, i: nat, x: string)
    requires ValidName(x) && SpelledAt(s, i, Ident(x))
    ensures i < i + |x| <= |s| && NameStart(s[i])
    ensures NameEnd(s, i) == i + |x| && s[i..i + |x|] == x && CharAt(s, i + |x|) != '['
  {
    var j := i + |x|;
    forall k | i <= k < j
      ensures NameChar(s[k])
    {
      assert s[k] == s[i..j][k - i];
    }
    assert s[i] == s[i..j][0];
    NameEndAt(s, i, j);
  }

  // ------------------------------------------------- the value of a variable

  lemma BareDecimal(n: nat)
    ensures var t := Dec(n);
      SkipBlanks(t, 0) == 0 && IsDigit(t[0]) && !NameStart(t[0]) && NumberEnd(t, 0) == |t|
    ensures SkipBlanks(Dec(n), |Dec(n)|) == |Dec(n)|
  {
    hide Dec, StrLong;
    NumberEndAt(Dec(n), 0, |Dec(n)|);
  }

  // A routine that stops at the end of the text hands its operand up.
  lemma {:induction false} ClimbToEnd(l: nat, s: State, v: int, t: State)
    requires Ready(s) && Ready(t) && l <= 15
    requires s.cx.curtok != Char('!') && s.cx.curtok != Char('~')
    requires Exp(15, s) == Val(v, t) && t.cx.curtok == End
    ensures Exp(l, s) == Val(v, t)
    decreases 15 - l
  {
    hide Exp0;
    if l == 15 {
    } else if l == 14 {
    } else {
      hide Exp1;
      ClimbToEnd(l + 1, s, v, t);
      EndStops(l, v, t);
    }
  }

  lemma EndStops(l: nat, v: int, t: State)
    requires Ready(t) && l <= 13 && t.cx.curtok == End
    ensures Cont(l, v, t) == Val(v, t)
  {
    hide ReadTok, Exp;
  }

  // The state that has read a decimal numeral up to the end.
  function NumberThenEnd(s: State, n: nat): State {
    s.(cx := s.cx.(tp := |s.cx.expr|, tokval := Wrap(n), lasttok := Num, curtok := End))
  }

  lemma ReadDecimal(s: State, n: nat)
    requires Ready(s) && s.cx.expr[s.cx.tp..] == Dec(n)
    ensures ReadTok(s) ==
            Val(0, s.(cx := s.cx.(tp := |s.cx.expr|, tokval := Wrap(n), lasttok := s.cx.curtok, curtok := Num)))
  {
    hide StrLong, ReadName, ReadOperator, Dec;
    var text, i := s.cx.expr, s.cx.tp;
    assert |text| == i + |Dec(n)|;
    assert text[i] == text[i..][0];
    forall k | i <= k < |text|
      ensures NumberChar(text[k])
    {
      assert text[k] == text[i..][k - i];
    }
    NumberEndAt(text, i, |text|);
    assert text[i..|text|] == Dec(n);
    DecimalRoundTrip(n);
  }

  lemma DecimalOperand(s: State, n: nat)
    requires Ready(s) && s.cx.curtok == Num && s.cx.tokval == Wrap(n) && s.cx.tp == |s.cx.expr|
    ensures Exp(15, s) == Val(Wrap(n), NumberThenEnd(s, n))
  {
    hide ReadTok;
    ReadEndOfText(s);
    assert Exp0(s) == Val(Wrap(n), NumberThenEnd(s, n));
  }

  lemma EvalNatural(s: State, n: nat)
    requires Ready(s) && |s.stack| < MaxRecursion
    ensures SubExpr(s, Dec(n)) == Val(Wrap(n), s)
  {
    hide ReadTok, Exp, Dec, NumberEnd;
    BareDecimal(n);
    var p := Pushed(s, Dec(n));
    assert Dec(n)[0..] == Dec(n);
    ReadDecimal(p, n);
    var q := p.(cx := p.cx.(tp := |p.cx.expr|, tokval := Wrap(n), lasttok := p.cx.curtok, curtok := Num));
    DecimalOperand(q, n);
    ClimbToEnd(0, q, Wrap(n), NumberThenEnd(q, n));
    PoppedPushed(s, Dec(n));
  }

  lemma ReadMinus(s: State, text: string)
    requires Ready(s) && s.cx.tp == 0 && s.cx.expr == "-" + text && text != [] && IsDigit(text[0])
    ensures ReadTok(s) == Val(0, s.(cx := s.cx.(tp := 1, lasttok := s.cx.curtok, curtok := Char('-'))))
  {
    hide ReadName, ReadNumber;
    assert s.cx.expr[1] == text[0];
    CharOperatorRead(s.cx.expr, 0, '-', s.cx.curtok);
  }

  lemma NegatedOperand(s: State, n: nat)
    requires Ready(s) && s.cx.curtok == Char('-') && s.cx.expr[s.cx.tp..] == Dec(n)
    ensures Exp(15, s) == Val(Wrap(-Wrap(n)), NumberThenEnd(s, n))
  {
    hide ReadTok, Dec;
    ReadDecimal(s, n);
    var q := s.(cx := s.cx.(tp := |s.cx.expr|, tokval := Wrap(n), lasttok := s.cx.curtok, curtok := Num));
    assert Exp(15, q) == Val(Wrap(n), NumberThenEnd(q, n)) by { DecimalOperand(q, n); }
  }

  lemma EvalNegative(s: State, n: nat)
    requires Ready(s) && |s.stack| < MaxRecursion
    ensures SubExpr(s, "-" + Dec(n)) == Val(Wrap(-Wrap(n)), s)
  {
    hide ReadTok, Exp, Dec;
    var text := "-" + Dec(n);
    var p := Pushed(s, text);
    ReadMinus(p, Dec(n));
    var q := p.(cx := p.cx.(tp := 1, lasttok := p.cx.curtok, curtok := Char('-')));
    assert text[1..] == Dec(n);
    NegatedOperand(q, n);
    ClimbToEnd(0, q, Wrap(-Wrap(n)), NumberThenEnd(q, n));
    PoppedPushed(s, text);
  }

  // Evaluating the printed form of an integer gives the integer and changes
  // nothing; this covers the most negative value too.
  lemma EvalPrinted(s: State, v: int)
    requires Ready(s) && |s.stack| < MaxRecursion && IntMax(v)
    ensures SubExpr(s, Itos(v)) == Val(v, s)
  {
    hide SubExpr, Dec;
    if v < 0 {
      EvalNegative(s, -v);
      WrapNegated(-v);
    } else {
      EvalNatural(s, v);
    }
  }

  lemma WrapNegated(n: int)
    requires 0 <= n <= Two63
    ensures Wrap(-Wrap(n)) == -n
  {
  }

  lemma EvalVariable(s: State, m: Store, x: string)
    requires Ready(s) && |s.stack| < MaxRecursion && Holds(s.vars, m) && Plain(m.texts, x)
    ensures StrEval(s, x) == Val(Lookup(m, x), s)
  {
    hide SubExpr, Itos;
    if x in m.ints { EvalPrinted(s, m.ints[x]); }
  }

  // ------------------------------------------------------------------ names

  // What may follow a name: the end, or an operator other than a prefix one.
  predicate Peekable(t: Lexemes) {
    t.Nil? || (ValidOperator(t.head) && Fits(Str, t.head))
  }

  predicate NextIs(t: Lexemes, h: Lexeme) { t.Cons? && t.head == h }

  // The only trace that looking ahead leaves.
  function PeekAssign(s: State, t: Lexemes): Token {
    if t.Cons? && t.head.Assigns? then t.head.op else s.assigntok
  }

  function TokenOf(t: Lexemes): Token { if t.Nil? then End else LexemeToken(t.head) }

  lemma PeekAhead(s: State, t: Lexemes)
    requires Ready(s) && s.cx.curtok == Str && Spells(s.cx.expr, s.cx.tp, t) && Peekable(t)
    ensures var r := ReadTok(s);
      && r.Val? && r.st.cx.curtok == TokenOf(t) && r.st.assigntok == PeekAssign(s, t)
      && r.st.vars == s.vars && r.st.stack == s.stack && r.st.cx.expr == s.cx.expr
  {
    hide ReadTok, ValidOperator;
    if t.Nil? {
      ReadEndOfText(s);
    } else {
      ReadOperatorLexeme(s, t.head, t.tail);
    }
  }

  // The state after the name x was read before t, its value being v.
  function AfterName(s: State, x: string, t: Lexemes, v: int): State
    requires Ready(s)
  {
    s.(cx := s.cx.(tp := LexemeEnd(s, Ident(x)), tokstr := x, tokval := v,
                   lasttok := s.cx.curtok, curtok := Str),
       assigntok := PeekAssign(s, t))
  }

  // No name is being stepped by a prefix ++ or --, so that one before `=' is
  // not asked for its value.
  predicate Steady(s: State) { s.cx.lasttok != PreInc && s.cx.lasttok != PreDec }

  // Whether the value of x, which stands before t, is not asked for or known.
  predicate Answered(s: State, m: Store, x: string, t: Lexemes) {
    (NextIs(t, Punct(Char('='))) && Steady(s)) || Plain(m.texts, x)
  }

  lemma NameValueIs(s: State, m: Store, x: string, t: Lexemes) returns (v: int)
    requires Ready(s) && |s.stack| < MaxRecursion && Holds(s.vars, m) && Answered(s, m, x, t)
    ensures NameValue(s, x, TokenOf(t)) == Val(v, s)
    ensures NextIs(t, Punct(Char('='))) || v == Lookup(m, x)
  {
    hide StrEval, Holds;
    if Plain(m.texts, x) { EvalVariable(s, m, x); }
    v := NameValue(s, x, TokenOf(t)).val;
  }

  lemma ReadNameLexeme(s: State, m: Store, x: string, t: Lexemes) returns (v: int)
    requires Ready(s) && |s.stack| < MaxRecursion && Holds(s.vars, m)
    requires Spells(s.cx.expr, s.cx.tp, Cons(Ident(x), t)) && ValidName(x) && Peekable(t)
    requires Answered(s, m, x, t)
    ensures ReadTok(s) == Val(0, AfterName(s, x, t, v))
    ensures NextIs(t, Punct(Char('='))) || v == Lookup(m, x)
    ensures LexemeEnd(s, Ident(x)) <= |s.cx.expr| && Spells(s.cx.expr, LexemeEnd(s, Ident(x)), t)
  {
    hide SpelledAt, ValidName, Peekable, ValidOperator, StrEval, Holds, OperatorAt, NameValue, Plain;
    var i := SkipBlanks(s.cx.expr, s.cx.tp);
    NameIs(s.cx.expr, i, x);
    var e := i + |x|;
    var named := s.(cx := s.cx.(tp := i, tokstr := x));
    var peeking := Peeking(named, x, i, e);
    PeekAhead(peeking, t);
    var peeked := ReadTok(peeking).st;
    var back := peeked.(cx := named.cx);
    assert back == named.(assigntok := PeekAssign(s, t));
    v := NameValueIs(back, m, x, t);
    ReadsAsName(s, i, x, t, v, peeking, peeked, back);
  }

  lemma NameTurn(s: State)
    requires Ready(s)
    requires var i := SkipBlanks(s.cx.expr, s.cx.tp); i < |s.cx.expr| && NameStart(s.cx.expr[i])
    ensures ReadTok(s) == ReadName(s, SkipBlanks(s.cx.expr, s.cx.tp))
  {
    hide ReadName, ReadNumber, ReadOperator, NameStart;
  }

  lemma ReadsAsName(s: State, i: nat, x: string, t: Lexemes, v: int, peeking: State, peeked: State, back: State)
    requires Ready(s) && i == SkipBlanks(s.cx.expr, s.cx.tp) < |s.cx.expr| && NameStart(s.cx.expr[i])
    requires NameEnd(s.cx.expr, i) == i + |x| <= |s.cx.expr| && s.cx.expr[i..i + |x|] == x
    requires CharAt(s.cx.expr, i + |x|) != '['
    requires Ready(peeking) && Ready(peeked) && Ready(back)
    requires peeking == Peeking(s.(cx := s.cx.(tp := i, tokstr := x)), x, i, i + |x|)
    requires ReadTok(peeking).Val? && ReadTok(peeking).st == peeked
    requires back == peeked.(cx := s.cx.(tp := i, tokstr := x))
    requires back == s.(cx := s.cx.(tp := i, tokstr := x), assigntok := PeekAssign(s, t))
    requires NameValue(back, x, peeked.cx.curtok) == Val(v, back)
    ensures ReadTok(s) == Val(0, AfterName(s, x, t, v))
  {
    hide NameValue, NameEnd, ReadTok, ReadName, Peeking;
    NameTurn(s);
    ReadNameIs(s, i, x, peeking, peeked, back);
  }

  // What readtok does on a name, up to what is behind it: the token behind
  // it was read in state peeking, up to peeked, and the name put back.
  lemma ReadNameIs(s: State, i: nat, x: string, peeking: State, peeked: State, asking: State)
    requires Ready(s) && s.cx.tp <= i < |s.cx.expr| && NameStart(s.cx.expr[i])
    requires NameEnd(s.cx.expr, i) == i + |x| <= |s.cx.expr| && s.cx.expr[i..i + |x|] == x
    requires CharAt(s.cx.expr, i + |x|) != '['
    requires peeking == Peeking(s.(cx := s.cx.(tp := i, tokstr := x)), x, i, i + |x|)
    requires Ready(peeking) && ReadTok(peeking).Val? && ReadTok(peeking).st == peeked
    requires asking == peeked.(cx := s.cx.(tp := i, tokstr := x)) && Ready(asking)
    ensures var r := NameValue(asking, x, peeked.cx.curtok);
      ReadName(s, i) == if r.Fail? then r else NameRead(s, i + |x|, r.val, r.st)
  {
    hide NameValue, NameEnd, ReadTok, Peeking, CharAt, NameStart;
  }

  function NameRead(s: State, e: nat, v: int, back: State): Out {
    Val(0, back.(cx := back.cx.(tokval := v, tp := e, lasttok := s.cx.curtok, curtok := Str)))
  }
}
