// The routines of expr.c over their globals.  An error (a longjmp in the
// source) is an out-parameter that every caller hands on at once.

module ExprEvaluator {
  import opened Options
  import opened Numerals
  import opened Arithmetic
  import opened Expr

  function Outcome(val: int, err: Option<ExprError>, s: State): Out {
    match err
    case None => Val(val, s)
    case Some(e) => Fail(e, s)
  }

  class Evaluator {
    var expression: string
    var tp: nat
    var curtok: Token
    var lasttok: Token
    var tokval: int
    var tokstr: string
    var noeval: nat
    var assigntok: Token
    var vars: map<string, string>
    var stack: seq<Context>

    ghost function Snapshot(): State
      reads this
    {
      State(Context(expression, tp, curtok, lasttok, tokval, tokstr, noeval), assigntok, vars, stack)
    }

    constructor (vars: map<string, string>)
      ensures Snapshot() == State(Context("", 0, End, End, 0, "", 0), End, vars, [])
    {
      expression, tp, curtok, lasttok, tokval, tokstr, noeval := "", 0, End, End, 0, "", 0;
      assigntok := End;
      this.vars := vars;
      stack := [];
    }

    // SAVETOK, with the expression.
    method SaveContext() returns (c: Context)
      ensures c == Snapshot().cx
    {
      c := Context(expression, tp, curtok, lasttok, tokval, tokstr, noeval);
    }

    // RESTORETOK, with the expression.
    method RestoreContext(c: Context)
      modifies this
      ensures Snapshot() == old(Snapshot()).(cx := c)
    {
      expression, tp, curtok, lasttok := c.expr, c.tp, c.curtok, c.lasttok;
      tokval, tokstr, noeval := c.tokval, c.tokstr, c.noeval;
    }

    method BindVariable(lhs: string, v: int)
      modifies `vars
      ensures Snapshot() == Bind(old(Snapshot()), lhs, v)
    {
      if noeval == 0 { vars := vars[lhs := Itos(v)]; }
    }

    method RaiseNoeval(setNoeval: bool)
      modifies `noeval
      ensures Snapshot() == MoreNoeval(old(Snapshot()), setNoeval)
    {
      if setNoeval { noeval := noeval + 1; }
    }

    method LowerNoeval(setNoeval: bool)
      requires setNoeval ==> noeval > 0
      modifies `noeval
      ensures Snapshot() == LessNoeval(old(Snapshot()), setNoeval)
    {
      if setNoeval { noeval := noeval - 1; }
    }

    // ------------------------------------------------------------- lexer

    method SkipWhitespace(from: nat) returns (cp: nat)
      requires from <= |expression|
      ensures cp == SkipBlanks(expression, from)
    {
      cp := from;
      while cp < |expression| && Blank(expression[cp])
        invariant from <= cp <= |expression|
        invariant SkipBlanks(expression, cp) == SkipBlanks(expression, from)
      {
        cp := cp + 1;
      }
    }

    method ScanName(from: nat) returns (cp: nat)
      requires from <= |expression|
      ensures cp == NameEnd(expression, from)
    {
      cp := from;
      while cp < |expression| && NameChar(expression[cp])
        invariant from <= cp <= |expression|
        invariant NameEnd(expression, cp) == NameEnd(expression, from)
      {
        cp := cp + 1;
      }
    }

    method ScanNumber(from: nat) returns (cp: nat)
      requires from <= |expression|
      ensures cp == NumberEnd(expression, from)
    {
      cp := from;
      while cp < |expression| && NumberChar(expression[cp])
        invariant from <= cp <= |expression|
        invariant NumberEnd(expression, cp) == NumberEnd(expression, from)
      {
        cp := cp + 1;
      }
    }

    method NextToken() returns (err: Option<ExprError>)
      requires Ready(Snapshot())
      modifies this
      ensures Outcome(0, err, Snapshot()) == ReadTok(old(Snapshot()))
      decreases Room(Snapshot()), Unread(Snapshot()), 1
    {
      hide ReadName, ReadNumber, ReadOperator;
      var cp := SkipWhitespace(tp);
      if cp == |expression| {
        lasttok, curtok, tp := curtok, End, cp;
        err := None;
      } else if NameStart(expression[cp]) {
        err := NextName(cp);
      } else if IsDigit(expression[cp]) {
        err := NextNumber(cp);
      } else {
        err := NextOperator(cp);
      }
    }

    method NextName(start: nat) returns (err: Option<ExprError>)
      requires Ready(Snapshot()) && tp <= start < |expression| && NameStart(expression[start])
      modifies this
      ensures Outcome(0, err, Snapshot()) == ReadName(old(Snapshot()), start)
      decreases Room(Snapshot()), Unread(Snapshot()), 0
    {
      hide ReadTok, NameEnd, NameValue, CharAt, NameStart;
      var cp := ScanName(start);
      tp := start;
      if CharAt(expression, cp) == '[' { return Some(Subscript); }
      tokstr := expression[start..cp];
      var ec := SaveContext();
      ghost var named := Snapshot();
      tokstr, tp, noeval, curtok := "", cp, 1, Str;
      assert Snapshot() == Peeking(named, ec.tokstr, start, cp);
      err := NextToken();
      if err.Some? { return; }
      var peektok := curtok;
      RestoreContext(ec);
      var v;
      v, err := VariableValue(peektok);
      if err.Some? { return; }
      tokval := v;
      lasttok, curtok, tp := curtok, Str, cp;
    }

    method VariableValue(peektok: Token) returns (v: int, err: Option<ExprError>)
      requires Ready(Snapshot())
      modifies this
      ensures Outcome(v, err, Snapshot()) == NameValue(old(Snapshot()), old(tokstr), peektok)
      decreases Room(Snapshot()), 0, 2
    {
      hide StrEval;
      if lasttok == PreInc || lasttok == PreDec || peektok != Char('=') {
        v, err := StrValue(tokstr);
      } else {
        v, err := 0, None;
      }
    }

    method NextNumber(start: nat) returns (err: Option<ExprError>)
      requires Ready(Snapshot()) && tp <= start < |expression| && IsDigit(expression[start])
      modifies this
      ensures Outcome(0, err, Snapshot()) == ReadNumber(old(Snapshot()), start)
    {
      hide StrLong, NumberEnd;
      tp := start;
      var cp := ScanNumber(start);
      var n := ReadStrLong(expression[start..cp]);
      match n
      case Err(e) => err := Some(Numeral(e));
      case Ok(v) =>
        tokval, lasttok, curtok, tp := v, curtok, Num, cp;
        err := None;
    }

    method NextOperator(start: nat) returns (err: Option<ExprError>)
      requires Ready(Snapshot()) && tp <= start < |expression|
      modifies this
      ensures Outcome(0, err, Snapshot()) == ReadOperator(old(Snapshot()), start)
    {
      hide OperatorAt;
      tp := start;
      var cp, c, op;
      cp, c, op, err := ScanOperator(start);
      if err.Some? { return; }
      if op.Some? { assigntok := op.value; }
      lasttok, curtok, tp := curtok, c, cp;
    }

    // The characters of an operator: the token they make, where they end, and
    // the operator of OP=.
    method ScanOperator(start: nat) returns (cp: nat, tok: Token, op: Option<Token>, err: Option<ExprError>)
      requires start < |expression|
      ensures match OperatorAt(expression, start, curtok)
        case Bad(e) => err == Some(e)
        case Op(t, len) => err == None && tok == t && cp == start + len && op == None
        case Assign(o, len) => err == None && tok == OpAssign && cp == start + len && op == Some(o)
    {
      var c, c1 := expression[start], CharAt(expression, start + 1);
      cp, tok, op, err := start + 2, Char(c), None, None;
      if c == '=' && c1 == '=' {
        tok := EqEq;
      } else if c == '!' && c1 == '=' {
        tok := Neq;
      } else if c == '>' && c1 == '=' {
        tok := Geq;
      } else if c == '<' && c1 == '=' {
        tok := Leq;
      } else if c == '<' && c1 == '<' {
        if CharAt(expression, cp) == '=' {
          op, tok, cp := Some(LSh), OpAssign, cp + 1;
        } else {
          tok := LSh;
        }
      } else if c == '>' && c1 == '>' {
        if CharAt(expression, cp) == '=' {
          op, tok, cp := Some(RSh), OpAssign, cp + 1;
        } else {
          tok := RSh;
        }
      } else if c == '&' && c1 == '&' {
        tok := LAnd;
      } else if c == '|' && c1 == '|' {
        tok := LOr;
      } else if c == '*' && c1 == '*' {
        tok := Pow;
      } else if (c == '-' || c == '+') && c1 == c && curtok == Str {
        tok := if c == '-' then PostDec else PostInc;
      } else if (c == '-' || c == '+') && c1 == c {
        var xp := SkipWhitespace(cp);
        if NameStart(CharAt(expression, xp)) {
          tok := if c == '-' then PreDec else PreInc;
        } else {
          cp := cp - 1;
        }
      } else if c1 == '=' && c in {'*', '/', '%', '+', '-', '&', '^', '|'} {
        op, tok := Some(Char(c)), OpAssign;
      } else {
        cp := cp - 1;
        if !IsArithop(Char(c)) {
          var noOperand := curtok == End || IsArithop(curtok) || IsMultiop(curtok);
          err := Some(if noOperand then OperandExpected else InvalidOperator);
        }
      }
    }

    // expr_streval.
    method StrValue(name: string) returns (val: int, err: Option<ExprError>)
      requires Ready(Snapshot())
      modifies this
      ensures Outcome(val, err, Snapshot()) == StrEval(old(Snapshot()), name)
      decreases Room(Snapshot()), 0, 1
    {
      hide SubExpr;
      if name in vars && vars[name] != "" {
        val, err := Subexpression(vars[name]);
      } else {
        val, err := 0, None;
      }
    }

    // --------------------------------------------------- context stack

    method PushContext() returns (err: Option<ExprError>)
      modifies this
      ensures err == if |old(stack)| >= 1024 then Some(RecursionLevelExceeded) else None
      ensures err.Some? ==> Snapshot() == old(Snapshot())
      ensures err.None? ==>
                Snapshot() == old(Snapshot()).(stack := old(stack) + [old(Snapshot()).cx])
    {
      if |stack| >= MaxRecursion { return Some(RecursionLevelExceeded); }
      var c := SaveContext();
      stack := stack + [c];
      err := None;
    }

    method PopContext()
      requires stack != []
      modifies this
      ensures Snapshot() == Popped(old(Snapshot()))
    {
      var n := |stack| - 1;
      var c := stack[n];
      stack := stack[..n];
      RestoreContext(c);
    }

    // subexpr.
    method Subexpression(text: string) returns (val: int, err: Option<ExprError>)
      requires Ready(Snapshot())
      modifies this
      ensures Outcome(val, err, Snapshot()) == SubExpr(old(Snapshot()), text)
      decreases Room(Snapshot()), 0, 0
    {
      hide ReadTok, Exp;
      ghost var s := Snapshot();
      var p := 0;
      while p < |text| && Blank(text[p])
        invariant 0 <= p <= |text| && SkipBlanks(text, p) == SkipBlanks(text, 0)
      {
        p := p + 1;
      }
      if p == |text| { return 0, None; }
      val := 0;
      err := PushContext();
      if err.Some? { return; }
      curtok, lasttok, expression, tp := End, End, text, 0;
      tokstr, tokval := "", 0;
      assert Snapshot() == Pushed(s, text);
      err := NextToken();
      if err.Some? { return; }
      val, err := ExpComma();
      if err.Some? { return; }
      if curtok != End { return val, Some(SyntaxError); }
      PopContext();
    }

    // ---------------------------------------------------------- grammar

    method ExpComma() returns (value: int, err: Option<ExprError>)
      requires Ready(Snapshot())
      modifies this
      ensures Outcome(value, err, Snapshot()) == Exp(0, old(Snapshot()))
      decreases Room(Snapshot()), Left(Snapshot()), 1, 32
    {
      hide ReadTok, Exp, Cont;
      ghost var s := Snapshot();
      ExpStarts(0, s);
      value, err := ExpAssign();
      if err.Some? { return; }
      while curtok == Char(',')
        invariant err.None? && Within(s, Snapshot())
        invariant Cont(0, value, Snapshot()) == Exp(0, s)
        decreases Left(Snapshot())
      {
        CommaGoesOn(value, Snapshot());
        err := NextToken();
        if err.Some? { return; }
        value, err := ExpAssign();
        if err.Some? { return; }
      }
      CommaStops(value, Snapshot());
    }

    method ExpAssign() returns (value: int, err: Option<ExprError>)
      requires Ready(Snapshot())
      modifies this
      ensures Outcome(value, err, Snapshot()) == Exp(1, old(Snapshot()))
      decreases Room(Snapshot()), Left(Snapshot()), 1, 30
    {
      hide ReadTok, Exp, Cont, Bind, Apply, AssignOp;
      ghost var s := Snapshot();
      ExpStarts(1, s);
      value, err := ExpCond();
      if err.Some? { return; }
      AssignIs(value, Snapshot());
      if curtok == Char('=') || curtok == OpAssign {
        var special := curtok == OpAssign;
        if lasttok != Str { return value, Some(AssignmentToNonVariable); }
        var op, lvalue, lhs := assigntok, value, tokstr;
        err := NextToken();
        if err.Some? { return; }
        value, err := ExpAssign();
        if err.Some? { return; }
        if special {
          if !AssignOp(op) { return value, Some(BadAssignToken); }
          var v := Apply(op, lvalue, value);
          if v.None? { return value, Some(DivisionByZero); }
          value := v.value;
        }
        BindVariable(lhs, value);
        tokstr := "";
      }
    }

    method ExpCond() returns (rval: int, err: Option<ExprError>)
      requires Ready(Snapshot())
      modifies this
      ensures Outcome(rval, err, Snapshot()) == Exp(2, old(Snapshot()))
      decreases Room(Snapshot()), Left(Snapshot()), 1, 28
    {
      hide ReadTok, Exp, Cont, CondElse;
      ghost var s := Snapshot();
      ExpStarts(2, s);
      var cval, val1;
      cval, err := ExpLor();
      rval := cval;
      if err.Some? { return; }
      CondIs(cval, Snapshot());
      if curtok == Char('?') {
        err := NextToken();
        if err.Some? { return; }
        if curtok == End || curtok == Char(':') { return rval, Some(ExpressionExpected); }
        RaiseNoeval(cval == 0);
        val1, err := ExpComma();
        if err.Some? { return; }
        LowerNoeval(cval == 0);
        rval, err := ExpElse(cval, val1);
      }
    }

    // expcond from the colon on.
    method ExpElse(cval: int, val1: int) returns (rval: int, err: Option<ExprError>)
      requires Ready(Snapshot())
      modifies this
      ensures Outcome(rval, err, Snapshot()) == CondElse(cval, val1, old(Snapshot()))
      decreases Room(Snapshot()), Left(Snapshot()), 0, 1
    {
      hide ReadTok, Exp, CondElse;
      ElseIs(cval, val1, Snapshot());
      var val2;
      rval := 0;
      if curtok != Char(':') { return rval, Some(ColonExpected); }
      err := NextToken();
      if err.Some? { return; }
      if curtok == End { return rval, Some(ExpressionExpected); }
      RaiseNoeval(cval != 0);
      val2, err := ExpCond();
      if err.Some? { return; }
      LowerNoeval(cval != 0);
      rval := if cval != 0 then val1 else val2;
      lasttok := Cond;
    }

    method ExpLor() returns (val1: int, err: Option<ExprError>)
      requires Ready(Snapshot())
      modifies this
      ensures Outcome(val1, err, Snapshot()) == Exp(3, old(Snapshot()))
      decreases Room(Snapshot()), Left(Snapshot()), 1, 26
    {
      hide ReadTok, Exp, Cont;
      ghost var s := Snapshot();
      ExpStarts(3, s);
      var val2;
      val1, err := ExpLand();
      if err.Some? { return; }
      while curtok == LOr
        invariant err.None? && Within(s, Snapshot())
        invariant Cont(3, val1, Snapshot()) == Exp(3, s)
        decreases Left(Snapshot())
      {
        LorGoesOn(val1, Snapshot());
        var setNoeval := val1 != 0;
        RaiseNoeval(setNoeval);
        err := NextToken();
        if err.Some? { return; }
        val2, err := ExpLand();
        if err.Some? { return; }
        LowerNoeval(setNoeval);
        val1 := Truth(val1 != 0 || val2 != 0);
        lasttok := LOr;
      }
      LorStops(val1, Snapshot());
    }

    method ExpLand() returns (val1: int, err: Option<ExprError>)
      requires Ready(Snapshot())
      modifies this
      ensures Outcome(val1, err, Snapshot()) == Exp(4, old(Snapshot()))
      decreases Room(Snapshot()), Left(Snapshot()), 1, 24
    {
      hide ReadTok, Exp, Cont;
      ghost var s := Snapshot();
      ExpStarts(4, s);
      var val2;
      val1, err := ExpBinary(5);
      if err.Some? { return; }
      while curtok == LAnd
        invariant err.None? && Within(s, Snapshot())
        invariant Cont(4, val1, Snapshot()) == Exp(4, s)
        decreases Left(Snapshot())
      {
        LandGoesOn(val1, Snapshot());
        var setNoeval := val1 == 0;
        RaiseNoeval(setNoeval);
        err := NextToken();
        if err.Some? { return; }
        val2, err := ExpBinary(5);
        if err.Some? { return; }
        LowerNoeval(setNoeval);
        val1 := Truth(val1 != 0 && val2 != 0);
        lasttok := LAnd;
      }
      LandStops(val1, Snapshot());
    }

    // expbor (5), expbxor, expband, exp5, exp4, expshift, exp3 and exp2 (12):
    // the same loop over different operators.
    method ExpBinary(l: nat) returns (val1: int, err: Option<ExprError>)
      requires Ready(Snapshot()) && 5 <= l <= 12
      modifies this
      ensures Outcome(val1, err, Snapshot()) == Exp(l, old(Snapshot()))
      decreases Room(Snapshot()), Left(Snapshot()), 1, 2 * (16 - l)
    {
      hide ReadTok, Exp, Cont, Apply, BinaryAt;
      ghost var s := Snapshot();
      ExpStarts(l, s);
      var val2;
      val1, err := BinaryOperand(l + 1);
      if err.Some? { return; }
      while BinaryAt(l, curtok)
        invariant err.None? && Within(s, Snapshot())
        invariant Cont(l, val1, Snapshot()) == Exp(l, s)
        decreases Left(Snapshot())
      {
        BinaryGoesOn(l, val1, Snapshot());
        var op := curtok;
        err := NextToken();
        if err.Some? { return; }
        val2, err := BinaryOperand(l + 1);
        if err.Some? { return; }
        var v := Apply(op, val1, val2);
        if v.None? { return val1, Some(DivisionByZero); }
        val1 := v.value;
      }
      BinaryStops(l, val1, Snapshot());
    }

    // The routine after level l - 1.
    method BinaryOperand(l: nat) returns (val: int, err: Option<ExprError>)
      requires Ready(Snapshot()) && 6 <= l <= 13
      modifies this
      ensures Outcome(val, err, Snapshot()) == Exp(l, old(Snapshot()))
      decreases Room(Snapshot()), Left(Snapshot()), 1, 2 * (16 - l) + 1
    {
      hide Exp;
      if l <= 12 {
        val, err := ExpBinary(l);
      } else {
        val, err := ExpPower();
      }
    }

    method ExpPower() returns (val1: int, err: Option<ExprError>)
      requires Ready(Snapshot())
      modifies this
      ensures Outcome(val1, err, Snapshot()) == Exp(13, old(Snapshot()))
      decreases Room(Snapshot()), Left(Snapshot()), 1, 6
    {
      hide ReadTok, Exp, Cont, Power;
      ghost var s := Snapshot();
      ExpStarts(13, s);
      var val2;
      val1, err := ExpUnary();
      if err.Some? { return; }
      while curtok == Pow
        invariant err.None? && Within(s, Snapshot())
        invariant Cont(13, val1, Snapshot()) == Exp(13, s)
        decreases Left(Snapshot())
      {
        PowerGoesOn(val1, Snapshot());
        err := NextToken();
        if err.Some? { return; }
        val2, err := ExpPower();
        if err.Some? { return; }
        if val2 == 0 { return 1, None; }
        if val2 < 0 { return val1, Some(NegativeExponent); }
        val1 := RaiseTo(val1, val2);
      }
      PowerStops(val1, Snapshot());
    }

    // exp1.
    method ExpUnary() returns (val: int, err: Option<ExprError>)
      requires Ready(Snapshot())
      modifies this
      ensures Outcome(val, err, Snapshot()) == Exp(14, old(Snapshot()))
      decreases Room(Snapshot()), Left(Snapshot()), 1, 4
    {
      hide ReadTok, Exp;
      UnaryIs(Snapshot());
      if curtok == Char('!') {
        val := 0;
        err := NextToken();
        if err.Some? { return; }
        val, err := ExpUnary();
        if err.Some? { return; }
        val := Truth(val == 0);
      } else if curtok == Char('~') {
        val := 0;
        err := NextToken();
        if err.Some? { return; }
        val, err := ExpUnary();
        if err.Some? { return; }
        val := -val - 1;
      } else {
        val, err := ExpOperand();
      }
    }

    // exp0.
    method ExpOperand() returns (val: int, err: Option<ExprError>)
      requires Ready(Snapshot())
      modifies this
      ensures Outcome(val, err, Snapshot()) == Exp(15, old(Snapshot()))
      decreases Room(Snapshot()), Left(Snapshot()), 1, 2
    {
      hide ReadTok, Exp, PreStep, Parenthesis, NameOperand;
      OperandIs(Snapshot());
      val := 0;
      if curtok == PreInc || curtok == PreDec {
        val, err := PreIncDec();
      } else if curtok == Char('-') {
        err := NextToken();
        if err.Some? { return; }
        val, err := ExpOperand();
        if err.Some? { return; }
        val := Wrap(-val);
      } else if curtok == Char('+') {
        err := NextToken();
        if err.Some? { return; }
        val, err := ExpOperand();
      } else if curtok == Char('(') {
        val, err := ParenOperand();
      } else if curtok == Num {
        val := tokval;
        err := NextToken();
      } else if curtok == Str {
        val, err := VariableOperand();
      } else {
        err := Some(OperandExpected);
      }
    }

    method PreIncDec() returns (val: int, err: Option<ExprError>)
      requires Ready(Snapshot()) && (curtok == PreInc || curtok == PreDec)
      modifies this
      ensures Outcome(val, err, Snapshot()) == PreStep(old(Snapshot()))
      decreases Room(Snapshot()), Left(Snapshot()), 1, 0
    {
      hide ReadTok, Exp, Wrap, Bind;
      var stok := curtok;
      lasttok := stok;
      val := 0;
      err := NextToken();
      if err.Some? { return; }
      if curtok != Str { return 0, Some(IdentifierExpected); }
      ghost var s1 := Snapshot();
      val := Wrap(tokval + (if stok == PreInc then 1 else -1));
      BindVariable(tokstr, val);
      ghost var s2 := Snapshot();
      curtok := Num;
      assert s2 == Bind(s1, s1.cx.tokstr, val) && Snapshot() == s2.(cx := s2.cx.(curtok := Num));
      err := NextToken();
    }

    method ParenOperand() returns (val: int, err: Option<ExprError>)
      requires Ready(Snapshot()) && curtok == Char('(')
      modifies this
      ensures Outcome(val, err, Snapshot()) == Parenthesis(old(Snapshot()))
      decreases Room(Snapshot()), Left(Snapshot()), 1, 0
    {
      hide ReadTok, Exp;
      val := 0;
      err := NextToken();
      if err.Some? { return; }
      val, err := ExpComma();
      if err.Some? { return; }
      if curtok != Char(')') { return val, Some(MissingParen); }
      err := NextToken();
    }

    method VariableOperand() returns (val: int, err: Option<ExprError>)
      requires Ready(Snapshot()) && curtok == Str
      modifies this
      ensures Outcome(val, err, Snapshot()) == NameOperand(old(Snapshot()))
      decreases Room(Snapshot()), Left(Snapshot()), 1, 0
    {
      hide ReadTok, Exp, PeekResult;
      val := tokval;
      var ec := SaveContext();
      tokstr, noeval := "", 1;
      err := NextToken();
      if err.Some? { return; }
      AfterPeek(ec, val);
      err := NextToken();
    }

    // The token after the name was looked at: an update, or back to the name.
    method AfterPeek(ec: Context, val: int)
      modifies this
      ensures Snapshot() == PeekResult(old(Snapshot()), ec, val)
    {
      hide Wrap;
      var stok := curtok;
      if stok == PostInc || stok == PostDec {
        tokstr, noeval, lasttok := ec.tokstr, ec.noeval, Str;
        BindVariable(tokstr, Wrap(val + (if stok == PostInc then 1 else -1)));
        curtok := Num;
      } else {
        RestoreContext(ec);
      }
    }

    // ---------------------------------------------------------- evalexp

    method Unwind()
      requires stack != []
      modifies this
      ensures Snapshot() == old(Snapshot()).(stack := [], cx := old(Snapshot()).cx.(noeval := 0))
    {
      var depth := |stack| - 1;
      while depth > 0
        invariant 0 <= depth == |stack| - 1
        invariant Snapshot() == old(Snapshot()).(stack := stack)
      {
        stack := stack[..depth];
        depth := depth - 1;
      }
      stack := [];
      noeval := 0;
    }

    method Evaluate(text: string) returns (val: int, err: Option<ExprError>)
      requires Ready(Snapshot())
      modifies this
      ensures Outcome(val, err, Snapshot()) == EvalExp(old(Snapshot()), text)
    {
      hide SubExpr;
      noeval := 0;
      ghost var s := Snapshot();
      val, err := Subexpression(text);
      if err.Some? {
        ErrorHasContext(s, text);
        tokstr, expression := "", "";
        Unwind();
      }
    }
  }

  // An error always finds a context to unwind.
  lemma ErrorHasContext(s: State, text: string)
    requires Ready(s) && SubExpr(s, text).Fail?
    ensures SubExpr(s, text).st.stack != []
  {
    hide ReadTok, Exp;
  }

  // A state that a routine that began in s reaches after its first operand.
  predicate Within(s: State, t: State) {
    Ready(s) && Ready(t) && t.stack == s.stack && Left(t) < Left(s)
  }

  // -------------------- the equations of the parser, one turn at a time

  lemma ExpStarts(l: nat, s: State)
    requires Ready(s) && l <= 13
    ensures var r := Exp(l + 1, s);
      Exp(l, s) == if r.Fail? then r else Cont(l, r.val, r.st)
  {
    hide Cont, Exp0, Exp1;
  }

  lemma CommaGoesOn(v: int, s: State)
    requires Ready(s) && s.cx.curtok == Char(',')
    ensures Cont(0, v, s) ==
            var (_, s1) :- ReadTok(s);
            var (w, s2) :- Exp(1, s1);
            Cont(0, w, s2)
  {
    hide ReadTok, Exp;
  }

  lemma CommaStops(v: int, s: State)
    requires Ready(s) && s.cx.curtok != Char(',')
    ensures Cont(0, v, s) == Val(v, s)
  {
    hide ReadTok, Exp;
  }

  lemma AssignIs(v: int, s: State)
    requires Ready(s)
    ensures Cont(1, v, s) == ContAssign(v, s)
  {
    hide ReadTok, Exp, ContAssign;
  }

  lemma CondIs(v: int, s: State)
    requires Ready(s)
    ensures Cont(2, v, s) ==
            if s.cx.curtok != Char('?') then Val(v, s)
            else
              var (_, s1) :- ReadTok(s);
              if s1.cx.curtok == End || s1.cx.curtok == Char(':') then Fail(ExpressionExpected, s1)
              else
                var (a, s2) :- Exp(0, MoreNoeval(s1, v == 0));
                CondElse(v, a, LessNoeval(s2, v == 0))
  {
    hide ReadTok, Exp, CondElse;
  }

  lemma ElseIs(v: int, a: int, s: State)
    requires Ready(s)
    ensures CondElse(v, a, s) ==
            if s.cx.curtok != Char(':') then Fail(ColonExpected, s)
            else
              var (_, s1) :- ReadTok(s);
              if s1.cx.curtok == End then Fail(ExpressionExpected, s1)
              else
                var (b, s2) :- Exp(2, MoreNoeval(s1, v != 0));
                Val(if v != 0 then a else b, SetLast(LessNoeval(s2, v != 0), Cond))
  {
    hide ReadTok, Exp;
  }

  lemma LorGoesOn(v: int, s: State)
    requires Ready(s) && s.cx.curtok == LOr
    ensures Cont(3, v, s) ==
            var (_, s1) :- ReadTok(MoreNoeval(s, v != 0));
            var (w, s2) :- Exp(4, s1);
            Cont(3, Truth(v != 0 || w != 0), SetLast(LessNoeval(s2, v != 0), LOr))
  {
    hide ReadTok, Exp;
  }

  lemma LorStops(v: int, s: State)
    requires Ready(s) && s.cx.curtok != LOr
    ensures Cont(3, v, s) == Val(v, s)
  {
    hide ReadTok, Exp;
  }

  lemma LandGoesOn(v: int, s: State)
    requires Ready(s) && s.cx.curtok == LAnd
    ensures Cont(4, v, s) ==
            var (_, s1) :- ReadTok(MoreNoeval(s, v == 0));
            var (w, s2) :- Exp(5, s1);
            Cont(4, Truth(v != 0 && w != 0), SetLast(LessNoeval(s2, v == 0), LAnd))
  {
    hide ReadTok, Exp;
  }

  lemma LandStops(v: int, s: State)
    requires Ready(s) && s.cx.curtok != LAnd
    ensures Cont(4, v, s) == Val(v, s)
  {
    hide ReadTok, Exp;
  }

  lemma BinaryGoesOn(l: nat, v: int, s: State)
    requires Ready(s) && 5 <= l <= 12 && BinaryAt(l, s.cx.curtok)
    ensures Cont(l, v, s) ==
            var (_, s1) :- ReadTok(s);
            var (w, s2) :- Exp(l + 1, s1);
            match Apply(s.cx.curtok, v, w)
            case None => Fail(DivisionByZero, s2)
            case Some(x) => Cont(l, x, s2)
  {
    hide ReadTok, Exp, Apply, BinaryAt;
  }

  lemma BinaryStops(l: nat, v: int, s: State)
    requires Ready(s) && 5 <= l <= 12 && !BinaryAt(l, s.cx.curtok)
    ensures Cont(l, v, s) == Val(v, s)
  {
    hide ReadTok, Exp, Apply, BinaryAt;
  }

  lemma PowerGoesOn(v: int, s: State)
    requires Ready(s) && s.cx.curtok == Pow
    ensures Cont(13, v, s) ==
            var (_, s1) :- ReadTok(s);
            var (w, s2) :- Exp(13, s1);
            if w == 0 then Val(1, s2)
            else if w < 0 then Fail(NegativeExponent, s2)
            else Cont(13, Power(v, w), s2)
  {
    hide ReadTok, Exp, Power;
  }

  lemma PowerStops(v: int, s: State)
    requires Ready(s) && s.cx.curtok != Pow
    ensures Cont(13, v, s) == Val(v, s)
  {
    hide ReadTok, Exp, Power;
  }

  lemma UnaryIs(s: State)
    requires Ready(s)
    ensures Exp(14, s) == Exp1(s)
  {
    hide Exp1, Exp0;
  }

  lemma OperandIs(s: State)
    requires Ready(s)
    ensures Exp(15, s) == Exp0(s)
  {
    hide Exp1, Exp0;
  }
}
