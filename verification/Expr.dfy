// The arithmetic evaluator of expr.c as functions: a lexer that peeks one
// token ahead of every name, and a parser that evaluates while it parses.
// ExprEvaluator.dfy gives the routines of the source and their globals.

module Expr {
  import opened Options
  import opened Numerals
  import opened Arithmetic

  datatype Token =
    | End
    | EqEq | Neq | Leq | Geq | Str | Num | LAnd | LOr | LSh | RSh
    | OpAssign | Cond | Pow | PreInc | PreDec | PostInc | PostDec
    | Char(c: char)

  datatype ExprError =
    | RecursionLevelExceeded | SyntaxError | AssignmentToNonVariable | DivisionByZero
    | BadAssignToken | ExpressionExpected | ColonExpected | NegativeExponent
    | IdentifierExpected | MissingParen | OperandExpected | InvalidOperator
    | Subscript | Numeral(number: NumberError)

  const MaxRecursion: nat := 1024

  // EXPR_CONTEXT: the globals that describe the current expression.
  datatype Context = Context(
    expr: string, tp: nat, curtok: Token, lasttok: Token, tokval: int, tokstr: string, noeval: nat)

  // All globals, with the shell variables and the context stack.
  datatype State = State(cx: Context, assigntok: Token, vars: map<string, string>, stack: seq<Context>)

  // A routine returns, or raises an error (a longjmp) from some state.
  datatype Out = Val(val: int, st: State) | Fail(error: ExprError, st: State) {
    predicate IsFailure() { Fail? }

    function PropagateFailure(): Out
      requires Fail?
    {
      this
    }

    function Extract(): (int, State)
      requires Val?
    {
      (val, st)
    }
  }

  predicate Ready(s: State) { s.cx.tp <= |s.cx.expr| && |s.stack| <= MaxRecursion }

  function Room(s: State): nat
    requires Ready(s)
  {
    MaxRecursion - |s.stack|
  }

  function Unread(s: State): nat
    requires Ready(s)
  {
    |s.cx.expr| - s.cx.tp
  }

  // The text left, counting the current token.
  function Left(s: State): nat
    requires Ready(s)
  {
    Unread(s) + if s.cx.curtok == End then 0 else 1
  }

  // What every routine keeps: the expression, the stack and noeval; no error
  // shrinks the stack; and with noeval set no variable changes.
  predicate Keeps(s: State, r: Out) {
    && |s.stack| <= |r.st.stack|
    && (s.cx.noeval > 0 ==> r.st.vars == s.vars)
    && (r.Val? ==>
          && r.st.stack == s.stack
          && r.st.cx.expr == s.cx.expr
          && r.st.cx.noeval == s.cx.noeval
          && s.cx.tp <= r.st.cx.tp <= |s.cx.expr|)
  }

  // A token was read, or the end of the text.
  predicate Reads(s: State, r: Out) {
    Keeps(s, r) && (r.Val? && r.st.cx.curtok != End ==> s.cx.tp < r.st.cx.tp)
  }

  // An operand was consumed.
  predicate Consumes(s: State, r: Out)
    requires Ready(s)
  {
    Keeps(s, r) && (r.Val? ==> Ready(r.st) && Left(r.st) < Left(s))
  }

  // The current token, if any, stays or was consumed.
  predicate Moves(s: State, r: Out)
    requires Ready(s)
  {
    Keeps(s, r) && (r.Val? ==> Ready(r.st) && Left(r.st) <= Left(s))
  }

  // ------------------------------------------------------------------ lexer

  predicate Blank(c: char) { c == ' ' || c == '\t' || c == '\n' }

  predicate NameStart(c: char) { IsLower(c) || IsUpper(c) || c == '_' }

  predicate NameChar(c: char) { NameStart(c) || IsDigit(c) }

  predicate NumberChar(c: char) { NumeralChar(c) || c == '#' }

  function SkipBlanks(s: string, i: nat): (j: nat)
    requires i <= |s|
    ensures i <= j <= |s|
    ensures j < |s| ==> !Blank(s[j])
    decreases |s| - i
  {
    if i < |s| && Blank(s[i]) then SkipBlanks(s, i + 1) else i
  }

  function NameEnd(s: string, i: nat): (j: nat)
    requires i <= |s|
    ensures i <= j <= |s|
    ensures i < |s| && NameChar(s[i]) ==> i < j
    ensures j < |s| ==> !NameChar(s[j])
    decreases |s| - i
  {
    if i < |s| && NameChar(s[i]) then NameEnd(s, i + 1) else i
  }

  function NumberEnd(s: string, i: nat): (j: nat)
    requires i <= |s|
    ensures i <= j <= |s|
    ensures i < |s| && NumberChar(s[i]) ==> i < j
    ensures j < |s| ==> !NumberChar(s[j])
    decreases |s| - i
  {
    if i < |s| && NumberChar(s[i]) then NumberEnd(s, i + 1) else i
  }

  // The character at i, NUL at the end.
  function CharAt(s: string, i: nat): char {
    if i < |s| then s[i] else '\0'
  }

  predicate IsArithop(t: Token) {
    t.Char? && t.c in {'=', '>', '<', '+', '-', '*', '/', '%', '!', '(', ')', '&', '|', '^', '~', '?', ':', ','}
  }

  predicate IsMultiop(t: Token) {
    t in {EqEq, Neq, Leq, Geq, LAnd, LOr, LSh, RSh, OpAssign, Cond, Pow, PreInc, PreDec, PostInc, PostDec}
  }

  // An operator token: the token, the characters it takes and, for OP=, the
  // operator.
  datatype Operator = Op(tok: Token, len: nat) | Assign(op: Token, len: nat) | Bad(error: ExprError)

  function OperatorAt(s: string, i: nat, curtok: Token): (o: Operator)
    requires i < |s|
    ensures o.Op? ==> 0 < o.len <= |s| - i && o.tok != End
    ensures o.Assign? ==> 0 < o.len <= |s| - i
  {
    var c, c1 := s[i], CharAt(s, i + 1);
    if c == '=' && c1 == '=' then Op(EqEq, 2)
    else if c == '!' && c1 == '=' then Op(Neq, 2)
    else if c == '>' && c1 == '=' then Op(Geq, 2)
    else if c == '<' && c1 == '=' then Op(Leq, 2)
    else if c == '<' && c1 == '<' then
      if CharAt(s, i + 2) == '=' then Assign(LSh, 3) else Op(LSh, 2)
    else if c == '>' && c1 == '>' then
      if CharAt(s, i + 2) == '=' then Assign(RSh, 3) else Op(RSh, 2)
    else if c == '&' && c1 == '&' then Op(LAnd, 2)
    else if c == '|' && c1 == '|' then Op(LOr, 2)
    else if c == '*' && c1 == '*' then Op(Pow, 2)
    else if (c == '-' || c == '+') && c1 == c && curtok == Str then
      Op(if c == '-' then PostDec else PostInc, 2)
    else if (c == '-' || c == '+') && c1 == c then
      var j := SkipBlanks(s, i + 2);
      if j < |s| && NameStart(s[j]) then Op(if c == '-' then PreDec else PreInc, 2) else Op(Char(c), 1)
    else if c1 == '=' && c in {'*', '/', '%', '+', '-', '&', '^', '|'} then Assign(Char(c), 2)
    else if !IsArithop(Char(c)) then
      Bad(if curtok == End || IsArithop(curtok) || IsMultiop(curtok) then OperandExpected else InvalidOperator)
    else Op(Char(c), 1)
  }

  function ReadOperator(s: State, cp: nat): (r: Out)
    requires Ready(s) && s.cx.tp <= cp < |s.cx.expr|
    ensures Reads(s, r)
  {
    match OperatorAt(s.cx.expr, cp, s.cx.curtok)
    case Bad(e) => Fail(e, s.(cx := s.cx.(tp := cp)))
    case Op(t, len) => Val(0, s.(cx := s.cx.(tp := cp + len, lasttok := s.cx.curtok, curtok := t)))
    case Assign(op, len) =>
      Val(0, s.(cx := s.cx.(tp := cp + len, lasttok := s.cx.curtok, curtok := OpAssign), assigntok := op))
  }

  function ReadNumber(s: State, cp: nat): (r: Out)
    requires Ready(s) && s.cx.tp <= cp < |s.cx.expr| && IsDigit(s.cx.expr[cp])
    ensures Reads(s, r)
  {
    var e := NumberEnd(s.cx.expr, cp);
    match StrLong(s.cx.expr[cp..e])
    case Err(n) => Fail(Numeral(n), s.(cx := s.cx.(tp := cp)))
    case Ok(v) => Val(0, s.(cx := s.cx.(tp := e, tokval := v, lasttok := s.cx.curtok, curtok := Num)))
  }

  // The state in which the token after a name is looked at.
  function Peeking(s: State, name: string, cp: nat, e: nat): State {
    s.(cx := s.cx.(tp := e, tokstr := "", noeval := 1, curtok := Str))
  }

  // readtok on a name that takes cp..e: the next token is read with noeval
  // set and put back, then the variable is evaluated, unless `=' follows.
  function ReadName(s: State, cp: nat): (r: Out)
    requires Ready(s) && s.cx.tp <= cp < |s.cx.expr| && NameStart(s.cx.expr[cp])
    ensures Reads(s, r)
    decreases Room(s), Unread(s), 0
  {
    var e := NameEnd(s.cx.expr, cp);
    if CharAt(s.cx.expr, e) == '[' then Fail(Subscript, s.(cx := s.cx.(tp := cp)))
    else
      var name := s.cx.expr[cp..e];
      var named := s.(cx := s.cx.(tp := cp, tokstr := name));
      var (_, peeked) :- ReadTok(Peeking(named, name, cp, e));
      var (v, back) :- NameValue(peeked.(cx := named.cx), name, peeked.cx.curtok);
      Val(0, back.(cx := back.cx.(tokval := v, tp := e, lasttok := s.cx.curtok, curtok := Str)))
  }

  function NameValue(s: State, name: string, peektok: Token): (r: Out)
    requires Ready(s)
    ensures Keeps(s, r) && (r.Val? ==> r.st.cx == s.cx)
    decreases Room(s), 0, 2
  {
    if s.cx.lasttok == PreInc || s.cx.lasttok == PreDec || peektok != Char('=') then StrEval(s, name)
    else Val(0, s)
  }

  // readtok.
  function ReadTok(s: State): (r: Out)
    requires Ready(s)
    ensures Reads(s, r)
    decreases Room(s), Unread(s), 1
  {
    var cp := SkipBlanks(s.cx.expr, s.cx.tp);
    if cp == |s.cx.expr| then
      Val(0, s.(cx := s.cx.(lasttok := s.cx.curtok, curtok := End, tp := cp)))
    else if NameStart(s.cx.expr[cp]) then ReadName(s, cp)
    else if IsDigit(s.cx.expr[cp]) then ReadNumber(s, cp)
    else ReadOperator(s, cp)
  }

  // expr_streval: an unset or empty variable is 0, any other is evaluated as
  // an expression of its own.
  function StrEval(s: State, name: string): (r: Out)
    requires Ready(s)
    ensures Keeps(s, r) && (r.Val? ==> r.st.cx == s.cx)
    decreases Room(s), 0, 1
  {
    if name in s.vars && s.vars[name] != "" then SubExpr(s, s.vars[name]) else Val(0, s)
  }

  // pushexp, and the fresh context of an expression.
  function Pushed(s: State, text: string): State {
    s.(cx := Context(text, 0, End, End, 0, "", s.cx.noeval), stack := s.stack + [s.cx])
  }

  function Popped(s: State): State
    requires s.stack != []
  {
    var n := |s.stack| - 1;
    s.(cx := s.stack[n], stack := s.stack[..n])
  }

  // subexpr.
  function SubExpr(s: State, text: string): (r: Out)
    requires Ready(s)
    ensures Keeps(s, r) && (r.Val? ==> r.st.cx == s.cx)
    decreases Room(s), 0, 0
  {
    if SkipBlanks(text, 0) == |text| then Val(0, s)
    else if |s.stack| >= MaxRecursion then Fail(RecursionLevelExceeded, s)
    else
      var (_, first) :- ReadTok(Pushed(s, text));
      var (v, last) :- Exp(0, first);
      if last.cx.curtok != End then Fail(SyntaxError, last)
      else
        PoppedPushed(s, text);
        Val(v, Popped(last))
  }

  lemma PoppedPushed(s: State, text: string)
    ensures var t := s.stack + [s.cx]; t[|t| - 1] == s.cx && t[..|t| - 1] == s.stack
  {
  }

  // --------------------------------------------------------------- operators

  function Truth(b: bool): int { if b then 1 else 0 }

  // A binary operator; None for a division by zero.
  function Apply(op: Token, a: int, b: int): (r: Option<int>)
    ensures r.Some? ==> IntMax(r.value)
    ensures r.None? <==> (op == Char('/') || op == Char('%')) && b == 0
  {
    match op
    case EqEq => Some(Truth(a == b))
    case Neq => Some(Truth(a != b))
    case Leq => Some(Truth(a <= b))
    case Geq => Some(Truth(a >= b))
    case LSh => Some(Wrap(a * Pow2(ShiftCount(b))))
    case RSh => Some(Wrap(a / Pow2(ShiftCount(b))))
    case Char(c) =>
      if c == '|' then Some(Bits('|', a, b))
      else if c == '^' then Some(Bits('^', a, b))
      else if c == '&' then Some(Bits('&', a, b))
      else if c == '<' then Some(Truth(a < b))
      else if c == '>' then Some(Truth(a > b))
      else if c == '+' then Some(Wrap(a + b))
      else if c == '-' then Some(Wrap(a - b))
      else if c == '*' then Some(Wrap(a * b))
      else if c == '/' then if b == 0 then None else Some(Wrap(Quotient(a, b)))
      else if c == '%' then if b == 0 then None else Some(Wrap(Remainder(a, b)))
      else Some(0)
    case _ => Some(0)
  }

  predicate AssignOp(op: Token) {
    op in {Char('*'), Char('/'), Char('%'), Char('+'), Char('-'), LSh, RSh, Char('&'), Char('|'), Char('^')}
  }

  // The operators of the binary levels 5 (`|') to 12 (`*').
  predicate BinaryAt(l: nat, t: Token) {
    match l
    case 5 => t == Char('|')
    case 6 => t == Char('^')
    case 7 => t == Char('&')
    case 8 => t == EqEq || t == Neq
    case 9 => t == Leq || t == Geq || t == Char('<') || t == Char('>')
    case 10 => t == LSh || t == RSh
    case 11 => t == Char('+') || t == Char('-')
    case 12 => t == Char('*') || t == Char('/') || t == Char('%')
    case _ => false
  }

  // expr_bind_variable, when noeval allows it.
  function Bind(s: State, name: string, v: int): State {
    if s.cx.noeval == 0 then s.(vars := s.vars[name := Itos(v)]) else s
  }

  function MoreNoeval(s: State, more: bool): State {
    if more then s.(cx := s.cx.(noeval := s.cx.noeval + 1)) else s
  }

  function LessNoeval(s: State, less: bool): State
    requires less ==> s.cx.noeval > 0
  {
    if less then s.(cx := s.cx.(noeval := s.cx.noeval - 1)) else s
  }

  function SetLast(s: State, t: Token): State { s.(cx := s.cx.(lasttok := t)) }

  // ----------------------------------------------------------------- parser

  // The grammar routines by level: 0 expcomma, 1 expassign, 2 expcond,
  // 3 explor, 4 expland, 5 expbor, 6 expbxor, 7 expband, 8 exp5, 9 exp4,
  // 10 expshift, 11 exp3, 12 exp2, 13 exppower, 14 exp1, 15 exp0.  A routine
  // below 14 calls the next one and goes on with Cont.
  function Exp(l: nat, s: State): (r: Out)
    requires Ready(s) && l <= 15
    ensures Consumes(s, r)
    decreases Room(s), Left(s), 1, 2 * (16 - l)
  {
    if l == 15 then Exp0(s)
    else if l == 14 then Exp1(s)
    else
      var (v, t) :- Exp(l + 1, s);
      Cont(l, v, t)
  }

  // The rest of the routine at level l once its first operand is v.
  function Cont(l: nat, v: int, s: State): (r: Out)
    requires Ready(s) && l <= 13
    ensures Moves(s, r)
    decreases Room(s), Left(s), 0, 1
  {
    if l == 0 then ContComma(v, s)
    else if l == 1 then ContAssign(v, s)
    else if l == 2 then ContCond(v, s)
    else if l == 3 then ContLor(v, s)
    else if l == 4 then ContLand(v, s)
    else if l == 13 then ContPower(v, s)
    else ContBinary(l, v, s)
  }

  function ContComma(v: int, s: State): (r: Out)
    requires Ready(s)
    ensures Moves(s, r)
    decreases Room(s), Left(s), 0, 0
  {
    if s.cx.curtok != Char(',') then Val(v, s)
    else
      var (_, s1) :- ReadTok(s);
      var (w, s2) :- Exp(1, s1);
      Cont(0, w, s2)
  }

  function ContAssign(v: int, s: State): (r: Out)
    requires Ready(s)
    ensures Moves(s, r)
    decreases Room(s), Left(s), 0, 0
  {
    if s.cx.curtok != Char('=') && s.cx.curtok != OpAssign then Val(v, s)
    else if s.cx.lasttok != Str then Fail(AssignmentToNonVariable, s)
    else
      var special := s.cx.curtok == OpAssign;
      var op, lhs := s.assigntok, s.cx.tokstr;
      var (_, s1) :- ReadTok(s);
      var (w, s2) :- Exp(1, s1);
      if special && !AssignOp(op) then Fail(BadAssignToken, s2)
      else
        match if special then Apply(op, v, w) else Some(w)
        case None => Fail(DivisionByZero, s2)
        case Some(x) => var s3 := Bind(s2, lhs, x); Val(x, s3.(cx := s3.cx.(tokstr := "")))
  }

  function ContCond(v: int, s: State): (r: Out)
    requires Ready(s)
    ensures Moves(s, r)
    decreases Room(s), Left(s), 0, 0
  {
    if s.cx.curtok != Char('?') then Val(v, s)
    else
      var (_, s1) :- ReadTok(s);
      if s1.cx.curtok == End || s1.cx.curtok == Char(':') then Fail(ExpressionExpected, s1)
      else
        var (a, s2) :- Exp(0, MoreNoeval(s1, v == 0));
        CondElse(v, a, LessNoeval(s2, v == 0))
  }

  function CondElse(v: int, a: int, s: State): (r: Out)
    requires Ready(s)
    ensures Moves(s, r)
    decreases Room(s), Left(s), 0, 0
  {
    if s.cx.curtok != Char(':') then Fail(ColonExpected, s)
    else
      var (_, s1) :- ReadTok(s);
      if s1.cx.curtok == End then Fail(ExpressionExpected, s1)
      else
        var (b, s2) :- Exp(2, MoreNoeval(s1, v != 0));
        Val(if v != 0 then a else b, SetLast(LessNoeval(s2, v != 0), Cond))
  }

  function ContLor(v: int, s: State): (r: Out)
    requires Ready(s)
    ensures Moves(s, r)
    decreases Room(s), Left(s), 0, 0
  {
    if s.cx.curtok != LOr then Val(v, s)
    else
      var (_, s1) :- ReadTok(MoreNoeval(s, v != 0));
      var (w, s2) :- Exp(4, s1);
      Cont(3, Truth(v != 0 || w != 0), SetLast(LessNoeval(s2, v != 0), LOr))
  }

  function ContLand(v: int, s: State): (r: Out)
    requires Ready(s)
    ensures Moves(s, r)
    decreases Room(s), Left(s), 0, 0
  {
    if s.cx.curtok != LAnd then Val(v, s)
    else
      var (_, s1) :- ReadTok(MoreNoeval(s, v == 0));
      var (w, s2) :- Exp(5, s1);
      Cont(4, Truth(v != 0 && w != 0), SetLast(LessNoeval(s2, v == 0), LAnd))
  }

  function ContBinary(l: nat, v: int, s: State): (r: Out)
    requires Ready(s) && l < 13
    ensures Moves(s, r)
    decreases Room(s), Left(s), 0, 0
  {
    if !BinaryAt(l, s.cx.curtok) then Val(v, s)
    else
      var (_, s1) :- ReadTok(s);
      var (w, s2) :- Exp(l + 1, s1);
      match Apply(s.cx.curtok, v, w)
      case None => Fail(DivisionByZero, s2)
      case Some(x) => Cont(l, x, s2)
  }

  function ContPower(v: int, s: State): (r: Out)
    requires Ready(s)
    ensures Moves(s, r)
    decreases Room(s), Left(s), 0, 0
  {
    if s.cx.curtok != Pow then Val(v, s)
    else
      var (_, s1) :- ReadTok(s);
      var (w, s2) :- Exp(13, s1);
      if w == 0 then Val(1, s2)
      else if w < 0 then Fail(NegativeExponent, s2)
      else Cont(13, Power(v, w), s2)
  }

  function Exp1(s: State): (r: Out)
    requires Ready(s)
    ensures Consumes(s, r)
    decreases Room(s), Left(s), 1, 3
  {
    if s.cx.curtok == Char('!') then
      var (_, s1) :- ReadTok(s);
      var (v, s2) :- Exp(14, s1);
      Val(Truth(v == 0), s2)
    else if s.cx.curtok == Char('~') then
      var (_, s1) :- ReadTok(s);
      var (v, s2) :- Exp(14, s1);
      Val(-v - 1, s2)
    else Exp(15, s)
  }

  function Exp0(s: State): (r: Out)
    requires Ready(s)
    ensures Consumes(s, r)
    decreases Room(s), Left(s), 1, 0
  {
    if s.cx.curtok == PreInc || s.cx.curtok == PreDec then PreStep(s)
    else if s.cx.curtok == Char('-') then
      var (_, s1) :- ReadTok(s);
      var (v, s2) :- Exp(15, s1);
      Val(Wrap(-v), s2)
    else if s.cx.curtok == Char('+') then
      var (_, s1) :- ReadTok(s);
      Exp(15, s1)
    else if s.cx.curtok == Char('(') then
      Parenthesis(s)
    else if s.cx.curtok == Num then
      var (_, s1) :- ReadTok(s);
      Val(s.cx.tokval, s1)
    else if s.cx.curtok == Str then NameOperand(s)
    else Fail(OperandExpected, s)
  }

  function Parenthesis(s: State): (r: Out)
    requires Ready(s) && s.cx.curtok != End
    ensures Consumes(s, r)
    decreases Room(s), Left(s), 0, 0
  {
    var (_, s1) :- ReadTok(s);
    var (v, s2) :- Exp(0, s1);
    if s2.cx.curtok != Char(')') then Fail(MissingParen, s2)
    else
      var (_, s3) :- ReadTok(s2);
      Val(v, s3)
  }

  // ++name and --name.
  function PreStep(s: State): (r: Out)
    requires Ready(s) && s.cx.curtok != End
    ensures Consumes(s, r)
    decreases Room(s), Left(s), 0, 0
  {
    var stok := s.cx.curtok;
    var (_, s1) :- ReadTok(SetLast(s, stok));
    if s1.cx.curtok != Str then Fail(IdentifierExpected, s1)
    else
      var v := Wrap(s1.cx.tokval + (if stok == PreInc then 1 else -1));
      var s2 := Bind(s1, s1.cx.tokstr, v);
      var (_, s3) :- ReadTok(s2.(cx := s2.cx.(curtok := Num)));
      Val(v, s3)
  }

  // What happens to the globals once the token after a name was looked at:
  // ++ or -- updates the variable, anything else is put back.
  function PeekResult(p: State, ec: Context, val: int): (r: State)
    ensures r.stack == p.stack && (ec.noeval > 0 ==> r.vars == p.vars)
    ensures r.cx.expr == (if p.cx.curtok == PostInc || p.cx.curtok == PostDec then p.cx.expr else ec.expr)
    ensures r.cx.tp == (if p.cx.curtok == PostInc || p.cx.curtok == PostDec then p.cx.tp else ec.tp)
    ensures r.cx.noeval == ec.noeval
  {
    var stok := p.cx.curtok;
    if stok == PostInc || stok == PostDec then
      var s1 := p.(cx := p.cx.(tokstr := ec.tokstr, noeval := ec.noeval, lasttok := Str));
      var s2 := Bind(s1, ec.tokstr, Wrap(val + (if stok == PostInc then 1 else -1)));
      s2.(cx := s2.cx.(curtok := Num))
    else p.(cx := ec)
  }

  // A name, perhaps with ++ or -- after it; the token after the name is read
  // with noeval set to find out.
  function NameOperand(s: State): (r: Out)
    requires Ready(s) && s.cx.curtok == Str
    ensures Consumes(s, r)
    decreases Room(s), Left(s), 0, 0
  {
    var (_, p) :- ReadTok(s.(cx := s.cx.(tokstr := "", noeval := 1)));
    var (_, s1) :- ReadTok(PeekResult(p, s.cx, s.cx.tokval));
    Val(s.cx.tokval, s1)
  }

  // ---------------------------------------------------------------- evalexp

  // expr_unwind, which every error ends in.
  function Unwound(s: State): State {
    s.(cx := s.cx.(noeval := 0, tokstr := "", expr := ""), stack := [])
  }

  function EvalExp(s: State, text: string): (r: Out)
    requires Ready(s)
    ensures r.Val? ==> r.st.stack == s.stack && r.st.cx == s.cx.(noeval := 0)
    ensures r.Fail? ==> r.st.stack == [] && r.st.cx.noeval == 0 && r.st.cx.expr == r.st.cx.tokstr == ""
  {
    var r := SubExpr(s.(cx := s.cx.(noeval := 0)), text);
    if r.Val? then r else Fail(r.error, Unwound(r.st))
  }
}
