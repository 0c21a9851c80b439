// What the evaluator makes of operations as they are written: operands,
// operators and blanks as text, and which operands an operator takes.

module ExprOperations {
  import opened Options
  import opened Numerals
  import opened Arithmetic
  import opened Operators
  import opened Expr
  import opened ExprTrees
  import opened ExprLexing
  import opened ExprParsing
  import opened ExprRoundTrip

  predicate Blanks(g: string) { forall k :: 0 <= k < |g| ==> g[k] in " \t\n" }

  // ------------------------------------------------- spelling piece by piece

  lemma {:induction false} SkipBehind(p: string, t: string, i: nat)
    requires i <= |t|
    ensures SkipBlanks(p + t, |p| + i) == |p| + SkipBlanks(t, i)
    decreases |t| - i
  {
    if i < |t| { SkipBehind(p, t, i + 1); }
  }

  lemma BoundaryBehind(p: string, t: string, i: nat, h: Lexeme)
    requires i <= |t| && Boundary(t, i, h)
    ensures Boundary(p + t, |p| + i, h)
  {
    hide SkipBlanks;
    SkipBehind(p, t, i);
  }

  lemma {:induction false} SpellsBehind(p: string, t: string, i: nat, ls: Lexemes)
    requires i <= |t| && Spells(t, i, ls)
    ensures Spells(p + t, |p| + i, ls)
    decreases ls
  {
    hide Boundary, Spelling, SkipBlanks;
    SkipBehind(p, t, i);
    if ls.Cons? {
      var j := SkipBlanks(t, i);
      var e := j + |Spelling(ls.head)|;
      BoundaryBehind(p, t, e, ls.head);
      assert (p + t)[|p| + j..|p| + e] == t[j..e];
      SpellsBehind(p, t, e, ls.tail);
    }
  }

  lemma PrependLexeme(h: Lexeme, t: string, rest: Lexemes)
    requires Spells(t, 0, rest) && Boundary(t, 0, h) && Spelling(h) != [] && !Blank(Spelling(h)[0])
    ensures Spells(Spelling(h) + t, 0, Cons(h, rest))
  {
    hide Boundary, Spelling;
    var p := Spelling(h);
    SpellsBehind(p, t, 0, rest);
    BoundaryBehind(p, t, 0, h);
    assert (p + t)[0..|p|] == p;
  }

  lemma {:induction false} BlanksSkipped(g: string, t: string, i: nat)
    requires Blanks(g) && i <= |g|
    ensures SkipBlanks(g + t, i) == SkipBlanks(g + t, |g|)
    decreases |g| - i
  {
    if i < |g| { BlanksSkipped(g, t, i + 1); }
  }

  lemma PrependBlanks(g: string, t: string, ls: Lexemes)
    requires Blanks(g) && Spells(t, 0, ls)
    ensures Spells(g + t, 0, ls)
  {
    hide SpelledAt, SkipBlanks, Blanks;
    SpellsBehind(g, t, 0, ls);
    BlanksSkipped(g, t, 0);
  }

  // ----------------------------------------------------------------- operands

  // An integer as it is printed, or a variable.
  datatype Operand = Int(n: int) | Var(x: string)

  function Text(o: Operand): string { if o.Int? then Itos(o.n) else o.x }

  predicate NameLetter(c: char) { c in LowerLetters || c in UpperLetters || c == '_' }

  predicate Identifier(x: string) {
    x != "" && NameLetter(x[0]) && forall k :: 0 <= k < |x| ==> NameLetter(x[k]) || x[k] in "0123456789"
  }

  // 64-bit integers, and names that no text is behind.
  predicate Proper(o: Operand, m: Store) {
    if o.Int? then Int64(o.n) else Identifier(o.x) && Plain(m.texts, o.x)
  }

  function ValueIn(o: Operand, m: Store): int { if o.Int? then o.n else if o.x in m.ints then m.ints[o.x] else 0 }

  predicate Stored(m: Store) { forall x :: x in m.ints ==> Int64(m.ints[x]) }

  lemma NameLetters(c: char)
    ensures NameLetter(c) <==> NameStart(c)
    ensures NameLetter(c) || c in "0123456789" <==> NameChar(c)
  {
    LetterRanges(c);
    DigitIsChar(c);
  }

  lemma IdentifierIsName(x: string)
    requires Identifier(x)
    ensures ValidName(x)
  {
    hide NameLetter, NameStart, NameChar;
    NameLetters(x[0]);
    forall k | 0 <= k < |x|
      ensures NameChar(x[k])
    {
      NameLetters(x[k]);
    }
  }

  function IntTree(n: int): Tree { if n < 0 then Minus(Literal(Dec(-n))) else Literal(Dec(n)) }

  function TreeOf(o: Operand): Tree { if o.Int? then IntTree(o.n) else Name(o.x) }

  // What can stand directly behind an operand.
  predicate Free(t: string) { t == "" || t[0] in " \t\n|^&=!<>+-*/%,?:)" }

  lemma FreeIsBoundary(t: string, h: Lexeme)
    requires Free(t) && (h.Ident? || h.Number?)
    ensures Boundary(t, 0, h)
  {
  }

  lemma DecIsNumeral(n: nat)
    ensures ValidNumeral(Dec(n)) && StrLong(Dec(n)) == Ok(Wrap(n)) && !Blank(Dec(n)[0])
  {
    hide StrLong, Dec;
    DecimalRoundTrip(n);
  }

  lemma PrependInt(n: int, t: string, rest: Lexemes)
    requires Free(t) && Spells(t, 0, rest)
    ensures Valid(IntTree(n)) && Level(IntTree(n)) == 15
    ensures Spells(Itos(n) + t, 0, Spell(IntTree(n), 15, rest))
  {
    hide Spells, Dec, ValidNumeral, Free;
    var k := if n < 0 then -n else n;
    DecIsNumeral(k);
    FreeIsBoundary(t, Number(Dec(k)));
    PrependLexeme(Number(Dec(k)), t, rest);
    if n < 0 {
      MinusBoundary(k, t);
      PrependLexeme(Punct(Char('-')), Dec(k) + t, Cons(Number(Dec(k)), rest));
      assert "-" + (Dec(k) + t) == Itos(n) + t;
    }
  }

  lemma MinusBoundary(k: nat, t: string)
    ensures Boundary(Dec(k) + t, 0, Punct(Char('-')))
  {
    hide Dec;
    assert IsDigit((Dec(k) + t)[0]);
  }

  lemma PrependOperand(o: Operand, m: Store, t: string, rest: Lexemes)
    requires Proper(o, m) && Free(t) && Spells(t, 0, rest)
    ensures Valid(TreeOf(o)) && Level(TreeOf(o)) == 15 && Known(TreeOf(o), m.texts)
    ensures Spells(Text(o) + t, 0, Spell(TreeOf(o), 15, rest))
  {
    hide Spells, Free, ValidNumeral, Dec, Itos;
    match o {
      case Int(n) =>
        PrependInt(n, t, rest);
      case Var(x) =>
        IdentifierIsName(x);
        FreeIsBoundary(t, Ident(x));
        assert Spelling(Ident(x)) == x && !Blank(x[0]);
        PrependLexeme(Ident(x), t, rest);
    }
  }

  // ---------------------------------------------------------------- operators

  const Logical := ["&&", "||"]

  predicate Infix(op: string) { Operator2(op) || op in Logical || op == "**" || op == "," }

  // How strongly an operator binds.
  function Rank(op: string): nat {
    if op == "," then 0 else if op == "||" then 1 else if op == "&&" then 2
    else if op == "|" then 3 else if op == "^" then 4 else if op == "&" then 5
    else if op == "==" || op == "!=" then 6
    else if op in Comparisons then 7
    else if op in Shifts then 8
    else if op in Additive then 9
    else if op in Multiplicative then 10
    else 11
  }

  function InfixToken(op: string): Token {
    if op == "**" then Pow else if op == "&&" then LAnd else if op == "||" then LOr else OperatorToken(op)
  }

  function InfixTree(op: string, a: Tree, b: Tree): Tree {
    if op == "," then Sequence(a, b) else if op == "||" then Or(a, b) else if op == "&&" then And(a, b)
    else if op == "**" then Raise(a, b) else Binary(OperatorToken(op), a, b)
  }

  // The outcome of an operation on values: an error or what op computes.  A
  // logical operator gives 1 or 0, the comma its right side.
  ghost predicate Yields(op: string, a: int, b: int, r: Result<int, ExprError>) {
    if DividesByZero(op, b) then r == Err(DivisionByZero)
    else if op == "**" && b < 0 then r == Err(NegativeExponent)
    else
      && r.Ok? && Int64(r.value)
      && (op == "**" ==> Same(r.value, IntPower(a, b)))
      && (op == "&&" ==> OneIf(r.value, a != 0 && b != 0))
      && (op == "||" ==> OneIf(r.value, a != 0 || b != 0))
      && (op == "," ==> r.value == b)
      && (Operator2(op) ==> Computes(op, a, b, r.value))
  }

  function EvaluationOf(r: Result<int, ExprError>, m: Store): Evaluation {
    match r
    case Ok(v) => Value(v, m)
    case Err(x) => Error(x, m)
  }

  // A tree comes to r in m, in a skipped operand as well, and assigns nothing.
  predicate Gives(e: Tree, m: Store, r: Result<int, ExprError>)
    requires Valid(e)
  {
    forall live :: Eval(e, m, live) == EvaluationOf(r, m)
  }

  lemma OperandGives(o: Operand, m: Store)
    requires Proper(o, m) && Stored(m) && Valid(TreeOf(o))
    ensures Gives(TreeOf(o), m, Ok(ValueIn(o, m))) && Int64(ValueIn(o, m))
  {
    if o.Int? { IntGives(o.n, m); }
  }

  lemma IntGives(n: int, m: Store)
    requires Int64(n) && Valid(IntTree(n))
    ensures Gives(IntTree(n), m, Ok(n))
  {
    hide Dec, StrLong, ValidNumeral;
    var k := if n < 0 then -n else n;
    DecIsNumeral(k);
    if n < 0 { WrapNegated(k); }
    forall live
      ensures Eval(IntTree(n), m, live) == Value(n, m)
    {
      assert Eval(Literal(Dec(k)), m, live) == Value(Wrap(k), m);
    }
  }

  // The rank of a binary operator is its level in the grammar.
  lemma BinaryRank(op: string)
    requires Operator2(op)
    ensures BinaryLevel(OperatorToken(op)) == Rank(op) + 2 && 3 <= Rank(op) <= 10
    ensures op != "," && op != "||" && op != "&&" && op != "**"
  {
    if op in Connectives { ConnectiveRank(op); }
    else if op in Comparisons { ComparisonRank(op); }
    else if op in Shifts { ShiftRank(op); }
    else { ArithmeticRank(op); }
  }

  lemma ConnectiveRank(op: string)
    requires op in Connectives
    ensures BinaryLevel(OperatorToken(op)) == Rank(op) + 2 && 3 <= Rank(op) <= 5
  {
  }

  lemma ComparisonRank(op: string)
    requires op in Comparisons
    ensures BinaryLevel(OperatorToken(op)) == Rank(op) + 2 && 6 <= Rank(op) <= 7
  {
  }

  lemma ShiftRank(op: string)
    requires op in Shifts
    ensures BinaryLevel(OperatorToken(op)) == Rank(op) + 2 && Rank(op) == 8
  {
  }

  lemma ArithmeticRank(op: string)
    requires op in Additive || op in Multiplicative
    ensures BinaryLevel(OperatorToken(op)) == Rank(op) + 2 && 9 <= Rank(op) <= 10
  {
  }

  // Where the grammar wants an operation, and what it wants beside op.
  function InfixLevel(op: string): (l: nat)
    ensures l <= 14
  {
    var r := Rank(op);
    if r == 0 then 0 else if r == 11 then 13 else r + 2
  }

  function Flat(op: string, a: Tree, b: Tree, rest: Lexemes): Lexemes
    requires Valid(a) && Valid(b)
  {
    var l := InfixLevel(op);
    if op == "**" then Spell(a, 14, Cons(Punct(InfixToken(op)), Spell(b, 13, rest)))
    else Spell(a, l, Cons(Punct(InfixToken(op)), Spell(b, l + 1, rest)))
  }

  lemma OtherLevels()
    ensures InfixLevel(",") == 0 && InfixLevel("||") == 3 && InfixLevel("&&") == 4 && InfixLevel("**") == 13
    ensures InfixToken(",") == Char(',')
    ensures !Operator2(",") && !Operator2("||") && !Operator2("&&") && !Operator2("**")
  {
  }

  lemma InfixSpelled(op: string, a: Tree, b: Tree, l: nat, rest: Lexemes)
    requires Infix(op) && Valid(a) && Valid(b) && l <= 15
    ensures Valid(InfixTree(op, a, b)) && Level(InfixTree(op, a, b)) == InfixLevel(op)
    ensures l <= InfixLevel(op) ==> Spell(InfixTree(op, a, b), l, rest) == Flat(op, a, b, rest)
  {
    hide BinaryLevel, OperatorToken, InfixLevel, Spell, Operator2;
    OtherLevels();
    if op == "," {
      SpellSequence(a, b, rest);
      SameSpelling(Sequence(a, b), l, rest);
    } else if op == "||" {
      SpellOr(a, b, rest);
      SameSpelling(Or(a, b), l, rest);
    } else if op == "&&" {
      SpellAnd(a, b, rest);
      SameSpelling(And(a, b), l, rest);
    } else if op == "**" {
      SpellRaise(a, b, rest);
      SameSpelling(Raise(a, b), l, rest);
    } else {
      BinarySpelled(op, a, b, l, rest);
    }
  }

  lemma BinarySpelled(op: string, a: Tree, b: Tree, l: nat, rest: Lexemes)
    requires Operator2(op) && Valid(a) && Valid(b) && l <= 15
    ensures InfixTree(op, a, b) == Binary(OperatorToken(op), a, b)
    ensures Valid(InfixTree(op, a, b)) && Level(InfixTree(op, a, b)) == InfixLevel(op)
    ensures l <= InfixLevel(op) ==> Spell(InfixTree(op, a, b), l, rest) == Flat(op, a, b, rest)
  {
    hide BinaryLevel, OperatorToken, Rank, Spell, Operator2;
    BinaryRank(op);
    SpellBinary(OperatorToken(op), a, b, rest);
    SameSpelling(Binary(OperatorToken(op), a, b), l, rest);
  }

  lemma SameSpelling(e: Tree, l: nat, rest: Lexemes)
    requires Valid(e) && l <= 15
    ensures Level(e) <= 15 && (l <= Level(e) ==> Spell(e, l, rest) == Spell(e, Level(e), rest))
  {
    hide BinaryLevel, ValidName, ValidNumeral;
  }

  lemma AtomSpelled(o: Operand, l: nat, rest: Lexemes)
    requires Valid(TreeOf(o)) && l <= 15
    ensures Spell(TreeOf(o), l, rest) == Spell(TreeOf(o), 15, rest)
  {
    hide Dec, ValidNumeral, ValidName;
  }

  // What may stand behind an operator: not a character that would make it
  // longer.
  predicate Apart(op: string, t: string) { t != "" && t[0] != '=' && op != "" && t[0] != op[|op| - 1] }

  lemma PrependInfix(op: string, t: string, rest: Lexemes)
    requires Infix(op) && Apart(op, t) && Spells(t, 0, rest)
    ensures Spells(op + t, 0, Cons(Punct(InfixToken(op)), rest)) && Free(op + t)
  {
    hide Spells;
    InfixSpelling(op, t);
    hide InfixToken, Boundary, Spelling;
    PrependLexeme(Punct(InfixToken(op)), t, rest);
  }

  lemma InfixSpelling(op: string, t: string)
    requires Infix(op) && Apart(op, t)
    ensures Spelling(Punct(InfixToken(op))) == op != [] && !Blank(op[0]) && Boundary(t, 0, Punct(InfixToken(op)))
    ensures Free(op + t)
  {
    if Operator2(op) { OperatorSpelling(op, t); }
  }

  lemma OperatorSpelling(op: string, t: string)
    requires Operator2(op) && Apart(op, t)
    ensures Spelling(Punct(OperatorToken(op))) == op && Boundary(t, 0, Punct(OperatorToken(op)))
    ensures op != [] && !Blank(op[0]) && Free(op + t)
  {
  }

  // ------------------------------------------------------ values of operations

  ghost predicate Combined(op: string, ra: Result<int, ExprError>, rb: Result<int, ExprError>, r: Result<int, ExprError>) {
    if ra.Err? then r == ra else if rb.Err? then r == rb else Yields(op, ra.value, rb.value, r)
  }

  predicate Fits64(r: Result<int, ExprError>) { r.Ok? ==> Int64(r.value) }

  function Outcome(e: Evaluation): Result<int, ExprError> { if e.Value? then Ok(e.v) else Err(e.error) }

  // An operation of trees yields what it should of their outcomes.
  lemma InfixGives(op: string, a: Tree, b: Tree, ra: Result<int, ExprError>, rb: Result<int, ExprError>, m: Store)
    returns (r: Result<int, ExprError>)
    requires Infix(op) && Valid(a) && Valid(b) && Valid(InfixTree(op, a, b))
    requires Gives(a, m, ra) && Gives(b, m, rb) && Fits64(ra) && Fits64(rb)
    ensures Gives(InfixTree(op, a, b), m, r) && Combined(op, ra, rb, r) && Fits64(r)
  {
    hide Yields, Operator2;
    r := Outcome(Eval(InfixTree(op, a, b), m, true));
    if op == "," { SequenceGives(a, b, ra, rb, m); }
    else if op == "||" { OrGives(a, b, ra, rb, m); }
    else if op == "&&" { AndGives(a, b, ra, rb, m); }
    else if op == "**" { RaiseGives(a, b, ra, rb, m); }
    else { BinaryGives(op, a, b, ra, rb, m); }
  }

  lemma SequenceGives(a: Tree, b: Tree, ra: Result<int, ExprError>, rb: Result<int, ExprError>, m: Store)
    requires Valid(a) && Valid(b) && Gives(a, m, ra) && Gives(b, m, rb) && Fits64(rb)
    ensures var r := Outcome(Eval(Sequence(a, b), m, true));
      Gives(Sequence(a, b), m, r) && Combined(",", ra, rb, r) && Fits64(r)
  {
    OtherLevels();
    hide Operator2, Same, Eval;
    EvalSequence(a, b, m, true);
    forall live
      ensures Eval(Sequence(a, b), m, live) == Eval(Sequence(a, b), m, true)
    {
      EvalSequence(a, b, m, live);
    }
  }

  lemma OrGives(a: Tree, b: Tree, ra: Result<int, ExprError>, rb: Result<int, ExprError>, m: Store)
    requires Valid(a) && Valid(b) && Gives(a, m, ra) && Gives(b, m, rb)
    ensures var r := Outcome(Eval(Or(a, b), m, true));
      Gives(Or(a, b), m, r) && Combined("||", ra, rb, r) && Fits64(r)
  {
    OtherLevels();
    hide Operator2, Same, Eval;
    EvalOr(a, b, m, true);
    forall live
      ensures Eval(Or(a, b), m, live) == Eval(Or(a, b), m, true)
    {
      EvalOr(a, b, m, live);
    }
  }

  lemma AndGives(a: Tree, b: Tree, ra: Result<int, ExprError>, rb: Result<int, ExprError>, m: Store)
    requires Valid(a) && Valid(b) && Gives(a, m, ra) && Gives(b, m, rb)
    ensures var r := Outcome(Eval(And(a, b), m, true));
      Gives(And(a, b), m, r) && Combined("&&", ra, rb, r) && Fits64(r)
  {
    OtherLevels();
    hide Operator2, Same, Eval;
    EvalAnd(a, b, m, true);
    forall live
      ensures Eval(And(a, b), m, live) == Eval(And(a, b), m, true)
    {
      EvalAnd(a, b, m, live);
    }
  }

  lemma RaiseGives(a: Tree, b: Tree, ra: Result<int, ExprError>, rb: Result<int, ExprError>, m: Store)
    requires Valid(a) && Valid(b) && Gives(a, m, ra) && Gives(b, m, rb)
    ensures var r := Outcome(Eval(Raise(a, b), m, true));
      Gives(Raise(a, b), m, r) && Combined("**", ra, rb, r) && Fits64(r)
  {
    OtherLevels();
    hide Operator2, Same, IntPower, Power, Eval;
    EvalRaise(a, b, m, true);
    if ra.Ok? && rb.Ok? && rb.value >= 0 { PowerIsIntPower(ra.value, rb.value); }
    forall live
      ensures Eval(Raise(a, b), m, live) == Eval(Raise(a, b), m, true)
    {
      EvalRaise(a, b, m, live);
    }
  }

  lemma BinaryGives(op: string, a: Tree, b: Tree, ra: Result<int, ExprError>, rb: Result<int, ExprError>, m: Store)
    requires Operator2(op) && Valid(a) && Valid(b) && Valid(Binary(OperatorToken(op), a, b))
    requires Gives(a, m, ra) && Gives(b, m, rb) && Fits64(ra) && Fits64(rb)
    ensures var r := Outcome(Eval(Binary(OperatorToken(op), a, b), m, true));
      Gives(Binary(OperatorToken(op), a, b), m, r) && Combined(op, ra, rb, r) && Fits64(r)
  {
    BinaryRank(op);
    hide Operator2, Computes, OperatorToken, Apply, Eval;
    var t := OperatorToken(op);
    EvalBinary(t, a, b, m, true);
    if ra.Ok? && rb.Ok? { Applied(op, ra.value, rb.value); }
    forall live
      ensures Eval(Binary(t, a, b), m, live) == Eval(Binary(t, a, b), m, true)
    {
      EvalBinary(t, a, b, m, live);
    }
  }

  // ------------------------------------------------------------------- texts

  // evalexp on a text gives r and leaves the store m.
  predicate Evaluates(s: State, text: string, r: Result<int, ExprError>, m: Store)
    requires Ready(s)
  {
    var o := EvalExp(s, text);
    && o.st.stack == [] && Holds(o.st.vars, m)
    && match r case Ok(v) => o.Val? && o.val == v case Err(x) => o.Fail? && o.error == x
  }

  predicate Fresh(s: State, m: Store) { Ready(s) && s.stack == [] && Holds(s.vars, m) }

  lemma FreshStored(s: State, m: Store)
    requires Fresh(s, m)
    ensures Stored(m)
  {
    hide Itos;
  }

  lemma TextComes(e: Tree, text: string, s: State, m: Store, r: Result<int, ExprError>, m': Store)
    requires Valid(e) && Known(e, m.texts) && Spells(text, 0, Spell(e, 0, Nil)) && Fresh(s, m)
    requires Eval(e, m, true) == EvaluationOf(r, m')
    ensures Evaluates(s, text, r, m')
  {
    hide EvalExp, Eval, Holds, Spells, Spell;
    EvaluationIsTheTrees(e, text, s, m);
  }

  // Between an operator and its right operand a gap is needed only where a
  // minus sign would make another operator.
  predicate Gap(op: string, g: string, o: Operand) {
    Blanks(g) && (op == "-" && o.Int? && o.n < 0 ==> g != "")
  }

  lemma GapIsApart(op: string, g: string, o: Operand, m: Store, t: string)
    requires Infix(op) && Gap(op, g, o) && Proper(o, m)
    ensures Apart(op, g + (Text(o) + t))
  {
    InfixEnds(op);
    hide Infix, Operator2;
    OperandStarts(o, m);
    if g != "" { assert g[0] in " \t\n"; }
  }

  lemma InfixEnds(op: string)
    requires Infix(op)
    ensures op != "" && op[|op| - 1] in "|^&=<>+-*/%,"
    ensures op[|op| - 1] == '-' ==> op == "-"
  {
  }

  lemma OperandStarts(o: Operand, m: Store)
    requires Proper(o, m)
    ensures Text(o) != "" && Text(o)[0] !in "|^&=<>+*/%, \t\n"
    ensures Text(o)[0] == '-' ==> o.Int? && o.n < 0
  {
    hide Dec, NameLetter;
    if o.Int? {
      assert IsDigit(Dec(if o.n < 0 then -o.n else o.n)[0]);
    } else {
      NameLetters(o.x[0]);
      LetterStarts(o.x[0]);
    }
  }

  lemma LetterStarts(c: char)
    requires NameStart(c)
    ensures c !in "|^&=<>+*/%, \t\n" && c != '-'
  {
  }

  lemma FreeBlanks(g: string, t: string)
    requires Blanks(g) && Free(t)
    ensures Free(g + t)
  {
    if g != "" { assert g[0] in " \t\n"; }
  }

  // op and a right operand in front of t.
  lemma PrependRight(op: string, g: string, o: Operand, m: Store, t: string, rest: Lexemes)
    requires Infix(op) && Gap(op, g, o) && Proper(o, m) && Free(t) && Spells(t, 0, rest)
    ensures Valid(TreeOf(o)) && Level(TreeOf(o)) == 15 && Known(TreeOf(o), m.texts)
    ensures Spells(op + (g + (Text(o) + t)), 0, Cons(Punct(InfixToken(op)), Spell(TreeOf(o), 15, rest)))
    ensures Free(op + (g + (Text(o) + t)))
  {
    hide Infix, Proper, Spells, Free, Text, TreeOf, Apart, Blanks, InfixToken;
    PrependOperand(o, m, t, rest);
    PrependBlanks(g, Text(o) + t, Spell(TreeOf(o), 15, rest));
    GapIsApart(op, g, o, m, t);
    PrependInfix(op, g + (Text(o) + t), Spell(TreeOf(o), 15, rest));
  }

  // A left operand and blanks in front of t.
  lemma PrependLeft(o: Operand, g: string, m: Store, t: string, rest: Lexemes)
    requires Proper(o, m) && Blanks(g) && Free(t) && Spells(t, 0, rest)
    ensures Valid(TreeOf(o)) && Level(TreeOf(o)) == 15 && Known(TreeOf(o), m.texts)
    ensures Spells(Text(o) + (g + t), 0, Spell(TreeOf(o), 15, rest))
  {
    hide Proper, Spells, Free, Text, TreeOf, Blanks;
    PrependBlanks(g, t, rest);
    FreeBlanks(g, t);
    PrependOperand(o, m, g + t, rest);
  }

  lemma NothingSpelled()
    ensures Spells("", 0, Nil) && Free("")
  {
  }

  lemma InfixKnown(op: string, a: Tree, b: Tree, m: Store)
    requires Known(a, m.texts) && Known(b, m.texts)
    ensures Known(InfixTree(op, a, b), m.texts)
  {
    hide Known, OperatorToken;
    if op == "," { KnownPair(Sequence(a, b), a, b, m); }
    else if op == "||" { KnownPair(Or(a, b), a, b, m); }
    else if op == "&&" { KnownPair(And(a, b), a, b, m); }
    else if op == "**" { KnownPair(Raise(a, b), a, b, m); }
    else { KnownPair(Binary(OperatorToken(op), a, b), a, b, m); }
  }

  lemma KnownPair(e: Tree, a: Tree, b: Tree, m: Store)
    requires e == Sequence(a, b) || e == Or(a, b) || e == And(a, b) || e == Raise(a, b) || (e.Binary? && e == Binary(e.op, a, b))
    requires Known(a, m.texts) && Known(b, m.texts)
    ensures Known(e, m.texts)
  {
  }

  lemma FlatAtoms(op: string, a: Operand, b: Tree, rest: Lexemes)
    requires Valid(TreeOf(a)) && Valid(b)
    ensures Flat(op, TreeOf(a), b, rest) ==
            Spell(TreeOf(a), 15, Cons(Punct(InfixToken(op)), Spell(b, if op == "**" then 13 else InfixLevel(op) + 1, rest)))
  {
    hide TreeOf, InfixLevel, InfixToken, Spell;
    var l := InfixLevel(op);
    if op == "**" {
      AtomSpelled(a, 14, Cons(Punct(InfixToken(op)), Spell(b, 13, rest)));
    } else {
      AtomSpelled(a, l, Cons(Punct(InfixToken(op)), Spell(b, l + 1, rest)));
    }
  }

  // Two operands, whichever the operator and the blanks: the value of the
  // text is what the operator yields of theirs.
  lemma TwoOperands(op: string, a: Operand, b: Operand, g1: string, g2: string, s: State, m: Store)
    returns (r: Result<int, ExprError>)
    requires Infix(op) && Proper(a, m) && Proper(b, m) && Blanks(g1) && Gap(op, g2, b) && Fresh(s, m)
    ensures Evaluates(s, Text(a) + g1 + op + g2 + Text(b), r, m)
    ensures Yields(op, ValueIn(a, m), ValueIn(b, m), r)
  {
    hide Proper, Spells, Text, TreeOf, Blanks, Gap, Infix, InfixTree, Spell, Evaluates, Gives, Free, Holds, Yields, Flat;
    var right := op + (g2 + (Text(b) + ""));
    NothingSpelled();
    PrependRight(op, g2, b, m, "", Nil);
    PrependLeft(a, g1, m, right, Cons(Punct(InfixToken(op)), Spell(TreeOf(b), 15, Nil)));
    var e := InfixTree(op, TreeOf(a), TreeOf(b));
    InfixSpelled(op, TreeOf(a), TreeOf(b), 0, Nil);
    FlatAtoms(op, a, TreeOf(b), Nil);
    AtomSpelled(b, if op == "**" then 13 else InfixLevel(op) + 1, Nil);
    InfixKnown(op, TreeOf(a), TreeOf(b), m);
    FreshStored(s, m);
    OperandGives(a, m);
    OperandGives(b, m);
    r := InfixGives(op, TreeOf(a), TreeOf(b), Ok(ValueIn(a, m)), Ok(ValueIn(b, m)), m);
    TwoTexts(Text(a), g1, op, g2, Text(b));
    assert Gives(e, m, r);
    GivesComes(e, m, r);
    TextComes(e, Text(a) + (g1 + right), s, m, r, m);
  }

  lemma TwoTexts(a: string, g1: string, op: string, g2: string, b: string)
    ensures a + (g1 + (op + (g2 + (b + "")))) == a + g1 + op + g2 + b
  {
    assert b + "" == b;
  }

  lemma GivesComes(e: Tree, m: Store, r: Result<int, ExprError>)
    requires Valid(e) && Gives(e, m, r)
    ensures Eval(e, m, true) == EvaluationOf(r, m)
  {
    hide Eval;
  }

  // -------------------------------------------------------------- precedence

  // Whether b of `a op1 b op2 c' belongs to op2: only ** associates to the
  // right.
  predicate RightFirst(op1: string, op2: string) { Rank(op1) < Rank(op2) || (op1 == "**" && op2 == "**") }

  // What the grammar wants right of op.
  function RightLevel(op: string): (l: nat)
    ensures l <= 15
  {
    if op == "**" then 13 else InfixLevel(op) + 1
  }

  function LeftLevel(op: string): (l: nat)
    ensures l <= 15
  {
    if op == "**" then 14 else InfixLevel(op)
  }

  lemma TopRank(op: string)
    requires Infix(op)
    ensures Rank(op) <= 11 && (Rank(op) == 11 <==> op == "**")
  {
    if Operator2(op) { BinaryRank(op); }
  }

  lemma Levels(op1: string, op2: string)
    requires Infix(op1) && Infix(op2)
    ensures RightFirst(op1, op2) <==> RightLevel(op1) <= InfixLevel(op2)
    ensures RightFirst(op1, op2) <==> InfixLevel(op1) < LeftLevel(op2)
  {
    TopRank(op1);
    TopRank(op2);
    hide Rank, Infix;
  }

  function Lexed(op: string, rest: Lexemes): Lexemes { Cons(Punct(InfixToken(op)), rest) }

  function ThreeLexemes(op1: string, op2: string, a: Operand, b: Operand, c: Operand): Lexemes
    requires Valid(TreeOf(a)) && Valid(TreeOf(b)) && Valid(TreeOf(c))
  {
    Spell(TreeOf(a), 15, Lexed(op1, Spell(TreeOf(b), 15, Lexed(op2, Spell(TreeOf(c), 15, Nil)))))
  }

  function RightTree(op1: string, op2: string, a: Operand, b: Operand, c: Operand): Tree {
    InfixTree(op1, TreeOf(a), InfixTree(op2, TreeOf(b), TreeOf(c)))
  }

  function LeftTree(op1: string, op2: string, a: Operand, b: Operand, c: Operand): Tree {
    InfixTree(op2, InfixTree(op1, TreeOf(a), TreeOf(b)), TreeOf(c))
  }

  function Grouped(op1: string, op2: string, a: Operand, b: Operand, c: Operand): Tree {
    if RightFirst(op1, op2) then RightTree(op1, op2, a, b, c) else LeftTree(op1, op2, a, b, c)
  }

  lemma RightSpelled(op1: string, op2: string, a: Operand, b: Operand, c: Operand)
    requires Infix(op1) && Infix(op2) && RightFirst(op1, op2)
    requires Valid(TreeOf(a)) && Valid(TreeOf(b)) && Valid(TreeOf(c))
    ensures var e := RightTree(op1, op2, a, b, c); Valid(e) && Spell(e, 0, Nil) == ThreeLexemes(op1, op2, a, b, c)
  {
    hide TreeOf, InfixLevel, InfixToken, Spell, Infix, InfixTree, RightFirst, Flat, Valid;
    var inner := InfixTree(op2, TreeOf(b), TreeOf(c));
    Levels(op1, op2);
    InfixSpelled(op2, TreeOf(b), TreeOf(c), RightLevel(op1), Nil);
    FlatAtoms(op2, b, TreeOf(c), Nil);
    AtomSpelled(c, RightLevel(op2), Nil);
    InfixSpelled(op1, TreeOf(a), inner, 0, Nil);
    FlatAtoms(op1, a, inner, Nil);
  }

  lemma LeftSpelled(op1: string, op2: string, a: Operand, b: Operand, c: Operand)
    requires Infix(op1) && Infix(op2) && !RightFirst(op1, op2)
    requires Valid(TreeOf(a)) && Valid(TreeOf(b)) && Valid(TreeOf(c))
    ensures var e := LeftTree(op1, op2, a, b, c); Valid(e) && Spell(e, 0, Nil) == ThreeLexemes(op1, op2, a, b, c)
  {
    hide TreeOf, InfixLevel, InfixToken, Spell, Infix, InfixTree, RightFirst, Valid;
    var inner := InfixTree(op1, TreeOf(a), TreeOf(b));
    var rest := Lexed(op2, Spell(TreeOf(c), 15, Nil));
    Levels(op1, op2);
    InfixSpelled(op1, TreeOf(a), TreeOf(b), LeftLevel(op2), rest);
    FlatAtoms(op1, a, TreeOf(b), rest);
    AtomSpelled(b, RightLevel(op1), rest);
    InfixSpelled(op2, inner, TreeOf(c), 0, Nil);
    AtomSpelled(c, RightLevel(op2), Nil);
  }

  // The outcomes of three operands under two operators, grouped either way.
  ghost predicate RightYields(op1: string, op2: string, a: int, b: int, c: int, r: Result<int, ExprError>) {
    exists x :: Yields(op2, b, c, x) && if x.Err? then r == x else Yields(op1, a, x.value, r)
  }

  ghost predicate LeftYields(op1: string, op2: string, a: int, b: int, c: int, r: Result<int, ExprError>) {
    exists x :: Yields(op1, a, b, x) && if x.Err? then r == x else Yields(op2, x.value, c, r)
  }

  lemma RightGives(op1: string, op2: string, a: Operand, b: Operand, c: Operand, m: Store)
    returns (r: Result<int, ExprError>)
    requires Infix(op1) && Infix(op2) && Proper(a, m) && Proper(b, m) && Proper(c, m) && Stored(m)
    requires Valid(TreeOf(a)) && Valid(TreeOf(b)) && Valid(TreeOf(c))
    ensures Valid(RightTree(op1, op2, a, b, c)) && Gives(RightTree(op1, op2, a, b, c), m, r)
    ensures RightYields(op1, op2, ValueIn(a, m), ValueIn(b, m), ValueIn(c, m), r)
  {
    hide TreeOf, Infix, InfixTree, Gives, Yields, Valid, Proper, Stored, ValueIn;
    OperandGives(a, m);
    OperandGives(b, m);
    OperandGives(c, m);
    InfixSpelled(op2, TreeOf(b), TreeOf(c), 0, Nil);
    InfixSpelled(op1, TreeOf(a), InfixTree(op2, TreeOf(b), TreeOf(c)), 0, Nil);
    var x := InfixGives(op2, TreeOf(b), TreeOf(c), Ok(ValueIn(b, m)), Ok(ValueIn(c, m)), m);
    r := InfixGives(op1, TreeOf(a), InfixTree(op2, TreeOf(b), TreeOf(c)), Ok(ValueIn(a, m)), x, m);
  }

  lemma LeftGives(op1: string, op2: string, a: Operand, b: Operand, c: Operand, m: Store)
    returns (r: Result<int, ExprError>)
    requires Infix(op1) && Infix(op2) && Proper(a, m) && Proper(b, m) && Proper(c, m) && Stored(m)
    requires Valid(TreeOf(a)) && Valid(TreeOf(b)) && Valid(TreeOf(c))
    ensures Valid(LeftTree(op1, op2, a, b, c)) && Gives(LeftTree(op1, op2, a, b, c), m, r)
    ensures LeftYields(op1, op2, ValueIn(a, m), ValueIn(b, m), ValueIn(c, m), r)
  {
    hide TreeOf, Infix, InfixTree, Gives, Yields, Valid, Proper, Stored, ValueIn;
    OperandGives(a, m);
    OperandGives(b, m);
    OperandGives(c, m);
    InfixSpelled(op1, TreeOf(a), TreeOf(b), 0, Nil);
    InfixSpelled(op2, InfixTree(op1, TreeOf(a), TreeOf(b)), TreeOf(c), 0, Nil);
    var x := InfixGives(op1, TreeOf(a), TreeOf(b), Ok(ValueIn(a, m)), Ok(ValueIn(b, m)), m);
    r := InfixGives(op2, InfixTree(op1, TreeOf(a), TreeOf(b)), TreeOf(c), x, Ok(ValueIn(c, m)), m);
  }

  lemma GroupedKnown(op1: string, op2: string, a: Operand, b: Operand, c: Operand, m: Store)
    requires Known(TreeOf(a), m.texts) && Known(TreeOf(b), m.texts) && Known(TreeOf(c), m.texts)
    ensures Known(RightTree(op1, op2, a, b, c), m.texts) && Known(LeftTree(op1, op2, a, b, c), m.texts)
  {
    hide TreeOf, InfixTree, Known;
    InfixKnown(op2, TreeOf(b), TreeOf(c), m);
    InfixKnown(op1, TreeOf(a), InfixTree(op2, TreeOf(b), TreeOf(c)), m);
    InfixKnown(op1, TreeOf(a), TreeOf(b), m);
    InfixKnown(op2, InfixTree(op1, TreeOf(a), TreeOf(b)), TreeOf(c), m);
  }

  // Three operands and two operators, as written.
  function ThreeText(a: Operand, g1: string, op1: string, g2: string, b: Operand, g3: string, op2: string, g4: string,
                     c: Operand): string {
    Text(a) + (g1 + (op1 + (g2 + (Text(b) + (g3 + (op2 + (g4 + (Text(c) + ""))))))))
  }

  lemma ThreeSpelled(op1: string, op2: string, a: Operand, b: Operand, c: Operand, g1: string, g2: string, g3: string,
                     g4: string, m: Store)
    requires Infix(op1) && Infix(op2) && Proper(a, m) && Proper(b, m) && Proper(c, m)
    requires Blanks(g1) && Gap(op1, g2, b) && Blanks(g3) && Gap(op2, g4, c)
    ensures Valid(TreeOf(a)) && Valid(TreeOf(b)) && Valid(TreeOf(c))
    ensures Known(TreeOf(a), m.texts) && Known(TreeOf(b), m.texts) && Known(TreeOf(c), m.texts)
    ensures Spells(ThreeText(a, g1, op1, g2, b, g3, op2, g4, c), 0, ThreeLexemes(op1, op2, a, b, c))
  {
    hide Infix, Proper, Spells, Free, Text, TreeOf, Blanks, Gap, InfixToken, Spell, Known;
    NothingSpelled();
    PrependRight(op2, g4, c, m, "", Nil);
    var t2, l2 := op2 + (g4 + (Text(c) + "")), Lexed(op2, Spell(TreeOf(c), 15, Nil));
    PrependBlanks(g3, t2, l2);
    FreeBlanks(g3, t2);
    PrependRight(op1, g2, b, m, g3 + t2, l2);
    PrependLeft(a, g1, m, op1 + (g2 + (Text(b) + (g3 + t2))), Lexed(op1, Spell(TreeOf(b), 15, l2)));
  }

  // Which operands belong together is decided by the ranks; operators of one
  // rank associate to the left, ** to the right.
  lemma ThreeOperands(op1: string, op2: string, a: Operand, b: Operand, c: Operand, g1: string, g2: string, g3: string,
                      g4: string, s: State, m: Store)
    returns (r: Result<int, ExprError>)
    requires Infix(op1) && Infix(op2) && Proper(a, m) && Proper(b, m) && Proper(c, m)
    requires Blanks(g1) && Gap(op1, g2, b) && Blanks(g3) && Gap(op2, g4, c) && Fresh(s, m)
    ensures Evaluates(s, Text(a) + g1 + op1 + g2 + Text(b) + g3 + op2 + g4 + Text(c), r, m)
    ensures var x, y, z := ValueIn(a, m), ValueIn(b, m), ValueIn(c, m);
      if RightFirst(op1, op2) then RightYields(op1, op2, x, y, z, r) else LeftYields(op1, op2, x, y, z, r)
  {
    hide Infix, Proper, Spells, Text, TreeOf, Blanks, Gap, Spell, Known, Gives, Evaluates, Holds, RightFirst,
      RightYields, LeftYields, RightTree, LeftTree, ThreeLexemes, ThreeText, Valid;
    FreshStored(s, m);
    ThreeSpelled(op1, op2, a, b, c, g1, g2, g3, g4, m);
    GroupedKnown(op1, op2, a, b, c, m);
    if RightFirst(op1, op2) {
      RightSpelled(op1, op2, a, b, c);
      r := RightGives(op1, op2, a, b, c, m);
    } else {
      LeftSpelled(op1, op2, a, b, c);
      r := LeftGives(op1, op2, a, b, c, m);
    }
    GivesComes(Grouped(op1, op2, a, b, c), m, r);
    TextComes(Grouped(op1, op2, a, b, c), ThreeText(a, g1, op1, g2, b, g3, op2, g4, c), s, m, r, m);
    ThreeTexts(a, g1, op1, g2, b, g3, op2, g4, c);
  }

  lemma ThreeTexts(a: Operand, g1: string, op1: string, g2: string, b: Operand, g3: string, op2: string, g4: string,
                   c: Operand)
    ensures ThreeText(a, g1, op1, g2, b, g3, op2, g4, c) ==
            Text(a) + g1 + op1 + g2 + Text(b) + g3 + op2 + g4 + Text(c)
  {
    hide Text;
    var t := op2 + (g4 + (Text(c) + ""));
    assert t == op2 + g4 + Text(c);
    assert op1 + (g2 + (Text(b) + (g3 + t))) == op1 + g2 + Text(b) + g3 + op2 + g4 + Text(c);
  }
}
