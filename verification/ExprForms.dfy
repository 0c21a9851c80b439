// Parentheses, prefix operators, conditionals and assignments as they are
// written.

module ExprForms {
  import opened Options
  import opened Numerals
  import opened Arithmetic
  import opened Operators
  import opened Expr
  import opened ExprTrees
  import opened ExprLexing
  import opened ExprParsing
  import opened ExprRoundTrip
  import opened ExprOperations

  // What may stand behind a single character.
  predicate MarkApart(c: char, t: string) {
    c in "()?:~" || (c in "!+-=" && (t == "" || (t[0] != '=' && (c in "!=" || t[0] != c))))
  }

  lemma PrependMark(c: char, t: string, rest: Lexemes)
    requires MarkApart(c, t) && Spells(t, 0, rest)
    ensures Spells([c] + t, 0, Cons(Punct(Char(c)), rest))
  {
    hide Spells;
    MarkBoundary(c, t);
    assert Spelling(Punct(Char(c))) == [c] && !Blank(c);
    PrependLexeme(Punct(Char(c)), t, rest);
  }

  lemma MarkBoundary(c: char, t: string)
    requires MarkApart(c, t)
    ensures Boundary(t, 0, Punct(Char(c))) && !Blank(c)
  {
  }

  // Blanks and an operand in front of t.
  lemma PrependGapped(g: string, o: Operand, m: Store, t: string, rest: Lexemes)
    requires Blanks(g) && Proper(o, m) && Free(t) && Spells(t, 0, rest)
    ensures Valid(TreeOf(o)) && Level(TreeOf(o)) == 15 && Known(TreeOf(o), m.texts)
    ensures Spells(g + (Text(o) + t), 0, Spell(TreeOf(o), 15, rest))
  {
    hide Proper, Spells, Free, Text, TreeOf, Blanks;
    PrependOperand(o, m, t, rest);
    PrependBlanks(g, Text(o) + t, Spell(TreeOf(o), 15, rest));
  }

  lemma OperandApart(c: char, g: string, o: Operand, m: Store, t: string)
    requires c in "()?:~!+-=" && Blanks(g) && Proper(o, m) && (c == '-' && o.Int? && o.n < 0 ==> g != "")
    ensures MarkApart(c, g + (Text(o) + t))
  {
    hide Proper;
    OperandStarts(o, m);
    if g != "" { assert g[0] in " \t\n"; }
  }

  lemma MarkIsFree(c: char, t: string)
    requires c in ")?:="
    ensures Free([c] + t)
  {
  }

  // ------------------------------------------------------------- parentheses

  lemma ParenSpelled(e: Tree, l: nat, rest: Lexemes)
    requires Valid(e) && Level(e) < l <= 15
    ensures Spell(e, l, rest) == Cons(Punct(Char('(')), Spell(e, 0, Cons(Punct(Char(')')), rest)))
  {
    hide BinaryLevel;
  }

  // An operation in parentheses.
  function ParenText(b: Operand, g3: string, g4: string, op: string, g5: string, c: Operand, g6: string): string {
    "(" + (g3 + (Text(b) + (g4 + (op + (g5 + (Text(c) + (g6 + ")")))))))
  }

  function ParenLexemes(op: string, b: Operand, c: Operand, rest: Lexemes): Lexemes
    requires Valid(TreeOf(b)) && Valid(TreeOf(c))
  {
    Cons(Punct(Char('(')),
         Spell(TreeOf(b), 15, Lexed(op, Spell(TreeOf(c), 15, Cons(Punct(Char(')')), rest)))))
  }

  lemma PrependParen(op: string, b: Operand, c: Operand, g3: string, g4: string, g5: string, g6: string,
                     t: string, rest: Lexemes, m: Store)
    requires Infix(op) && Proper(b, m) && Proper(c, m) && Spells(t, 0, rest)
    requires Blanks(g3) && Blanks(g4) && Gap(op, g5, c) && Blanks(g6)
    ensures Valid(TreeOf(b)) && Valid(TreeOf(c)) && Known(TreeOf(b), m.texts) && Known(TreeOf(c), m.texts)
    ensures Spells(ParenText(b, g3, g4, op, g5, c, g6) + t, 0, ParenLexemes(op, b, c, rest))
  {
    hide Infix, Proper, Spells, Free, Text, TreeOf, Blanks, Gap, InfixToken, Spell, Known;
    var l1 := Cons(Punct(Char(')')), rest);
    var t1 := g6 + ([')'] + t);
    PrependMark(')', t, rest);
    MarkIsFree(')', t);
    FreeBlanks(g6, [')'] + t);
    PrependBlanks(g6, [')'] + t, l1);
    PrependRight(op, g5, c, m, t1, l1);
    var t2, l2 := op + (g5 + (Text(c) + t1)), Lexed(op, Spell(TreeOf(c), 15, l1));
    FreeBlanks(g4, t2);
    PrependBlanks(g4, t2, l2);
    PrependGapped(g3, b, m, g4 + t2, l2);
    PrependMark('(', g3 + (Text(b) + (g4 + t2)), Spell(TreeOf(b), 15, l2));
    Reassociated(Text(b), g3, g4, op, g5, Text(c), g6, t);
  }

  lemma Reassociated(b: string, g3: string, g4: string, op: string, g5: string, c: string, g6: string, t: string)
    ensures "(" + (g3 + (b + (g4 + (op + (g5 + (c + (g6 + ")"))))))) + t ==
            ['('] + (g3 + (b + (g4 + (op + (g5 + (c + (g6 + ([')'] + t))))))))
  {
    assert g6 + ")" + t == g6 + ([')'] + t);
    assert op + (g5 + (c + (g6 + ")"))) + t == op + (g5 + (c + (g6 + ([')'] + t))));
  }

  // The parentheses in a op1 (b op2 c) where op1 binds at least as strongly.
  lemma RightParens(op1: string, op2: string, a: Operand, b: Operand, c: Operand, rest: Lexemes)
    requires Infix(op1) && Infix(op2) && !RightFirst(op1, op2)
    requires Valid(TreeOf(a)) && Valid(TreeOf(b)) && Valid(TreeOf(c))
    ensures var e := RightTree(op1, op2, a, b, c);
      Valid(e) && Spell(e, 0, Nil) == Spell(TreeOf(a), 15, Lexed(op1, ParenLexemes(op2, b, c, Nil)))
  {
    hide TreeOf, InfixLevel, InfixToken, Spell, Infix, InfixTree, RightFirst, Valid;
    var inner := InfixTree(op2, TreeOf(b), TreeOf(c));
    var close := Cons(Punct(Char(')')), Nil);
    Levels(op1, op2);
    InfixSpelled(op2, TreeOf(b), TreeOf(c), 0, close);
    FlatAtoms(op2, b, TreeOf(c), close);
    AtomSpelled(c, RightLevel(op2), close);
    ParenSpelled(inner, RightLevel(op1), Nil);
    InfixSpelled(op1, TreeOf(a), inner, 0, Nil);
    FlatAtoms(op1, a, inner, Nil);
  }

  // a op1 (b op2 c), where without parentheses a and b would belong together.
  lemma ParenthesesRight(op1: string, op2: string, a: Operand, b: Operand, c: Operand, g1: string, g2: string,
                         g3: string, g4: string, g5: string, g6: string, s: State, m: Store)
    returns (r: Result<int, ExprError>)
    requires Infix(op1) && Infix(op2) && !RightFirst(op1, op2)
    requires Proper(a, m) && Proper(b, m) && Proper(c, m) && Fresh(s, m)
    requires Blanks(g1) && Blanks(g2) && Blanks(g3) && Blanks(g4) && Gap(op2, g5, c) && Blanks(g6)
    ensures Evaluates(s, Text(a) + (g1 + (op1 + (g2 + ParenText(b, g3, g4, op2, g5, c, g6)))), r, m)
    ensures RightYields(op1, op2, ValueIn(a, m), ValueIn(b, m), ValueIn(c, m), r)
  {
    hide Infix, Proper, Spells, Text, TreeOf, Blanks, Gap, Spell, Known, Gives, Evaluates, Holds, RightFirst,
      RightYields, RightTree, ParenLexemes, Valid, InfixToken;
    FreshStored(s, m);
    NothingSpelled();
    PrependParen(op2, b, c, g3, g4, g5, g6, "", Nil, m);
    var t := ParenText(b, g3, g4, op2, g5, c, g6);
    assert t + "" == t;
    PrependBlanks(g2, t, ParenLexemes(op2, b, c, Nil));
    ParenIsApart(op1, g2, t);
    PrependInfix(op1, g2 + t, ParenLexemes(op2, b, c, Nil));
    PrependLeft(a, g1, m, op1 + (g2 + t), Lexed(op1, ParenLexemes(op2, b, c, Nil)));
    RightParens(op1, op2, a, b, c, Nil);
    r := RightGives(op1, op2, a, b, c, m);
    GroupedKnown(op1, op2, a, b, c, m);
    GivesComes(RightTree(op1, op2, a, b, c), m, r);
    TextComes(RightTree(op1, op2, a, b, c), Text(a) + (g1 + (op1 + (g2 + t))), s, m, r, m);
  }

  lemma ParenIsApart(op: string, g: string, t: string)
    requires Infix(op) && Blanks(g) && t != "" && t[0] == '('
    ensures Apart(op, g + t)
  {
    InfixEnds(op);
    hide Infix;
    if g != "" { assert g[0] in " \t\n"; }
  }

  // (a op1 b) op2 c, where without parentheses b and c would belong together.
  lemma LeftParens(op1: string, op2: string, a: Operand, b: Operand, c: Operand)
    requires Infix(op1) && Infix(op2) && RightFirst(op1, op2)
    requires Valid(TreeOf(a)) && Valid(TreeOf(b)) && Valid(TreeOf(c))
    ensures var e := LeftTree(op1, op2, a, b, c);
      Valid(e) && Spell(e, 0, Nil) == ParenLexemes(op1, a, b, Lexed(op2, Spell(TreeOf(c), 15, Nil)))
  {
    hide TreeOf, InfixLevel, InfixToken, Spell, Infix, InfixTree, RightFirst, Valid;
    var inner := InfixTree(op1, TreeOf(a), TreeOf(b));
    var rest := Lexed(op2, Spell(TreeOf(c), 15, Nil));
    var close := Cons(Punct(Char(')')), rest);
    Levels(op1, op2);
    InfixSpelled(op1, TreeOf(a), TreeOf(b), 0, close);
    FlatAtoms(op1, a, TreeOf(b), close);
    AtomSpelled(b, RightLevel(op1), close);
    ParenSpelled(inner, LeftLevel(op2), rest);
    InfixSpelled(op2, inner, TreeOf(c), 0, Nil);
    AtomSpelled(c, RightLevel(op2), Nil);
  }

  lemma ParenthesesLeft(op1: string, op2: string, a: Operand, b: Operand, c: Operand, g1: string, g2: string,
                        g3: string, g4: string, g5: string, g6: string, s: State, m: Store)
    returns (r: Result<int, ExprError>)
    requires Infix(op1) && Infix(op2) && RightFirst(op1, op2)
    requires Proper(a, m) && Proper(b, m) && Proper(c, m) && Fresh(s, m)
    requires Blanks(g1) && Blanks(g2) && Gap(op1, g3, b) && Blanks(g4) && Blanks(g5) && Gap(op2, g6, c)
    ensures Evaluates(s, ParenText(a, g1, g2, op1, g3, b, g4) + (g5 + (op2 + (g6 + Text(c)))), r, m)
    ensures LeftYields(op1, op2, ValueIn(a, m), ValueIn(b, m), ValueIn(c, m), r)
  {
    hide Infix, Proper, Spells, Text, TreeOf, Blanks, Gap, Spell, Known, Gives, Evaluates, Holds, RightFirst,
      LeftYields, LeftTree, ParenLexemes, Valid, InfixToken, ParenText;
    FreshStored(s, m);
    NothingSpelled();
    PrependRight(op2, g6, c, m, "", Nil);
    assert Text(c) + "" == Text(c);
    var t, rest := op2 + (g6 + Text(c)), Lexed(op2, Spell(TreeOf(c), 15, Nil));
    PrependBlanks(g5, t, rest);
    PrependParen(op1, a, b, g1, g2, g3, g4, g5 + t, rest, m);
    LeftParens(op1, op2, a, b, c);
    r := LeftGives(op1, op2, a, b, c, m);
    GroupedKnown(op1, op2, a, b, c, m);
    GivesComes(LeftTree(op1, op2, a, b, c), m, r);
    TextComes(LeftTree(op1, op2, a, b, c), ParenText(a, g1, g2, op1, g3, b, g4) + (g5 + t), s, m, r, m);
  }

  // -------------------------------------------------------- prefix operators

  function PrefixTree(c: char, e: Tree): Tree {
    if c == '-' then Minus(e) else if c == '+' then Plus(e) else if c == '!' then Not(e) else Complement(e)
  }

  // Negation in 64 bits, truth, and the opposite bits.
  ghost predicate PrefixYields(c: char, a: int, v: int) {
    && Int64(v)
    && (c == '-' ==> Same(v, -a))
    && (c == '+' ==> v == a)
    && (c == '!' ==> OneIf(v, a == 0))
    && (c == '~' ==> forall k: nat :: Bit(v, k) != Bit(a, k))
  }

  lemma {:induction false} OppositeBits(a: int, k: nat)
    ensures Bit(-a - 1, k) != Bit(a, k)
    decreases k
  {
    if k > 0 {
      HalfIs(a);
      HalfIs(-a - 1);
      assert (-a - 1) / 2 == -(a / 2) - 1;
      OppositeBits(a / 2, k - 1);
    }
  }

  function PrefixValue(c: char, a: int): int {
    if c == '-' then Wrap(-a) else if c == '+' then a else if c == '!' then Truth(a == 0) else -a - 1
  }

  lemma PrefixValueIs(c: char, a: int)
    requires c in "-+!~" && Int64(a)
    ensures PrefixYields(c, a, PrefixValue(c, a))
  {
    hide Bit, Same;
    WrapIsSame(-a);
    forall k: nat
      ensures Bit(-a - 1, k) != Bit(a, k)
    {
      OppositeBits(a, k);
    }
  }

  lemma PrefixGives(c: char, e: Tree, a: int, m: Store) returns (v: int)
    requires c in "-+!~" && Valid(e) && Gives(e, m, Ok(a)) && Int64(a)
    ensures Valid(PrefixTree(c, e)) && Gives(PrefixTree(c, e), m, Ok(v)) && PrefixYields(c, a, v)
  {
    hide PrefixYields, Eval, PrefixValue, PrefixTree, Valid;
    PrefixValueIs(c, a);
    v := PrefixValue(c, a);
    PrefixValid(c, e);
    forall live
      ensures Eval(PrefixTree(c, e), m, live) == Value(v, m)
    {
      EvalPrefix(c, e, a, m, live);
    }
  }

  lemma PrefixValid(c: char, e: Tree)
    requires Valid(e)
    ensures Valid(PrefixTree(c, e))
  {
  }

  lemma EvalPrefix(c: char, e: Tree, a: int, m: Store, live: bool)
    requires c in "-+!~" && Valid(e) && Valid(PrefixTree(c, e)) && Eval(e, m, live) == Value(a, m)
    ensures Eval(PrefixTree(c, e), m, live) == Value(PrefixValue(c, a), m)
  {
    hide Valid, Eval, Wrap;
    if c == '-' { EvalMinus(e, m, live); }
    else if c == '+' { EvalPlus(e, m, live); }
    else if c == '!' { EvalNot(e, m, live); }
    else { EvalComplement(e, m, live); }
  }

  lemma PrefixSpelled(c: char, e: Tree, l: nat, rest: Lexemes)
    requires c in "-+!~" && Valid(e) && Level(e) == 15 && l <= 14
    ensures Valid(PrefixTree(c, e)) && Level(PrefixTree(c, e)) >= 14
    ensures Spell(PrefixTree(c, e), l, rest) == Cons(Punct(Char(c)), Spell(e, if c in "-+" then 15 else 14, rest))
  {
    hide BinaryLevel, Spell;
    if c in "-+" { SignSpelled(c, e, l, rest); } else { NotSpelled(c, e, l, rest); }
  }

  lemma SignSpelled(c: char, e: Tree, l: nat, rest: Lexemes)
    requires c in "-+" && Valid(e) && l <= 14
    ensures Spell(PrefixTree(c, e), l, rest) == Cons(Punct(Char(c)), Spell(e, 15, rest))
  {
  }

  lemma NotSpelled(c: char, e: Tree, l: nat, rest: Lexemes)
    requires c in "!~" && Valid(e) && l <= 14
    ensures Spell(PrefixTree(c, e), l, rest) == Cons(Punct(Char(c)), Spell(e, 14, rest))
  {
  }

  lemma PrefixKnown(c: char, e: Tree, m: Store)
    requires Known(e, m.texts)
    ensures Known(PrefixTree(c, e), m.texts)
  {
  }

  // A prefix operator, its operand and blanks in front of t.
  lemma PrependPrefixed(c: char, g: string, o: Operand, m: Store, t: string, rest: Lexemes)
    requires c in "-+!~" && Blanks(g) && (c == '-' && o.Int? && o.n < 0 ==> g != "")
    requires Proper(o, m) && Free(t) && Spells(t, 0, rest)
    ensures Valid(TreeOf(o)) && Level(TreeOf(o)) == 15 && Known(TreeOf(o), m.texts)
    ensures Spells([c] + (g + (Text(o) + t)), 0, Cons(Punct(Char(c)), Spell(TreeOf(o), 15, rest)))
  {
    hide Proper, Spells, Text, TreeOf, Blanks, Spell, Known, Free, MarkApart;
    PrependGapped(g, o, m, t, rest);
    OperandApart(c, g, o, m, t);
    PrependMark(c, g + (Text(o) + t), Spell(TreeOf(o), 15, rest));
  }

  lemma PrefixOperand(c: char, g: string, o: Operand, s: State, m: Store) returns (v: int)
    requires c in "-+!~" && Blanks(g) && (c == '-' && o.Int? && o.n < 0 ==> g != "")
    requires Proper(o, m) && Fresh(s, m)
    ensures Evaluates(s, [c] + (g + Text(o)), Ok(v), m) && PrefixYields(c, ValueIn(o, m), v)
  {
    hide Proper, Spells, Text, TreeOf, Blanks, Spell, Known, Gives, Evaluates, Holds, PrefixTree, PrefixYields, Valid, Free;
    FreshStored(s, m);
    NothingSpelled();
    PrependPrefixed(c, g, o, m, "", Nil);
    assert Text(o) + "" == Text(o);
    PrefixSpelled(c, TreeOf(o), 0, Nil);
    AtomSpelled(o, 14, Nil);
    OperandGives(o, m);
    v := PrefixGives(c, TreeOf(o), ValueIn(o, m), m);
    PrefixKnown(c, TreeOf(o), m);
    GivesComes(PrefixTree(c, TreeOf(o)), m, Ok(v));
    TextComes(PrefixTree(c, TreeOf(o)), [c] + (g + Text(o)), s, m, Ok(v), m);
  }

  // A prefix operator binds more strongly than any other, ** included.
  lemma PrefixFirst(c: char, g: string, a: Operand, g1: string, op: string, g2: string, b: Operand, s: State, m: Store)
    returns (v: int, r: Result<int, ExprError>)
    requires c in "-+!~" && Blanks(g) && (c == '-' && a.Int? && a.n < 0 ==> g != "")
    requires Infix(op) && Proper(a, m) && Proper(b, m) && Blanks(g1) && Gap(op, g2, b) && Fresh(s, m)
    ensures Evaluates(s, [c] + (g + (Text(a) + (g1 + (op + (g2 + Text(b)))))), r, m)
    ensures PrefixYields(c, ValueIn(a, m), v) && Yields(op, v, ValueIn(b, m), r)
  {
    hide Proper, Spells, Text, TreeOf, Blanks, Spell, Known, Gives, Evaluates, Holds, PrefixTree, Valid, Free,
      Infix, InfixTree, InfixLevel, InfixToken, Yields, Gap;
    FreshStored(s, m);
    NothingSpelled();
    PrependRight(op, g2, b, m, "", Nil);
    assert Text(b) + "" == Text(b);
    var t, rest := op + (g2 + Text(b)), Lexed(op, Spell(TreeOf(b), 15, Nil));
    FreeBlanks(g1, t);
    PrependBlanks(g1, t, rest);
    PrependPrefixed(c, g, a, m, g1 + t, rest);
    PrefixSpelled(c, TreeOf(a), LeftLevel(op), rest);
    AtomSpelled(a, 14, rest);
    var left := PrefixTree(c, TreeOf(a));
    InfixSpelled(op, left, TreeOf(b), 0, Nil);
    AtomSpelled(b, RightLevel(op), Nil);
    OperandGives(a, m);
    OperandGives(b, m);
    v := PrefixGives(c, TreeOf(a), ValueIn(a, m), m);
    r := InfixGives(op, left, TreeOf(b), Ok(v), Ok(ValueIn(b, m)), m);
    PrefixKnown(c, TreeOf(a), m);
    InfixKnown(op, left, TreeOf(b), m);
    GivesComes(InfixTree(op, left, TreeOf(b)), m, r);
    TextComes(InfixTree(op, left, TreeOf(b)), [c] + (g + (Text(a) + (g1 + t))), s, m, r, m);
  }

  // ------------------------------------------------------------ conditionals

  // c ? a : b.
  function Choice(c: Operand, g1: string, g2: string, a: Operand, g3: string, g4: string, b: Operand): string {
    Text(c) + (g1 + (['?'] + (g2 + (Text(a) + (g3 + ([':'] + (g4 + (Text(b) + ""))))))))
  }

  lemma IfElseGives(c: Operand, a: Operand, b: Operand, m: Store)
    requires Valid(TreeOf(c)) && Valid(TreeOf(a)) && Valid(TreeOf(b))
    requires Gives(TreeOf(c), m, Ok(ValueIn(c, m)))
    requires Gives(TreeOf(a), m, Ok(ValueIn(a, m))) && Gives(TreeOf(b), m, Ok(ValueIn(b, m)))
    ensures var v := if ValueIn(c, m) != 0 then ValueIn(a, m) else ValueIn(b, m);
      Gives(IfElse(TreeOf(c), TreeOf(a), TreeOf(b)), m, Ok(v))
  {
    assert Valid(IfElse(TreeOf(c), TreeOf(a), TreeOf(b)));
    hide Eval, TreeOf, Valid, ValueIn;
    forall live
      ensures Eval(IfElse(TreeOf(c), TreeOf(a), TreeOf(b)), m, live) ==
              Value(if ValueIn(c, m) != 0 then ValueIn(a, m) else ValueIn(b, m), m)
    {
      EvalIfElse(TreeOf(c), TreeOf(a), TreeOf(b), m, live);
    }
  }

  lemma IfElseSpelled(c: Operand, a: Operand, b: Operand)
    requires Valid(TreeOf(c)) && Valid(TreeOf(a)) && Valid(TreeOf(b))
    ensures Spell(IfElse(TreeOf(c), TreeOf(a), TreeOf(b)), 0, Nil) ==
            Spell(TreeOf(c), 15, Cons(Punct(Char('?')),
              Spell(TreeOf(a), 15, Cons(Punct(Char(':')), Spell(TreeOf(b), 15, Nil)))))
  {
    assert Valid(IfElse(TreeOf(c), TreeOf(a), TreeOf(b)));
    hide TreeOf, Spell, Valid;
    var e := IfElse(TreeOf(c), TreeOf(a), TreeOf(b));
    SpellIfElse(TreeOf(c), TreeOf(a), TreeOf(b), Nil);
    SameSpelling(e, 0, Nil);
    AtomSpelled(b, 2, Nil);
    var l1 := Cons(Punct(Char(':')), Spell(TreeOf(b), 15, Nil));
    AtomSpelled(a, 0, l1);
    AtomSpelled(c, 3, Cons(Punct(Char('?')), Spell(TreeOf(a), 15, l1)));
  }

  // The condition chooses between the other two.
  lemma Conditional(c: Operand, g1: string, g2: string, a: Operand, g3: string, g4: string, b: Operand, s: State, m: Store)
    requires Proper(c, m) && Proper(a, m) && Proper(b, m) && Fresh(s, m)
    requires Blanks(g1) && Blanks(g2) && Blanks(g3) && Blanks(g4)
    ensures Evaluates(s, Choice(c, g1, g2, a, g3, g4, b),
                      Ok(if ValueIn(c, m) != 0 then ValueIn(a, m) else ValueIn(b, m)), m)
  {
    hide Proper, Spells, Text, TreeOf, Blanks, Spell, Known, Gives, Evaluates, Holds, Valid, Free, ValueIn;
    FreshStored(s, m);
    NothingSpelled();
    PrependGapped(g4, b, m, "", Nil);
    var t1, l1 := [':'] + (g4 + (Text(b) + "")), Cons(Punct(Char(':')), Spell(TreeOf(b), 15, Nil));
    PrependMark(':', g4 + (Text(b) + ""), Spell(TreeOf(b), 15, Nil));
    MarkIsFree(':', g4 + (Text(b) + ""));
    FreeBlanks(g3, t1);
    PrependBlanks(g3, t1, l1);
    PrependGapped(g2, a, m, g3 + t1, l1);
    var t2, l2 := ['?'] + (g2 + (Text(a) + (g3 + t1))), Cons(Punct(Char('?')), Spell(TreeOf(a), 15, l1));
    PrependMark('?', g2 + (Text(a) + (g3 + t1)), Spell(TreeOf(a), 15, l1));
    MarkIsFree('?', g2 + (Text(a) + (g3 + t1)));
    PrependLeft(c, g1, m, t2, l2);
    IfElseSpelled(c, a, b);
    OperandGives(c, m);
    OperandGives(a, m);
    OperandGives(b, m);
    IfElseGives(c, a, b, m);
    var e := IfElse(TreeOf(c), TreeOf(a), TreeOf(b));
    IfElseKnown(TreeOf(c), TreeOf(a), TreeOf(b), m);
    GivesComes(e, m, Ok(if ValueIn(c, m) != 0 then ValueIn(a, m) else ValueIn(b, m)));
    TextComes(e, Text(c) + (g1 + t2), s, m, Ok(if ValueIn(c, m) != 0 then ValueIn(a, m) else ValueIn(b, m)), m);
  }

  lemma IfElseKnown(c: Tree, a: Tree, b: Tree, m: Store)
    requires Valid(c) && Valid(a) && Valid(b)
    requires Known(c, m.texts) && Known(a, m.texts) && Known(b, m.texts)
    ensures Valid(IfElse(c, a, b)) && Known(IfElse(c, a, b), m.texts)
  {
  }

  // ------------------------------------------------------------- assignments

  function Assigned(m: Store, x: string, v: int): Store { m.(ints := m.ints[x := v]) }

  // A name, blanks and t.
  lemma PrependName(x: string, g: string, t: string, rest: Lexemes)
    requires Identifier(x) && Blanks(g) && Free(t) && Spells(t, 0, rest)
    ensures ValidName(x) && Spells(x + (g + t), 0, Cons(Ident(x), rest))
  {
    hide Spells, Free, Blanks, ValidName, NameChar, NameStart, NameLetter;
    PrependBlanks(g, t, rest);
    FreeBlanks(g, t);
    IdentifierIsName(x);
    FreeIsBoundary(g + t, Ident(x));
    NameBegins(x);
    PrependLexeme(Ident(x), g + t, rest);
  }

  lemma NameBegins(x: string)
    requires Identifier(x)
    ensures Spelling(Ident(x)) == x != [] && !Blank(x[0])
  {
    NameLetters(x[0]);
  }

  // x = b, whatever x held before.
  lemma Assignment(x: string, g1: string, g2: string, b: Operand, s: State, m: Store)
    requires Identifier(x) && Blanks(g1) && Blanks(g2) && Proper(b, m) && Fresh(s, m)
    ensures Evaluates(s, x + (g1 + (['='] + (g2 + Text(b)))), Ok(ValueIn(b, m)), Assigned(m, x, ValueIn(b, m)))
  {
    hide Proper, Spells, Text, TreeOf, Blanks, Spell, Known, Gives, Evaluates, Holds, Valid, Free, ValueIn, MarkApart,
      ValidName, Identifier;
    FreshStored(s, m);
    NothingSpelled();
    PrependGapped(g2, b, m, "", Nil);
    OperandApart('=', g2, b, m, "");
    assert Text(b) + "" == Text(b);
    PrependMark('=', g2 + Text(b), Spell(TreeOf(b), 15, Nil));
    MarkIsFree('=', g2 + Text(b));
    PrependName(x, g1, ['='] + (g2 + Text(b)), Cons(Punct(Char('=')), Spell(TreeOf(b), 15, Nil)));
    SetFacts(x, b, m);
    OperandGives(b, m);
    GivesComes(TreeOf(b), m, Ok(ValueIn(b, m)));
    EvalSet(x, TreeOf(b), m, true);
    TextComes(Set(x, TreeOf(b)), x + (g1 + (['='] + (g2 + Text(b)))), s, m, Ok(ValueIn(b, m)),
              Assigned(m, x, ValueIn(b, m)));
  }

  lemma SetFacts(x: string, b: Operand, m: Store)
    requires ValidName(x) && Valid(TreeOf(b)) && Known(TreeOf(b), m.texts)
    ensures var e := Set(x, TreeOf(b));
      && Valid(e) && Known(e, m.texts)
      && Spell(e, 0, Nil) == Cons(Ident(x), Cons(Punct(Char('=')), Spell(TreeOf(b), 15, Nil)))
  {
    hide TreeOf;
    AtomSpelled(b, 1, Nil);
  }

  // The operators that can be joined with =.
  predicate Assignable(op: string) {
    op in Connectives || op in Shifts || op in Additive || op in Multiplicative
  }

  lemma AssignableToken(op: string)
    requires Assignable(op)
    ensures AssignOp(OperatorToken(op)) && TokenText(OperatorToken(op)) == op
    ensures op + "=" != [] && !Blank((op + "=")[0])
  {
  }

  lemma AssignableFree(op: string, t: string)
    requires Assignable(op)
    ensures Free((op + "=") + t)
  {
  }

  // x op= b is x = x op b.
  lemma UpdateAssignment(op: string, x: string, g1: string, g2: string, b: Operand, s: State, m: Store)
    returns (r: Result<int, ExprError>)
    requires Assignable(op) && Identifier(x) && Plain(m.texts, x) && Blanks(g1) && Blanks(g2) && Proper(b, m) && Fresh(s, m)
    ensures Evaluates(s, x + (g1 + ((op + "=") + (g2 + Text(b)))), r, if r.Ok? then Assigned(m, x, r.value) else m)
    ensures Yields(op, ValueIn(Var(x), m), ValueIn(b, m), r)
  {
    hide Proper, Spells, Text, TreeOf, Blanks, Spell, Known, Gives, Evaluates, Holds, Valid, Free, ValueIn,
      ValidName, Identifier, OperatorToken, AssignOp, Assignable, Yields, Plain;
    FreshStored(s, m);
    NothingSpelled();
    PrependGapped(g2, b, m, "", Nil);
    assert Text(b) + "" == Text(b);
    AssignableToken(op);
    PrependLexeme(Assigns(OperatorToken(op)), g2 + Text(b), Spell(TreeOf(b), 15, Nil));
    AssignableFree(op, g2 + Text(b));
    var t := (op + "=") + (g2 + Text(b));
    PrependName(x, g1, t, Cons(Assigns(OperatorToken(op)), Spell(TreeOf(b), 15, Nil)));
    UpdateFacts(op, x, b, m);
    OperandGives(b, m);
    GivesComes(TreeOf(b), m, Ok(ValueIn(b, m)));
    r := UpdateYields(op, x, b, m);
    TextComes(Update(OperatorToken(op), x, TreeOf(b)), x + (g1 + t), s, m, r,
              if r.Ok? then Assigned(m, x, r.value) else m);
  }

  lemma UpdateFacts(op: string, x: string, b: Operand, m: Store)
    requires AssignOp(OperatorToken(op)) && ValidName(x) && Plain(m.texts, x)
    requires Valid(TreeOf(b)) && Known(TreeOf(b), m.texts)
    ensures var e := Update(OperatorToken(op), x, TreeOf(b));
      && Valid(e) && Known(e, m.texts)
      && Spell(e, 0, Nil) == Cons(Ident(x), Cons(Assigns(OperatorToken(op)), Spell(TreeOf(b), 15, Nil)))
  {
    hide TreeOf, OperatorToken, AssignOp;
    AtomSpelled(b, 1, Nil);
  }

  lemma UpdateYields(op: string, x: string, b: Operand, m: Store) returns (r: Result<int, ExprError>)
    requires Assignable(op) && Proper(b, m) && Stored(m)
    requires Valid(TreeOf(b)) && Valid(Update(OperatorToken(op), x, TreeOf(b)))
    requires Eval(TreeOf(b), m, true) == Value(ValueIn(b, m), m) && Int64(ValueIn(b, m))
    ensures Yields(op, ValueIn(Var(x), m), ValueIn(b, m), r)
    ensures Eval(Update(OperatorToken(op), x, TreeOf(b)), m, true) ==
            EvaluationOf(r, if r.Ok? then Assigned(m, x, r.value) else m)
  {
    hide Eval, TreeOf, Valid, Computes, OperatorToken, Apply, Operator2, Proper;
    var v, w := ValueIn(Var(x), m), ValueIn(b, m);
    assert v == Lookup(m, x) && Int64(v);
    AssignableYields(op, v, w);
    EvalUpdate(OperatorToken(op), x, TreeOf(b), m, true);
    r := if DividesByZero(op, w) then Err(DivisionByZero) else Ok(Apply(OperatorToken(op), v, w).value);
  }

  lemma AssignableYields(op: string, v: int, w: int)
    requires Assignable(op) && Int64(v) && Int64(w)
    ensures var r := Apply(OperatorToken(op), v, w);
      if DividesByZero(op, w) then r == None else r.Some? && Yields(op, v, w, Ok(r.value))
  {
    hide Computes, OperatorToken, Apply;
    BinaryRank(op);
    Applied(op, v, w);
  }

  // --------------------------------------------------- increment and decrement

  // v is one more, or one less, than a in 64 bits.
  predicate Stepped(inc: bool, a: int, v: int) { Int64(v) && Same(v, if inc then a + 1 else a - 1) }

  function StepText(inc: bool): string { if inc then "++" else "--" }

  function StepOf(inc: bool, x: string, m: Store): int { Wrap(Lookup(m, x) + if inc then 1 else -1) }

  lemma StepOfIs(inc: bool, x: string, m: Store)
    ensures Stepped(inc, ValueIn(Var(x), m), StepOf(inc, x, m)) && Lookup(m, x) == ValueIn(Var(x), m)
  {
    hide Wrap, Same;
    WrapIsSame(Lookup(m, x) + 1);
    WrapIsSame(Lookup(m, x) - 1);
  }

  // ++x and --x give the new value ...
  lemma PrefixStep(inc: bool, x: string, g: string, s: State, m: Store) returns (v: int)
    requires Identifier(x) && Plain(m.texts, x) && Blanks(g) && Fresh(s, m)
    ensures Stepped(inc, ValueIn(Var(x), m), v)
    ensures Evaluates(s, StepText(inc) + (g + x), Ok(v), Assigned(m, x, v))
  {
    assert Blanks("");
    hide Spells, Blanks, Spell, Known, Evaluates, Holds, Valid, Free, ValidName, Identifier, Stepped, Plain, Eval,
      ValueIn, StepOf;
    v := StepOf(inc, x, m);
    StepOfIs(inc, x, m);
    NothingSpelled();
    PrependName(x, "", "", Nil);
    assert x + ("" + "") == x;
    StepFacts(inc, x, m);
    PrependStep(inc, g, x);
    TextComes(Pre(inc, x), StepText(inc) + (g + x), s, m, Ok(v), Assigned(m, x, v));
  }

  // ... and x++ and x-- the old one.
  lemma PostfixStep(inc: bool, x: string, g: string, s: State, m: Store) returns (v: int)
    requires Identifier(x) && Plain(m.texts, x) && Blanks(g) && Fresh(s, m)
    ensures Stepped(inc, ValueIn(Var(x), m), v)
    ensures Evaluates(s, x + (g + StepText(inc)), Ok(ValueIn(Var(x), m)), Assigned(m, x, v))
  {
    hide Spells, Blanks, Spell, Known, Evaluates, Holds, Valid, Free, ValidName, Identifier, Stepped, Plain, Eval,
      ValueIn, StepOf;
    v := StepOf(inc, x, m);
    StepOfIs(inc, x, m);
    PostSpelled(inc);
    PrependName(x, g, StepText(inc), Cons(Punct(if inc then PostInc else PostDec), Nil));
    StepFacts(inc, x, m);
    TextComes(Post(inc, x), x + (g + StepText(inc)), s, m, Ok(ValueIn(Var(x), m)), Assigned(m, x, v));
  }

  lemma StepFacts(inc: bool, x: string, m: Store)
    requires ValidName(x) && Plain(m.texts, x)
    ensures Valid(Pre(inc, x)) && Known(Pre(inc, x), m.texts) && Valid(Post(inc, x)) && Known(Post(inc, x), m.texts)
    ensures Spell(Pre(inc, x), 0, Nil) == Cons(Punct(if inc then PreInc else PreDec), Cons(Ident(x), Nil))
    ensures Spell(Post(inc, x), 0, Nil) == Cons(Ident(x), Cons(Punct(if inc then PostInc else PostDec), Nil))
    ensures var v := StepOf(inc, x, m);
      && Eval(Pre(inc, x), m, true) == Value(v, Assigned(m, x, v))
      && Eval(Post(inc, x), m, true) == Value(Lookup(m, x), Assigned(m, x, v))
  {
    hide ValidName;
  }

  lemma PrependStep(inc: bool, g: string, x: string)
    requires Identifier(x) && Blanks(g) && Spells(x, 0, Cons(Ident(x), Nil))
    ensures Spells(StepText(inc) + (g + x), 0, Cons(Punct(if inc then PreInc else PreDec), Cons(Ident(x), Nil)))
  {
    hide Spells, Blanks, SkipBlanks, Identifier, Boundary, NameStart;
    NameBegins(x);
    PrependBlanks(g, x, Cons(Ident(x), Nil));
    BlanksSkipped(g, x, 0);
    NoBlankAt(g + x, |g|);
    NameStarts(x);
    StepBoundary(inc, g + x, |g|);
    PrependLexeme(Punct(if inc then PreInc else PreDec), g + x, Cons(Ident(x), Nil));
  }

  lemma NameStarts(x: string)
    requires Identifier(x)
    ensures NameStart(x[0])
  {
    NameLetters(x[0]);
  }

  lemma StepBoundary(inc: bool, t: string, i: nat)
    requires i < |t| && SkipBlanks(t, 0) == i && NameStart(t[i])
    ensures Boundary(t, 0, Punct(if inc then PreInc else PreDec))
  {
    hide NameStart, SkipBlanks;
  }

  lemma NoBlankAt(t: string, i: nat)
    requires i < |t| && !Blank(t[i])
    ensures SkipBlanks(t, i) == i
  {
  }

  lemma PostSpelled(inc: bool)
    ensures Spells(StepText(inc), 0, Cons(Punct(if inc then PostInc else PostDec), Nil)) && Free(StepText(inc))
  {
    NothingSpelled();
    PrependLexeme(Punct(if inc then PostInc else PostDec), "", Nil);
    assert StepText(inc) + "" == StepText(inc);
  }
}
