// The evaluator computes the operands that C skips, with assignments turned
// off.  When is the outcome that of C all the same?

module ExprShortCircuit {
  import opened Options
  import opened Numerals
  import opened Arithmetic
  import opened Expr
  import opened ExprTrees
  import opened ExprLexing
  import opened ExprParsing
  import opened ExprRoundTrip
  import opened ExprPrinting

  // ISO C section 6.5: `&&', `||' and `?:' evaluate only what they need.
  function CEval(e: Tree, m: Store): Evaluation
    requires Valid(e)
  {
    match e
    case Set(x, e1) =>
      var (v, m1) :- CEval(e1, m);
      Value(v, Put(m1, x, v, true))
    case Update(op, x, e1) =>
      var (w, m1) :- CEval(e1, m);
      var (v, m2) :- Checked(op, Lookup(m, x), w, m1);
      Value(v, Put(m2, x, v, true))
    case IfElse(c, a, b) =>
      var (v, m1) :- CEval(c, m);
      if v != 0 then CEval(a, m1) else CEval(b, m1)
    case Or(a, b) =>
      var (va, m1) :- CEval(a, m);
      if va != 0 then Value(1, m1)
      else
        var (vb, m2) :- CEval(b, m1);
        Value(Truth(vb != 0), m2)
    case And(a, b) =>
      var (va, m1) :- CEval(a, m);
      if va == 0 then Value(0, m1)
      else
        var (vb, m2) :- CEval(b, m1);
        Value(Truth(vb != 0), m2)
    case Binary(op, a, b) =>
      var (va, m1) :- CEval(a, m);
      var (vb, m2) :- CEval(b, m1);
      Checked(op, va, vb, m2)
    case Raise(a, b) =>
      var (va, m1) :- CEval(a, m);
      var (vb, m2) :- CEval(b, m1);
      Raised(va, vb, m2)
    case Sequence(a, b) =>
      var (_, m1) :- CEval(a, m);
      CEval(b, m1)
    case Not(e1) =>
      var (v, m1) :- CEval(e1, m);
      Value(Truth(v == 0), m1)
    case Complement(e1) =>
      var (v, m1) :- CEval(e1, m);
      Value(-v - 1, m1)
    case Minus(e1) =>
      var (v, m1) :- CEval(e1, m);
      Value(Wrap(-v), m1)
    case Plus(e1) => CEval(e1, m)
    case _ => Eval(e, m, true)
  }

  // What a division cannot take on its right.
  predicate NoDivisor(op: Token, b: int) { (op == Char('/') || op == Char('%')) && b == 0 }

  // The value of e when nothing is assigned, in the store m; any value where
  // there is none.
  function Skim(e: Tree, m: Store): int
    requires Valid(e)
  {
    match e
    case Literal(n) => StrLong(n).value
    case Name(x) => Lookup(m, x)
    case Set(_, e1) => Skim(e1, m)
    case Update(op, x, e1) => Apply(op, Lookup(m, x), Skim(e1, m)).GetOr(0)
    case IfElse(c, a, b) => if Skim(c, m) != 0 then Skim(a, m) else Skim(b, m)
    case Or(a, b) => Truth(Skim(a, m) != 0 || Skim(b, m) != 0)
    case And(a, b) => Truth(Skim(a, m) != 0 && Skim(b, m) != 0)
    case Binary(op, a, b) => Apply(op, Skim(a, m), Skim(b, m)).GetOr(0)
    case Raise(a, b) => if Skim(b, m) < 0 then 0 else Power(Skim(a, m), Skim(b, m))
    case Sequence(_, b) => Skim(b, m)
    case Not(e1) => Truth(Skim(e1, m) == 0)
    case Complement(e1) => -Skim(e1, m) - 1
    case Minus(e1) => Wrap(-Skim(e1, m))
    case Plus(e1) => Skim(e1, m)
    case Pre(inc, x) => Wrap(Lookup(m, x) + if inc then 1 else -1)
    case Post(_, x) => Lookup(m, x)
  }

  // Somewhere in e, with all assignments off, the right operand of / or % (or
  // of their assignments) is 0, or that of ** is negative.
  predicate Faulty(e: Tree, m: Store)
    requires Valid(e)
  {
    match e
    case Set(_, e1) => Faulty(e1, m)
    case Update(op, _, e1) => Faulty(e1, m) || NoDivisor(op, Skim(e1, m))
    case IfElse(c, a, b) => Faulty(c, m) || Faulty(a, m) || Faulty(b, m)
    case Or(a, b) => Faulty(a, m) || Faulty(b, m)
    case And(a, b) => Faulty(a, m) || Faulty(b, m)
    case Binary(op, a, b) => Faulty(a, m) || Faulty(b, m) || NoDivisor(op, Skim(b, m))
    case Raise(a, b) => Faulty(a, m) || Faulty(b, m) || Skim(b, m) < 0
    case Sequence(a, b) => Faulty(a, m) || Faulty(b, m)
    case Not(e1) => Faulty(e1, m)
    case Complement(e1) => Faulty(e1, m)
    case Minus(e1) => Faulty(e1, m)
    case Plus(e1) => Faulty(e1, m)
    case _ => false
  }

  // The evaluator goes through an operand that C skips, both branches of every
  // conditional in it included: it fails exactly if there is such a fault.
  lemma {:induction false} FaultyFails(e: Tree, m: Store)
    requires Valid(e)
    ensures Faulty(e, m) ==> Eval(e, m, false).Error?
    ensures !Faulty(e, m) ==> Eval(e, m, false) == Value(Skim(e, m), m)
  {
    hide Eval, Lookup, Power, Wrap, Truth, StrLong;
    match e
    case Set(x, e1) => FaultyFails(e1, m); EvalSet(x, e1, m, false);
    case Update(op, x, e1) => FaultyFails(e1, m); EvalUpdate(op, x, e1, m, false); FaultyDivision(op, Lookup(m, x), Skim(e1, m), m);
    case IfElse(c, a, b) =>
      FaultyFails(c, m);
      FaultyFails(a, m);
      FaultyFails(b, m);
      EvalIfElse(c, a, b, m, false);
    case Or(a, b) =>
      FaultyFails(a, m);
      FaultyFails(b, m);
      EvalOr(a, b, m, false);
    case And(a, b) =>
      FaultyFails(a, m);
      FaultyFails(b, m);
      EvalAnd(a, b, m, false);
    case Binary(op, a, b) =>
      FaultyFails(a, m);
      FaultyFails(b, m);
      EvalBinary(op, a, b, m, false);
      FaultyDivision(op, Skim(a, m), Skim(b, m), m);
    case Raise(a, b) =>
      FaultyFails(a, m);
      FaultyFails(b, m);
      EvalRaise(a, b, m, false);
    case Sequence(a, b) =>
      FaultyFails(a, m);
      FaultyFails(b, m);
      EvalSequence(a, b, m, false);
    case Not(e1) => FaultyFails(e1, m); EvalNot(e1, m, false);
    case Complement(e1) => FaultyFails(e1, m); EvalComplement(e1, m, false);
    case Minus(e1) => FaultyFails(e1, m); EvalMinus(e1, m, false);
    case Plus(e1) => FaultyFails(e1, m); EvalPlus(e1, m, false);
    case _ => EvalAtom(e, m, false);
  }

  lemma FaultyDivision(op: Token, a: int, b: int, m: Store)
    ensures Checked(op, a, b, m) == if NoDivisor(op, b) then Error(DivisionByZero, m) else Value(Apply(op, a, b).GetOr(0), m)
  {
  }

  // Somewhere in the C evaluation of e, up to its first error, a faulty
  // operand is skipped.
  predicate SkipsFaulty(e: Tree, m: Store)
    requires Valid(e)
  {
    match e
    case Set(_, e1) => SkipsFaulty(e1, m)
    case Update(_, _, e1) => SkipsFaulty(e1, m)
    case IfElse(c, a, b) =>
      || SkipsFaulty(c, m)
      || var r := CEval(c, m);
         r.Value? &&
         if r.v != 0 then SkipsFaulty(a, r.m) || (CEval(a, r.m).Value? && Faulty(b, CEval(a, r.m).m))
         else Faulty(a, r.m) || SkipsFaulty(b, r.m)
    case Or(a, b) =>
      || SkipsFaulty(a, m)
      || var r := CEval(a, m);
         r.Value? && if r.v != 0 then Faulty(b, r.m) else SkipsFaulty(b, r.m)
    case And(a, b) =>
      || SkipsFaulty(a, m)
      || var r := CEval(a, m);
         r.Value? && if r.v == 0 then Faulty(b, r.m) else SkipsFaulty(b, r.m)
    case Binary(_, a, b) => SkipsFaulty(a, m) || (CEval(a, m).Value? && SkipsFaulty(b, CEval(a, m).m))
    case Raise(a, b) => SkipsFaulty(a, m) || (CEval(a, m).Value? && SkipsFaulty(b, CEval(a, m).m))
    case Sequence(a, b) => SkipsFaulty(a, m) || (CEval(a, m).Value? && SkipsFaulty(b, CEval(a, m).m))
    case Not(e1) => SkipsFaulty(e1, m)
    case Complement(e1) => SkipsFaulty(e1, m)
    case Minus(e1) => SkipsFaulty(e1, m)
    case Plus(e1) => SkipsFaulty(e1, m)
    case _ => false
  }

  // An operand that is skipped changes no variable, even when it fails.
  lemma {:induction false} SkippedKeepsStore(e: Tree, m: Store)
    requires Valid(e)
    ensures Eval(e, m, false).m == m
  {
    hide Eval, Apply, Lookup, Power, Wrap, Truth;
    match e
    case Set(x, e1) => SkippedKeepsStore(e1, m); EvalSet(x, e1, m, false);
    case Update(op, x, e1) => SkippedKeepsStore(e1, m); EvalUpdate(op, x, e1, m, false);
    case IfElse(c, a, b) =>
      SkippedKeepsStore(c, m);
      SkippedKeepsStore(a, m);
      SkippedKeepsStore(b, m);
      EvalIfElse(c, a, b, m, false);
    case Or(a, b) =>
      SkippedKeepsStore(a, m);
      SkippedKeepsStore(b, m);
      EvalOr(a, b, m, false);
    case And(a, b) =>
      SkippedKeepsStore(a, m);
      SkippedKeepsStore(b, m);
      EvalAnd(a, b, m, false);
    case Binary(op, a, b) =>
      SkippedKeepsStore(a, m);
      SkippedKeepsStore(b, m);
      EvalBinary(op, a, b, m, false);
    case Raise(a, b) =>
      SkippedKeepsStore(a, m);
      SkippedKeepsStore(b, m);
      EvalRaise(a, b, m, false);
    case Sequence(a, b) =>
      SkippedKeepsStore(a, m);
      SkippedKeepsStore(b, m);
      EvalSequence(a, b, m, false);
    case Not(e1) => SkippedKeepsStore(e1, m); EvalNot(e1, m, false);
    case Complement(e1) => SkippedKeepsStore(e1, m); EvalComplement(e1, m, false);
    case Minus(e1) => SkippedKeepsStore(e1, m); EvalMinus(e1, m, false);
    case Plus(e1) => SkippedKeepsStore(e1, m); EvalPlus(e1, m, false);
    case _ => EvalAtom(e, m, false);
  }

  predicate AgreesWithC(e: Tree, m: Store)
    requires Valid(e)
  {
    && (!SkipsFaulty(e, m) ==> Eval(e, m, true) == CEval(e, m))
    && (SkipsFaulty(e, m) ==> Eval(e, m, true).Error?)
  }

  // The evaluator agrees with C exactly when no skipped operand is faulty:
  // then value, store and error are the same, and otherwise it fails.
  lemma {:induction false} ShortCircuit(e: Tree, m: Store)
    requires Valid(e)
    ensures !SkipsFaulty(e, m) ==> Eval(e, m, true) == CEval(e, m)
    ensures SkipsFaulty(e, m) ==> Eval(e, m, true).Error?
    decreases e
  {
    hide Eval, Apply, Lookup, Power, Wrap, Checked, Raised, Faulty, Skim;
    match e
    case Set(x, e1) => ShortCircuit(e1, m); EvalSet(x, e1, m, true);
    case Update(op, x, e1) => ShortCircuit(e1, m); ShortUpdate(op, x, e1, m);
    case IfElse(c, a, b) =>
      ShortCircuit(c, m);
      var r := CEval(c, m);
      if r.Value? {
        ShortCircuit(a, r.m);
        ShortCircuit(b, r.m);
      }
      ShortIfElse(c, a, b, m);
    case Or(a, b) =>
      ShortCircuit(a, m);
      var r := CEval(a, m);
      if r.Value? { ShortCircuit(b, r.m); }
      ShortOr(a, b, m);
    case And(a, b) =>
      ShortCircuit(a, m);
      var r := CEval(a, m);
      if r.Value? { ShortCircuit(b, r.m); }
      ShortAnd(a, b, m);
    case Binary(op, a, b) =>
      ShortCircuit(a, m);
      if CEval(a, m).Value? { ShortCircuit(b, CEval(a, m).m); }
      EvalBinary(op, a, b, m, true);
    case Raise(a, b) =>
      ShortCircuit(a, m);
      if CEval(a, m).Value? { ShortCircuit(b, CEval(a, m).m); }
      EvalRaise(a, b, m, true);
    case Sequence(a, b) =>
      ShortCircuit(a, m);
      if CEval(a, m).Value? { ShortCircuit(b, CEval(a, m).m); }
      EvalSequence(a, b, m, true);
    case Not(e1) => ShortCircuit(e1, m); EvalNot(e1, m, true);
    case Complement(e1) => ShortCircuit(e1, m); EvalComplement(e1, m, true);
    case Minus(e1) => ShortCircuit(e1, m); EvalMinus(e1, m, true);
    case Plus(e1) => ShortCircuit(e1, m); EvalPlus(e1, m, true);
    case _ =>
  }

  lemma ShortUpdate(op: Token, x: string, e: Tree, m: Store)
    requires Valid(Update(op, x, e)) && AgreesWithC(e, m)
    ensures AgreesWithC(Update(op, x, e), m)
  {
    hide Eval, Apply, Lookup;
    EvalUpdate(op, x, e, m, true);
  }

  lemma ShortOr(a: Tree, b: Tree, m: Store)
    requires Valid(Or(a, b)) && AgreesWithC(a, m)
    requires CEval(a, m).Value? ==> AgreesWithC(b, CEval(a, m).m)
    ensures AgreesWithC(Or(a, b), m)
  {
    hide Eval, Faulty, Skim;
    EvalOr(a, b, m, true);
    if CEval(a, m).Value? {
      SkippedKeepsStore(b, CEval(a, m).m);
      FaultyFails(b, CEval(a, m).m);
    }
  }

  lemma ShortAnd(a: Tree, b: Tree, m: Store)
    requires Valid(And(a, b)) && AgreesWithC(a, m)
    requires CEval(a, m).Value? ==> AgreesWithC(b, CEval(a, m).m)
    ensures AgreesWithC(And(a, b), m)
  {
    hide Eval, Faulty, Skim;
    EvalAnd(a, b, m, true);
    if CEval(a, m).Value? {
      SkippedKeepsStore(b, CEval(a, m).m);
      FaultyFails(b, CEval(a, m).m);
    }
  }

  lemma ShortIfElse(c: Tree, a: Tree, b: Tree, m: Store)
    requires Valid(IfElse(c, a, b)) && AgreesWithC(c, m)
    requires CEval(c, m).Value? ==> AgreesWithC(a, CEval(c, m).m) && AgreesWithC(b, CEval(c, m).m)
    ensures AgreesWithC(IfElse(c, a, b), m)
  {
    hide Eval, Faulty, Skim;
    EvalIfElse(c, a, b, m, true);
    var r := CEval(c, m);
    if r.Value? {
      SkippedKeepsStore(a, r.m);
      FaultyFails(a, r.m);
      if CEval(a, r.m).Value? {
        SkippedKeepsStore(b, CEval(a, r.m).m);
        FaultyFails(b, CEval(a, r.m).m);
      }
    }
  }

  // evalexp against C, for every tree and every text that spells it.
  lemma EvaluationAgainstC(e: Tree, text: string, s: State, m: Store)
    requires Valid(e) && Known(e, m.texts) && Spells(text, 0, Spell(e, 0, Nil))
    requires Ready(s) && s.stack == [] && Holds(s.vars, m)
    ensures var r, c := EvalExp(s, text), CEval(e, m);
      && (r.Val? <==> c.Value? && !SkipsFaulty(e, m))
      && (r.Val? ==> r.val == c.v && Holds(r.st.vars, c.m))
  {
    hide EvalExp, Holds, Eval, CEval, SkipsFaulty, Spell, Spells;
    EvaluationIsTheTrees(e, text, s, m);
    ShortCircuit(e, m);
  }

  // The shortest offender: in C, 0 && 1/0 is 0.
  function Offender(): Tree { And(Literal("0"), Binary(Char('/'), Literal("1"), Literal("0"))) }

  const Nothing := Store(map[], map[])

  const OffenderText := "0 && 1/0"

  lemma OffenderValid()
    ensures Valid(Offender()) && StrLong("0") == Ok(0) && StrLong("1") == Ok(1)
  {
    hide StrLong;
    DecimalRoundTrip(0);
    DecimalRoundTrip(1);
    assert Dec(0) == "0" && Dec(1) == "1";
  }

  function OffenderLexemes(): Lexemes {
    Cons(Number("0"), Cons(Punct(LAnd), Cons(Number("1"), Cons(Punct(Char('/')), Cons(Number("0"), Nil)))))
  }

  lemma OffenderSpelling()
    requires Valid(Offender())
    ensures Spell(Offender(), 0, Nil) == OffenderLexemes()
  {
    hide Valid;
    var quotient := Binary(Char('/'), Literal("1"), Literal("0"));
    var e := Offender();
    OffenderParts();
    assert Spell(quotient, 5, Nil) ==
           Cons(Number("1"), Cons(Punct(Char('/')), Cons(Number("0"), Nil)));
    hide Offender;
    assert Spell(e, 0, Nil) == Spell(Literal("0"), 4, Cons(Punct(LAnd), Spell(quotient, 5, Nil)));
  }

  lemma OffenderParts()
    requires Valid(Offender())
    ensures Valid(Offender().a) && Valid(Offender().b)
    ensures Valid(Offender().b.a) && Valid(Offender().b.b)
  {
    hide ValidNumeral;
  }

  lemma OffenderSpelled()
    ensures Spells(OffenderText, 0, OffenderLexemes())
  {
    hide Spells;
    var s := OffenderText;
    var last := Cons(Number("0"), Nil);
    var rest := Cons(Number("1"), Cons(Punct(Char('/')), last));
    OffenderAt();
    NothingLeft(s, 8);
    SpellsFrom(s, 7, Number("0"), Nil);
    SpellsFrom(s, 6, Punct(Char('/')), last);
    SpellsFrom(s, 5, Number("1"), Cons(Punct(Char('/')), last));
    BlankSkipped(s, 4, rest);
    SpellsFrom(s, 2, Punct(LAnd), rest);
    BlankSkipped(s, 1, Cons(Punct(LAnd), rest));
    SpellsFrom(s, 0, Number("0"), Cons(Punct(LAnd), rest));
  }

  lemma OffenderAt()
    ensures var s := OffenderText;
      && SpelledAt(s, 7, Number("0")) && SpelledAt(s, 6, Punct(Char('/'))) && SpelledAt(s, 5, Number("1"))
      && SpelledAt(s, 2, Punct(LAnd)) && SpelledAt(s, 0, Number("0"))
  {
    var s := OffenderText;
    assert s[7..8] == "0" && s[6..7] == "/" && s[5..6] == "1" && s[2..4] == "&&" && s[0..1] == "0";
  }

  lemma OffenderValues(live: bool)
    requires Valid(Offender())
    ensures CEval(Offender(), Nothing) == Value(0, Nothing)
    ensures Eval(Offender(), Nothing, live) == Error(DivisionByZero, Nothing)
  {
    hide Eval, StrLong, CEval, SkipsFaulty;
    OffenderValid();
    var quotient := Binary(Char('/'), Literal("1"), Literal("0"));
    EvalAtom(Literal("0"), Nothing, live);
    EvalAtom(Literal("0"), Nothing, true);
    EvalAtom(Literal("0"), Nothing, false);
    EvalAtom(Literal("1"), Nothing, false);
    EvalBinary(Char('/'), Literal("1"), Literal("0"), Nothing, false);
    EvalAnd(Literal("0"), quotient, Nothing, live);
    CEvalAnd(Literal("0"), quotient, Nothing);
  }

  lemma CEvalAnd(a: Tree, b: Tree, m: Store)
    requires Valid(And(a, b)) && a.Literal?
    requires Eval(a, m, true) == Value(0, m)
    ensures CEval(And(a, b), m) == Value(0, m)
  {
    hide Eval;
    assert CEval(a, m) == Eval(a, m, true);
  }

  lemma OffenderAsksNothing()
    ensures Known(Offender(), map[])
  {
  }

  lemma SkippedDivisionFails(s: State)
    requires Ready(s) && s.stack == [] && s.vars == map[]
    ensures Valid(Offender()) && Spells(OffenderText, 0, Spell(Offender(), 0, Nil))
    ensures CEval(Offender(), Nothing) == Value(0, Nothing)
    ensures EvalExp(s, OffenderText).Fail? && EvalExp(s, OffenderText).error == DivisionByZero
  {
    hide EvalExp, Eval, CEval, Spell, Spells, Offender, OffenderText, Valid;
    OffenderValid();
    OffenderSpelling();
    OffenderSpelled();
    OffenderValues(true);
    OffenderAsksNothing();
    EvaluationIsTheTrees(Offender(), OffenderText, s, Nothing);
  }
}
