// Variables that hold any text: what the evaluator may change on the side of
// `&&', `||' and `?:' that C skips.

module ExprTexts {
  import opened Options
  import opened Numerals
  import opened Arithmetic
  import opened Expr
  import opened ExprTrees
  import opened ExprLexing
  import opened ExprParsing
  import opened ExprRoundTrip
  import opened ExprPrinting

  // The next token is a name.
  predicate AtName(s: State)
    requires Ready(s)
  {
    var i := SkipBlanks(s.cx.expr, s.cx.tp);
    i < |s.cx.expr| && NameStart(s.cx.expr[i])
  }

  function NextName(s: State): string
    requires Ready(s) && AtName(s)
  {
    var i := SkipBlanks(s.cx.expr, s.cx.tp);
    s.cx.expr[i..NameEnd(s.cx.expr, i)]
  }

  // The state in which the token behind the name is looked at.
  function LookingAhead(s: State): (p: State)
    requires Ready(s) && AtName(s)
    ensures Ready(p)
  {
    var i := SkipBlanks(s.cx.expr, s.cx.tp);
    Peeking(s.(cx := s.cx.(tp := i, tokstr := NextName(s))), NextName(s), i, NameEnd(s.cx.expr, i))
  }

  // A name with a value is next: the only token that can change a variable.
  predicate ReadsValue(s: State)
    requires Ready(s)
  {
    AtName(s) && NextName(s) in s.vars && s.vars[NextName(s)] != ""
  }

  // Reading it asks for that value: what follows can be read and is not `='.
  predicate Asks(s: State)
    requires Ready(s)
  {
    && ReadsValue(s)
    && CharAt(s.cx.expr, NameEnd(s.cx.expr, SkipBlanks(s.cx.expr, s.cx.tp))) != '['
    && ReadTok(LookingAhead(s)).Val?
    && (!Steady(s) || ReadTok(LookingAhead(s)).st.cx.curtok != Char('='))
  }

  // The state in which the value is evaluated; its variables are those of s.
  function Asking(s: State): (t: State)
    requires Ready(s) && AtName(s) && ReadTok(LookingAhead(s)).Val?
    ensures Ready(t) && t.vars == s.vars && t.cx.noeval == s.cx.noeval
  {
    var i := SkipBlanks(s.cx.expr, s.cx.tp);
    ReadTok(LookingAhead(s)).st.(cx := s.cx.(tp := i, tokstr := NextName(s)))
  }

  // Reading a token changes exactly what evaluating that value changes.
  lemma TokenEffect(s: State)
    requires Ready(s)
    ensures !Asks(s) ==> ReadTok(s).st.vars == s.vars
    ensures Asks(s) ==> ReadTok(s).st.vars == SubExpr(Asking(s), s.vars[NextName(s)]).st.vars
  {
    hide SubExpr;
    if AtName(s) {
      NameTurn(s);
      NameEffect(s);
    } else {
      hide ReadName;
    }
  }

  lemma NameEffect(s: State)
    requires Ready(s) && AtName(s)
    ensures var r := ReadName(s, SkipBlanks(s.cx.expr, s.cx.tp));
      && (!Asks(s) ==> r.st.vars == s.vars)
      && (Asks(s) ==> r.st.vars == SubExpr(Asking(s), s.vars[NextName(s)]).st.vars)
  {
    hide SubExpr, ReadTok, ReadName, NameValue, NameStart, CharAt, NameEnd;
    var i := SkipBlanks(s.cx.expr, s.cx.tp);
    var x, p := NextName(s), LookingAhead(s);
    if CharAt(s.cx.expr, i + |x|) != '[' && ReadTok(p).Val? {
      ReadNameIs(s, i, x, p, ReadTok(p).st, Asking(s));
      ValueAsked(s);
    } else {
      NameFails(s);
    }
  }

  // A subscript, or an error behind the name.
  lemma NameFails(s: State)
    requires Ready(s) && AtName(s)
    requires CharAt(s.cx.expr, NameEnd(s.cx.expr, SkipBlanks(s.cx.expr, s.cx.tp))) == '[' || ReadTok(LookingAhead(s)).Fail?
    ensures ReadName(s, SkipBlanks(s.cx.expr, s.cx.tp)).st.vars == s.vars
  {
    hide ReadTok, NameValue, NameStart, CharAt, NameEnd;
  }

  lemma ValueAsked(s: State)
    requires Ready(s) && AtName(s) && ReadTok(LookingAhead(s)).Val?
    requires CharAt(s.cx.expr, NameEnd(s.cx.expr, SkipBlanks(s.cx.expr, s.cx.tp))) != '['
    ensures var r := NameValue(Asking(s), NextName(s), ReadTok(LookingAhead(s)).st.cx.curtok);
      && (!Asks(s) ==> r.st.vars == s.vars)
      && (Asks(s) ==> r.st.vars == SubExpr(Asking(s), s.vars[NextName(s)]).st.vars)
  {
    hide SubExpr, ReadTok, NameStart, CharAt, NameEnd, AtName, NextName, LookingAhead;
  }

  // A name that holds a printed integer changes nothing either.
  lemma IntegerChangesNothing(s: State, v: int)
    requires Ready(s) && |s.stack| < MaxRecursion && IntMax(v)
    requires AtName(s) && NextName(s) in s.vars && s.vars[NextName(s)] == Itos(v)
    ensures ReadTok(s).st.vars == s.vars
  {
    hide SubExpr, ReadTok, Itos, AtName, NextName;
    TokenEffect(s);
    if Asks(s) { EvalPrinted(Asking(s), v); }
  }

  // ------------------------------------------------------------- && and ||

  // Once the left operand is true, || changes no variable, whatever they
  // hold, to the end of the chain.
  lemma {:induction false} UntakenOr(v: int, s: State)
    requires Ready(s) && v != 0
    ensures ContLor(v, s).st.vars == s.vars
    decreases Left(s)
  {
    hide ReadTok, Exp;
    if s.cx.curtok == LOr {
      var r := ReadTok(MoreNoeval(s, true));
      if r.Val? {
        var q := Exp(4, r.st);
        if q.Val? { UntakenOr(1, SetLast(LessNoeval(q.st, true), LOr)); }
      }
    }
  }

  lemma {:induction false} UntakenAnd(s: State)
    requires Ready(s)
    ensures ContLand(0, s).st.vars == s.vars
    decreases Left(s)
  {
    hide ReadTok, Exp;
    if s.cx.curtok == LAnd {
      var r := ReadTok(MoreNoeval(s, true));
      if r.Val? {
        var q := Exp(5, r.st);
        if q.Val? { UntakenAnd(SetLast(LessNoeval(q.st, true), LAnd)); }
      }
    }
  }

  // --------------------------------------------------------------- c ? a : b

  // The first token of the skipped side is read before noeval is raised, so
  // the skipped side changes what reading that token changes, and no more.
  lemma UntakenElse(v: int, a: int, s: State)
    requires Ready(s) && v != 0 && s.cx.curtok == Char(':')
    ensures CondElse(v, a, s).st.vars == ReadTok(s).st.vars
    ensures !Asks(s) ==> CondElse(v, a, s).st.vars == s.vars
  {
    hide Exp, ReadTok, Asks;
    TokenEffect(s);
  }

  // The same for the first side, up to the colon.
  lemma UntakenThen(s: State)
    requires Ready(s) && s.cx.curtok == Char('?') && ReadTok(s).Val?
    ensures Exp(0, MoreNoeval(ReadTok(s).st, true)).st.vars == ReadTok(s).st.vars
    ensures !Asks(s) ==> Exp(0, MoreNoeval(ReadTok(s).st, true)).st.vars == s.vars
  {
    hide Exp, ReadTok, Asks;
    TokenEffect(s);
  }

  // --------------------------------------------------------------- an input

  // 1?2:x while x holds `y=5'.  C skips x; here y is assigned.
  const LeakText := "1?2:x"

  const LeakVars := map["x" := "y=5"]

  const Leaked := map["x" := "y=5", "y" := "5"]

  const LeakStore := Store(map[], LeakVars)

  lemma NumeralsOfLeak()
    ensures ValidNumeral("1") && ValidNumeral("2") && ValidNumeral("5")
    ensures StrLong("1") == Ok(1) && StrLong("2") == Ok(2) && StrLong("5") == Ok(5) && Itos(5) == "5"
  {
    hide StrLong;
    DecimalRoundTrip(1);
    DecimalRoundTrip(2);
    DecimalRoundTrip(5);
    assert Dec(1) == "1" && Dec(2) == "2" && Dec(5) == "5";
  }

  // The text of x assigns y.
  function Assignment(): Tree { Set("y", Literal("5")) }

  lemma AssignmentSpelled()
    ensures Valid(Assignment()) && Known(Assignment(), LeakVars)
    ensures Spells("y=5", 0, Spell(Assignment(), 0, Nil))
  {
    NumeralsOfLeak();
    hide ValidNumeral, StrLong, Spells, Spell;
    var last := Cons(Number("5"), Nil);
    assert Spell(Assignment(), 0, Nil) == Cons(Ident("y"), Cons(Punct(Char('=')), last)) by {
      SpellSet("y", Literal("5"), Nil);
      SpellSame(Assignment(), 0, Nil);
      AtomAnywhere(Literal("5"), 1, Nil);
      SpellAtom(Literal("5"), Nil);
    }
    AssignmentAt();
    NothingLeft("y=5", 3);
    SpellsFrom("y=5", 2, Number("5"), Nil);
    SpellsFrom("y=5", 1, Punct(Char('=')), last);
    SpellsFrom("y=5", 0, Ident("y"), Cons(Punct(Char('=')), last));
  }

  lemma AssignmentAt()
    ensures var s := "y=5"; SpelledAt(s, 2, Number("5")) && SpelledAt(s, 1, Punct(Char('='))) && SpelledAt(s, 0, Ident("y"))
  {
    var s := "y=5";
    assert s[2..3] == "5" && s[1..2] == "=" && s[0..1] == "y";
  }

  // Evaluating the value of x.
  lemma AssignmentValue(s: State)
    requires Sound(s, LeakStore) && |s.stack| + 1 < MaxRecursion && Live(s)
    ensures var r := SubExpr(s, "y=5");
      r.Val? && r.val == 5 && r.st.vars == Leaked && r.st.cx == s.cx && r.st.stack == s.stack
  {
    hide SubExpr, Eval, Spell, Spells, Holds, Assignment;
    AssignmentSpelled();
    SubExprSpelled(Assignment(), "y=5", s, LeakStore);
    AssignmentEval();
    LeakedIs(SubExpr(s, "y=5").st.vars);
  }

  lemma AssignmentEval()
    ensures Valid(Assignment())
    ensures Eval(Assignment(), LeakStore, true) == Value(5, Store(map["y" := 5], LeakVars))
  {
    NumeralsOfLeak();
    hide StrLong, Eval;
    EvalSet("y", Literal("5"), LeakStore, true);
    EvalAtom(Literal("5"), LeakStore, true);
  }

  lemma LeakedIs(vars: map<string, string>)
    requires Holds(vars, Store(map["y" := 5], LeakVars))
    ensures vars == Leaked
  {
    NumeralsOfLeak();
    hide Itos;
  }

  function AfterQuestion(): Lexemes { Cons(Number("2"), AfterTwo()) }

  function AfterTwo(): Lexemes { Cons(Punct(Char(':')), Cons(Ident("x"), Nil)) }

  lemma LeakSpelled()
    ensures Spells(LeakText, 0, Cons(Number("1"), Cons(Punct(Char('?')), AfterQuestion())))
  {
    hide Spells;
    var s := LeakText;
    LeakAt();
    NothingLeft(s, 5);
    SpellsFrom(s, 4, Ident("x"), Nil);
    SpellsFrom(s, 3, Punct(Char(':')), Cons(Ident("x"), Nil));
    SpellsFrom(s, 2, Number("2"), AfterTwo());
    SpellsFrom(s, 1, Punct(Char('?')), AfterQuestion());
    SpellsFrom(s, 0, Number("1"), Cons(Punct(Char('?')), AfterQuestion()));
  }

  lemma LeakAt()
    ensures var s := LeakText;
      && SpelledAt(s, 4, Ident("x")) && SpelledAt(s, 3, Punct(Char(':'))) && SpelledAt(s, 2, Number("2"))
      && SpelledAt(s, 1, Punct(Char('?'))) && SpelledAt(s, 0, Number("1"))
  {
    var s := LeakText;
    assert s[4..5] == "x" && s[3..4] == ":" && s[2..3] == "2" && s[1..2] == "?" && s[0..1] == "1";
  }

  // Reading the name x at the end of the text evaluates it.
  lemma LeakRead(s: State) returns (t: State)
    requires Sound(s, LeakStore) && |s.stack| + 1 < MaxRecursion && Live(s)
    requires Spells(s.cx.expr, s.cx.tp, Cons(Ident("x"), Nil))
    ensures ReadTok(s) == Val(0, t) && Ready(t) && Spells(t.cx.expr, t.cx.tp, Nil) && Live(t)
    ensures t.vars == Leaked && t.stack == s.stack && t.cx.curtok == Str && t.cx.tokval == 5
  {
    hide SubExpr, SpelledAt, ReadTok, ReadName, NameValue, Holds;
    var i := SkipBlanks(s.cx.expr, s.cx.tp);
    NameIs(s.cx.expr, i, "x");
    NameTurn(s);
    var peeking := Peeking(s.(cx := s.cx.(tp := i, tokstr := "x")), "x", i, i + 1);
    ReadEndOfText(peeking);
    var peeked := ReadTok(peeking).st;
    var asking := peeked.(cx := s.cx.(tp := i, tokstr := "x"));
    ReadNameIs(s, i, "x", peeking, peeked, asking);
    LeakValue(asking);
    t := ReadTok(s).st;
  }

  lemma LeakValue(s: State)
    requires Sound(s, LeakStore) && |s.stack| + 1 < MaxRecursion && Live(s)
    ensures var r := NameValue(s, "x", End);
      r.Val? && r.val == 5 && r.st.vars == Leaked && r.st.cx == s.cx && r.st.stack == s.stack
  {
    hide SubExpr;
    AssignmentValue(s);
    assert "x" in s.vars && s.vars["x"] == "y=5";
  }

  // A name at the end of the text, whatever it holds, is its value.
  lemma LastName(s: State) returns (t: State)
    requires Ready(s) && s.cx.curtok == Str && Spells(s.cx.expr, s.cx.tp, Nil)
    ensures Exp(2, s) == Val(s.cx.tokval, t) && t.cx.curtok == End
    ensures Ready(t) && t.vars == s.vars && t.stack == s.stack && t.cx.noeval == s.cx.noeval
  {
    hide ReadTok, Exp0, Exp1, Spells;
    var peeking := s.(cx := s.cx.(tokstr := "", noeval := 1));
    ReadEndOfText(peeking);
    var back := PeekResult(ReadTok(peeking).st, s.cx, s.cx.tokval);
    ReadEndOfText(back);
    t := ReadTok(back).st;
    NameOperandIs(s, ReadTok(peeking).st, t);
    ExpLast(s);
    Climb(2, s, s.cx.tokval, t);
  }

  // From the colon on.
  lemma LeakElse(s: State) returns (t: State)
    requires Sound(s, LeakStore) && |s.stack| + 1 < MaxRecursion && Live(s) && s.cx.curtok == Char(':')
    requires Spells(s.cx.expr, s.cx.tp, Cons(Ident("x"), Nil))
    ensures CondElse(1, 2, s) == Val(2, t) && t.cx.curtok == End && Ready(t)
    ensures t.vars == Leaked && t.stack == s.stack
  {
    hide ReadTok, Exp, CondElse, Spells, Holds;
    var read := LeakRead(s);
    ElseStep(1, 2, s, read);
    var last := LastName(MoreNoeval(read, true));
    t := Resumed(last, true, Cond);
  }

  // From the question mark on.
  lemma LeakThen(s: State) returns (t: State)
    requires Usable(s, LeakStore) && |s.stack| + 1 < MaxRecursion && Live(s)
    requires Loaded(s, LeakStore, Cons(Punct(Char('?')), AfterQuestion()))
    ensures Cont(2, 1, s) == Val(2, t) && t.cx.curtok == End && Ready(t)
    ensures t.vars == Leaked && t.stack == s.stack
  {
    hide ReadTok, Exp, CondElse, Spells, Holds, Eval, Cont, ValidNumeral, StrLong;
    NumeralsOfLeak();
    var e, rest := Literal("2"), Cons(Ident("x"), Nil);
    CloseFollows(rest);
    SpellAtom(e, AfterTwo());
    AtomAnywhere(e, 0, AfterTwo());
    var s1 := OperatorNext(0, s, LeakStore, Char('?'), e, 0, AfterTwo(), false);
    var s2 := ParseLevel(0, e, s1, LeakStore, AfterTwo());
    EvalAtom(e, LeakStore, true);
    Parsed(0, e, s1, LeakStore, AfterTwo(), s2);
    Done(0, 2, s2, LeakStore, AfterTwo());
    CondStep(1, s, s1);
    t := LeakElse(s2);
  }

  // The whole text, from its first token.
  lemma LeakParsed(s: State) returns (t: State)
    requires Usable(s, LeakStore) && |s.stack| + 1 < MaxRecursion && Live(s)
    requires Loaded(s, LeakStore, Cons(Number("1"), Cons(Punct(Char('?')), AfterQuestion())))
    ensures Exp(0, s) == Val(2, t) && t.cx.curtok == End && Ready(t)
    ensures t.vars == Leaked && t.stack == s.stack
  {
    hide ReadTok, Exp, Spells, Holds, Eval, Cont, ValidNumeral, StrLong, AfterQuestion;
    NumeralsOfLeak();
    var e, rest := Literal("1"), Cons(Punct(Char('?')), AfterQuestion());
    SpellAtom(e, rest);
    AtomAnywhere(e, 3, rest);
    OperatorFollows(3, Char('?'), AfterQuestion());
    var s1 := ParseLevel(3, e, s, LeakStore, rest);
    EvalAtom(e, LeakStore, true);
    Parsed(3, e, s, LeakStore, rest, s1);
    Done(3, 1, s1, LeakStore, rest);
    t := LeakThen(s1);
    ExpStep(2, s);
    ExpStep(1, s);
    ContStops(1, 2, t);
    ExpStep(0, s);
    ContStops(0, 2, t);
  }

  lemma UntakenSideAssigns(s: State)
    requires Ready(s) && s.stack == [] && s.vars == LeakVars
    ensures var r := EvalExp(s, LeakText); r.Val? && r.val == 2 && r.st.vars == Leaked
  {
    hide ReadTok, Exp, Spells, Holds, ValidNumeral, StrLong, SubExpr;
    NumeralsOfLeak();
    LeakSpelled();
    HoldsTexts(s.vars);
    var p := Pushed(s.(cx := s.cx.(noeval := 0)), LeakText);
    var first := Next(p, LeakStore, Cons(Number("1"), Cons(Punct(Char('?')), AfterQuestion())));
    var last := LeakParsed(first);
    SubExprStep(s.(cx := s.cx.(noeval := 0)), LeakText, first);
  }

  lemma HoldsTexts(vars: map<string, string>)
    ensures Holds(vars, Store(map[], vars))
  {
  }
}
