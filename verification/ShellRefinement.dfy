// The counters and the marks of the executor carry out the structured
// semantics: every run has the same effects, status and outcome, unless the
// shell exits under `set -e' where the semantics ignores the failure; and
// that cannot happen in a program that never turns -e on inside a function
// body or a negated command.

module ShellRefinement {
  import opened ShellSemantics
  import opened ShellExecution

  // ------------------------------------------------------ what is compared

  // The counters spell the outcome.
  predicate Agrees(sh: Shell, status: int, jump: Jump, r: Run) {
    && status == r.status && Abs(sh) == r.st
    && match r.out
       case Normal => jump == Stay && !Skipping(sh)
       case Break(k) => jump == Stay && k > 0 && sh.breaking == k && sh.continuing == 0
       case Continue(k) => jump == Stay && k > 0 && sh.breaking == 0 && sh.continuing == k
       case Return => jump == ToReturn && !Skipping(sh)
       case ErrExit => jump == ToTop
       case NoFuel => jump == OutOfFuel
  }

  // The shell has exited early: under -e a command failed, up to which
  // everything was as in r.
  predicate Cut(sh: Shell, status: int, jump: Jump, r: Run) {
    jump == ToTop && sh.errexit && status != 0 && sh.last == status && sh.trace <= r.st.trace
  }

  // Unless `calm', the shell may also exit early.
  predicate Refines(calm: bool, sh: Shell, status: int, jump: Jump, r: Run) {
    Agrees(sh, status, jump, r) || (!calm && Cut(sh, status, jump, r))
  }

  // It exited just as early with respect to what follows.
  lemma CutOn(sh: Shell, status: int, jump: Jump, r: Run, q: Run)
    requires Extends(r.st, q)
    ensures Cut(sh, status, jump, r) ==> Cut(sh, status, jump, q) && jump == ToTop
  {
  }

  // ------------------------------------------------------------- the marks

  predicate Unmarked(t: Tree) { Strip(t) == t }

  // A mark is only found where the failure is ignored.
  predicate Sound(t: Tree, ctx: bool) {
    t.Null? || ((t.ignore ==> ctx || t.invert) && (t.inner ==> t.ignore) && SoundKind(t.kind, ctx || t.invert))
  }

  predicate SoundKind(k: Kind, c: bool) {
    match k
    case Group(b) => Sound(b, c)
    case Semi(a, b) => Sound(a, c) && Sound(b, c)
    case AndAnd(a, b) => Sound(a, true) && Sound(b, c)
    case OrOr(a, b) => Sound(a, true) && Sound(b, c)
    case If(test, a, b) => Sound(test, true) && Sound(a, c) && Sound(b, c)
    case While(_, test, a) => Sound(test, true) && Sound(a, c)
    case For(_, _, a) => Sound(a, c)
    case Case(_, cs) => SoundClauses(cs, c)
    case Define(_, b) => Unmarked(b)
    case _ => true
  }

  predicate SoundClauses(cs: Clauses, c: bool) {
    cs.NoClause? || (Sound(cs.action, c) && SoundClauses(cs.next, c))
  }

  predicate UnmarkedFunctions(fs: map<string, Tree>) { forall f | f in fs :: Unmarked(fs[f]) }

  // ---------------------------------------------------- where -e is turned on

  // No function body turns -e on; if strict, nothing does.
  predicate Tame(t: Tree, strict: bool) { t.Tree? ==> TameKind(t.kind, strict) }

  predicate TameKind(k: Kind, strict: bool) {
    match k
    case SetE(on) => strict ==> !on
    case Group(b) => Tame(b, strict)
    case Semi(a, b) => Tame(a, strict) && Tame(b, strict)
    case AndAnd(a, b) => Tame(a, strict) && Tame(b, strict)
    case OrOr(a, b) => Tame(a, strict) && Tame(b, strict)
    case If(test, a, b) => Tame(test, strict) && Tame(a, strict) && Tame(b, strict)
    case While(_, test, a) => Tame(test, strict) && Tame(a, strict)
    case For(_, _, a) => Tame(a, strict)
    case Case(_, cs) => TameClauses(cs, strict)
    case Define(_, b) => Tame(b, true)
    case _ => true
  }

  predicate TameClauses(cs: Clauses, strict: bool) {
    cs.NoClause? || (Tame(cs.action, strict) && TameClauses(cs.next, strict))
  }

  predicate TameFunctions(fs: map<string, Tree>) { forall f | f in fs :: Tame(fs[f], true) }

  // -e is not turned on under `!', except in a condition; pos: this command
  // stands in a condition; ctx: its failure is ignored.
  predicate Calm(t: Tree, ctx: bool, pos: bool) {
    t.Tree? ==>
      && Tame(t, (ctx || t.invert) && !pos)
      && CalmKind(t.kind, ctx || t.invert, pos)
  }

  predicate CalmKind(k: Kind, c: bool, pos: bool) {
    match k
    case Group(b) => Calm(b, c, pos)
    case Semi(a, b) => Calm(a, c, pos) && Calm(b, c, pos)
    case AndAnd(a, b) => Calm(a, true, true) && Calm(b, c, pos)
    case OrOr(a, b) => Calm(a, true, true) && Calm(b, c, pos)
    case If(test, a, b) => Calm(test, true, true) && Calm(a, c, pos) && Calm(b, c, pos)
    case While(_, test, a) => Calm(test, true, true) && Calm(a, c, pos)
    case For(_, _, a) => Calm(a, c, pos)
    case Case(_, cs) => CalmClauses(cs, c, pos)
    case _ => true
  }

  predicate CalmClauses(cs: Clauses, c: bool, pos: bool) {
    cs.NoClause? || (Calm(cs.action, c, pos) && CalmClauses(cs.next, c, pos))
  }

  // A tame run leaves the functions tame; a strict one turns -e on nowhere.
  predicate TameRun(s: St, r: Run, strict: bool) {
    TameFunctions(r.st.functions) && (strict && r.st.errexit ==> s.errexit)
  }

  lemma {:induction false} SemTame(t: Tree, at: At, s: St, w: World, fuel: nat, strict: bool)
    requires Tame(t, strict) && TameFunctions(s.functions)
    ensures TameRun(s, Sem(t, at, s, w, fuel), strict)
    decreases fuel, t, 2
  {
    if t.Tree? {
      hide SemKind, TameKind, TameFunctions;
      KindTame(t.kind, Inside(at, t), s, w, fuel, strict);
    }
  }

  lemma {:induction false} KindTame(k: Kind, at: At, s: St, w: World, fuel: nat, strict: bool)
    requires TameKind(k, strict) && TameFunctions(s.functions)
    ensures TameRun(s, SemKind(k, at, s, w, fuel), strict)
    decreases fuel, k, 1
  {
    hide Sem, Loop, Each, Cases, Tame;
    match k
    case Call(f) =>
      if f in s.functions && fuel > 0 {
        SemTame(s.functions[f], at.(calls := at.calls + 1), s, w, fuel - 1, true);
      }
    case Group(body) =>
      hide TameFunctions;
      SemTame(body, at, s, w, fuel, strict);
    case Semi(a, b) =>
      hide TameFunctions;
      SemTame(a, at, s, w, fuel, strict);
      SemTame(b, at, Sem(a, at, s, w, fuel).st, w, fuel, strict);
    case AndAnd(a, b) =>
      hide TameFunctions;
      SemTame(a, Ignoring(at), s, w, fuel, strict);
      SemTame(b, at, Sem(a, Ignoring(at), s, w, fuel).st, w, fuel, strict);
    case OrOr(a, b) =>
      hide TameFunctions;
      SemTame(a, Ignoring(at), s, w, fuel, strict);
      SemTame(b, at, Sem(a, Ignoring(at), s, w, fuel).st, w, fuel, strict);
    case If(test, yes, no) =>
      hide TameFunctions;
      SemTame(test, Ignoring(at), s, w, fuel, strict);
      SemTame(yes, at, Sem(test, Ignoring(at), s, w, fuel).st, w, fuel, strict);
      SemTame(no, at, Sem(test, Ignoring(at), s, w, fuel).st, w, fuel, strict);
    case While(_, _, _) =>
      hide TameFunctions;
      LoopTame(k, InLoop(at), s, 0, w, fuel, strict);
    case For(_, words, _) =>
      hide TameFunctions;
      EachTame(k, w.expand(s.trace, s.last, words), InLoop(at), s, 0, w, fuel, strict);
    case Case(x, cs) =>
      hide TameFunctions;
      CasesTame(x, cs, false, at, s, 0, w, fuel, strict);
    case _ =>
  }

  lemma {:induction false} LoopTame(k: Kind, at: At, s: St, status: int, w: World, fuel: nat, strict: bool)
    requires k.While? && TameKind(k, strict) && TameFunctions(s.functions)
    ensures TameRun(s, Loop(k, at, s, status, w, fuel), strict)
    decreases fuel, k, 0
  {
    hide Sem, Tame, TameFunctions;
    SemTame(k.test, Ignoring(at), s, w, fuel, strict);
    var r := Sem(k.test, Ignoring(at), s, w, fuel);
    SemTame(k.action, at, r.st, w, fuel, strict);
    var b := if r.out.Normal? then Sem(k.action, at, r.st, w, fuel) else r;
    if fuel > 0 { LoopTame(k, at, b.st, b.status, w, fuel - 1, strict); }
  }

  lemma {:induction false} EachTame(k: Kind, values: seq<string>, at: At, s: St, status: int, w: World,
                                    fuel: nat, strict: bool)
    requires k.For? && TameKind(k, strict) && TameFunctions(s.functions)
    ensures TameRun(s, Each(k, values, at, s, status, w, fuel), strict)
    decreases fuel, k, 0, |values|
  {
    if values != [] {
      hide Sem, Tame, TameFunctions;
      var s1 := s.(trace := s.trace + [Bound(k.name, values[0])]);
      SemTame(k.action, at, s1, w, fuel, strict);
      var b := Sem(k.action, at, s1, w, fuel);
      EachTame(k, values[1..], at, b.st, b.status, w, fuel, strict);
    }
  }

  lemma {:induction false} CasesTame(x: string, c: Clauses, fall: bool, at: At, s: St, status: int, w: World,
                                     fuel: nat, strict: bool)
    requires TameClauses(c, strict) && TameFunctions(s.functions)
    ensures TameRun(s, Cases(x, c, fall, at, s, status, w, fuel), strict)
    decreases fuel, c, 1
  {
    if c.Clause? {
      hide Sem, Tame, TameFunctions, Matches;
      SemTame(c.action, at, s, w, fuel, strict);
      var r := Sem(c.action, at, s, w, fuel);
      CasesTame(x, c.next, false, at, s, status, w, fuel, strict);
      CasesTame(x, c.next, c.mode.FallThrough?, at, r.st, r.status, w, fuel, strict);
    }
  }

  // ---------------------------------------------------------- the invariants

  predicate Ready(at: At, sh: Shell) {
    !Skipping(sh) && sh.level == at.level && sh.catching == at.calls && UnmarkedFunctions(sh.functions)
  }

  // `ignore' is what is handed down as marks at this place: never too much,
  // and, when calm, enough whenever -e is on.
  predicate Covered(calm: bool, ignore: bool, at: At, pos: bool, sh: Shell) {
    && Ready(at, sh) && (ignore ==> at.ignore) && (pos ==> at.ignore)
    && (calm ==> TameFunctions(sh.functions) && (pos || (sh.errexit && at.ignore) ==> ignore))
  }

  // A command that may be executed at this place.
  predicate Primed(calm: bool, t: Tree, at: At, pos: bool, sh: Shell) {
    && Ready(at, sh) && Sound(t, at.ignore) && (pos ==> at.ignore)
    && (calm ==>
          && TameFunctions(sh.functions) && Calm(Strip(t), at.ignore, pos)
          && (t.Tree? && (pos || (sh.errexit && at.ignore)) ==> t.ignore))
  }

  // What holds after a command, r being its meaning.
  predicate Held(calm: bool, t: Tree, ctx: bool, d: Done, r: Run) {
    && Refines(calm, d.sh, d.status, d.jump, r)
    && Sound(d.tree, ctx) && UnmarkedFunctions(d.sh.functions)
    && (t.Tree? ==> d.tree.Tree? && (t.ignore ==> d.tree.ignore) && (d.jump == Stay ==> d.sh.last == d.status))
    && (t.Null? ==> d.tree == t && r.out == Normal)
  }

  predicate HeldKind(calm: bool, ctx: bool, d: KindDone, r: Run) {
    && Refines(calm, d.sh, d.status, d.jump, r)
    && SoundKind(d.kind, ctx) && UnmarkedFunctions(d.sh.functions)
  }

  lemma KidPrimed(calm: bool, t: Tree, ignore: bool, at: At, pos: bool, sh: Shell)
    requires Covered(calm, ignore, at, pos, sh) && Sound(t, at.ignore)
    requires calm ==> Calm(Strip(t), at.ignore, pos)
    ensures Primed(calm, Mark(t, ignore), at, pos, sh)
  {
    hide Calm, SoundKind, UnmarkedFunctions, TameFunctions;
  }

  lemma TestPrimed(calm: bool, t: Tree, ignore: bool, at: At, pos: bool, sh: Shell)
    requires Covered(calm, ignore, at, pos, sh) && Sound(t, true)
    requires calm ==> Calm(Strip(t), true, true)
    ensures Primed(calm, Mark(t, true), Ignoring(at), true, sh)
  {
    hide Calm, SoundKind, UnmarkedFunctions, TameFunctions;
  }

  // After the first of two commands, the next one is covered as well.
  lemma StillCovered(calm: bool, t: Tree, ignore: bool, at: At, at1: At, pos: bool, sh: Shell, w: World, fuel: nat,
                     d: Done)
    requires Covered(calm, ignore, at, pos, sh) && at1 == at.(ignore := at1.ignore)
    requires calm ==> Tame(t, at.ignore && !pos)
    requires Agrees(d.sh, d.status, d.jump, Sem(t, at1, Abs(sh), w, fuel)) && Restored(sh, d.sh, d.jump)
    requires UnmarkedFunctions(d.sh.functions)
    ensures Sem(t, at1, Abs(sh), w, fuel).out.Normal? ==> Covered(calm, ignore, at, pos, d.sh)
    ensures calm ==> TameFunctions(d.sh.functions)
  {
    hide Sem, TameFunctions, UnmarkedFunctions, Tame;
    if calm { SemTame(t, at1, Abs(sh), w, fuel, at.ignore && !pos); }
  }

  lemma SkippedExec(t: Tree, sh: Shell, w: World, fuel: nat)
    requires Skipping(sh)
    ensures Exec(t, sh, w, fuel) == Done(t, sh, sh.last, Stay)
  {
    hide ExecKind;
  }

  lemma MarkedSound(t: Tree, ignore: bool, c: bool)
    requires Sound(t, c) && (ignore ==> c)
    ensures Sound(Mark(t, ignore), c)
  {
    hide SoundKind;
  }

  // ----------------------------------------------------------- the induction

  lemma {:induction false} RefineSemi(calm: bool, a: Tree, b: Tree, ignore: bool, at: At, pos: bool, sh: Shell,
                                      w: World, fuel: nat)
    requires Covered(calm, ignore, at, pos, sh) && SoundKind(Semi(a, b), at.ignore)
    requires calm ==> CalmKind(StripKind(Semi(a, b)), at.ignore, pos)
    requires calm ==> TameKind(StripKind(Semi(a, b)), at.ignore && !pos)
    ensures HeldKind(calm, at.ignore, ExecSemi(a, b, ignore, sh, w, fuel),
                     SemKind(StripKind(Semi(a, b)), at, Abs(sh), w, fuel))
    decreases fuel, StripKind(Semi(a, b)), 0
  {
    hide Exec, Sem, Covered, Primed, Sound, Calm, Tame, UnmarkedFunctions, Loop, Each, Cases, Cut;
    KidPrimed(calm, a, ignore, at, pos, sh);
    RefineExec(calm, Mark(a, ignore), at, pos, sh, w, fuel);
    var d := Exec(Mark(a, ignore), sh, w, fuel);
    var r := Sem(Strip(a), at, Abs(sh), w, fuel);
    CutBySecond(d, r, Strip(b), at, w, fuel);
    CoveredMark(calm, ignore, at, pos, sh);
    MarkedSound(b, ignore, at.ignore);
    if Agrees(d.sh, d.status, d.jump, r) && d.jump == Stay {
      if r.out.Normal? {
        StillCovered(calm, Strip(a), ignore, at, at, pos, sh, w, fuel, d);
        KidPrimed(calm, b, ignore, at, pos, d.sh);
        RefineExec(calm, Mark(b, ignore), at, pos, d.sh, w, fuel);
      } else {
        SkippedExec(Mark(b, ignore), d.sh, w, fuel);
      }
    }
  }

  // An exit in the first of two commands.
  lemma CutBySecond(d: Done, r: Run, t: Tree, at: At, w: World, fuel: nat)
    ensures Cut(d.sh, d.status, d.jump, r) ==> Cut(d.sh, d.status, d.jump, Sem(t, at, r.st, w, fuel)) && d.jump == ToTop
  {
    hide Sem;
    SemExtends(t, at, r.st, w, fuel);
    CutOn(d.sh, d.status, d.jump, r, Sem(t, at, r.st, w, fuel));
  }

  lemma CoveredMark(calm: bool, ignore: bool, at: At, pos: bool, sh: Shell)
    requires Covered(calm, ignore, at, pos, sh)
    ensures ignore ==> at.ignore
  {
  }

  lemma {:induction false} RefineAndOr(calm: bool, and: bool, a: Tree, b: Tree, ignore: bool, at: At, pos: bool,
                                       sh: Shell, w: World, fuel: nat)
    requires Covered(calm, ignore, at, pos, sh) && SoundKind(AndOr(and, a, b), at.ignore)
    requires calm ==> CalmKind(StripKind(AndOr(and, a, b)), at.ignore, pos)
    requires calm ==> TameKind(StripKind(AndOr(and, a, b)), at.ignore && !pos)
    ensures HeldKind(calm, at.ignore, ExecAndOr(and, a, b, ignore, sh, w, fuel),
                     SemKind(StripKind(AndOr(and, a, b)), at, Abs(sh), w, fuel))
    decreases fuel, StripKind(AndOr(and, a, b)), 0
  {
    hide Exec, Sem, Covered, Primed, Sound, Calm, Tame, UnmarkedFunctions, Loop, Each, Cases, Cut, Agrees, ExecAndOr;
    AndOrPlaced(calm, and, a, b, at.ignore, pos);
    TestPrimed(calm, a, ignore, at, pos, sh);
    RefineExec(calm, Mark(a, true), Ignoring(at), true, sh, w, fuel);
    var d := Exec(Mark(a, true), sh, w, fuel);
    var r := Sem(Strip(a), Ignoring(at), Abs(sh), w, fuel);
    CutBySecond(d, r, Strip(b), at, w, fuel);
    CoveredMark(calm, ignore, at, pos, sh);
    MarkedSound(b, ignore, at.ignore);
    SemAndOr(and, a, b, at, Abs(sh), w, fuel);
    AndOrIs(and, a, b, ignore, sh, w, fuel);
    hide SemKind, SoundKind, CalmKind, TameKind;
    if d.jump != Stay || (d.status == 0) != and {
      AndOrSound(and, d.tree, b, at.ignore);
      FirstDecides(calm, and, d, r, Sem(Strip(b), at, r.st, w, fuel));
    } else {
      StayAgrees(d, r);
      if r.out.Normal? {
        StillCovered(calm, Strip(a), ignore, at, Ignoring(at), pos, sh, w, fuel, d);
          KidPrimed(calm, b, ignore, at, pos, d.sh);
        RefineExec(calm, Mark(b, ignore), at, pos, d.sh, w, fuel);
        AndOrSound(and, d.tree, Exec(Mark(b, ignore), d.sh, w, fuel).tree, at.ignore);
      } else {
          SkippedExec(Mark(b, ignore), d.sh, w, fuel);
        AndOrSound(and, d.tree, Mark(b, ignore), at.ignore);
      }
    }
  }

  lemma AndOrSound(and: bool, a: Tree, b: Tree, c: bool)
    requires Sound(a, true) && Sound(b, c)
    ensures SoundKind(AndOr(and, a, b), c)
  {
    hide Sound;
  }

  // What the operands of a list may be.
  lemma AndOrPlaced(calm: bool, and: bool, a: Tree, b: Tree, c: bool, pos: bool)
    requires SoundKind(AndOr(and, a, b), c)
    requires calm ==> CalmKind(StripKind(AndOr(and, a, b)), c, pos) && TameKind(StripKind(AndOr(and, a, b)), c && !pos)
    ensures Sound(a, true) && Sound(b, c)
    ensures calm ==> Calm(Strip(a), true, true) && Calm(Strip(b), c, pos)
    ensures calm ==> Tame(Strip(a), c && !pos) && Tame(Strip(b), c && !pos)
  {
    hide Sound, Calm, Tame;
  }

  lemma AndOrIs(and: bool, a: Tree, b: Tree, ignore: bool, sh: Shell, w: World, fuel: nat)
    ensures var d := Exec(Mark(a, true), sh, w, fuel);
      ExecAndOr(and, a, b, ignore, sh, w, fuel) ==
      if d.jump != Stay || (d.status == 0) != and then KindDone(AndOr(and, d.tree, b), d.sh, d.status, d.jump)
      else
        var e := Exec(Mark(b, ignore), d.sh, w, fuel);
        KindDone(AndOr(and, d.tree, e.tree), e.sh, e.status, e.jump)
  {
    hide Exec;
  }

  lemma SemAndOr(and: bool, a: Tree, b: Tree, at: At, st: St, w: World, fuel: nat)
    ensures SemKind(StripKind(AndOr(and, a, b)), at, st, w, fuel) ==
            var r := Sem(Strip(a), Ignoring(at), st, w, fuel);
            if r.out.Normal? && (r.status == 0) == and then Sem(Strip(b), at, r.st, w, fuel) else r
  {
    hide Sem;
  }

  // The first command's status decides, or it left.
  lemma FirstDecides(calm: bool, and: bool, d: Done, r: Run, q: Run)
    requires Refines(calm, d.sh, d.status, d.jump, r) && (d.jump != Stay || (d.status == 0) != and)
    requires Cut(d.sh, d.status, d.jump, r) ==> Cut(d.sh, d.status, d.jump, q)
    ensures Refines(calm, d.sh, d.status, d.jump, if r.out.Normal? && (r.status == 0) == and then q else r)
  {
    hide Cut;
  }

  lemma StayAgrees(d: Done, r: Run)
    requires Agrees(d.sh, d.status, d.jump, r) && d.jump == Stay
    ensures d.status == r.status && Abs(d.sh) == r.st && (r.out.Normal? <==> !Skipping(d.sh))
  {
  }

  lemma {:induction false} RefineIf(calm: bool, k: Kind, ignore: bool, at: At, pos: bool, sh: Shell, w: World,
                                    fuel: nat)
    requires k.If? && Covered(calm, ignore, at, pos, sh) && SoundKind(k, at.ignore)
    requires calm ==> CalmKind(StripKind(k), at.ignore, pos) && TameKind(StripKind(k), at.ignore && !pos)
    ensures HeldKind(calm, at.ignore, ExecIf(k.test, k.yes, k.no, ignore, sh, w, fuel),
                     SemKind(StripKind(k), at, Abs(sh), w, fuel))
    decreases fuel, StripKind(k), 0
  {
    hide Exec, Sem, Covered, Primed, Sound, Calm, Tame, UnmarkedFunctions, Loop, Each, Cases, Cut;
    TestPrimed(calm, k.test, ignore, at, pos, sh);
    RefineExec(calm, Mark(k.test, true), Ignoring(at), true, sh, w, fuel);
    var d := Exec(Mark(k.test, true), sh, w, fuel);
    var r := Sem(Strip(k.test), Ignoring(at), Abs(sh), w, fuel);
    CutBySecond(d, r, if r.status == 0 then Strip(k.yes) else Strip(k.no), at, w, fuel);
    if Agrees(d.sh, d.status, d.jump, r) && d.jump == Stay {
      var branch := if r.status == 0 then k.yes else k.no;
      if r.out.Normal? {
        StillCovered(calm, Strip(k.test), ignore, at, Ignoring(at), pos, sh, w, fuel, d);
        KidPrimed(calm, branch, ignore, at, pos, d.sh);
        RefineExec(calm, Mark(branch, ignore), at, pos, d.sh, w, fuel);
      } else {
        CoveredMark(calm, ignore, at, pos, sh);
        MarkedSound(branch, ignore, at.ignore);
        SkippedExec(Mark(branch, ignore), d.sh, w, fuel);
      }
    }
  }

  // A function runs on an unmarked copy of its body.
  lemma UnmarkedSound(t: Tree, c: bool)
    requires Unmarked(t)
    ensures Sound(t, c)
    decreases t, 1
  {
    if t.Tree? { UnmarkedKindSound(t.kind, c || t.invert); }
  }

  lemma UnmarkedKindSound(k: Kind, c: bool)
    requires StripKind(k) == k
    ensures SoundKind(k, c)
    decreases k, 1
  {
    match k
    case Group(b) => UnmarkedSound(b, c);
    case Semi(a, b) => UnmarkedSound(a, c); UnmarkedSound(b, c);
    case AndAnd(a, b) => UnmarkedSound(a, true); UnmarkedSound(b, c);
    case OrOr(a, b) => UnmarkedSound(a, true); UnmarkedSound(b, c);
    case If(test, a, b) => UnmarkedSound(test, true); UnmarkedSound(a, c); UnmarkedSound(b, c);
    case While(_, test, a) => UnmarkedSound(test, true); UnmarkedSound(a, c);
    case For(_, _, a) => UnmarkedSound(a, c);
    case Case(_, cs) => UnmarkedClausesSound(cs, c);
    case _ =>
  }

  lemma UnmarkedClausesSound(cs: Clauses, c: bool)
    requires StripClauses(cs) == cs
    ensures SoundClauses(cs, c)
    decreases cs, 1
  {
    if cs.Clause? {
      UnmarkedSound(cs.action, c);
      UnmarkedClausesSound(cs.next, c);
    }
  }

  lemma {:induction false} TameWeak(t: Tree, strict: bool)
    requires Tame(t, true)
    ensures Tame(t, strict)
    decreases t, 1
  {
    if t.Tree? { TameKindWeak(t.kind, strict); }
  }

  lemma {:induction false} TameKindWeak(k: Kind, strict: bool)
    requires TameKind(k, true)
    ensures TameKind(k, strict)
    decreases k, 1
  {
    match k
    case Group(b) => TameWeak(b, strict);
    case Semi(a, b) => TameWeak(a, strict); TameWeak(b, strict);
    case AndAnd(a, b) => TameWeak(a, strict); TameWeak(b, strict);
    case OrOr(a, b) => TameWeak(a, strict); TameWeak(b, strict);
    case If(test, a, b) => TameWeak(test, strict); TameWeak(a, strict); TameWeak(b, strict);
    case While(_, test, a) => TameWeak(test, strict); TameWeak(a, strict);
    case For(_, _, a) => TameWeak(a, strict);
    case Case(_, cs) => TameClausesWeak(cs, strict);
    case _ =>
  }

  lemma {:induction false} TameClausesWeak(cs: Clauses, strict: bool)
    requires TameClauses(cs, true)
    ensures TameClauses(cs, strict)
    decreases cs, 1
  {
    if cs.Clause? {
      TameWeak(cs.action, strict);
      TameClausesWeak(cs.next, strict);
    }
  }

  lemma {:induction false} TameIsCalm(t: Tree, ctx: bool, pos: bool)
    requires Tame(t, true)
    ensures Calm(t, ctx, pos)
    decreases t, 2
  {
    TameWeak(t, t.Tree? && (ctx || t.invert) && !pos);
    if t.Tree? { TameKindIsCalm(t.kind, ctx || t.invert, pos); }
  }

  lemma {:induction false} TameKindIsCalm(k: Kind, c: bool, pos: bool)
    requires TameKind(k, true)
    ensures CalmKind(k, c, pos)
    decreases k, 1
  {
    match k
    case Group(b) => TameIsCalm(b, c, pos);
    case Semi(a, b) => TameIsCalm(a, c, pos); TameIsCalm(b, c, pos);
    case AndAnd(a, b) => TameIsCalm(a, true, true); TameIsCalm(b, c, pos);
    case OrOr(a, b) => TameIsCalm(a, true, true); TameIsCalm(b, c, pos);
    case If(test, a, b) => TameIsCalm(test, true, true); TameIsCalm(a, c, pos); TameIsCalm(b, c, pos);
    case While(_, test, a) => TameIsCalm(test, true, true); TameIsCalm(a, c, pos);
    case For(_, _, a) => TameIsCalm(a, c, pos);
    case Case(_, cs) => TameClausesCalm(cs, c, pos);
    case _ =>
  }

  lemma {:induction false} TameClausesCalm(cs: Clauses, c: bool, pos: bool)
    requires TameClauses(cs, true)
    ensures CalmClauses(cs, c, pos)
    decreases cs, 1
  {
    if cs.Clause? {
      TameIsCalm(cs.action, c, pos);
      TameClausesCalm(cs.next, c, pos);
    }
  }

  lemma BodyPrimed(calm: bool, f: string, ignore: bool, at: At, pos: bool, sh: Shell)
    requires Covered(calm, ignore, at, pos, sh) && f in sh.functions
    ensures Unmarked(sh.functions[f])
    ensures Primed(calm, Mark(sh.functions[f], ignore), at.(calls := at.calls + 1), pos,
                   sh.(catching := sh.catching + 1))
  {
    hide Calm, SoundKind, Tame, Strip, Sound;
    assert Unmarked(sh.functions[f]);
    UnmarkedSound(sh.functions[f], at.ignore);
    if calm { TameIsCalm(sh.functions[f], at.ignore, pos); }
    var at1, sh1 := at.(calls := at.calls + 1), sh.(catching := sh.catching + 1);
    assert Covered(calm, ignore, at1, pos, sh1);
    KidPrimed(calm, sh.functions[f], ignore, at1, pos, sh1);
  }

  lemma {:induction false} RefineCall(calm: bool, f: string, ignore: bool, at: At, pos: bool, sh: Shell, w: World,
                                      fuel: nat)
    requires Covered(calm, ignore, at, pos, sh)
    ensures HeldKind(calm, at.ignore, ExecFunction(f, ignore, sh, w, fuel), SemKind(Call(f), at, Abs(sh), w, fuel))
    decreases fuel, Call(f), 0
  {
    hide Exec, Sem, Primed, Sound, Calm, Tame, UnmarkedFunctions, Loop, Each, Cases;
    if f in sh.functions && fuel > 0 {
      BodyPrimed(calm, f, ignore, at, pos, sh);
      RefineExec(calm, Mark(sh.functions[f], ignore), at.(calls := at.calls + 1), pos,
                 sh.(catching := sh.catching + 1), w, fuel - 1);
    }
  }

  // -------------------------------------------------------------- the loops

  // What was primed before a run stays so after it: marks are kept, and -e was
  // not turned on where that matters.
  lemma Carried(calm: bool, x: Tree, y: Tree, at: At, pos: bool, sh: Shell, after: Shell)
    requires Primed(calm, x, at, pos, sh) && Ready(at, after)
    requires Strip(y) == Strip(x) && Sound(y, at.ignore) && (x.Tree? && x.ignore ==> y.Tree? && y.ignore)
    requires calm ==> TameFunctions(after.functions)
    requires calm && at.ignore && !pos && after.errexit ==> sh.errexit
    ensures Primed(calm, y, at, pos, after)
  {
    hide Calm, SoundKind, TameFunctions, UnmarkedFunctions, Sound;
  }

  // A loop whose test and action may be executed, once more and again.
  predicate PrimedLoop(calm: bool, test: Tree, action: Tree, at: At, pos: bool, sh: Shell) {
    && Primed(calm, test, Ignoring(at), true, sh) && Primed(calm, action, at, pos, sh)
    && (calm ==> Tame(Strip(test), at.ignore && !pos) && Tame(Strip(action), at.ignore && !pos))
  }

  // After one command of the loop ran, with its counters cleared.
  lemma LoopCarried(calm: bool, x: Tree, at1: At, test: Tree, action: Tree, test1: Tree, action1: Tree,
                    at: At, pos: bool, sh: Shell, after: Shell, w: World, fuel: nat)
    requires PrimedLoop(calm, test, action, at, pos, sh)
    requires Strip(test1) == Strip(test) && Sound(test1, true) && (test.Tree? && test.ignore ==> test1.ignore)
    requires Strip(action1) == Strip(action) && Sound(action1, at.ignore)
    requires action.Tree? && action.ignore ==> action1.ignore
    requires calm ==> Tame(x, at.ignore && !pos)
    requires Abs(after) == Sem(x, at1, Abs(sh), w, fuel).st && !Skipping(after)
    requires after.level == sh.level && after.catching == sh.catching && UnmarkedFunctions(after.functions)
    ensures PrimedLoop(calm, test1, action1, at, pos, after)
  {
    hide Calm, SoundKind, TameFunctions, UnmarkedFunctions, Sound, Sem, Tame;
    if calm { SemTame(x, at1, Abs(sh), w, fuel, at.ignore && !pos); }
    hide Primed;
    PrimedReady(calm, test, Ignoring(at), true, sh);
    Carried(calm, test, test1, Ignoring(at), true, sh, after);
    Carried(calm, action, action1, at, pos, sh, after);
  }

  lemma PrimedReady(calm: bool, t: Tree, at: At, pos: bool, sh: Shell)
    requires Primed(calm, t, at, pos, sh)
    ensures sh.level == at.level && sh.catching == at.calls && !Skipping(sh)
    ensures calm ==> TameFunctions(sh.functions)
  {
  }

  // The counters after a turn say what the outcome says.
  lemma CountersLeave(sh: Shell, status: int, jump: Jump, b: Run)
    requires Agrees(sh, status, jump, b) && jump == Stay
    ensures !Jumps(b.out) && (LeavesLoop(sh) <==> !Again(b.out))
    ensures !Again(b.out) ==>
              Agrees(CountDown(sh).(level := 0), status, Stay, Run(b.st, b.status, Leave(b.out)))
    ensures Again(b.out) ==> !Skipping(CountDown(sh)) && Abs(CountDown(sh)) == b.st
  {
  }

  lemma CountersByTest(sh: Shell, status: int, jump: Jump, b: Run, last: int)
    requires Agrees(sh, status, jump, b) && jump == Stay
    ensures Agrees(CountBreak(sh).(level := 0), last, Stay, Run(b.st, last, LeaveByTest(b.out)))
  {
  }

  lemma LevelIsInvisible(sh: Shell, level: nat, status: int, jump: Jump, r: Run)
    ensures Agrees(sh.(level := level), status, jump, r) == Agrees(sh.(level := 0), status, jump, r)
  {
  }

  lemma JumpsAgree(sh: Shell, status: int, jump: Jump, r: Run)
    requires Agrees(sh, status, jump, r)
    ensures Jumps(r.out) <==> jump != Stay
    ensures r.status == status && r.st == Abs(sh)
  {
  }

  // The loop from its test on, given what happens from its action on.
  lemma LoopCombine(calm: bool, k: Kind, at: At, sh: Shell, status: int, w: World, fuel: nat)
    requires k.While? && sh.level > 0 && Sound(k.action, at.ignore)
    requires var t, r := Exec(k.test, sh, w, fuel), Sem(Strip(k.test), Ignoring(at), Abs(sh), w, fuel);
      && Refines(calm, t.sh, t.status, t.jump, r) && Sound(t.tree, true) && UnmarkedFunctions(t.sh.functions)
      && (Agrees(t.sh, t.status, t.jump, r) && GoesOn(k, r) ==> RefinesOn(calm, k, at, t, r, w, fuel))
    ensures HeldKind(calm, at.ignore, ExecLoop(k, sh, status, w, fuel),
                     Loop(StripKind(k), at, Abs(sh), status, w, fuel))
  {
    hide Exec, Sem, Sound, UnmarkedFunctions, Agrees, LeaveByTest, Jumps, LoopOn, ExecTurn;
    var t, r := Exec(k.test, sh, w, fuel), Sem(Strip(k.test), Ignoring(at), Abs(sh), w, fuel);
    CutByLoop(t, r, k, at, w, fuel);
    if Agrees(t.sh, t.status, t.jump, r) {
      JumpsAgree(t.sh, t.status, t.jump, r);
      if !GoesOn(k, r) && t.jump == Stay {
        CountersByTest(t.sh, t.status, t.jump, r, status);
        LevelIsInvisible(CountBreak(t.sh), t.sh.level - 1, status, Stay, Run(r.st, status, LeaveByTest(r.out)));
      }
    }
  }

  // An exit in the test of a loop.
  lemma CutByLoop(t: Done, r: Run, k: Kind, at: At, w: World, fuel: nat)
    requires k.While?
    ensures var b := if r.out.Normal? then Sem(Strip(k.action), at, r.st, w, fuel) else r;
      Cut(t.sh, t.status, t.jump, r) ==>
        Cut(t.sh, t.status, t.jump, LoopOn(StripKind(k), at, b, w, fuel)) && t.jump == ToTop
  {
    hide Sem, LoopOn;
    var b := if r.out.Normal? then Sem(Strip(k.action), at, r.st, w, fuel) else r;
    SemExtends(Strip(k.action), at, r.st, w, fuel);
    LoopOnExtends(StripKind(k), at, b, w, fuel);
  }

  predicate GoesOn(k: Kind, r: Run)
    requires k.While?
  {
    !Jumps(r.out) && (r.status == 0) != k.until
  }

  // From the action on, t and r being the test.
  predicate RefinesOn(calm: bool, k: Kind, at: At, t: Done, r: Run, w: World, fuel: nat)
    requires k.While?
  {
    var a := Exec(k.action, t.sh, w, fuel);
    var b := if r.out.Normal? then Sem(Strip(k.action), at, r.st, w, fuel) else r;
    && (a.jump == Stay ==> a.sh.level > 0)
    && HeldKind(calm, at.ignore, ExecTurn(While(k.until, t.tree, a.tree), a, w, fuel),
                LoopOn(StripKind(k), at, b, w, fuel))
  }

  lemma {:induction false} RefineLoop(calm: bool, k: Kind, at: At, pos: bool, sh: Shell, status: int, w: World,
                                      fuel: nat)
    requires k.While? && PrimedLoop(calm, k.test, k.action, at, pos, sh) && at.level > 0
    ensures sh.level > 0
    ensures HeldKind(calm, at.ignore, ExecLoop(k, sh, status, w, fuel),
                     Loop(StripKind(k), at, Abs(sh), status, w, fuel))
    decreases fuel, StripKind(k), 1
  {
    hide Exec, Sem, Primed, PrimedLoop, UnmarkedFunctions, TameFunctions, ExecLoop, Loop, Sound, RefinesOn;
    PrimedTest(calm, k.test, k.action, at, pos, sh);
    RefineExec(calm, k.test, Ignoring(at), true, sh, w, fuel);
    var t := Exec(k.test, sh, w, fuel);
    var r := Sem(Strip(k.test), Ignoring(at), Abs(sh), w, fuel);
    if Agrees(t.sh, t.status, t.jump, r) && GoesOn(k, r) {
      RefineAction(calm, k, at, pos, sh, t, r, w, fuel);
    }
    LoopCombine(calm, k, at, sh, status, w, fuel);
  }

  lemma PrimedTest(calm: bool, test: Tree, action: Tree, at: At, pos: bool, sh: Shell)
    requires PrimedLoop(calm, test, action, at, pos, sh)
    ensures Sound(test, true) && Sound(action, at.ignore)
    ensures sh.level == at.level && Primed(calm, test, Ignoring(at), true, sh) && Primed(calm, action, at, pos, sh)
    ensures calm ==> Tame(Strip(test), at.ignore && !pos) && Tame(Strip(action), at.ignore && !pos)
  {
  }

  lemma {:induction false} RefineAction(calm: bool, k: Kind, at: At, pos: bool, sh: Shell, t: Done, r: Run,
                                        w: World, fuel: nat)
    requires k.While? && PrimedLoop(calm, k.test, k.action, at, pos, sh) && at.level > 0
    requires t == Exec(k.test, sh, w, fuel) && r == Sem(Strip(k.test), Ignoring(at), Abs(sh), w, fuel)
    requires Held(calm, k.test, true, t, r) && Agrees(t.sh, t.status, t.jump, r) && GoesOn(k, r)
    ensures RefinesOn(calm, k, at, t, r, w, fuel)
    decreases fuel, StripKind(k), 0, 1
  {
    hide Exec, Sem, Primed, PrimedLoop, UnmarkedFunctions, TameFunctions, ExecLoop, Loop, Sound, Tame, ExecTurn, LoopOn;
    PrimedTest(calm, k.test, k.action, at, pos, sh);
    if r.out.Normal? {
      LoopCarried(calm, Strip(k.test), Ignoring(at), k.test, k.action, t.tree, k.action, at, pos, sh, t.sh, w, fuel);
      PrimedTest(calm, t.tree, k.action, at, pos, t.sh);
      RefineExec(calm, k.action, at, pos, t.sh, w, fuel);
      RefineTurn(calm, k, at, pos, Strip(k.action), at, t.tree, t.sh, Exec(k.action, t.sh, w, fuel),
                 Sem(Strip(k.action), at, r.st, w, fuel), w, fuel);
    } else {
      SkippedExec(k.action, t.sh, w, fuel);
      RefineTurn(calm, k, at, pos, Strip(k.test), Ignoring(at), k.test, sh, Done(k.action, t.sh, t.status, Stay),
                 r, w, fuel, t.tree);
    }
  }

  // From the end of the action on.
  lemma {:induction false} RefineTurn(calm: bool, k: Kind, at: At, pos: bool, x: Tree, at1: At, test: Tree,
                                      sh: Shell, a: Done, b: Run, w: World, fuel: nat, test1: Tree := test)
    requires k.While? && PrimedLoop(calm, test, k.action, at, pos, sh) && at.level > 0
    requires Strip(test) == Strip(k.test) && Strip(test1) == Strip(test) && Sound(test1, true)
    requires test.Tree? && test.ignore ==> test1.ignore
    requires calm ==> Tame(x, at.ignore && !pos)
    requires b == Sem(x, at1, Abs(sh), w, fuel) && Restored(sh, a.sh, a.jump)
    requires Refines(calm, a.sh, a.status, a.jump, b) && Sound(a.tree, at.ignore)
    requires UnmarkedFunctions(a.sh.functions) && Strip(a.tree) == Strip(k.action)
    requires k.action.Tree? && k.action.ignore ==> a.tree.ignore
    ensures a.jump == Stay ==> a.sh.level > 0
    ensures HeldKind(calm, at.ignore, ExecTurn(While(k.until, test1, a.tree), a, w, fuel),
                     LoopOn(StripKind(k), at, b, w, fuel))
    decreases fuel, StripKind(k), 0, 0
  {
    hide Exec, Sem, Primed, PrimedLoop, UnmarkedFunctions, TameFunctions, ExecLoop, Loop, Sound, Tame, Agrees;
    hide LeavesLoop, Again, Leave, Jumps, CountDown, Cut;
    PrimedTest(calm, test, k.action, at, pos, sh);
    LoopOnExtends(StripKind(k), at, b, w, fuel);
    CutOn(a.sh, a.status, a.jump, b, LoopOn(StripKind(k), at, b, w, fuel));
    if Agrees(a.sh, a.status, a.jump, b) {
      JumpsAgree(a.sh, a.status, a.jump, b);
      if a.jump == Stay {
        CountersLeave(a.sh, a.status, a.jump, b);
        CountDownKeeps(a.sh);
        LevelIsInvisible(CountDown(a.sh), a.sh.level - 1, a.status, Stay, Run(b.st, b.status, Leave(b.out)));
        OutOfFuelAgrees(CountDown(a.sh), b.st);
        if Again(b.out) && fuel > 0 {
          LoopCarried(calm, x, at1, test, k.action, test1, a.tree, at, pos, sh, CountDown(a.sh), w, fuel);
          RefineLoop(calm, While(k.until, test1, a.tree), at, pos, CountDown(a.sh), a.status, w, fuel - 1);
        }
      }
    }
  }

  lemma CountDownKeeps(sh: Shell)
    ensures var c := CountDown(sh);
      c.level == sh.level && c.catching == sh.catching && c.functions == sh.functions && Abs(c) == Abs(sh)
  {
  }

  lemma OutOfFuelAgrees(sh: Shell, st: St)
    requires Abs(sh) == st
    ensures Agrees(sh, 0, OutOfFuel, Run(st, 0, NoFuel))
  {
  }

  lemma {:induction false} RefineEach(calm: bool, k: Kind, values: seq<string>, at: At, pos: bool, sh: Shell,
                                      status: int, w: World, fuel: nat)
    requires k.For? && Primed(calm, k.action, at, pos, sh) && at.level > 0
    requires calm ==> Tame(Strip(k.action), at.ignore && !pos)
    ensures sh.level > 0
    ensures HeldKind(calm, at.ignore, ExecEach(k, values, sh, status, w, fuel),
                     Each(StripKind(k), values, at, Abs(sh), status, w, fuel))
    decreases fuel, StripKind(k), 1, |values|, 0
  {
    hide Exec, Sem, UnmarkedFunctions, TameFunctions, Sound, Tame, Calm;
    if values != [] && w.writable(sh.trace, sh.last, k.name) {
      var s1 := sh.(trace := sh.trace + [Bound(k.name, values[0])]);
      Carried(calm, k.action, k.action, at, pos, sh, s1);
      RefineExec(calm, k.action, at, pos, s1, w, fuel);
      hide Primed, Agrees, HeldKind;
      var a := Exec(k.action, s1, w, fuel);
      var b := Sem(Strip(k.action), at, Abs(s1), w, fuel);
      EachTurnIs(k, values, at, sh, status, w, fuel);
      RefineNext(calm, k, values[1..], at, pos, s1, a, b, w, fuel);
    }
  }

  // The loop after its action for one value.
  function AfterAction(k: Kind, values: seq<string>, a: Done, w: World, fuel: nat): KindDone
    requires k.For? && (a.jump == Stay ==> a.sh.level > 0)
  {
    if a.jump != Stay then KindDone(For(k.name, k.words, a.tree), a.sh, a.status, a.jump)
    else if LeavesLoop(a.sh) then LeaveLoop(For(k.name, k.words, a.tree), CountDown(a.sh), a.status)
    else ExecEach(For(k.name, k.words, a.tree), values, CountDown(a.sh), a.status, w, fuel)
  }

  function AfterRun(k: Kind, values: seq<string>, at: At, b: Run, w: World, fuel: nat): Run
    requires k.For?
  {
    if Jumps(b.out) then b
    else if !Again(b.out) then Run(b.st, b.status, Leave(b.out))
    else Each(k, values, at, b.st, b.status, w, fuel)
  }

  lemma EachTurnIs(k: Kind, values: seq<string>, at: At, sh: Shell, status: int, w: World, fuel: nat)
    requires k.For? && values != [] && sh.level > 0 && w.writable(sh.trace, sh.last, k.name)
    ensures var s1 := sh.(trace := sh.trace + [Bound(k.name, values[0])]);
      var a, b := Exec(k.action, s1, w, fuel), Sem(Strip(k.action), at, Abs(s1), w, fuel);
      && (a.jump == Stay ==> a.sh.level > 0)
      && ExecEach(k, values, sh, status, w, fuel) == AfterAction(k, values[1..], a, w, fuel)
      && Each(StripKind(k), values, at, Abs(sh), status, w, fuel) == AfterRun(StripKind(k), values[1..], at, b, w, fuel)
  {
    hide Exec, Sem, LeavesLoop, Again, Leave, Jumps, CountDown;
  }

  lemma {:induction false} RefineNext(calm: bool, k: Kind, values: seq<string>, at: At, pos: bool, s1: Shell,
                                      a: Done, b: Run, w: World, fuel: nat)
    requires k.For? && Primed(calm, k.action, at, pos, s1) && at.level > 0 && s1.level > 0
    requires calm ==> Tame(Strip(k.action), at.ignore && !pos)
    requires a == Exec(k.action, s1, w, fuel) && b == Sem(Strip(k.action), at, Abs(s1), w, fuel)
    requires Held(calm, k.action, at.ignore, a, b)
    ensures a.jump == Stay ==> a.sh.level > 0
    ensures HeldKind(calm, at.ignore, AfterAction(k, values, a, w, fuel), AfterRun(StripKind(k), values, at, b, w, fuel))
    decreases fuel, StripKind(k), 1, |values|, 1
  {
    hide Exec, Sem, UnmarkedFunctions, TameFunctions, Sound, Tame, Calm, Primed, Agrees, ExecEach, Each, Cut;
    hide LeavesLoop, Again, Leave, Jumps, CountDown;
    EachExtends(StripKind(k), values, at, b.st, b.status, w, fuel);
    CutOn(a.sh, a.status, a.jump, b, AfterRun(StripKind(k), values, at, b, w, fuel));
    if Agrees(a.sh, a.status, a.jump, b) {
      JumpsAgree(a.sh, a.status, a.jump, b);
      if a.jump == Stay {
        CountersLeave(a.sh, a.status, a.jump, b);
        CountDownKeeps(a.sh);
        LevelIsInvisible(CountDown(a.sh), a.sh.level - 1, a.status, Stay, Run(b.st, b.status, Leave(b.out)));
        if Again(b.out) {
          TurnCarried(calm, k.action, a.tree, at, pos, s1, CountDown(a.sh), w, fuel);
          RefineEach(calm, For(k.name, k.words, a.tree), values, at, pos, CountDown(a.sh), a.status, w, fuel);
        }
      }
    }
  }

  lemma TurnCarried(calm: bool, x: Tree, y: Tree, at: At, pos: bool, sh: Shell, after: Shell, w: World, fuel: nat)
    requires Primed(calm, x, at, pos, sh)
    requires Strip(y) == Strip(x) && Sound(y, at.ignore) && (x.Tree? && x.ignore ==> y.ignore)
    requires calm ==> Tame(Strip(x), at.ignore && !pos)
    requires Abs(after) == Sem(Strip(x), at, Abs(sh), w, fuel).st && !Skipping(after)
    requires after.level == sh.level && after.catching == sh.catching && UnmarkedFunctions(after.functions)
    ensures Primed(calm, y, at, pos, after)
  {
    hide Calm, SoundKind, TameFunctions, UnmarkedFunctions, Sound, Sem, Tame;
    if calm { SemTame(Strip(x), at, Abs(sh), w, fuel, at.ignore && !pos); }
    Carried(calm, x, y, at, pos, sh, after);
  }

  // ------------------------------------------------------------------- case

  // Once a clause broke off, the others do nothing.
  lemma {:induction false} SkippedCases(x: string, c: Clauses, fall: bool, inner: bool, sh: Shell, w: World,
                                        fuel: nat, ctx: bool)
    requires Skipping(sh) && SoundClauses(c, ctx) && (inner ==> ctx)
    ensures var d := ExecCases(x, c, fall, inner, sh, sh.last, w, fuel);
      d.sh == sh && d.status == sh.last && d.jump == Stay && SoundClauses(d.clauses, ctx)
    decreases c
  {
    if c.Clause? {
      hide Exec, Sound, Matches;
      MarkedSound(c.action, inner, ctx);
      SkippedExec(Mark(c.action, inner), sh, w, fuel);
      SkippedCases(x, c.next, false, inner, sh, w, fuel, ctx);
      SkippedCases(x, c.next, c.mode.FallThrough?, inner, sh, w, fuel, ctx);
    }
  }

  predicate HeldClauses(calm: bool, ctx: bool, d: ClausesDone, r: Run) {
    && Refines(calm, d.sh, d.status, d.jump, r)
    && SoundClauses(d.clauses, ctx) && UnmarkedFunctions(d.sh.functions)
  }

  lemma {:induction false} RefineCases(calm: bool, x: string, c: Clauses, fall: bool, ignore: bool, at: At,
                                       pos: bool, sh: Shell, status: int, w: World, fuel: nat)
    requires Covered(calm, ignore, at, pos, sh) && SoundClauses(c, at.ignore)
    requires calm ==> CalmClauses(StripClauses(c), at.ignore, pos) && TameClauses(StripClauses(c), at.ignore && !pos)
    ensures HeldClauses(calm, at.ignore, ExecCases(x, c, fall, ignore, sh, status, w, fuel),
                        Cases(x, StripClauses(c), fall, at, Abs(sh), status, w, fuel))
    decreases fuel, StripClauses(c), 2
  {
    hide Exec, Sem, Primed, Sound, Calm, Tame, UnmarkedFunctions, TameFunctions, Matches;
    if c.NoClause? {
    } else if !fall && !Matches(x, c.patterns, Abs(sh), w) {
      hide Covered, Agrees;
      RefineCases(calm, x, c.next, false, ignore, at, pos, sh, status, w, fuel);
    } else {
      hide Covered;
      KidPrimed(calm, c.action, ignore, at, pos, sh);
      RefineExec(calm, Mark(c.action, ignore), at, pos, sh, w, fuel);
      var a := Exec(Mark(c.action, ignore), sh, w, fuel);
      var r := Sem(Strip(c.action), at, Abs(sh), w, fuel);
      var q := Cases(x, StripClauses(c.next), c.mode.FallThrough?, at, r.st, r.status, w, fuel);
      CasesExtend(x, StripClauses(c.next), c.mode.FallThrough?, at, r.st, r.status, w, fuel);
      CutOn(a.sh, a.status, a.jump, r, q);
      if Agrees(a.sh, a.status, a.jump, r) && a.jump == Stay && !c.mode.Stop? {
        if r.out.Normal? {
          StillCovered(calm, Strip(c.action), ignore, at, at, pos, sh, w, fuel, a);
          hide Agrees;
          RefineCases(calm, x, c.next, c.mode.FallThrough?, ignore, at, pos, a.sh, a.status, w, fuel);
        } else {
          CoveredMark(calm, ignore, at, pos, sh);
          SkippedCases(x, c.next, c.mode.FallThrough?, ignore, a.sh, w, fuel, at.ignore);
        }
      }
    }
  }

  // -------------------------------------------------------------- commands

  lemma {:induction false} RefineKind(calm: bool, k: Kind, ignore: bool, at: At, pos: bool, sh: Shell, w: World,
                                      fuel: nat)
    requires Covered(calm, ignore, at, pos, sh) && SoundKind(k, at.ignore)
    requires calm ==> CalmKind(StripKind(k), at.ignore, pos) && TameKind(StripKind(k), at.ignore && !pos)
    ensures HeldKind(calm, at.ignore, ExecKind(k, ignore, ignore, sh, w, fuel),
                     SemKind(StripKind(k), at, Abs(sh), w, fuel))
    decreases fuel, StripKind(k), 2
  {
    hide Exec, Sem, Primed, Sound, Calm, Tame, UnmarkedFunctions, TameFunctions;
    hide ExecSemi, ExecAndOr, ExecIf, ExecFunction, ExecLoop, ExecEach, ExecCases, Loop, Each, Cases;
    match k
    case Call(f) => RefineCall(calm, f, ignore, at, pos, sh, w, fuel);
    case Group(body) =>
      hide Covered;
      KidPrimed(calm, body, ignore, at, pos, sh);
      RefineExec(calm, Mark(body, ignore), at, pos, sh, w, fuel);
    case Semi(a, b) => RefineSemi(calm, a, b, ignore, at, pos, sh, w, fuel);
    case AndAnd(a, b) => RefineAndOr(calm, true, a, b, ignore, at, pos, sh, w, fuel);
    case OrOr(a, b) => RefineAndOr(calm, false, a, b, ignore, at, pos, sh, w, fuel);
    case If(_, _, _) => RefineIf(calm, k, ignore, at, pos, sh, w, fuel);
    case While(_, _, _) => RefineWhile(calm, k, ignore, at, pos, sh, w, fuel);
    case For(_, _, _) => RefineFor(calm, k, ignore, at, pos, sh, w, fuel);
    case Case(x, cs) => RefineCases(calm, x, cs, false, ignore, at, pos, sh, 0, w, fuel);
    case Define(f, b) => UnmarkedDefinition(sh.functions, f, b);
    case _ => RefineBuiltin(calm, k, ignore, at, pos, sh, w, fuel);
  }

  lemma UnmarkedDefinition(fs: map<string, Tree>, f: string, b: Tree)
    requires UnmarkedFunctions(fs) && Unmarked(b)
    ensures UnmarkedFunctions(fs[f := b])
  {
    hide Unmarked;
  }

  lemma RefineBuiltin(calm: bool, k: Kind, ignore: bool, at: At, pos: bool, sh: Shell, w: World, fuel: nat)
    requires Covered(calm, ignore, at, pos, sh) && IsSimple(k) && !k.Call?
    ensures HeldKind(calm, at.ignore, ExecKind(k, ignore, ignore, sh, w, fuel),
                     SemKind(StripKind(k), at, Abs(sh), w, fuel))
  {
    hide Exec, Sem, UnmarkedFunctions, TameFunctions;
  }

  lemma {:induction false} RefineWhile(calm: bool, k: Kind, ignore: bool, at: At, pos: bool, sh: Shell, w: World,
                                       fuel: nat)
    requires k.While? && Covered(calm, ignore, at, pos, sh) && SoundKind(k, at.ignore)
    requires calm ==> CalmKind(StripKind(k), at.ignore, pos) && TameKind(StripKind(k), at.ignore && !pos)
    ensures HeldKind(calm, at.ignore, ExecKind(k, ignore, ignore, sh, w, fuel),
                     SemKind(StripKind(k), at, Abs(sh), w, fuel))
    decreases fuel, StripKind(k), 2, 0
  {
    hide Exec, Sem, Primed, Sound, Calm, Tame, UnmarkedFunctions, TameFunctions, ExecLoop, Loop;
    var s1, in1 := sh.(level := sh.level + 1), InLoop(at);
    var k1 := While(k.until, Mark(k.test, true), Mark(k.action, ignore));
    assert Covered(calm, ignore, in1, pos, s1);
    hide Covered;
    TestPrimed(calm, k.test, ignore, in1, pos, s1);
    KidPrimed(calm, k.action, ignore, in1, pos, s1);
    RefineLoop(calm, k1, in1, pos, s1, 0, w, fuel);
  }

  lemma {:induction false} RefineFor(calm: bool, k: Kind, ignore: bool, at: At, pos: bool, sh: Shell, w: World,
                                     fuel: nat)
    requires k.For? && Covered(calm, ignore, at, pos, sh) && SoundKind(k, at.ignore)
    requires calm ==> CalmKind(StripKind(k), at.ignore, pos) && TameKind(StripKind(k), at.ignore && !pos)
    ensures HeldKind(calm, at.ignore, ExecKind(k, ignore, ignore, sh, w, fuel),
                     SemKind(StripKind(k), at, Abs(sh), w, fuel))
    decreases fuel, StripKind(k), 2, 0
  {
    hide Exec, Sem, Primed, Sound, Calm, Tame, UnmarkedFunctions, TameFunctions, ExecEach, Each;
    var s1, in1 := sh.(level := sh.level + 1), InLoop(at);
    assert Covered(calm, ignore, in1, pos, s1);
    hide Covered;
    KidPrimed(calm, k.action, ignore, in1, pos, s1);
    RefineEach(calm, For(k.name, k.words, Mark(k.action, ignore)), w.expand(sh.trace, sh.last, k.words), in1, pos,
               s1, 0, w, fuel);
  }

  lemma InnerOnlyWhereUsed(k: Kind, ignore: bool, inner: bool, sh: Shell, w: World, fuel: nat)
    requires HasInner(k) ==> inner == ignore
    ensures ExecKind(k, ignore, inner, sh, w, fuel) == ExecKind(k, ignore, ignore, sh, w, fuel)
  {
    hide Exec, ExecSemi, ExecAndOr, ExecIf, ExecFunction, ExecLoop, ExecEach, ExecCases;
  }

  // The check of `set -e', and the inversion.
  lemma Concluded(calm: bool, t: Tree, u: Tree, at: At, d: KindDone, r: Run)
    requires t.Tree? && u.Tree? && u.invert == t.invert && IsSimple(t.kind) == IsSimple(u.kind)
    requires u.ignore ==> at.ignore || t.invert
    requires calm && d.sh.errexit && at.ignore && d.status != 0 && IsSimple(t.kind) ==> u.ignore
    requires Refines(calm, d.sh, d.status, d.jump, r)
    ensures var c := Conclude(u, d);
      && Refines(calm, c.sh, c.status, c.jump, Finish(t, at, r)) && c.sh.functions == d.sh.functions
      && (c.jump == Stay ==> c.sh.last == c.status)
  {
  }

  // Within a command whose failure is ignored, -e is on at its end only if it
  // was on at its start.
  lemma StillOn(t: Tree, at: At, pos: bool, sh: Shell, d: KindDone, w: World, fuel: nat)
    requires t.Tree? && Calm(t, at.ignore, pos) && TameFunctions(sh.functions) && at.ignore && !pos
    requires Abs(d.sh) == SemKind(t.kind, Inside(at, t), Abs(sh), w, fuel).st
    ensures d.sh.errexit ==> sh.errexit
  {
    hide TameKind, CalmKind, TameFunctions, SemKind;
    KindTame(t.kind, Inside(at, t), Abs(sh), w, fuel, true);
  }

  lemma {:induction false} RefineExec(calm: bool, t: Tree, at: At, pos: bool, sh: Shell, w: World, fuel: nat)
    requires Primed(calm, t, at, pos, sh)
    ensures Held(calm, t, at.ignore, Exec(t, sh, w, fuel), Sem(Strip(t), at, Abs(sh), w, fuel))
    decreases fuel, Strip(t), 2
  {
    hide UnmarkedFunctions, TameFunctions, CalmKind, TameKind, SoundKind, SemKind, ExecKind;
    if t.Tree? {
      hide Agrees, Conclude, Finish;
      var u := MarkInner(Mark(t, sh.errexit && t.invert));
      var in1 := Inside(at, Strip(t));
      assert Covered(calm, u.ignore, in1, pos, sh);
      RefineKind(calm, t.kind, u.ignore, in1, pos, sh, w, fuel);
      InnerOnlyWhereUsed(t.kind, u.ignore, u.inner, sh, w, fuel);
      var d := ExecKind(t.kind, u.ignore, u.inner, sh, w, fuel);
      var r := SemKind(StripKind(t.kind), in1, Abs(sh), w, fuel);
      if calm && at.ignore && !pos {
        AgreesOnState(d.sh, d.status, d.jump, r);
        StillOn(Strip(t), at, pos, sh, d, w, fuel);
      }
      var v := Tree(u.invert, u.ignore, u.inner, d.kind);
      SimpleStays(t.kind, u.ignore, u.inner, sh, w, fuel);
      Concluded(calm, Strip(t), v, at, d, r);
    }
  }

  lemma AgreesOnState(sh: Shell, status: int, jump: Jump, r: Run)
    requires Agrees(sh, status, jump, r)
    ensures Abs(sh) == r.st
  {
  }

  lemma SimpleStays(k: Kind, ignore: bool, inner: bool, sh: Shell, w: World, fuel: nat)
    ensures IsSimple(ExecKind(k, ignore, inner, sh, w, fuel).kind) == IsSimple(k)
    ensures IsSimple(StripKind(k)) == IsSimple(k)
  {
    hide ExecKind;
    var d := ExecKind(k, ignore, inner, sh, w, fuel);
    assert StripKind(d.kind) == StripKind(k);
  }
}
