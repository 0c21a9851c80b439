// Whole runs of the executor: what holds for every program, what holds only
// for some, and the shortest programs that show the difference.

module ShellTheorems {
  import opened ShellSemantics
  import opened ShellExecution
  import opened ShellRefinement

  // A shell at its top level, between two commands.
  predicate AtTop(sh: Shell) {
    !Skipping(sh) && sh.level == 0 && sh.catching == 0 && UnmarkedFunctions(sh.functions)
  }

  const Top := At(false, 0, 0)

  // Any command, whatever marks earlier runs have left in it: the counters
  // and marks give the effects, the status and the outcome of the structured
  // semantics; or the shell has exited under -e because a command failed, and
  // what happened until then is how the structured run begins.
  lemma EveryRunRefines(t: Tree, sh: Shell, w: World, fuel: nat)
    requires AtTop(sh) && Sound(t, false)
    ensures var d := Exec(t, sh, w, fuel);
      && (|| Agrees(d.sh, d.status, d.jump, Sem(Strip(t), Top, Abs(sh), w, fuel))
          || Cut(d.sh, d.status, d.jump, Sem(Strip(t), Top, Abs(sh), w, fuel)))
      && Sound(d.tree, false)
  {
    hide Exec, Sem, Sound, SoundKind, Agrees, Cut;
    RefineExec(false, t, Top, false, sh, w, fuel);
  }

  // A program that turns -e on neither under `!' nor in a function body runs
  // exactly as the semantics says, and exits when it says so.
  lemma CalmRunsAgree(t: Tree, sh: Shell, w: World, fuel: nat)
    requires AtTop(sh) && Sound(t, false) && Calm(Strip(t), false, false) && TameFunctions(sh.functions)
    ensures var d := Exec(t, sh, w, fuel);
      Agrees(d.sh, d.status, d.jump, Sem(Strip(t), Top, Abs(sh), w, fuel))
  {
    hide Exec, Sem, Sound, SoundKind, Agrees, Calm;
    RefineExec(true, t, Top, false, sh, w, fuel);
  }

  // ---------------------------------------------------- ignored failures

  // Where failures are ignored the shell never exits.
  lemma {:induction false} IgnoredNeverExits(t: Tree, at: At, s: St, w: World, fuel: nat)
    requires at.ignore
    ensures !Sem(t, at, s, w, fuel).out.ErrExit?
    decreases fuel, t, 3
  {
    if t.Tree? {
      hide SemKind;
      KindNeverExits(t.kind, Inside(at, t), s, w, fuel);
    }
  }

  lemma {:induction false} KindNeverExits(k: Kind, at: At, s: St, w: World, fuel: nat)
    requires at.ignore
    ensures !SemKind(k, at, s, w, fuel).out.ErrExit?
    decreases fuel, k, 2
  {
    hide Sem, Loop, Each, Cases;
    match k
    case Call(f) =>
      if f in s.functions && fuel > 0 {
        IgnoredNeverExits(s.functions[f], at.(calls := at.calls + 1), s, w, fuel - 1);
      }
    case Group(body) => IgnoredNeverExits(body, at, s, w, fuel);
    case Semi(a, b) =>
      IgnoredNeverExits(a, at, s, w, fuel);
      IgnoredNeverExits(b, at, Sem(a, at, s, w, fuel).st, w, fuel);
    case AndAnd(a, b) =>
      IgnoredNeverExits(a, Ignoring(at), s, w, fuel);
      IgnoredNeverExits(b, at, Sem(a, Ignoring(at), s, w, fuel).st, w, fuel);
    case OrOr(a, b) =>
      IgnoredNeverExits(a, Ignoring(at), s, w, fuel);
      IgnoredNeverExits(b, at, Sem(a, Ignoring(at), s, w, fuel).st, w, fuel);
    case If(test, yes, no) =>
      IgnoredNeverExits(test, Ignoring(at), s, w, fuel);
      IgnoredNeverExits(yes, at, Sem(test, Ignoring(at), s, w, fuel).st, w, fuel);
      IgnoredNeverExits(no, at, Sem(test, Ignoring(at), s, w, fuel).st, w, fuel);
    case While(_, _, _) => LoopNeverExits(k, InLoop(at), s, 0, w, fuel);
    case For(_, words, _) => EachNeverExits(k, w.expand(s.trace, s.last, words), InLoop(at), s, 0, w, fuel);
    case Case(x, cs) => CasesNeverExit(x, cs, false, at, s, 0, w, fuel);
    case _ =>
  }

  lemma {:induction false} LoopNeverExits(k: Kind, at: At, s: St, status: int, w: World, fuel: nat)
    requires k.While? && at.ignore
    ensures !Loop(k, at, s, status, w, fuel).out.ErrExit?
    decreases fuel, k, 1
  {
    hide Sem;
    IgnoredNeverExits(k.test, Ignoring(at), s, w, fuel);
    var r := Sem(k.test, Ignoring(at), s, w, fuel);
    IgnoredNeverExits(k.action, at, r.st, w, fuel);
    var b := if r.out.Normal? then Sem(k.action, at, r.st, w, fuel) else r;
    if fuel > 0 { LoopNeverExits(k, at, b.st, b.status, w, fuel - 1); }
  }

  lemma {:induction false} EachNeverExits(k: Kind, values: seq<string>, at: At, s: St, status: int, w: World,
                                          fuel: nat)
    requires k.For? && at.ignore
    ensures !Each(k, values, at, s, status, w, fuel).out.ErrExit?
    decreases fuel, k, 1, |values|
  {
    if values != [] {
      hide Sem;
      var s1 := s.(trace := s.trace + [Bound(k.name, values[0])]);
      IgnoredNeverExits(k.action, at, s1, w, fuel);
      var b := Sem(k.action, at, s1, w, fuel);
      EachNeverExits(k, values[1..], at, b.st, b.status, w, fuel);
    }
  }

  lemma {:induction false} CasesNeverExit(x: string, c: Clauses, fall: bool, at: At, s: St, status: int, w: World,
                                          fuel: nat)
    requires at.ignore
    ensures !Cases(x, c, fall, at, s, status, w, fuel).out.ErrExit?
    decreases fuel, c, 1
  {
    if c.Clause? {
      hide Sem, Matches;
      IgnoredNeverExits(c.action, at, s, w, fuel);
      var r := Sem(c.action, at, s, w, fuel);
      CasesNeverExit(x, c.next, false, at, s, status, w, fuel);
      CasesNeverExit(x, c.next, c.mode.FallThrough?, at, r.st, r.status, w, fuel);
    }
  }

  // So does the executor, for a command that is calm where it stands and marked
  // as the executor marks it there.
  lemma CalmIgnoredStays(t: Tree, at: At, pos: bool, sh: Shell, w: World, fuel: nat)
    requires Primed(true, t, at, pos, sh) && at.ignore
    ensures Exec(t, sh, w, fuel).jump != ToTop
  {
    hide Exec, Sem, Primed, Sound;
    RefineExec(true, t, at, pos, sh, w, fuel);
    IgnoredNeverExits(Strip(t), at, Abs(sh), w, fuel);
  }

  // ------------------------------------------------- breaks find their loop

  // No `continue' leaves the test of a loop or the body of a function; d
  // loops surround t.
  predicate Contained(t: Tree, d: nat) { t.Tree? ==> ContainedKind(t.kind, d) }

  predicate ContainedKind(k: Kind, d: nat) {
    match k
    case ContinueCmd(n) => n <= d
    case Group(b) => Contained(b, d)
    case Semi(a, b) => Contained(a, d) && Contained(b, d)
    case AndAnd(a, b) => Contained(a, d) && Contained(b, d)
    case OrOr(a, b) => Contained(a, d) && Contained(b, d)
    case If(test, a, b) => Contained(test, d) && Contained(a, d) && Contained(b, d)
    case While(_, test, a) => Contained(test, 0) && Contained(a, d + 1)
    case For(_, _, a) => Contained(a, d + 1)
    case Case(_, cs) => ContainedClauses(cs, d)
    case Define(_, b) => Contained(b, 0)
    case _ => true
  }

  predicate ContainedClauses(cs: Clauses, d: nat) {
    cs.NoClause? || (Contained(cs.action, d) && ContainedClauses(cs.next, d))
  }

  predicate ContainedFunctions(fs: map<string, Tree>) { forall f | f in fs :: Contained(fs[f], 0) }

  predicate InBounds(r: Run, level: nat, d: nat) {
    && ContainedFunctions(r.st.functions)
    && match r.out
       case Break(k) => 1 <= k <= level
       case Continue(k) => 1 <= k <= level && k <= d
       case _ => true
  }

  lemma {:induction false} ContainedRun(t: Tree, d: nat, at: At, s: St, w: World, fuel: nat)
    requires Contained(t, d) && ContainedFunctions(s.functions)
    ensures InBounds(Sem(t, at, s, w, fuel), at.level, d)
    decreases fuel, t, 3
  {
    if t.Tree? {
      hide SemKind, ContainedKind, ContainedFunctions;
      ContainedKindRun(t.kind, d, Inside(at, t), s, w, fuel);
    }
  }

  lemma {:induction false} ContainedKindRun(k: Kind, d: nat, at: At, s: St, w: World, fuel: nat)
    requires ContainedKind(k, d) && ContainedFunctions(s.functions)
    ensures InBounds(SemKind(k, at, s, w, fuel), at.level, d)
    decreases fuel, k, 2
  {
    hide Sem, Loop, Each, Cases, Contained;
    match k
    case Call(f) =>
      if f in s.functions && fuel > 0 {
        ContainedRun(s.functions[f], 0, at.(calls := at.calls + 1), s, w, fuel - 1);
      }
    case Group(body) =>
      hide ContainedFunctions;
      ContainedRun(body, d, at, s, w, fuel);
    case Semi(a, b) =>
      hide ContainedFunctions;
      ContainedRun(a, d, at, s, w, fuel);
      ContainedRun(b, d, at, Sem(a, at, s, w, fuel).st, w, fuel);
    case AndAnd(a, b) =>
      hide ContainedFunctions;
      ContainedRun(a, d, Ignoring(at), s, w, fuel);
      ContainedRun(b, d, at, Sem(a, Ignoring(at), s, w, fuel).st, w, fuel);
    case OrOr(a, b) =>
      hide ContainedFunctions;
      ContainedRun(a, d, Ignoring(at), s, w, fuel);
      ContainedRun(b, d, at, Sem(a, Ignoring(at), s, w, fuel).st, w, fuel);
    case If(test, yes, no) =>
      hide ContainedFunctions;
      ContainedRun(test, d, Ignoring(at), s, w, fuel);
      ContainedRun(yes, d, at, Sem(test, Ignoring(at), s, w, fuel).st, w, fuel);
      ContainedRun(no, d, at, Sem(test, Ignoring(at), s, w, fuel).st, w, fuel);
    case While(_, _, _) =>
      hide ContainedFunctions;
      ContainedLoop(k, d, InLoop(at), s, 0, w, fuel);
    case For(_, words, _) =>
      hide ContainedFunctions;
      ContainedEach(k, w.expand(s.trace, s.last, words), d, InLoop(at), s, 0, w, fuel);
    case Case(x, cs) =>
      hide ContainedFunctions;
      ContainedCases(x, cs, false, d, at, s, 0, w, fuel);
    case _ =>
  }

  lemma {:induction false} ContainedLoop(k: Kind, d: nat, at: At, s: St, status: int, w: World, fuel: nat)
    requires k.While? && ContainedKind(k, d) && ContainedFunctions(s.functions) && at.level > 0
    ensures InBounds(Loop(k, at, s, status, w, fuel), at.level - 1, d)
    decreases fuel, k, 1
  {
    hide Sem, Contained, ContainedFunctions;
    ContainedRun(k.test, 0, Ignoring(at), s, w, fuel);
    var r := Sem(k.test, Ignoring(at), s, w, fuel);
    ContainedRun(k.action, d + 1, at, r.st, w, fuel);
    var b := if r.out.Normal? then Sem(k.action, at, r.st, w, fuel) else r;
    if fuel > 0 { ContainedLoop(k, d, at, b.st, b.status, w, fuel - 1); }
  }

  lemma {:induction false} ContainedEach(k: Kind, values: seq<string>, d: nat, at: At, s: St, status: int, w: World,
                                         fuel: nat)
    requires k.For? && ContainedKind(k, d) && ContainedFunctions(s.functions) && at.level > 0
    ensures InBounds(Each(k, values, at, s, status, w, fuel), at.level - 1, d)
    decreases fuel, k, 1, |values|
  {
    if values != [] {
      hide Sem, Contained, ContainedFunctions;
      var s1 := s.(trace := s.trace + [Bound(k.name, values[0])]);
      ContainedRun(k.action, d + 1, at, s1, w, fuel);
      var b := Sem(k.action, at, s1, w, fuel);
      ContainedEach(k, values[1..], d, at, b.st, b.status, w, fuel);
    }
  }

  lemma {:induction false} ContainedCases(x: string, c: Clauses, fall: bool, d: nat, at: At, s: St, status: int,
                                          w: World, fuel: nat)
    requires ContainedClauses(c, d) && ContainedFunctions(s.functions)
    ensures InBounds(Cases(x, c, fall, at, s, status, w, fuel), at.level, d)
    decreases fuel, c, 1
  {
    if c.Clause? {
      hide Sem, Matches, Contained, ContainedFunctions;
      ContainedRun(c.action, d, at, s, w, fuel);
      var r := Sem(c.action, at, s, w, fuel);
      ContainedCases(x, c.next, false, d, at, s, status, w, fuel);
      ContainedCases(x, c.next, c.mode.FallThrough?, d, at, r.st, r.status, w, fuel);
    }
  }

  // The counters of the executor, at any place in d of its loops: no more than
  // the loops around it are ever broken or continued, and not both.
  lemma ContainedCounters(t: Tree, d: nat, at: At, pos: bool, sh: Shell, w: World, fuel: nat)
    requires Primed(false, t, at, pos, sh) && Contained(Strip(t), d) && ContainedFunctions(sh.functions)
    ensures var r := Exec(t, sh, w, fuel);
      r.jump == Stay ==>
        && r.sh.breaking <= at.level && r.sh.continuing <= at.level && r.sh.continuing <= d
        && (r.sh.breaking == 0 || r.sh.continuing == 0)
  {
    hide Exec, Sem, Sound, Contained, ContainedFunctions, UnmarkedFunctions, Primed;
    RefineExec(false, t, at, pos, sh, w, fuel);
    ContainedRun(Strip(t), d, at, Abs(sh), w, fuel);
  }

  // At the top level no break or continue is left over: the next command runs.
  lemma CountersReturnToZero(t: Tree, d: nat, sh: Shell, w: World, fuel: nat)
    requires AtTop(sh) && Sound(t, false) && Contained(Strip(t), d) && ContainedFunctions(sh.functions)
    ensures var r := Exec(t, sh, w, fuel); r.jump == Stay ==> !Skipping(r.sh) && r.sh.level == 0
  {
    hide Exec, Sem, Sound, Contained, ContainedFunctions, UnmarkedFunctions;
    EveryRunRefines(t, sh, w, fuel);
    ContainedRun(Strip(t), d, Top, Abs(sh), w, fuel);
  }

  // ------------------------------------------------------- counterexamples

  function Command(k: Kind): Tree { Tree(false, false, false, k) }

  // until continue; do :; done
  function Leaky(): Tree { Command(While(true, Command(ContinueCmd(1)), Command(Plain(":")))) }

  // It leaves `continuing' set at the top level, and every later command
  // there does nothing.
  lemma ContinueInTestLeaks(sh: Shell, w: World, fuel: nat, next: Tree)
    requires AtTop(sh)
    ensures var d := Exec(Leaky(), sh, w, fuel);
      && d.jump == Stay && d.sh.continuing == 1 && d.sh.level == 0
      && Exec(next, d.sh, w, fuel) == Done(next, d.sh, d.sh.last, Stay)
  {
    var test := Tree(false, true, false, ContinueCmd(1));
    var in1 := sh.(level := sh.level + 1);
    var out1 := in1.(continuing := 1, last := 0);
    assert ExecKind(ContinueCmd(1), true, true, in1, w, fuel) ==
           KindDone(ContinueCmd(1), in1.(continuing := 1), 0, Stay);
    assert Exec(test, in1, w, fuel) == Done(test.(inner := true), out1, 0, Stay);
    assert ExecLoop(While(true, test, Command(Plain(":"))), in1, 0, w, fuel).sh == out1.(level := 0) by {
      hide Exec, ExecTurn;
    }
    assert Exec(Leaky(), sh, w, fuel).sh == out1.(level := 0) by {
      hide ExecLoop;
      assert ExecKind(Leaky().kind, false, false, sh, w, fuel).sh == out1.(level := 0) by { hide Exec; }
    }
    SkippedExec(next, out1.(level := 0), w, fuel);
  }

  // ! { set -e; f; }
  function Stray(): Tree {
    Tree(true, false, false, Group(Command(Semi(Command(SetE(true)), Command(Plain("f"))))))
  }

  // Entered with -e off, the group is not marked; so the shell exits when f
  // fails, although a failure under `!' is to be ignored.
  lemma TurningOnUnderInversionExits(sh: Shell, w: World, fuel: nat)
    requires AtTop(sh) && !sh.errexit && w.run(sh.trace, 0, "f") == 1
    ensures Exec(Stray(), sh, w, fuel).jump == ToTop
    ensures Sem(Stray(), Top, Abs(sh), w, fuel).out == Normal
  {
    var body := Stray().kind.body;
    var s1 := sh.(errexit := true, last := 0);
    assert Exec(Command(SetE(true)), sh, w, fuel) == Done(Command(SetE(true)), s1, 0, Stay);
    assert Exec(Command(Plain("f")), s1, w, fuel).jump == ToTop;
    assert ExecSemi(Command(SetE(true)), Command(Plain("f")), false, sh, w, fuel).jump == ToTop by { hide Exec; }
    assert Exec(body, sh, w, fuel).jump == ToTop by { hide ExecSemi; }
    var at1 := Ignoring(Top);
    IgnoredNeverExits(body, at1, Abs(sh), w, fuel);
    assert Sem(Command(SetE(true)), at1, Abs(sh), w, fuel) == Run(Abs(s1), 0, Normal);
    assert Sem(Command(Plain("f")), at1, Abs(s1), w, fuel).out == Normal;
    assert Sem(body, at1, Abs(sh), w, fuel).out == Normal;
  }

  // -------------------------------------------------------------- fuel

  // A run that was not cut short is the same with more fuel.
  lemma {:induction false} FuelSuffices(t: Tree, at: At, s: St, w: World, fuel: nat)
    requires !Sem(t, at, s, w, fuel).out.NoFuel?
    ensures Sem(t, at, s, w, fuel + 1) == Sem(t, at, s, w, fuel)
    decreases fuel, t, 3
  {
    if t.Tree? {
      hide SemKind;
      KindFuel(t.kind, Inside(at, t), s, w, fuel);
    }
  }

  lemma {:induction false} KindFuel(k: Kind, at: At, s: St, w: World, fuel: nat)
    requires !SemKind(k, at, s, w, fuel).out.NoFuel?
    ensures SemKind(k, at, s, w, fuel + 1) == SemKind(k, at, s, w, fuel)
    decreases fuel, k, 2
  {
    hide Sem, Loop, Each, Cases;
    match k
    case Call(f) =>
      if f in s.functions && fuel > 0 {
        FuelSuffices(s.functions[f], at.(calls := at.calls + 1), s, w, fuel - 1);
      }
    case Group(body) => FuelSuffices(body, at, s, w, fuel);
    case Semi(a, b) =>
      FuelSuffices(a, at, s, w, fuel);
      var r := Sem(a, at, s, w, fuel);
      if r.out.Normal? { FuelSuffices(b, at, r.st, w, fuel); }
    case AndAnd(a, b) =>
      FuelSuffices(a, Ignoring(at), s, w, fuel);
      var r := Sem(a, Ignoring(at), s, w, fuel);
      if r.out.Normal? && r.status == 0 { FuelSuffices(b, at, r.st, w, fuel); }
    case OrOr(a, b) =>
      FuelSuffices(a, Ignoring(at), s, w, fuel);
      var r := Sem(a, Ignoring(at), s, w, fuel);
      if r.out.Normal? && r.status != 0 { FuelSuffices(b, at, r.st, w, fuel); }
    case If(test, yes, no) =>
      FuelSuffices(test, Ignoring(at), s, w, fuel);
      var r := Sem(test, Ignoring(at), s, w, fuel);
      if r.out.Normal? { FuelSuffices(if r.status == 0 then yes else no, at, r.st, w, fuel); }
    case While(_, _, _) => LoopFuel(k, InLoop(at), s, 0, w, fuel);
    case For(x, words, _) =>
      if w.legal(x) { EachFuel(k, w.expand(s.trace, s.last, words), InLoop(at), s, 0, w, fuel); }
    case Case(x, cs) => CasesFuel(x, cs, false, at, s, 0, w, fuel);
    case _ =>
  }

  lemma {:induction false} LoopFuel(k: Kind, at: At, s: St, status: int, w: World, fuel: nat)
    requires k.While? && !Loop(k, at, s, status, w, fuel).out.NoFuel?
    ensures Loop(k, at, s, status, w, fuel + 1) == Loop(k, at, s, status, w, fuel)
    decreases fuel, k, 1
  {
    hide Sem;
    var r := Sem(k.test, Ignoring(at), s, w, fuel);
    FuelSuffices(k.test, Ignoring(at), s, w, fuel);
    if !Jumps(r.out) && (r.status == 0) != k.until {
      if r.out.Normal? { FuelSuffices(k.action, at, r.st, w, fuel); }
      var b := if r.out.Normal? then Sem(k.action, at, r.st, w, fuel) else r;
      if !Jumps(b.out) && Again(b.out) { LoopFuel(k, at, b.st, b.status, w, fuel - 1); }
    }
  }

  lemma {:induction false} EachFuel(k: Kind, values: seq<string>, at: At, s: St, status: int, w: World, fuel: nat)
    requires k.For? && !Each(k, values, at, s, status, w, fuel).out.NoFuel?
    ensures Each(k, values, at, s, status, w, fuel + 1) == Each(k, values, at, s, status, w, fuel)
    decreases fuel, k, 1, |values|
  {
    if values != [] && w.writable(s.trace, s.last, k.name) {
      hide Sem;
      var s1 := s.(trace := s.trace + [Bound(k.name, values[0])]);
      FuelSuffices(k.action, at, s1, w, fuel);
      var b := Sem(k.action, at, s1, w, fuel);
      if !Jumps(b.out) && Again(b.out) { EachFuel(k, values[1..], at, b.st, b.status, w, fuel); }
    }
  }

  lemma {:induction false} CasesFuel(x: string, c: Clauses, fall: bool, at: At, s: St, status: int, w: World,
                                     fuel: nat)
    requires !Cases(x, c, fall, at, s, status, w, fuel).out.NoFuel?
    ensures Cases(x, c, fall, at, s, status, w, fuel + 1) == Cases(x, c, fall, at, s, status, w, fuel)
    decreases fuel, c, 1
  {
    if c.Clause? {
      hide Sem, Matches;
      if !fall && !Matches(x, c.patterns, s, w) {
        CasesFuel(x, c.next, false, at, s, status, w, fuel);
      } else {
        FuelSuffices(c.action, at, s, w, fuel);
        var r := Sem(c.action, at, s, w, fuel);
        if r.out.Normal? && !c.mode.Stop? {
          CasesFuel(x, c.next, c.mode.FallThrough?, at, r.st, r.status, w, fuel);
        }
      }
    }
  }
}
