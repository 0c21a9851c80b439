// What the structured semantics says of commands, in terms of what the world
// answers: statuses after `!', what each connector and loop runs, how far
// break and continue reach, and what ends the shell under `set -e'.

module ShellLaws {
  import opened ShellSemantics
  import opened ShellExecution

  // --------------------------------------------------------------- inversion

  // `!' in front of a command: where it returns, the status is 1 or 0, 0 just
  // when the command itself fails in the same place, and nothing else differs.
  lemma InvertedStatus(t: Tree, sh: Shell, w: World, fuel: nat)
    requires t.Tree? && t.invert && !Skipping(sh)
    ensures var d := Exec(t, sh, w, fuel);
      var p := Exec(t.(invert := false, ignore := t.ignore || sh.errexit), sh, w, fuel);
      && (d.jump == Stay ==>
            && d.status == (if p.status == 0 then 1 else 0) && d.sh == p.sh.(last := d.status)
            && (p.jump == Stay || (p.jump == ToTop && p.status != 0)))
      && (d.jump != Stay ==> d.sh == p.sh && d.status == p.status && d.jump == p.jump)
  {
    hide ExecKind;
  }

  // For a plain command that is: 0 when it returned nonzero, 1 when it
  // returned 0, and the shell goes on.
  lemma InvertedPlain(text: string, ignore: bool, inner: bool, sh: Shell, w: World, fuel: nat)
    requires !Skipping(sh)
    ensures var d := Exec(Tree(true, ignore, inner, Plain(text)), sh, w, fuel);
      && d.jump == Stay && d.status == d.sh.last == (if w.run(sh.trace, sh.last, text) != 0 then 0 else 1)
      && d.sh.trace == sh.trace + [Ran(text, sh.last)]
  {
  }

  // The same in the structured semantics, where the place is marked as one in
  // which failures are ignored.
  lemma InvertedMeaning(t: Tree, at: At, s: St, w: World, fuel: nat)
    requires t.Tree? && t.invert
    ensures var r := Sem(t, at, s, w, fuel);
      var p := Sem(t.(invert := false), at.(ignore := true), s, w, fuel);
      if p.out.Return? || p.out.ErrExit? || p.out.NoFuel? then r == p
      else r == Run(p.st.(last := r.status), if p.status == 0 then 1 else 0, p.out)
  {
    hide SemKind;
  }

  // ----------------------------------------------------------- plain commands

  function Of(k: Kind): Tree { Tree(false, false, false, k) }

  function Cmd(text: string): Tree { Of(Plain(text)) }

  // The state after a plain command ran.
  function After(s: St, text: string, w: World): St {
    St(s.trace + [Ran(text, s.last)], w.run(s.trace, s.last, text), s.errexit, s.functions)
  }

  // A failure here does not end the shell.
  predicate Lenient(at: At, s: St) { at.ignore || !s.errexit }

  function Went(s: St): Run { Run(s, s.last, Normal) }

  lemma PlainRuns(text: string, at: At, s: St, w: World, fuel: nat)
    ensures Sem(Cmd(text), at, s, w, fuel) ==
      if !Lenient(at, s) && After(s, text, w).last != 0 then Went(After(s, text, w)).(out := ErrExit)
      else Went(After(s, text, w))
  {
  }

  // Every simple command ends the shell like that when it fails: an unknown
  // function, a return outside functions, a break or continue of no loops.
  lemma SimpleFailures(f: string, n: int, at: At, s: St, w: World, fuel: nat)
    requires !Lenient(at, s) && n <= 0
    ensures f !in s.functions ==> Sem(Of(Call(f)), at, s, w, fuel) == Run(s.(last := 127), 127, ErrExit)
    ensures at.calls == 0 ==> Sem(Of(ReturnCmd(n)), at, s, w, fuel) == Run(s.(last := 1), 1, ErrExit)
    ensures at.level > 0 ==>
              && Sem(Of(BreakCmd(n)), at, s, w, fuel) == Run(s.(last := 1), 1, ErrExit)
              && Sem(Of(ContinueCmd(n)), at, s, w, fuel) == Run(s.(last := 1), 1, ErrExit)
  {
  }

  // -------------------------------------------------------------------- lists

  // a; b runs both, a && b and a || b the second only after success and after
  // failure of the first.
  lemma ListsRun(a: string, b: string, at: At, s: St, w: World, fuel: nat)
    requires Lenient(at, s)
    ensures var one, two := After(s, a, w), After(After(s, a, w), b, w);
      && Sem(Of(Semi(Cmd(a), Cmd(b))), at, s, w, fuel) == Went(two)
      && Sem(Of(AndAnd(Cmd(a), Cmd(b))), at, s, w, fuel) == Went(if one.last == 0 then two else one)
      && Sem(Of(OrOr(Cmd(a), Cmd(b))), at, s, w, fuel) == Went(if one.last != 0 then two else one)
  {
    hide Sem;
    PlainRuns(a, at, s, w, fuel);
    PlainRuns(a, Ignoring(at), s, w, fuel);
    PlainRuns(b, at, After(s, a, w), w, fuel);
    Compound(Semi(Cmd(a), Cmd(b)), at, s, w, fuel);
    Compound(AndAnd(Cmd(a), Cmd(b)), at, s, w, fuel);
    Compound(OrOr(Cmd(a), Cmd(b)), at, s, w, fuel);
  }

  // A compound command ends as its parts do; its own status never ends the
  // shell.
  lemma Compound(k: Kind, at: At, s: St, w: World, fuel: nat)
    requires !k.Plain? && !k.BreakCmd? && !k.ContinueCmd? && !k.ReturnCmd? && !k.SetE? && !k.Call?
    ensures var r := SemKind(k, at, s, w, fuel);
      Sem(Of(k), at, s, w, fuel) ==
        if r.out.Return? || r.out.ErrExit? || r.out.NoFuel? then r else r.(st := r.st.(last := r.status))
  {
    hide SemKind;
  }

  // Under `set -e' the first command of && and || may fail, the last one not;
  // in a; b neither may.
  lemma ListsExit(a: string, b: string, at: At, s: St, w: World, fuel: nat)
    requires !Lenient(at, s)
    ensures var one, two := After(s, a, w), After(After(s, a, w), b, w);
      && Sem(Of(Semi(Cmd(a), Cmd(b))), at, s, w, fuel) ==
           (if one.last != 0 then Went(one).(out := ErrExit)
            else if two.last != 0 then Went(two).(out := ErrExit) else Went(two))
      && Sem(Of(AndAnd(Cmd(a), Cmd(b))), at, s, w, fuel) ==
           (if one.last != 0 then Went(one) else if two.last != 0 then Went(two).(out := ErrExit) else Went(two))
      && Sem(Of(OrOr(Cmd(a), Cmd(b))), at, s, w, fuel) ==
           (if one.last == 0 then Went(one) else if two.last != 0 then Went(two).(out := ErrExit) else Went(two))
  {
    hide Sem;
    PlainRuns(a, at, s, w, fuel);
    PlainRuns(a, Ignoring(at), s, w, fuel);
    PlainRuns(b, at, After(s, a, w), w, fuel);
    Compound(Semi(Cmd(a), Cmd(b)), at, s, w, fuel);
    Compound(AndAnd(Cmd(a), Cmd(b)), at, s, w, fuel);
    Compound(OrOr(Cmd(a), Cmd(b)), at, s, w, fuel);
  }

  // ------------------------------------------------------------- conditionals

  // if: the test chooses, and its own failure is ignored.
  lemma IfRuns(test: string, a: string, b: string, at: At, s: St, w: World, fuel: nat)
    ensures var one := After(s, test, w);
      Sem(Of(If(Cmd(test), Cmd(a), Cmd(b))), at, s, w, fuel) ==
      Sem(Cmd(if one.last == 0 then a else b), at, one, w, fuel)
  {
    hide Sem;
    var one := After(s, test, w);
    PlainRuns(test, Ignoring(at), s, w, fuel);
    PlainRuns(a, at, one, w, fuel);
    PlainRuns(b, at, one, w, fuel);
    Compound(If(Cmd(test), Cmd(a), Cmd(b)), at, s, w, fuel);
  }

  // Without an else part, or one of which nothing is run, the status is 0.
  lemma IfNothing(test: string, at: At, s: St, w: World, fuel: nat)
    ensures var one := After(s, test, w);
      Sem(Of(If(Cmd(test), Null, Null)), at, s, w, fuel) == Run(one.(last := 0), 0, Normal)
  {
    hide Sem;
    PlainRuns(test, Ignoring(at), s, w, fuel);
    Compound(If(Cmd(test), Null, Null), at, s, w, fuel);
    assert Sem(Null, at, After(s, test, w), w, fuel) == Run(After(s, test, w), 0, Normal) by { NullRuns(at, After(s, test, w), w, fuel); }
  }

  lemma NullRuns(at: At, s: St, w: World, fuel: nat)
    ensures Sem(Null, at, s, w, fuel) == Run(s, 0, Normal)
  {
  }

  predicate SomeMatches(word: string, ps: seq<string>, s: St, w: World) {
    exists i :: 0 <= i < |ps| && w.matches(s.trace, s.last, word, ps[i])
  }

  // case: the first clause with a pattern that matches is run; after ;& also
  // the next one, after ;;& the next one that matches.
  lemma CaseRuns(word: string, ps: seq<string>, a: string, mode: Mode, qs: seq<string>, b: string, at: At, s: St,
                 w: World, fuel: nat)
    requires Lenient(at, s)
    ensures var second := Clause(qs, Cmd(b), Stop, NoClause);
      var one := After(s, a, w);
      Sem(Of(Case(word, Clause(ps, Cmd(a), mode, second))), at, s, w, fuel) ==
        if !SomeMatches(word, ps, s, w) then
          if SomeMatches(word, qs, s, w) then Went(After(s, b, w)) else Run(s.(last := 0), 0, Normal)
        else if mode.FallThrough? || (mode.TestNext? && SomeMatches(word, qs, one, w)) then Went(After(one, b, w))
        else Went(one)
  {
    hide Sem;
    var second := Clause(qs, Cmd(b), Stop, NoClause);
    var one := After(s, a, w);
    PlainRuns(a, at, s, w, fuel);
    PlainRuns(b, at, s, w, fuel);
    PlainRuns(b, at, one, w, fuel);
    Compound(Case(word, Clause(ps, Cmd(a), mode, second)), at, s, w, fuel);
    MatchesSome(word, ps, s, w);
    MatchesSome(word, qs, s, w);
    MatchesSome(word, qs, one, w);
    hide Matches, SomeMatches;
    SecondClause(word, qs, b, false, at, s, 0, w, fuel);
    SecondClause(word, qs, b, mode.FallThrough?, at, one, one.last, w, fuel);
  }

  lemma MatchesSome(word: string, ps: seq<string>, s: St, w: World)
    ensures Matches(word, ps, s, w) <==> SomeMatches(word, ps, s, w)
  {
  }

  lemma SecondClause(word: string, qs: seq<string>, b: string, fall: bool, at: At, s: St, status: int, w: World, fuel: nat)
    requires Lenient(at, s)
    ensures Cases(word, Clause(qs, Cmd(b), Stop, NoClause), fall, at, s, status, w, fuel) ==
            if fall || Matches(word, qs, s, w) then Went(After(s, b, w)) else Run(s, status, Normal)
  {
    hide Sem, Matches;
    PlainRuns(b, at, s, w, fuel);
  }

  // -------------------------------------------------------------------- loops

  // n turns of a loop with the test a and the action b.
  function Turned(s: St, a: string, b: string, w: World, n: nat): St
    decreases n
  {
    if n == 0 then s else Turned(After(After(s, a, w), b, w), a, b, w, n - 1)
  }

  // The test lets the loop go on.
  predicate GoesOn(until: bool, s: St, a: string, w: World) {
    if until then After(s, a, w).last != 0 else After(s, a, w).last == 0
  }

  // while and until: as many turns as the test lets go on; the status is that
  // of the last action, 0 if there was none.
  lemma WhileRuns(until: bool, a: string, b: string, at: At, s: St, w: World, fuel: nat, n: nat)
    requires Lenient(at, s) && n <= fuel
    requires (forall i: nat :: i < n ==> GoesOn(until, Turned(s, a, b, w, i), a, w))
    requires !GoesOn(until, Turned(s, a, b, w, n), a, w)
    ensures var end := Turned(s, a, b, w, n);
      var status := if n == 0 then 0 else end.last;
      Sem(Of(While(until, Cmd(a), Cmd(b))), at, s, w, fuel) == Run(After(end, a, w).(last := status), status, Normal)
  {
    hide Sem, GoesOn, Turned;
    LoopRuns(until, a, b, InLoop(at), s, 0, w, fuel, n);
    Compound(While(until, Cmd(a), Cmd(b)), at, s, w, fuel);
    NoTurn(s, a, b, w);
  }

  lemma NoTurn(s: St, a: string, b: string, w: World)
    ensures Turned(s, a, b, w, 0) == s
  {
  }

  lemma {:induction false} LoopRuns(until: bool, a: string, b: string, at: At, s: St, status: int, w: World, fuel: nat,
                                    n: nat)
    requires Lenient(at, s) && n <= fuel
    requires (forall i: nat :: i < n ==> GoesOn(until, Turned(s, a, b, w, i), a, w))
    requires !GoesOn(until, Turned(s, a, b, w, n), a, w)
    ensures var end := Turned(s, a, b, w, n);
      Loop(While(until, Cmd(a), Cmd(b)), at, s, status, w, fuel) ==
      Run(After(end, a, w), if n == 0 then status else end.last, Normal)
    decreases n
  {
    var k := While(until, Cmd(a), Cmd(b));
    var one := After(s, a, w);
    var two := After(one, b, w);
    LoopTurn(until, a, b, at, s, status, w, fuel);
    hide Sem, Loop;
    if n > 0 {
      assert GoesOn(until, Turned(s, a, b, w, 0), a, w);
      forall i: nat | i < n - 1
        ensures GoesOn(until, Turned(two, a, b, w, i), a, w)
      {
        assert Turned(s, a, b, w, i + 1) == Turned(two, a, b, w, i);
      }
      LoopRuns(until, a, b, at, two, two.last, w, fuel - 1, n - 1);
    }
  }

  lemma LoopTurn(until: bool, a: string, b: string, at: At, s: St, status: int, w: World, fuel: nat)
    requires Lenient(at, s)
    ensures var k := While(until, Cmd(a), Cmd(b));
      var two := After(After(s, a, w), b, w);
      Loop(k, at, s, status, w, fuel) ==
        if !GoesOn(until, s, a, w) then Run(After(s, a, w), status, Normal)
        else if fuel == 0 then Run(two, 0, NoFuel)
        else Loop(k, at, two, two.last, w, fuel - 1)
  {
    hide Sem;
    PlainRuns(a, Ignoring(at), s, w, fuel);
    PlainRuns(b, at, After(s, a, w), w, fuel);
  }

  // The test of a loop that is left never ends the shell, and neither does one
  // that lets it go on; a failing action does.
  lemma WhileTests(until: bool, a: string, b: string, at: At, s: St, w: World, fuel: nat)
    ensures !GoesOn(until, s, a, w) ==>
              Sem(Of(While(until, Cmd(a), Cmd(b))), at, s, w, fuel) == Run(After(s, a, w).(last := 0), 0, Normal)
    ensures var two := After(After(s, a, w), b, w);
      GoesOn(until, s, a, w) && !Lenient(at, s) && two.last != 0 ==>
        Sem(Of(While(until, Cmd(a), Cmd(b))), at, s, w, fuel) == Run(two, two.last, ErrExit)
  {
    hide Sem;
    var k := While(until, Cmd(a), Cmd(b));
    PlainRuns(a, Ignoring(InLoop(at)), s, w, fuel);
    PlainRuns(b, InLoop(at), After(s, a, w), w, fuel);
    var two := After(After(s, a, w), b, w);
    if GoesOn(until, s, a, w) && !Lenient(at, s) && two.last != 0 {
      assert Loop(k, InLoop(at), s, 0, w, fuel) == LoopOn(k, InLoop(at), Run(two, two.last, ErrExit), w, fuel);
    }
    Compound(k, at, s, w, fuel);
  }

  // A loop over values: each is bound and b is run.
  function BoundTo(s: St, x: string, value: string): St { s.(trace := s.trace + [Bound(x, value)]) }

  function EachRan(s: St, x: string, values: seq<string>, b: string, w: World): St
    decreases |values|
  {
    if values == [] then s else EachRan(After(BoundTo(s, x, values[0]), b, w), x, values[1..], b, w)
  }

  ghost predicate Writable(x: string, w: World) { w.legal(x) && forall t, n :: w.writable(t, n, x) }

  lemma ForRuns(x: string, words: string, b: string, at: At, s: St, w: World, fuel: nat)
    requires Lenient(at, s) && Writable(x, w)
    ensures var values := w.expand(s.trace, s.last, words);
      var status := if values == [] then 0 else EachRan(s, x, values, b, w).last;
      Sem(Of(For(x, words, Cmd(b))), at, s, w, fuel) ==
      Run(EachRan(s, x, values, b, w).(last := status), status, Normal)
  {
    hide Sem, EachRan;
    var values := w.expand(s.trace, s.last, words);
    EachRuns(x, words, values, b, InLoop(at), s, 0, w, fuel);
    Compound(For(x, words, Cmd(b)), at, s, w, fuel);
  }

  lemma {:induction false} EachRuns(x: string, words: string, values: seq<string>, b: string, at: At, s: St,
                                    status: int, w: World, fuel: nat)
    requires Lenient(at, s) && Writable(x, w)
    ensures Each(For(x, words, Cmd(b)), values, at, s, status, w, fuel) ==
            Run(EachRan(s, x, values, b, w), if values == [] then status else EachRan(s, x, values, b, w).last, Normal)
    decreases |values|
  {
    if values != [] {
      hide Sem;
      var s1 := BoundTo(s, x, values[0]);
      PlainRuns(b, at, s1, w, fuel);
      EachRuns(x, words, values[1..], b, at, After(s1, b, w), After(s1, b, w).last, w, fuel);
    }
  }

  // A name that is no identifier fails and nothing is run; a variable that
  // cannot be assigned ends the loop.
  lemma ForFails(x: string, words: string, action: Tree, at: At, s: St, w: World, fuel: nat)
    ensures !w.legal(x) ==> Sem(Of(For(x, words, action)), at, s, w, fuel) == Run(s.(last := 1), 1, Normal)
    ensures w.legal(x) && w.expand(s.trace, s.last, words) != [] && !w.writable(s.trace, s.last, x) ==>
              Sem(Of(For(x, words, action)), at, s, w, fuel) == Run(s.(last := 1), 1, Normal)
  {
    hide Sem;
    Compound(For(x, words, action), at, s, w, fuel);
  }

  // -------------------------------------------------------- break and continue

  // break n in the action of a loop leaves it at once, and n - 1 loops around
  // it, or all there are; what stands behind it is not run.
  lemma BreakLeaves(n: int, b: Tree, x: string, words: string, at: At, s: St, w: World, fuel: nat)
    requires n >= 1 && Writable(x, w) && w.expand(s.trace, s.last, words) != []
    ensures var more := if n <= at.level + 1 then n - 1 else at.level;
      Sem(Of(For(x, words, Of(Semi(Of(BreakCmd(n)), b)))), at, s, w, fuel) ==
      Run(BoundTo(s, x, w.expand(s.trace, s.last, words)[0]).(last := 0), 0, if more == 0 then Normal else Break(more))
  {
    hide Sem;
    var s1 := BoundTo(s, x, w.expand(s.trace, s.last, words)[0]);
    JumpRuns(n, InLoop(at), s1, w, fuel);
    Compound(Semi(Of(BreakCmd(n)), b), InLoop(at), s1, w, fuel);
    Compound(For(x, words, Of(Semi(Of(BreakCmd(n)), b))), at, s, w, fuel);
  }

  lemma JumpRuns(n: int, at: At, s: St, w: World, fuel: nat)
    requires n >= 1 && at.level > 0
    ensures var k := if n <= at.level then n else at.level;
      && Sem(Of(BreakCmd(n)), at, s, w, fuel) == Run(s.(last := 0), 0, Break(k))
      && Sem(Of(ContinueCmd(n)), at, s, w, fuel) == Run(s.(last := 0), 0, Continue(k))
  {
  }

  // continue n > 1 leaves n - 1 loops and goes on with the next one; continue
  // or continue 1 goes on with the next value.
  lemma ContinueOuter(n: int, b: Tree, x: string, words: string, at: At, s: St, w: World, fuel: nat)
    requires n > 1 && at.level > 0 && Writable(x, w) && w.expand(s.trace, s.last, words) != []
    ensures var more := if n <= at.level + 1 then n - 1 else at.level;
      Sem(Of(For(x, words, Of(Semi(Of(ContinueCmd(n)), b)))), at, s, w, fuel) ==
      Run(BoundTo(s, x, w.expand(s.trace, s.last, words)[0]).(last := 0), 0, Continue(more))
  {
    hide Sem;
    var s1 := BoundTo(s, x, w.expand(s.trace, s.last, words)[0]);
    JumpRuns(n, InLoop(at), s1, w, fuel);
    Compound(Semi(Of(ContinueCmd(n)), b), InLoop(at), s1, w, fuel);
    Compound(For(x, words, Of(Semi(Of(ContinueCmd(n)), b))), at, s, w, fuel);
  }

  function AllBound(s: St, x: string, values: seq<string>): St
    decreases |values|
  {
    if values == [] then s else AllBound(BoundTo(s, x, values[0]).(last := 0), x, values[1..])
  }

  lemma ContinueNext(b: Tree, x: string, words: string, at: At, s: St, w: World, fuel: nat)
    requires Writable(x, w)
    ensures Sem(Of(For(x, words, Of(Semi(Of(ContinueCmd(1)), b)))), at, s, w, fuel) ==
            Run(AllBound(s, x, w.expand(s.trace, s.last, words)).(last := 0), 0, Normal)
  {
    hide Sem, AllBound;
    EachContinues(b, x, words, w.expand(s.trace, s.last, words), InLoop(at), s, w, fuel);
    Compound(For(x, words, Of(Semi(Of(ContinueCmd(1)), b))), at, s, w, fuel);
  }

  lemma {:induction false} EachContinues(b: Tree, x: string, words: string, values: seq<string>, at: At, s: St,
                                         w: World, fuel: nat)
    requires Writable(x, w) && at.level > 0
    ensures Each(For(x, words, Of(Semi(Of(ContinueCmd(1)), b))), values, at, s, 0, w, fuel) ==
            Run(AllBound(s, x, values), 0, Normal)
    decreases |values|
  {
    if values != [] {
      hide Sem;
      var s1 := BoundTo(s, x, values[0]);
      JumpRuns(1, at, s1, w, fuel);
      Compound(Semi(Of(ContinueCmd(1)), b), at, s1, w, fuel);
      EachContinues(b, x, words, values[1..], at, s1.(last := 0), w, fuel);
    }
  }

  // In a while loop the same, whatever the test leaves.
  lemma BreakWhile(n: int, a: string, b: Tree, at: At, s: St, w: World, fuel: nat)
    requires n >= 1 && After(s, a, w).last == 0
    ensures var more := if n <= at.level + 1 then n - 1 else at.level;
      Sem(Of(While(false, Cmd(a), Of(Semi(Of(BreakCmd(n)), b)))), at, s, w, fuel) ==
      Run(After(s, a, w).(last := 0), 0, if more == 0 then Normal else Break(more))
  {
    hide Sem;
    var at1, one := InLoop(at), After(s, a, w);
    PlainRuns(a, Ignoring(at1), s, w, fuel);
    JumpRuns(n, at1, one, w, fuel);
    Compound(Semi(Of(BreakCmd(n)), b), at1, one, w, fuel);
    assert Sem(Of(Semi(Of(BreakCmd(n)), b)), at1, one, w, fuel) ==
           Run(one.(last := 0), 0, Break(if n <= at.level + 1 then n else at.level + 1));
    assert Loop(While(false, Cmd(a), Of(Semi(Of(BreakCmd(n)), b))), at1, s, 0, w, fuel) ==
           LoopOn(While(false, Cmd(a), Of(Semi(Of(BreakCmd(n)), b))), at1,
                  Sem(Of(Semi(Of(BreakCmd(n)), b)), at1, one, w, fuel), w, fuel);
    Compound(While(false, Cmd(a), Of(Semi(Of(BreakCmd(n)), b))), at, s, w, fuel);
  }

  // Outside loops break and continue do nothing.
  lemma NothingToLeave(n: int, at: At, s: St, w: World, fuel: nat)
    requires at.level == 0
    ensures Sem(Of(BreakCmd(n)), at, s, w, fuel) == Run(s.(last := 0), 0, Normal)
    ensures Sem(Of(ContinueCmd(n)), at, s, w, fuel) == Run(s.(last := 0), 0, Normal)
  {
  }

  // ----------------------------------------------------------------- functions

  // return v ends the function and not what stands around the call.
  lemma ReturnEnds(f: string, v: int, b: Tree, next: string, at: At, s: St, w: World, fuel: nat)
    requires Lenient(at, s) && fuel > 0
    requires f in s.functions && s.functions[f] == Of(Semi(Of(ReturnCmd(v)), b))
    ensures Sem(Of(Semi(Of(Call(f)), Cmd(next))), at, s, w, fuel) == Went(After(s.(last := v), next, w))
  {
    var at1 := at.(calls := at.calls + 1);
    assert Sem(Of(ReturnCmd(v)), at1, s, w, fuel - 1) == Run(s, v, Return);
    hide Sem;
    Compound(Semi(Of(ReturnCmd(v)), b), at1, s, w, fuel - 1);
    CallRuns(f, at, s, w, fuel);
    PlainRuns(next, at, s.(last := v), w, fuel);
    Compound(Semi(Of(Call(f)), Cmd(next)), at, s, w, fuel);
  }

  lemma CallRuns(f: string, at: At, s: St, w: World, fuel: nat)
    requires f in s.functions && fuel > 0
    ensures var r := Sem(s.functions[f], at.(calls := at.calls + 1), s, w, fuel - 1);
      (r.out.Normal? || r.out.Return?) && Lenient(at, r.st) ==>
        Sem(Of(Call(f)), at, s, w, fuel) == Run(r.st.(last := r.status), r.status, Normal)
  {
  }

  // Where failures count, so they do in a group, a function, the action of a for
  // loop and that of a clause.
  lemma GroupRuns(a: string, at: At, s: St, w: World, fuel: nat)
    ensures Sem(Of(Group(Cmd(a))), at, s, w, fuel) == Sem(Cmd(a), at, s, w, fuel)
  {
    hide Sem;
    PlainRuns(a, at, s, w, fuel);
    Compound(Group(Cmd(a)), at, s, w, fuel);
  }

  lemma CallFails(f: string, a: string, at: At, s: St, w: World, fuel: nat)
    requires !Lenient(at, s) && fuel > 0 && f in s.functions && s.functions[f] == Cmd(a) && After(s, a, w).last != 0
    ensures Sem(Of(Call(f)), at, s, w, fuel) == Went(After(s, a, w)).(out := ErrExit)
  {
    PlainRuns(a, at.(calls := at.calls + 1), s, w, fuel - 1);
  }

  lemma ActionFails(x: string, words: string, b: string, at: At, s: St, w: World, fuel: nat)
    requires !Lenient(at, s) && Writable(x, w) && w.expand(s.trace, s.last, words) != []
    requires After(BoundTo(s, x, w.expand(s.trace, s.last, words)[0]), b, w).last != 0
    ensures Sem(Of(For(x, words, Cmd(b))), at, s, w, fuel) ==
            Went(After(BoundTo(s, x, w.expand(s.trace, s.last, words)[0]), b, w)).(out := ErrExit)
  {
    hide Sem;
    PlainRuns(b, InLoop(at), BoundTo(s, x, w.expand(s.trace, s.last, words)[0]), w, fuel);
    Compound(For(x, words, Cmd(b)), at, s, w, fuel);
  }

  lemma ClauseFails(word: string, ps: seq<string>, a: string, mode: Mode, next: Clauses, at: At, s: St, w: World, fuel: nat)
    requires !Lenient(at, s) && SomeMatches(word, ps, s, w) && After(s, a, w).last != 0
    ensures Sem(Of(Case(word, Clause(ps, Cmd(a), mode, next))), at, s, w, fuel) == Went(After(s, a, w)).(out := ErrExit)
  {
    hide Sem;
    MatchesSome(word, ps, s, w);
    hide Matches;
    PlainRuns(a, at, s, w, fuel);
    Compound(Case(word, Clause(ps, Cmd(a), mode, next)), at, s, w, fuel);
  }

  // break in a function leaves the loops around its call.
  lemma BreakInFunction(f: string, n: int, at: At, s: St, w: World, fuel: nat)
    requires n >= 1 && at.level > 0 && fuel > 0 && f in s.functions && s.functions[f] == Of(BreakCmd(n))
    ensures Sem(Of(Call(f)), at, s, w, fuel) == Sem(Of(BreakCmd(n)), at, s, w, fuel)
  {
    JumpRuns(n, at.(calls := at.calls + 1), s, w, fuel - 1);
    JumpRuns(n, at, s, w, fuel);
  }

  // An unknown function gives 127, a return outside functions 1; a definition
  // only changes the functions, set -e only the option.
  lemma OtherSimple(f: string, v: int, on: bool, body: Tree, at: At, s: St, w: World, fuel: nat)
    ensures Sem(Of(Define(f, body)), at, s, w, fuel) ==
            Run(St(s.trace, 0, s.errexit, s.functions[f := body]), 0, Normal)
    ensures Sem(Of(SetE(on)), at, s, w, fuel) == Run(St(s.trace, 0, on, s.functions), 0, Normal)
    ensures Lenient(at, s) && f !in s.functions ==> Sem(Of(Call(f)), at, s, w, fuel) == Run(s.(last := 127), 127, Normal)
    ensures Lenient(at, s) && at.calls == 0 ==> Sem(Of(ReturnCmd(v)), at, s, w, fuel) == Run(s.(last := 1), 1, Normal)
  {
  }
}
