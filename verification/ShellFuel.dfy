// The bound on loop turns and nested calls is no part of the executor: a run
// that it did not cut short is the same with a larger one.

module ShellFuel {
  import opened ShellSemantics
  import opened ShellExecution

  lemma {:induction false} ExecFuel(t: Tree, sh: Shell, w: World, fuel: nat)
    requires Exec(t, sh, w, fuel).jump != OutOfFuel
    ensures Exec(t, sh, w, fuel + 1) == Exec(t, sh, w, fuel)
    decreases fuel, Strip(t), 2
  {
    if !Skipping(sh) && t.Tree? {
      hide ExecKind;
      var u := MarkInner(Mark(t, sh.errexit && t.invert));
      KindFuel(u.kind, u.ignore, u.inner, sh, w, fuel);
    }
  }

  lemma {:induction false} KindFuel(k: Kind, ignore: bool, inner: bool, sh: Shell, w: World, fuel: nat)
    requires ExecKind(k, ignore, inner, sh, w, fuel).jump != OutOfFuel
    ensures ExecKind(k, ignore, inner, sh, w, fuel + 1) == ExecKind(k, ignore, inner, sh, w, fuel)
    decreases fuel, StripKind(k), 2
  {
    hide Exec, ExecSemi, ExecAndOr, ExecIf, ExecFunction, ExecLoop, ExecEach, ExecCases;
    match k
    case Call(f) => CallFuel(f, inner, sh, w, fuel);
    case Group(body) => ExecFuel(Mark(body, ignore), sh, w, fuel);
    case Semi(a, b) => SemiFuel(a, b, ignore, sh, w, fuel);
    case AndAnd(a, b) => AndOrFuel(true, a, b, ignore, sh, w, fuel);
    case OrOr(a, b) => AndOrFuel(false, a, b, ignore, sh, w, fuel);
    case If(test, yes, no) => IfFuel(test, yes, no, inner, sh, w, fuel);
    case While(until, test, action) =>
      LoopFuel(While(until, Mark(test, true), Mark(action, inner)), sh.(level := sh.level + 1), 0, w, fuel);
    case For(x, words, action) =>
      if w.legal(x) {
        EachFuel(For(x, words, Mark(action, inner)), w.expand(sh.trace, sh.last, words),
                 sh.(level := sh.level + 1), 0, w, fuel);
      }
    case Case(x, cs) => CasesFuel(x, cs, false, inner, sh, 0, w, fuel);
    case _ =>
  }

  lemma {:induction false} CallFuel(f: string, inner: bool, sh: Shell, w: World, fuel: nat)
    requires ExecFunction(f, inner, sh, w, fuel).jump != OutOfFuel
    ensures ExecFunction(f, inner, sh, w, fuel + 1) == ExecFunction(f, inner, sh, w, fuel)
    decreases fuel, Call(f), 0
  {
    hide Exec;
    if f in sh.functions && fuel > 0 {
      ExecFuel(Mark(sh.functions[f], inner), sh.(catching := sh.catching + 1), w, fuel - 1);
    }
  }

  lemma {:induction false} SemiFuel(a: Tree, b: Tree, ignore: bool, sh: Shell, w: World, fuel: nat)
    requires ExecSemi(a, b, ignore, sh, w, fuel).jump != OutOfFuel
    ensures ExecSemi(a, b, ignore, sh, w, fuel + 1) == ExecSemi(a, b, ignore, sh, w, fuel)
    decreases fuel, StripKind(Semi(a, b)), 0
  {
    hide Exec;
    var d := Exec(Mark(a, ignore), sh, w, fuel);
    ExecFuel(Mark(a, ignore), sh, w, fuel);
    if d.jump == Stay { ExecFuel(Mark(b, ignore), d.sh, w, fuel); }
  }

  lemma {:induction false} AndOrFuel(and: bool, a: Tree, b: Tree, ignore: bool, sh: Shell, w: World, fuel: nat)
    requires ExecAndOr(and, a, b, ignore, sh, w, fuel).jump != OutOfFuel
    ensures ExecAndOr(and, a, b, ignore, sh, w, fuel + 1) == ExecAndOr(and, a, b, ignore, sh, w, fuel)
    decreases fuel, StripKind(AndOr(and, a, b)), 0
  {
    hide Exec;
    var d := Exec(Mark(a, true), sh, w, fuel);
    ExecFuel(Mark(a, true), sh, w, fuel);
    if d.jump == Stay && (d.status == 0) == and { ExecFuel(Mark(b, ignore), d.sh, w, fuel); }
  }

  lemma {:induction false} IfFuel(test: Tree, yes: Tree, no: Tree, inner: bool, sh: Shell, w: World, fuel: nat)
    requires ExecIf(test, yes, no, inner, sh, w, fuel).jump != OutOfFuel
    ensures ExecIf(test, yes, no, inner, sh, w, fuel + 1) == ExecIf(test, yes, no, inner, sh, w, fuel)
    decreases fuel, StripKind(If(test, yes, no)), 0
  {
    hide Exec;
    var d := Exec(Mark(test, true), sh, w, fuel);
    ExecFuel(Mark(test, true), sh, w, fuel);
    if d.jump == Stay { ExecFuel(Mark(if d.status == 0 then yes else no, inner), d.sh, w, fuel); }
  }

  lemma {:induction false} LoopFuel(k: Kind, sh: Shell, status: int, w: World, fuel: nat)
    requires k.While? && sh.level > 0 && ExecLoop(k, sh, status, w, fuel).jump != OutOfFuel
    ensures ExecLoop(k, sh, status, w, fuel + 1) == ExecLoop(k, sh, status, w, fuel)
    decreases fuel, StripKind(k), 1
  {
    hide Exec, ExecTurn;
    var t := Exec(k.test, sh, w, fuel);
    ExecFuel(k.test, sh, w, fuel);
    if t.jump == Stay && (t.status == 0) != k.until {
      var a := Exec(k.action, t.sh, w, fuel);
      TurnReached(While(k.until, t.tree, a.tree), a, w, fuel);
      ExecFuel(k.action, t.sh, w, fuel);
      TurnFuel(While(k.until, t.tree, a.tree), a, w, fuel);
    }
  }

  lemma TurnReached(k: Kind, a: Done, w: World, fuel: nat)
    requires k.While? && (a.jump == Stay ==> a.sh.level > 0) && ExecTurn(k, a, w, fuel).jump != OutOfFuel
    ensures a.jump != OutOfFuel
  {
    hide ExecLoop;
  }

  lemma {:induction false} TurnFuel(k: Kind, a: Done, w: World, fuel: nat)
    requires k.While? && (a.jump == Stay ==> a.sh.level > 0) && ExecTurn(k, a, w, fuel).jump != OutOfFuel
    ensures ExecTurn(k, a, w, fuel + 1) == ExecTurn(k, a, w, fuel)
    decreases fuel, StripKind(k), 0
  {
    hide ExecLoop;
    if a.jump == Stay && !LeavesLoop(a.sh) && fuel > 0 {
      LoopFuel(k, CountDown(a.sh), a.status, w, fuel - 1);
    }
  }

  lemma {:induction false} EachFuel(k: Kind, values: seq<string>, sh: Shell, status: int, w: World, fuel: nat)
    requires k.For? && sh.level > 0 && ExecEach(k, values, sh, status, w, fuel).jump != OutOfFuel
    ensures ExecEach(k, values, sh, status, w, fuel + 1) == ExecEach(k, values, sh, status, w, fuel)
    decreases fuel, StripKind(k), 0, |values|
  {
    hide Exec;
    if values != [] && w.writable(sh.trace, sh.last, k.name) {
      var s1 := sh.(trace := sh.trace + [Bound(k.name, values[0])]);
      var a := Exec(k.action, s1, w, fuel);
      ExecFuel(k.action, s1, w, fuel);
      if a.jump == Stay && !LeavesLoop(a.sh) {
        EachFuel(For(k.name, k.words, a.tree), values[1..], CountDown(a.sh), a.status, w, fuel);
      }
    }
  }

  lemma {:induction false} CasesFuel(x: string, c: Clauses, fall: bool, inner: bool, sh: Shell, status: int, w: World,
                                     fuel: nat)
    requires ExecCases(x, c, fall, inner, sh, status, w, fuel).jump != OutOfFuel
    ensures ExecCases(x, c, fall, inner, sh, status, w, fuel + 1) == ExecCases(x, c, fall, inner, sh, status, w, fuel)
    decreases fuel, StripClauses(c), 2
  {
    if c.Clause? {
      hide Exec, Matches;
      if !fall && !Matches(x, c.patterns, Abs(sh), w) {
        CasesFuel(x, c.next, false, inner, sh, status, w, fuel);
      } else {
        var a := Exec(Mark(c.action, inner), sh, w, fuel);
        ExecFuel(Mark(c.action, inner), sh, w, fuel);
        if a.jump == Stay && !c.mode.Stop? {
          CasesFuel(x, c.next, c.mode.FallThrough?, inner, a.sh, a.status, w, fuel);
        }
      }
    }
  }
}
