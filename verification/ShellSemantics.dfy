// What shell commands mean: a semantics with structured outcomes for `break',
// `continue', `return' and `set -e', in which whether a failure counts is a
// property of the place where a command stands (POSIX XCU section 2.14).

module ShellSemantics {

  // A command.  Executing it may set the marks: CMD_IGNORE_RETURN in its own
  // flags (ignore) and in those of its value (inner).  They have no meaning
  // here.
  datatype Tree = Null | Tree(invert: bool, ignore: bool, inner: bool, kind: Kind)

  datatype Kind =
    // simple commands
    | Plain(text: string) | BreakCmd(n: int) | ContinueCmd(n: int) | ReturnCmd(v: int)
    | SetE(on: bool) | Call(name: string)
    // compound commands
    | Group(body: Tree)
    | Semi(a: Tree, b: Tree) | AndAnd(a: Tree, b: Tree) | OrOr(a: Tree, b: Tree)
    | If(test: Tree, yes: Tree, no: Tree)
    | While(until: bool, test: Tree, action: Tree)
    | For(name: string, words: string, action: Tree)
    | Case(word: string, clauses: Clauses)
    | Define(name: string, body: Tree)

  // After the action of a clause: ;; or ;& or ;;&
  datatype Mode = Stop | FallThrough | TestNext

  datatype Clauses = NoClause | Clause(patterns: seq<string>, action: Tree, mode: Mode, next: Clauses)

  datatype Event = Ran(text: string, last: int) | Bound(name: string, value: string)

  // The world: what a command returns, how words expand, what a pattern
  // matches and which variables can be assigned, each depending on everything
  // that happened and on `$?'; and which words are identifiers.
  datatype World = World(
    run: (seq<Event>, int, string) -> int,
    expand: (seq<Event>, int, string) -> seq<string>,
    matches: (seq<Event>, int, string, string) -> bool,
    writable: (seq<Event>, int, string) -> bool,
    legal: string -> bool)

  datatype St = St(trace: seq<Event>, last: int, errexit: bool, functions: map<string, Tree>)

  datatype Outcome = Normal | Break(k: nat) | Continue(k: nat) | Return | ErrExit | NoFuel

  datatype Run = Run(st: St, status: int, out: Outcome)

  // Where a command stands: whether its failure is ignored, in how many
  // loops and in how many function calls.
  datatype At = At(ignore: bool, level: nat, calls: nat)

  predicate Jumps(o: Outcome) { o.Return? || o.ErrExit? || o.NoFuel? }

  predicate IsSimple(k: Kind) {
    k.Plain? || k.BreakCmd? || k.ContinueCmd? || k.ReturnCmd? || k.SetE? || k.Call?
  }

  function Failing(b: bool): int { if b then 1 else 0 }

  function Min(a: int, b: int): int { if a < b then a else b }

  function Inverted(status: int): int { Failing(status == 0) }

  // The loops that a break or continue of n leaves or resumes.
  function BreakTo(n: int, at: At, s: St): Run {
    if at.level == 0 then Run(s, 0, Normal)
    else if n <= 0 then Run(s, 1, Break(at.level))
    else Run(s, 0, Break(Min(n, at.level)))
  }

  function ContinueTo(n: int, at: At, s: St): Run {
    if at.level == 0 then Run(s, 0, Normal)
    else if n <= 0 then Run(s, 1, Break(at.level))
    else Run(s, 0, Continue(Min(n, at.level)))
  }

  // A loop is left: one break fewer to go.
  function Leave(o: Outcome): Outcome {
    match o
    case Break(k) => if k <= 1 then Normal else Break(k - 1)
    case Continue(k) => if k <= 1 then Normal else Continue(k - 1)
    case _ => o
  }

  // A loop is left by its test.  A `continue' in the test is not counted.
  function LeaveByTest(o: Outcome): Outcome { if o.Break? then Leave(o) else o }

  // The loop goes round again.
  predicate Again(o: Outcome) { o.Normal? || o == Continue(1) }

  function Ignoring(at: At): At { at.(ignore := true) }

  function Inside(at: At, t: Tree): At
    requires t.Tree?
  {
    at.(ignore := at.ignore || t.invert)
  }

  function InLoop(at: At): At { at.(level := at.level + 1) }

  // How a command ends: a failing simple command whose failure counts exits
  // the shell under `set -e'; otherwise `$?' is set, inverted after `!'.
  function Finish(t: Tree, at: At, r: Run): Run
    requires t.Tree?
  {
    if Jumps(r.out) then r
    else if IsSimple(t.kind) && !(at.ignore || t.invert) && r.st.errexit && r.status != 0 then
      Run(r.st.(last := r.status), r.status, ErrExit)
    else
      var status := if t.invert then Inverted(r.status) else r.status;
      Run(r.st.(last := status), status, r.out)
  }

  // The meaning of a command; fuel bounds loop turns and nested calls.
  function Sem(t: Tree, at: At, s: St, w: World, fuel: nat): Run
    decreases fuel, t, 1
  {
    if t.Null? then Run(s, 0, Normal) else Finish(t, at, SemKind(t.kind, Inside(at, t), s, w, fuel))
  }

  function SemKind(k: Kind, at: At, s: St, w: World, fuel: nat): Run
    decreases fuel, k, 2
  {
    match k
    case Plain(text) => Run(s.(trace := s.trace + [Ran(text, s.last)]), w.run(s.trace, s.last, text), Normal)
    case BreakCmd(n) => BreakTo(n, at, s)
    case ContinueCmd(n) => ContinueTo(n, at, s)
    case ReturnCmd(v) => if at.calls > 0 then Run(s, v, Return) else Run(s, 1, Normal)
    case SetE(on) => Run(s.(errexit := on), 0, Normal)
    case Call(f) =>
      if f !in s.functions then Run(s, 127, Normal)
      else if fuel == 0 then Run(s, 0, NoFuel)
      else
        var r := Sem(s.functions[f], at.(calls := at.calls + 1), s, w, fuel - 1);
        if r.out.Return? then r.(out := Normal) else r
    case Group(body) => Sem(body, at, s, w, fuel)
    case Semi(a, b) =>
      var r := Sem(a, at, s, w, fuel);
      if r.out.Normal? then Sem(b, at, r.st, w, fuel) else r
    case AndAnd(a, b) =>
      var r := Sem(a, Ignoring(at), s, w, fuel);
      if r.out.Normal? && r.status == 0 then Sem(b, at, r.st, w, fuel) else r
    case OrOr(a, b) =>
      var r := Sem(a, Ignoring(at), s, w, fuel);
      if r.out.Normal? && r.status != 0 then Sem(b, at, r.st, w, fuel) else r
    case If(test, yes, no) =>
      var r := Sem(test, Ignoring(at), s, w, fuel);
      if !r.out.Normal? then r else Sem(if r.status == 0 then yes else no, at, r.st, w, fuel)
    case While(_, _, _) => Loop(k, InLoop(at), s, 0, w, fuel)
    case For(x, words, _) =>
      if !w.legal(x) then Run(s, 1, Normal)
      else Each(k, w.expand(s.trace, s.last, words), InLoop(at), s, 0, w, fuel)
    case Case(word, clauses) => Cases(word, clauses, false, at, s, 0, w, fuel)
    case Define(f, body) => Run(s.(functions := s.functions[f := body]), 0, Normal)
  }

  // while and until; `status' is that of the last turn.
  function Loop(k: Kind, at: At, s: St, status: int, w: World, fuel: nat): Run
    requires k.While?
    decreases fuel, k, 1
  {
    var r := Sem(k.test, Ignoring(at), s, w, fuel);
    if Jumps(r.out) then r
    else if (r.status == 0) == k.until then Run(r.st, status, LeaveByTest(r.out))
    else LoopOn(k, at, if r.out.Normal? then Sem(k.action, at, r.st, w, fuel) else r, w, fuel)
  }

  // The loop after its action, or what the test broke off to.
  function LoopOn(k: Kind, at: At, b: Run, w: World, fuel: nat): Run
    requires k.While?
    decreases fuel, k, 0
  {
    if Jumps(b.out) then b
    else if !Again(b.out) then Run(b.st, b.status, Leave(b.out))
    else if fuel == 0 then Run(b.st, 0, NoFuel)
    else Loop(k, at, b.st, b.status, w, fuel - 1)
  }

  function Each(k: Kind, values: seq<string>, at: At, s: St, status: int, w: World, fuel: nat): Run
    requires k.For?
    decreases fuel, k, 0, |values|
  {
    if values == [] then Run(s, status, Normal)
    else if !w.writable(s.trace, s.last, k.name) then Run(s, 1, Normal)
    else
      var b := Sem(k.action, at, s.(trace := s.trace + [Bound(k.name, values[0])]), w, fuel);
      if Jumps(b.out) then b
      else if !Again(b.out) then Run(b.st, b.status, Leave(b.out))
      else Each(k, values[1..], at, b.st, b.status, w, fuel)
  }

  predicate Matches(word: string, patterns: seq<string>, s: St, w: World) {
    exists p :: p in patterns && w.matches(s.trace, s.last, word, p)
  }

  function Cases(word: string, c: Clauses, fall: bool, at: At, s: St, status: int, w: World, fuel: nat): Run
    decreases fuel, c, 1
  {
    match c
    case NoClause => Run(s, status, Normal)
    case Clause(patterns, action, mode, next) =>
      if !fall && !Matches(word, patterns, s, w) then Cases(word, next, false, at, s, status, w, fuel)
      else
        var r := Sem(action, at, s, w, fuel);
        if !r.out.Normal? || mode.Stop? then r
        else Cases(word, next, mode.FallThrough?, at, r.st, r.status, w, fuel)
  }

  // ------------------------------------------------------------ the trace

  // What happened stays; a run only adds to it.
  predicate Extends(s: St, r: Run) { s.trace <= r.st.trace }

  lemma {:induction false} SemExtends(t: Tree, at: At, s: St, w: World, fuel: nat)
    ensures Extends(s, Sem(t, at, s, w, fuel))
    decreases fuel, t, 3
  {
    if t.Tree? {
      hide SemKind;
      KindExtends(t.kind, Inside(at, t), s, w, fuel);
    }
  }

  lemma {:induction false} KindExtends(k: Kind, at: At, s: St, w: World, fuel: nat)
    ensures Extends(s, SemKind(k, at, s, w, fuel))
    decreases fuel, k, 2
  {
    hide Sem, Loop, Each, Cases;
    match k
    case Call(f) =>
      if f in s.functions && fuel > 0 {
        SemExtends(s.functions[f], at.(calls := at.calls + 1), s, w, fuel - 1);
      }
    case Group(body) => SemExtends(body, at, s, w, fuel);
    case Semi(a, b) =>
      SemExtends(a, at, s, w, fuel);
      SemExtends(b, at, Sem(a, at, s, w, fuel).st, w, fuel);
    case AndAnd(a, b) =>
      SemExtends(a, Ignoring(at), s, w, fuel);
      SemExtends(b, at, Sem(a, Ignoring(at), s, w, fuel).st, w, fuel);
    case OrOr(a, b) =>
      SemExtends(a, Ignoring(at), s, w, fuel);
      SemExtends(b, at, Sem(a, Ignoring(at), s, w, fuel).st, w, fuel);
    case If(test, yes, no) =>
      var r := Sem(test, Ignoring(at), s, w, fuel);
      SemExtends(test, Ignoring(at), s, w, fuel);
      SemExtends(if r.status == 0 then yes else no, at, r.st, w, fuel);
    case While(_, _, _) => LoopExtends(k, InLoop(at), s, 0, w, fuel);
    case For(_, words, _) => EachExtends(k, w.expand(s.trace, s.last, words), InLoop(at), s, 0, w, fuel);
    case Case(x, cs) => CasesExtend(x, cs, false, at, s, 0, w, fuel);
    case _ =>
  }

  lemma {:induction false} LoopExtends(k: Kind, at: At, s: St, status: int, w: World, fuel: nat)
    requires k.While?
    ensures Extends(s, Loop(k, at, s, status, w, fuel))
    decreases fuel, k, 1
  {
    hide Sem, LoopOn;
    var r := Sem(k.test, Ignoring(at), s, w, fuel);
    SemExtends(k.test, Ignoring(at), s, w, fuel);
    SemExtends(k.action, at, r.st, w, fuel);
    LoopOnExtends(k, at, if r.out.Normal? then Sem(k.action, at, r.st, w, fuel) else r, w, fuel);
  }

  lemma {:induction false} LoopOnExtends(k: Kind, at: At, b: Run, w: World, fuel: nat)
    requires k.While?
    ensures Extends(b.st, LoopOn(k, at, b, w, fuel))
    decreases fuel, k, 0
  {
    hide Loop;
    if fuel > 0 { LoopExtends(k, at, b.st, b.status, w, fuel - 1); }
  }

  lemma {:induction false} EachExtends(k: Kind, values: seq<string>, at: At, s: St, status: int, w: World, fuel: nat)
    requires k.For?
    ensures Extends(s, Each(k, values, at, s, status, w, fuel))
    decreases fuel, k, 1, |values|
  {
    if values != [] {
      hide Sem;
      var s1 := s.(trace := s.trace + [Bound(k.name, values[0])]);
      SemExtends(k.action, at, s1, w, fuel);
      var b := Sem(k.action, at, s1, w, fuel);
      EachExtends(k, values[1..], at, b.st, b.status, w, fuel);
    }
  }

  lemma {:induction false} CasesExtend(x: string, c: Clauses, fall: bool, at: At, s: St, status: int, w: World,
                                       fuel: nat)
    ensures Extends(s, Cases(x, c, fall, at, s, status, w, fuel))
    decreases fuel, c, 1
  {
    if c.Clause? {
      hide Sem, Matches;
      SemExtends(c.action, at, s, w, fuel);
      var r := Sem(c.action, at, s, w, fuel);
      CasesExtend(x, c.next, false, at, s, status, w, fuel);
      CasesExtend(x, c.next, c.mode.FallThrough?, at, r.st, r.status, w, fuel);
    }
  }
}
