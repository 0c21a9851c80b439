// What execute_cmd.c does, step by step: `break' and `continue' are counters
// that turn every later command into a no-op, and the places where a failure
// is ignored are marked in the command itself, which keeps the marks.

module ShellExecution {
  import opened ShellSemantics

  // The globals of the executor.
  datatype Shell = Shell(
    trace: seq<Event>, last: int, errexit: bool, functions: map<string, Tree>,
    breaking: nat, continuing: nat, level: nat, catching: nat)

  // How a routine comes back: by returning, or by a longjmp to the top level
  // or to the nearest function call.
  datatype Jump = Stay | ToTop | ToReturn | OutOfFuel

  datatype Done = Done(tree: Tree, sh: Shell, status: int, jump: Jump)

  datatype KindDone = KindDone(kind: Kind, sh: Shell, status: int, jump: Jump)

  datatype ClausesDone = ClausesDone(clauses: Clauses, sh: Shell, status: int, jump: Jump)

  // The tree without marks.
  function Strip(t: Tree): (r: Tree)
    ensures r.Tree? <==> t.Tree?
  {
    if t.Null? then Null else Tree(t.invert, false, false, StripKind(t.kind))
  }

  function StripKind(k: Kind): Kind {
    match k
    case Group(b) => Group(Strip(b))
    case Semi(a, b) => Semi(Strip(a), Strip(b))
    case AndAnd(a, b) => AndAnd(Strip(a), Strip(b))
    case OrOr(a, b) => OrOr(Strip(a), Strip(b))
    case If(c, a, b) => If(Strip(c), Strip(a), Strip(b))
    case While(until, c, a) => While(until, Strip(c), Strip(a))
    case For(x, ws, a) => For(x, ws, Strip(a))
    case Case(x, cs) => Case(x, StripClauses(cs))
    case Define(f, b) => Define(f, Strip(b))
    case _ => k
  }

  function StripClauses(c: Clauses): Clauses {
    match c
    case NoClause => NoClause
    case Clause(ps, a, mode, next) => Clause(ps, Strip(a), mode, StripClauses(next))
  }

  // flags |= CMD_IGNORE_RETURN
  function Mark(t: Tree, ignore: bool): (r: Tree)
    ensures Strip(r) == Strip(t) && (r.Tree? <==> t.Tree?)
  {
    if ignore && t.Tree? then t.(ignore := true) else t
  }

  predicate HasInner(k: Kind) { IsSimple(k) || k.If? || k.While? || k.For? || k.Case? }

  function MarkInner(t: Tree): (r: Tree)
    requires t.Tree?
    ensures r.Tree? && Strip(r) == Strip(t) && r.invert == t.invert && r.ignore == t.ignore && r.kind == t.kind
  {
    if t.ignore && HasInner(t.kind) then t.(inner := true) else t
  }

  predicate Skipping(sh: Shell) { sh.breaking > 0 || sh.continuing > 0 }

  // On return, loop_level and return_catch_flag are what they were.
  predicate Restored(sh: Shell, after: Shell, jump: Jump) {
    jump == Stay ==> after.level == sh.level && after.catching == sh.catching
  }

  // execute_command_internal
  function Exec(t: Tree, sh: Shell, w: World, fuel: nat): (d: Done)
    ensures Strip(d.tree) == Strip(t) && Restored(sh, d.sh, d.jump)
    decreases fuel, Strip(t), 2
  {
    if Skipping(sh) then Done(t, sh, sh.last, Stay)
    else if t.Null? then Done(t, sh, 0, Stay)
    else
      var u := MarkInner(Mark(t, sh.errexit && t.invert));
      var d := ExecKind(u.kind, u.ignore, u.inner, sh, w, fuel);
      Conclude(Tree(u.invert, u.ignore, u.inner, d.kind), d)
  }

  // The end of execute_command_internal.
  function Conclude(u: Tree, d: KindDone): (r: Done)
    requires u.Tree?
    ensures r.tree == u && Restored(d.sh, r.sh, r.jump) && (r.jump == Stay ==> d.jump == Stay)
  {
    if d.jump != Stay then Done(u, d.sh, d.status, d.jump)
    else if IsSimple(u.kind) && !u.ignore && !u.invert && d.sh.errexit && d.status != 0 then
      Done(u, d.sh.(last := d.status), d.status, ToTop)
    else
      var status := if u.invert then Inverted(d.status) else d.status;
      Done(u, d.sh.(last := status), status, Stay)
  }

  function ExecKind(k: Kind, ignore: bool, inner: bool, sh: Shell, w: World, fuel: nat): (d: KindDone)
    ensures StripKind(d.kind) == StripKind(k) && Restored(sh, d.sh, d.jump)
    decreases fuel, StripKind(k), 2
  {
    match k
    case Plain(text) =>
      KindDone(k, sh.(trace := sh.trace + [Ran(text, sh.last)]), w.run(sh.trace, sh.last, text), Stay)
    case BreakCmd(n) => BreakBuiltin(k, n, sh)
    case ContinueCmd(n) => ContinueBuiltin(k, n, sh)
    case ReturnCmd(v) =>
      if sh.catching > 0 then KindDone(k, sh, v, ToReturn) else KindDone(k, sh, 1, Stay)
    case SetE(on) => KindDone(k, sh.(errexit := on), 0, Stay)
    case Call(f) => ExecFunction(f, inner, sh, w, fuel)
    case Group(body) =>
      var d := Exec(Mark(body, ignore), sh, w, fuel);
      KindDone(Group(d.tree), d.sh, d.status, d.jump)
    case Semi(a, b) => ExecSemi(a, b, ignore, sh, w, fuel)
    case AndAnd(a, b) => ExecAndOr(true, a, b, ignore, sh, w, fuel)
    case OrOr(a, b) => ExecAndOr(false, a, b, ignore, sh, w, fuel)
    case If(test, yes, no) => ExecIf(test, yes, no, inner, sh, w, fuel)
    case While(until, test, action) =>
      ExecLoop(While(until, Mark(test, true), Mark(action, inner)), sh.(level := sh.level + 1), 0, w, fuel)
    case For(x, words, action) => ExecFor(x, words, action, inner, sh, w, fuel)
    case Case(x, cs) =>
      var d := ExecCases(x, cs, false, inner, sh, 0, w, fuel);
      KindDone(Case(x, d.clauses), d.sh, d.status, d.jump)
    case Define(f, body) => KindDone(k, sh.(functions := sh.functions[f := body]), 0, Stay)
  }

  // The three connectors of execute_connection.
  function ExecSemi(a: Tree, b: Tree, ignore: bool, sh: Shell, w: World, fuel: nat): (d: KindDone)
    ensures StripKind(d.kind) == StripKind(Semi(a, b)) && Restored(sh, d.sh, d.jump)
    decreases fuel, StripKind(Semi(a, b)), 0
  {
    var d := Exec(Mark(a, ignore), sh, w, fuel);
    if d.jump != Stay then KindDone(Semi(d.tree, Mark(b, ignore)), d.sh, d.status, d.jump)
    else
      var e := Exec(Mark(b, ignore), d.sh, w, fuel);
      KindDone(Semi(d.tree, e.tree), e.sh, e.status, e.jump)
  }

  function AndOr(and: bool, a: Tree, b: Tree): Kind { if and then AndAnd(a, b) else OrOr(a, b) }

  function ExecAndOr(and: bool, a: Tree, b: Tree, ignore: bool, sh: Shell, w: World, fuel: nat): (d: KindDone)
    ensures StripKind(d.kind) == StripKind(AndOr(and, a, b)) && Restored(sh, d.sh, d.jump)
    decreases fuel, StripKind(AndOr(and, a, b)), 0
  {
    var d := Exec(Mark(a, true), sh, w, fuel);
    if d.jump != Stay || (d.status == 0) != and then KindDone(AndOr(and, d.tree, b), d.sh, d.status, d.jump)
    else
      var e := Exec(Mark(b, ignore), d.sh, w, fuel);
      KindDone(AndOr(and, d.tree, e.tree), e.sh, e.status, e.jump)
  }

  // execute_if_command
  function ExecIf(test: Tree, yes: Tree, no: Tree, inner: bool, sh: Shell, w: World, fuel: nat): (d: KindDone)
    ensures StripKind(d.kind) == StripKind(If(test, yes, no)) && Restored(sh, d.sh, d.jump)
    decreases fuel, StripKind(If(test, yes, no)), 0
  {
    var d := Exec(Mark(test, true), sh, w, fuel);
    if d.jump != Stay then KindDone(If(d.tree, yes, no), d.sh, d.status, d.jump)
    else if d.status == 0 then
      var e := Exec(Mark(yes, inner), d.sh, w, fuel);
      KindDone(If(d.tree, e.tree, no), e.sh, e.status, e.jump)
    else
      var e := Exec(Mark(no, inner), d.sh, w, fuel);
      KindDone(If(d.tree, yes, e.tree), e.sh, e.status, e.jump)
  }

  function BreakBuiltin(k: Kind, n: int, sh: Shell): KindDone {
    if sh.level == 0 then KindDone(k, sh, 0, Stay)
    else if n <= 0 then KindDone(k, sh.(breaking := sh.level), 1, Stay)
    else KindDone(k, sh.(breaking := Min(n, sh.level)), 0, Stay)
  }

  function ContinueBuiltin(k: Kind, n: int, sh: Shell): KindDone {
    if sh.level == 0 then KindDone(k, sh, 0, Stay)
    else if n <= 0 then KindDone(k, sh.(breaking := sh.level), 1, Stay)
    else KindDone(k, sh.(continuing := Min(n, sh.level)), 0, Stay)
  }

  // execute_function: a copy of the body is marked and run; `return' comes
  // back here, and loop_level is what it was.
  function ExecFunction(f: string, inner: bool, sh: Shell, w: World, fuel: nat): (d: KindDone)
    ensures d.kind == Call(f) && Restored(sh, d.sh, d.jump)
    decreases fuel, Call(f), 0
  {
    if f !in sh.functions then KindDone(Call(f), sh, 127, Stay)
    else if fuel == 0 then KindDone(Call(f), sh, 0, OutOfFuel)
    else
      var d := Exec(Mark(sh.functions[f], inner), sh.(catching := sh.catching + 1), w, fuel - 1);
      if d.jump == ToTop || d.jump == OutOfFuel then KindDone(Call(f), d.sh, d.status, d.jump)
      else KindDone(Call(f), d.sh.(level := sh.level, catching := sh.catching), d.status, Stay)
  }

  // After a turn: is the loop left, and the counters one loop further out.
  predicate LeavesLoop(sh: Shell) { sh.breaking > 0 || sh.continuing > 1 }

  function CountDown(sh: Shell): Shell {
    if sh.breaking > 0 then sh.(breaking := sh.breaking - 1)
    else if sh.continuing > 0 then sh.(continuing := sh.continuing - 1)
    else sh
  }

  function CountBreak(sh: Shell): Shell {
    if sh.breaking > 0 then sh.(breaking := sh.breaking - 1) else sh
  }

  function LeaveLoop(k: Kind, sh: Shell, status: int): (d: KindDone)
    requires sh.level > 0
    ensures d.kind == k && d.jump == Stay && d.sh == sh.(level := sh.level - 1)
  {
    KindDone(k, sh.(level := sh.level - 1), status, Stay)
  }

  // What a loop, entered with one more loop_level, comes back with.
  predicate RestoredLoop(sh: Shell, d: KindDone) {
    d.jump == Stay ==> d.sh.level == sh.level - 1 && d.sh.catching == sh.catching
  }

  // execute_while_or_until
  function ExecLoop(k: Kind, sh: Shell, status: int, w: World, fuel: nat): (d: KindDone)
    requires k.While? && sh.level > 0
    ensures StripKind(d.kind) == StripKind(k) && RestoredLoop(sh, d)
    decreases fuel, StripKind(k), 1
  {
    var t := Exec(k.test, sh, w, fuel);
    if t.jump != Stay then KindDone(While(k.until, t.tree, k.action), t.sh, t.status, t.jump)
    else if (t.status == 0) == k.until then
      LeaveLoop(While(k.until, t.tree, k.action), CountBreak(t.sh), status)
    else
      var a := Exec(k.action, t.sh, w, fuel);
      ExecTurn(While(k.until, t.tree, a.tree), a, w, fuel)
  }

  // The loop after its action was executed.
  function ExecTurn(k: Kind, a: Done, w: World, fuel: nat): (d: KindDone)
    requires k.While? && (a.jump == Stay ==> a.sh.level > 0)
    ensures StripKind(d.kind) == StripKind(k) && (d.jump == Stay ==> a.jump == Stay) && RestoredLoop(a.sh, d)
    decreases fuel, StripKind(k), 0
  {
    if a.jump != Stay then KindDone(k, a.sh, a.status, a.jump)
    else if LeavesLoop(a.sh) then LeaveLoop(k, CountDown(a.sh), a.status)
    else if fuel == 0 then KindDone(k, CountDown(a.sh), 0, OutOfFuel)
    else ExecLoop(k, CountDown(a.sh), a.status, w, fuel - 1)
  }

  // execute_for_command
  function ExecFor(x: string, words: string, action: Tree, inner: bool, sh: Shell, w: World, fuel: nat): (d: KindDone)
    ensures StripKind(d.kind) == StripKind(For(x, words, action)) && Restored(sh, d.sh, d.jump)
    decreases fuel, StripKind(For(x, words, action)), 1
  {
    if !w.legal(x) then KindDone(For(x, words, action), sh, 1, Stay)
    else
      ExecEach(For(x, words, Mark(action, inner)), w.expand(sh.trace, sh.last, words),
               sh.(level := sh.level + 1), 0, w, fuel)
  }

  // Its loop, over the values that the words expanded to.
  function ExecEach(k: Kind, values: seq<string>, sh: Shell, status: int, w: World, fuel: nat): (d: KindDone)
    requires k.For? && sh.level > 0
    ensures StripKind(d.kind) == StripKind(k) && RestoredLoop(sh, d)
    decreases fuel, StripKind(k), 0, |values|
  {
    if values == [] then LeaveLoop(k, sh, status)
    else if !w.writable(sh.trace, sh.last, k.name) then LeaveLoop(k, sh, 1)
    else
      var a := Exec(k.action, sh.(trace := sh.trace + [Bound(k.name, values[0])]), w, fuel);
      var k' := For(k.name, k.words, a.tree);
      if a.jump != Stay then KindDone(k', a.sh, a.status, a.jump)
      else if LeavesLoop(a.sh) then LeaveLoop(k', CountDown(a.sh), a.status)
      else ExecEach(k', values[1..], CountDown(a.sh), a.status, w, fuel)
  }

  function Abs(sh: Shell): St { St(sh.trace, sh.last, sh.errexit, sh.functions) }

  // execute_case_command from clause c on; `fall' after a clause that ends
  // in ;& was run.
  function ExecCases(x: string, c: Clauses, fall: bool, inner: bool, sh: Shell, status: int, w: World, fuel: nat)
    : (d: ClausesDone)
    ensures StripClauses(d.clauses) == StripClauses(c) && Restored(sh, d.sh, d.jump)
    decreases fuel, StripClauses(c), 2
  {
    match c
    case NoClause => ClausesDone(c, sh, status, Stay)
    case Clause(patterns, action, mode, next) =>
      if !fall && !Matches(x, patterns, Abs(sh), w) then
        var d := ExecCases(x, next, false, inner, sh, status, w, fuel);
        ClausesDone(Clause(patterns, action, mode, d.clauses), d.sh, d.status, d.jump)
      else
        var a := Exec(Mark(action, inner), sh, w, fuel);
        if a.jump != Stay || mode.Stop? then
          ClausesDone(Clause(patterns, a.tree, mode, next), a.sh, a.status, a.jump)
        else
          var d := ExecCases(x, next, mode.FallThrough?, inner, a.sh, a.status, w, fuel);
          ClausesDone(Clause(patterns, a.tree, mode, d.clauses), d.sh, d.status, d.jump)
  }
}
