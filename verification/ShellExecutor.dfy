// The routines of execute_cmd.c over their globals and over commands in
// memory.

module ShellExecutor {
  import opened ShellSemantics
  import opened ShellExecution
  import opened ShellCommand
  import opened ShellRefinement
  import opened ShellTheorems
  import opened ShellLaws

  // The run of a command without its `!', its failure being ignored just where
  // that of the inverted command is.
  function Uninverted(t: Tree, sh: Shell, w: World, fuel: nat): Done
    requires t.Tree?
  {
    Exec(t.(invert := false, ignore := t.ignore || sh.errexit), sh, w, fuel)
  }

  class Executor {
    const world: World
    var trace: seq<Event>
    var last: int
    var errexit: bool
    var functions: map<string, Command>
    ghost var bodies: map<string, Tree>
    var breaking: nat
    var continuing: nat
    var level: nat
    var catching: nat

    constructor (world: World)
      ensures Valid() && this.world == world
      ensures Globals() == Shell([], 0, false, map[], 0, 0, 0, 0)
    {
      this.world := world;
      trace, last, errexit, functions, bodies := [], 0, false, map[], map[];
      breaking, continuing, level, catching := 0, 0, 0, 0;
    }

    ghost function Globals(): Shell
      reads this
    {
      Shell(trace, last, errexit, bodies, breaking, continuing, level, catching)
    }

    ghost function Stored(): set<Command>
      reads this`functions
    {
      set f, x | f in functions && x in functions[f].Repr :: x
    }

    // The functions are stored copies that nobody executes.
    ghost predicate Valid()
      reads this`functions, this`bodies, Stored()
    {
      && functions.Keys == bodies.Keys
      && (forall f | f in functions :: functions[f].Valid() && functions[f].stored)
      && (forall f | f in functions :: functions[f].Snapshot() == bodies[f])
    }

    // A command that may be executed: none of its nodes is stored.
    ghost predicate Executable(c: Command?) { ValidCommand(c) && AllStored(ReprOf(c), false) }

    // command->flags |= CMD_IGNORE_RETURN
    method MarkCommand(c: Command?, ignore: bool)
      requires Valid() && Executable(c)
      modifies if c == null then {} else {c}
      ensures Valid() && Snap(c) == Mark(old(Snap(c)), ignore)
      ensures c != null ==> c.inner == old(c.inner) && c.SnapKind() == old(c.SnapKind())
      ensures c != null ==> c.ignore == (old(c.ignore) || ignore)
    {
      if c != null && ignore {
        c.ignore := true;
      }
    }

    // execute_command, at the top level: the structured semantics, end to end.
    method ExecuteCommand(c: Command?, fuel: nat) returns (status: int, jump: Jump)
      requires Valid() && Executable(c) && AtTop(Globals()) && Sound(Snap(c), false)
      modifies this, ReprOf(c)
      ensures Valid() && Sound(Snap(c), false)
      ensures var r := Sem(FormOf(c), Top, Abs(old(Globals())), world, fuel);
        Agrees(Globals(), status, jump, r) || Cut(Globals(), status, jump, r)
      ensures Calm(FormOf(c), false, false) && TameFunctions(old(bodies)) ==>
                Agrees(Globals(), status, jump, Sem(FormOf(c), Top, Abs(old(Globals())), world, fuel))
      ensures c != null && c.invert && jump == Stay ==>
                var p := Uninverted(old(c.Snapshot()), old(Globals()), world, fuel);
                status == (if p.status == 0 then 1 else 0) && Globals() == p.sh.(last := status)
    {
      hide Exec, Sem, Sound, Calm, TameFunctions, Agrees, Executor.Valid, Command.Valid, AllStored;
      if c != null {
        SnapshotForm(c);
        SimpleForm(c);
        if c.invert { InvertedStatus(c.Snapshot(), Globals(), world, fuel); }
      }
      hide AtTop;
      EveryRunRefines(Snap(c), Globals(), world, fuel);
      if Calm(FormOf(c), false, false) && TameFunctions(bodies) {
        CalmRunsAgree(Snap(c), Globals(), world, fuel);
      }
      status, jump := Execute(c, fuel);
    }

    // execute_command_internal
    method Execute(c: Command?, fuel: nat) returns (status: int, jump: Jump)
      requires Valid() && Executable(c)
      modifies this, ReprOf(c)
      ensures Valid()
      ensures Done(Snap(c), Globals(), status, jump) == Exec(old(Snap(c)), old(Globals()), world, fuel)
      decreases fuel, c != null, KindOf(c), 4
    {
      hide Exec, ExecKind, Rebuild, Executor.Valid, AllStored, Command.Valid, Mark, MarkInner, Command.SnapKind;
      ExecIs(Snap(c), Globals(), world, fuel);
      if breaking > 0 || continuing > 0 { return last, Stay; }
      if c == null { return 0, Stay; }
      SimpleForm(c);
      MarkCommand(c, errexit && c.invert);
      SetInner(c);
      SimpleForm(c);
      status, jump := ExecuteKind(c, fuel);
      SimpleForm(c);
      status, jump := Finished(c, status, jump);
    }

    // The end of execute_command_internal: the check of `set -e', and `!'.
    method Finished(c: Command, result: int, how: Jump) returns (status: int, jump: Jump)
      requires Valid() && Executable(c)
      modifies this`last
      ensures Valid() && c.Snapshot() == old(c.Snapshot())
      ensures Done(c.Snapshot(), Globals(), status, jump) ==
              Conclude(old(c.Snapshot()), KindDone(old(c.SnapKind()), old(Globals()), result, how))
    {
      hide Rebuild, AllStored, Command.Valid, Command.SnapKind;
      SimpleForm(c);
      status, jump := result, how;
      if jump != Stay { return; }
      if IsSimple(c.form) && !c.ignore && !c.invert && errexit && status != 0 {
        last := status;
        return status, ToTop;
      }
      if c.invert { status := Inverted(status); }
      last := status;
    }

    // The flags of the value.
    method SetInner(c: Command)
      requires Valid() && Executable(c)
      modifies c
      ensures Valid() && c.Snapshot() == MarkInner(old(c.Snapshot())) && c.SnapKind() == old(c.SnapKind())
      ensures c.ignore == old(c.ignore)
    {
      hide Rebuild;
      SimpleForm(c);
      if c.ignore && HasInner(c.form) { c.inner := true; }
    }

    method ExecuteKind(c: Command, fuel: nat) returns (status: int, jump: Jump)
      requires Valid() && Executable(c)
      modifies this, c.Repr - {c}
      ensures Valid()
      ensures KindDone(c.SnapKind(), Globals(), status, jump) ==
              ExecKind(old(c.SnapKind()), c.ignore, c.inner, old(Globals()), world, fuel)
      decreases fuel, true, c.form, 3
    {
      hide Exec, ExecSemi, ExecAndOr, ExecIf, ExecFunction, ExecLoop, ExecEach, ExecCases;
      hide Rebuild, Executor.Valid, AllStored, Command.Valid, Command.SnapKind;
      ExecutableParts(c);
      KindIs(c);
      if IsSimple(c.form) {
        hide ExecKind;
        status, jump := ExecuteSimple(c, fuel);
        KindIs(c);
      } else if c.form.Semi? || c.form.AndAnd? || c.form.OrOr? {
        status, jump := ExecuteConnection(c, fuel);
      } else if c.form.While? {
        status, jump := ExecuteWhile(c, fuel);
      } else if c.form.For? {
        status, jump := ExecuteFor(c, fuel);
      } else {
        hide ExecKind;
        status, jump := ExecuteOther(c, fuel);
      }
    }

    // execute_connection
    method ExecuteConnection(c: Command, fuel: nat) returns (status: int, jump: Jump)
      requires Valid() && Executable(c) && (c.form.Semi? || c.form.AndAnd? || c.form.OrOr?)
      modifies this, c.Repr - {c}
      ensures Valid()
      ensures KindDone(c.SnapKind(), Globals(), status, jump) ==
              ExecKind(old(c.SnapKind()), c.ignore, c.inner, old(Globals()), world, fuel)
      decreases fuel, true, c.form, 2
    {
      hide Exec, ExecSemi, ExecAndOr, ExecIf, ExecFunction, ExecLoop, ExecEach, ExecCases;
      hide Rebuild, Executor.Valid, AllStored, Command.Valid, Command.SnapKind;
      ExecutableParts(c);
      KindIs(c);
      if c.form.Semi? {
        status, jump := ExecuteSemi(c, fuel);
      } else {
        status, jump := ExecuteAndOr(c.form.AndAnd?, c, fuel);
      }
    }

    // { }, if, case and function definitions.
    method ExecuteOther(c: Command, fuel: nat) returns (status: int, jump: Jump)
      requires Valid() && Executable(c) && (c.form.Group? || c.form.If? || c.form.Case? || c.form.Define?)
      modifies this, c.Repr - {c}
      ensures Valid()
      ensures KindDone(c.SnapKind(), Globals(), status, jump) ==
              ExecKind(old(c.SnapKind()), c.ignore, c.inner, old(Globals()), world, fuel)
      decreases fuel, true, c.form, 2
    {
      hide Exec, ExecSemi, ExecAndOr, ExecIf, ExecFunction, ExecLoop, ExecEach, ExecCases;
      hide Rebuild, Executor.Valid, AllStored, Command.Valid, Command.SnapKind;
      ExecutableParts(c);
      KindIs(c);
      match c.form
      case Group(_) =>
        status, jump := ExecutePart(c.first, c.ignore, fuel);
        KindIs(c);
      case If(_, _, _) => status, jump := ExecuteIf(c, fuel);
      case Case(_, _) => status, jump := ExecuteCase(c, fuel);
      case Define(f, _) =>
        DefinitionHasBody(c);
        status, jump := DefineFunction(f, c.first);
        KindIs(c);
    }

    method ExecuteSimple(c: Command, fuel: nat) returns (status: int, jump: Jump)
      requires Valid() && Executable(c) && IsSimple(c.form)
      modifies this
      ensures Valid()
      ensures KindDone(c.form, Globals(), status, jump) ==
              ExecKind(c.form, c.ignore, c.inner, old(Globals()), world, fuel)
      decreases fuel, true, c.form, 2
    {
      hide Exec, ExecFunction, Executor.Valid, AllStored, Command.Valid;
      if c.form.Call? {
        status, jump := ExecuteFunction(c.form.name, c.inner, fuel);
      } else {
        hide ExecKind;
        status, jump := ExecuteBuiltin(c, fuel);
      }
    }

    // Simple commands other than function calls.
    method ExecuteBuiltin(c: Command, ghost fuel: nat) returns (status: int, jump: Jump)
      requires Valid() && IsSimple(c.form) && !c.form.Call?
      modifies this`trace, this`errexit, this`breaking, this`continuing
      ensures Valid()
      ensures KindDone(c.form, Globals(), status, jump) ==
              ExecKind(c.form, c.ignore, c.inner, old(Globals()), world, fuel)
    {
      hide Exec, AllStored, Command.Valid;
      jump := Stay;
      match c.form
      case Plain(text) =>
        status := world.run(trace, last, text);
        trace := trace + [Ran(text, last)];
      case BreakCmd(n) => status := BreakLoops(n);
      case ContinueCmd(n) => status := ContinueLoops(n);
      case ReturnCmd(v) =>
        if catching > 0 {
          status, jump := v, ToReturn;
        } else {
          status := 1;
        }
      case SetE(on) =>
        errexit := on;
        status := 0;
    }

    // break_builtin
    method BreakLoops(n: int) returns (status: int)
      requires Valid()
      modifies this`breaking
      ensures Valid()
      ensures var d := BreakBuiltin(Plain(""), n, old(Globals())); Globals() == d.sh && status == d.status
    {
      hide Command.Valid;
      if level == 0 { return 0; }
      if n <= 0 {
        breaking := level;
        return 1;
      }
      breaking := if n > level then level else n;
      status := 0;
    }

    // continue_builtin
    method ContinueLoops(n: int) returns (status: int)
      requires Valid()
      modifies this`breaking, this`continuing
      ensures Valid()
      ensures var d := ContinueBuiltin(Plain(""), n, old(Globals())); Globals() == d.sh && status == d.status
    {
      hide Command.Valid;
      if level == 0 { return 0; }
      if n <= 0 {
        breaking := level;
        return 1;
      }
      continuing := if n > level then level else n;
      status := 0;
    }

    method SetLevels(newLevel: nat, newCatching: nat)
      requires Valid()
      modifies this`level, this`catching
      ensures Valid() && Globals() == old(Globals()).(level := newLevel, catching := newCatching)
    {
      hide Command.Valid;
      level, catching := newLevel, newCatching;
    }

    // Sets the mark of a part and executes it.
    method ExecutePart(c: Command?, ignore: bool, fuel: nat) returns (status: int, jump: Jump)
      requires Valid() && Executable(c)
      modifies this, ReprOf(c)
      ensures Valid()
      ensures Done(Snap(c), Globals(), status, jump) ==
              Exec(Mark(old(Snap(c)), ignore), old(Globals()), world, fuel)
      decreases fuel, c != null, KindOf(c), 5
    {
      hide Exec, Mark, Executor.Valid, AllStored;
      if c != null { assert c in c.Repr; }
      MarkCommand(c, ignore);
      status, jump := Execute(c, fuel);
    }

    method ExecuteSemi(c: Command, fuel: nat) returns (status: int, jump: Jump)
      requires Valid() && Executable(c) && c.form.Semi?
      modifies this, c.Repr - {c}
      ensures Valid()
      ensures KindDone(c.SnapKind(), Globals(), status, jump) ==
              ExecSemi(old(Snap(c.first)), old(Snap(c.second)), c.ignore, old(Globals()), world, fuel)
      decreases fuel, true, c.form, 1
    {
      hide Exec, ExecSemi, Rebuild, Command.Valid, Command.SnapKind, Snap, Executor.Valid, AllStored, Mark;
      ExecutableParts(c);
      SemiIs(Snap(c.first), Snap(c.second), c.ignore, Globals(), world, fuel);
      ghost var b := Mark(Snap(c.second), c.ignore);
      MarkCommand(c.second, c.ignore);
      status, jump := ExecutePart(c.first, c.ignore, fuel);
      assert Snap(c.second) == b;
      KindIs(c);
      if jump != Stay { return; }
      ghost var a := Snap(c.first);
      status, jump := Execute(c.second, fuel);
      assert Snap(c.first) == a;
      KindIs(c);
    }

    method ExecuteAndOr(and: bool, c: Command, fuel: nat) returns (status: int, jump: Jump)
      requires Valid() && Executable(c) && (if and then c.form.AndAnd? else c.form.OrOr?)
      modifies this, c.Repr - {c}
      ensures Valid()
      ensures KindDone(c.SnapKind(), Globals(), status, jump) ==
              ExecAndOr(and, old(Snap(c.first)), old(Snap(c.second)), c.ignore, old(Globals()), world, fuel)
      decreases fuel, true, c.form, 1
    {
      hide Exec, Rebuild, Command.Valid, Command.SnapKind, Snap, Executor.Valid, AllStored, Mark;
      ExecutableParts(c);
      ghost var b := Snap(c.second);
      status, jump := ExecutePart(c.first, true, fuel);
      assert Snap(c.second) == b;
      KindIs(c);
      if jump != Stay || (status == 0) != and { return; }
      ghost var a := Snap(c.first);
      status, jump := ExecutePart(c.second, c.ignore, fuel);
      assert Snap(c.first) == a;
      KindIs(c);
    }

    method ExecuteIf(c: Command, fuel: nat) returns (status: int, jump: Jump)
      requires Valid() && Executable(c) && c.form.If?
      modifies this, c.Repr - {c}
      ensures Valid()
      ensures KindDone(c.SnapKind(), Globals(), status, jump) ==
              ExecIf(old(Snap(c.first)), old(Snap(c.second)), old(Snap(c.third)), c.inner, old(Globals()), world, fuel)
      decreases fuel, true, c.form, 1
    {
      hide Exec, Rebuild, Command.Valid, Command.SnapKind, Snap, Executor.Valid, AllStored, Mark;
      ExecutableParts(c);
      ghost var yes, no := Snap(c.second), Snap(c.third);
      status, jump := ExecutePart(c.first, true, fuel);
      assert Snap(c.second) == yes && Snap(c.third) == no;
      KindIs(c);
      if jump != Stay { return; }
      ghost var test := Snap(c.first);
      if status == 0 {
        status, jump := ExecutePart(c.second, c.inner, fuel);
        assert Snap(c.first) == test && Snap(c.third) == no;
      } else {
        status, jump := ExecutePart(c.third, c.inner, fuel);
        assert Snap(c.first) == test && Snap(c.second) == yes;
      }
      KindIs(c);
    }

    // The counters when the test ends the loop.
    method CountBreaking()
      requires Valid()
      modifies this`breaking
      ensures Valid() && Globals() == CountBreak(old(Globals()))
    {
      hide Command.Valid;
      if breaking > 0 { breaking := breaking - 1; }
    }

    // The counters after a turn; `leave' if the loop is left.
    method CountTurn() returns (leave: bool)
      requires Valid()
      modifies this`breaking, this`continuing
      ensures Valid() && leave == LeavesLoop(old(Globals())) && Globals() == CountDown(old(Globals()))
    {
      hide Command.Valid;
      leave := false;
      if breaking > 0 {
        breaking := breaking - 1;
        return true;
      }
      if continuing > 0 {
        continuing := continuing - 1;
        if continuing > 0 { return true; }
      }
    }

    ghost function WhileKind(c: Command): (k: Kind)
      requires PartsValid(c) && c.form.While?
      ensures k.While?
      reads ReprOf(c.first), ReprOf(c.second)
    {
      While(c.form.until, Snap(c.first), Snap(c.second))
    }

    // execute_while_or_until
    method ExecuteWhile(c: Command, fuel: nat) returns (status: int, jump: Jump)
      requires Valid() && Executable(c) && c.form.While?
      modifies this, c.Repr - {c}
      ensures Valid()
      ensures KindDone(c.SnapKind(), Globals(), status, jump) ==
              ExecLoop(While(c.form.until, Mark(old(Snap(c.first)), true), Mark(old(Snap(c.second)), c.inner)),
                       old(Globals()).(level := old(level) + 1), 0, world, fuel)
      decreases fuel, true, c.form, 1
    {
      hide Exec, ExecLoop, Rebuild, Command.Valid, Command.SnapKind, Snap, Executor.Valid, AllStored, Mark;
      ExecutableParts(c);
      SetLevels(level + 1, catching);
      ghost var action := Mark(Snap(c.second), c.inner);
      MarkCommand(c.first, true);
      ghost var test := Snap(c.first);
      MarkCommand(c.second, c.inner);
      assert Snap(c.first) == test;
      assert WhileKind(c) == While(c.form.until, test, action);
      assert Globals() == old(Globals()).(level := old(level) + 1);
      status, jump := RunLoop(c, fuel);
      assert c.SnapKind() == WhileKind(c) by { KindIs(c); }
    }

    // The loop over its marked parts.
    method RunLoop(c: Command, fuel: nat) returns (status: int, jump: Jump)
      requires Valid() && Executable(c) && c.form.While? && level > 0 && PartsValid(c)
      modifies this, c.Repr - {c}
      ensures Valid()
      ensures KindDone(WhileKind(c), Globals(), status, jump) ==
              ExecLoop(old(WhileKind(c)), old(Globals()), 0, world, fuel)
      decreases fuel, true, c.form, 0, 2
    {
      hide Exec, ExecLoop, Command.Valid, Snap, Executor.Valid, AllStored, WhileKind;
      var left, done := fuel, false;
      status, jump := 0, Stay;
      while !done
        invariant Valid() && 0 <= left <= fuel
        invariant done ==>
                    KindDone(WhileKind(c), Globals(), status, jump) ==
                    ExecLoop(old(WhileKind(c)), old(Globals()), 0, world, fuel)
        invariant !done ==>
                    && level > 0
                    && ExecLoop(WhileKind(c), Globals(), status, world, left) ==
                       ExecLoop(old(WhileKind(c)), old(Globals()), 0, world, fuel)
        decreases !done, left
      {
        status, jump, done := LoopTurn(c, status, left);
        if !done { left := left - 1; }
      }
    }

    // One turn: the test and the action.
    method LoopTurn(c: Command, bodyStatus: int, fuel: nat) returns (status: int, jump: Jump, done: bool)
      requires Valid() && Executable(c) && c.form.While? && level > 0 && PartsValid(c)
      modifies this, c.Repr - {c}
      ensures Valid()
      ensures done ==>
                KindDone(WhileKind(c), Globals(), status, jump) ==
                ExecLoop(old(WhileKind(c)), old(Globals()), bodyStatus, world, fuel)
      ensures !done ==>
                && fuel > 0 && level > 0
                && ExecLoop(WhileKind(c), Globals(), status, world, fuel - 1) ==
                   ExecLoop(old(WhileKind(c)), old(Globals()), bodyStatus, world, fuel)
      decreases fuel, true, c.form, 0, 1
    {
      hide Exec, ExecLoop, ExecTurn, Rebuild, Command.Valid, Command.SnapKind, Snap, Executor.Valid, AllStored;
      hide CountDown, CountBreak, LeavesLoop;
      ExecutableParts(c);
      LoopIs(WhileKind(c), Globals(), bodyStatus, world, fuel);
      ghost var action := Snap(c.second);
      status, jump := Execute(c.first, fuel);
      assert Snap(c.second) == action;
      done := true;
      if jump != Stay { return; }
      if (status == 0) == c.form.until {
        CountBreaking();
        SetLevels(level - 1, catching);
        status := bodyStatus;
        return;
      }
      status, jump, done := ActionTurn(c, fuel);
    }

    // The action, and what the counters say then.
    method ActionTurn(c: Command, fuel: nat) returns (status: int, jump: Jump, done: bool)
      requires Valid() && Executable(c) && c.form.While? && level > 0 && PartsValid(c)
      modifies this, ReprOf(c.second)
      ensures Valid() && Snap(c.first) == old(Snap(c.first))
      ensures var a := Exec(old(Snap(c.second)), old(Globals()), world, fuel);
        var all := ExecTurn(While(c.form.until, old(Snap(c.first)), a.tree), a, world, fuel);
        if done then KindDone(WhileKind(c), Globals(), status, jump) == all
        else fuel > 0 && level > 0 && ExecLoop(WhileKind(c), Globals(), status, world, fuel - 1) == all
      decreases fuel, true, c.form, 0, 0
    {
      hide Exec, ExecLoop, ExecTurn, Rebuild, Command.Valid, Command.SnapKind, Snap, Executor.Valid, AllStored;
      hide CountDown, LeavesLoop;
      ExecutableParts(c);
      ghost var test := Snap(c.first);
      status, jump := Execute(c.second, fuel);
      assert Snap(c.first) == test;
      TurnIs(WhileKind(c), Done(Snap(c.second), Globals(), status, jump), world, fuel);
      done := true;
      if jump != Stay { return; }
      var leave := CountTurn();
      if leave {
        SetLevels(level - 1, catching);
      } else if fuel == 0 {
        status, jump := 0, OutOfFuel;
      } else {
        done := false;
      }
    }

    ghost function ForKind(c: Command): (k: Kind)
      requires PartsValid(c) && c.form.For?
      ensures k.For?
      reads ReprOf(c.first)
    {
      For(c.form.name, c.form.words, Snap(c.first))
    }

    method BindVariable(name: string, value: string)
      requires Valid()
      modifies this`trace
      ensures Valid() && Globals() == old(Globals()).(trace := old(trace) + [Bound(name, value)])
    {
      hide Command.Valid;
      trace := trace + [Bound(name, value)];
    }

    // execute_for_command
    method ExecuteFor(c: Command, fuel: nat) returns (status: int, jump: Jump)
      requires Valid() && Executable(c) && c.form.For?
      modifies this, c.Repr - {c}
      ensures Valid()
      ensures KindDone(c.SnapKind(), Globals(), status, jump) ==
              ExecFor(c.form.name, c.form.words, old(Snap(c.first)), c.inner, old(Globals()), world, fuel)
      decreases fuel, true, c.form, 1
    {
      hide Exec, ExecEach, Rebuild, Command.Valid, Command.SnapKind, Snap, Executor.Valid, AllStored, Mark;
      ExecutableParts(c);
      if !world.legal(c.form.name) {
        KindIs(c);
        return 1, Stay;
      }
      SetLevels(level + 1, catching);
      var list := world.expand(trace, last, c.form.words);
      MarkCommand(c.first, c.inner);
      status, jump := RunEach(c, list, fuel);
      KindIs(c);
    }

    // The loop over the values, its action being marked.
    method RunEach(c: Command, values: seq<string>, fuel: nat) returns (status: int, jump: Jump)
      requires Valid() && Executable(c) && c.form.For? && level > 0 && PartsValid(c)
      modifies this, c.Repr - {c}
      ensures Valid()
      ensures KindDone(ForKind(c), Globals(), status, jump) ==
              ExecEach(old(ForKind(c)), values, old(Globals()), 0, world, fuel)
      decreases fuel, true, c.form, 0, 2
    {
      hide Exec, ExecEach, Command.Valid, Executor.Valid, AllStored, LeaveLoop;
      var list, done := values, false;
      status, jump := 0, Stay;
      while list != [] && !done
        invariant Valid()
        invariant done ==>
                    KindDone(ForKind(c), Globals(), status, jump) ==
                    ExecEach(old(ForKind(c)), values, old(Globals()), 0, world, fuel)
        invariant !done ==>
                    && level > 0
                    && ExecEach(ForKind(c), list, Globals(), status, world, fuel) ==
                       ExecEach(old(ForKind(c)), values, old(Globals()), 0, world, fuel)
        decreases |list|, !done
      {
        status, jump, done := EachTurn(c, list, status, fuel);
        list := list[1..];
      }
      if !done {
        EachEnds(c, status, fuel);
        SetLevels(level - 1, catching);
        jump := Stay;
      }
    }

    lemma EachEnds(c: Command, status: int, fuel: nat)
      requires c.form.For? && level > 0 && PartsValid(c)
      ensures ExecEach(ForKind(c), [], Globals(), status, world, fuel) ==
              KindDone(ForKind(c), Globals().(level := level - 1), status, Stay)
    {
      hide ForKind;
      EachIs(ForKind(c), [], Globals(), status, world, fuel);
    }

    // One turn, for the first of the values.
    method EachTurn(c: Command, values: seq<string>, retval: int, fuel: nat)
      returns (status: int, jump: Jump, done: bool)
      requires Valid() && Executable(c) && c.form.For? && level > 0 && PartsValid(c) && values != []
      modifies this, c.Repr - {c}
      ensures Valid()
      ensures done ==>
                KindDone(ForKind(c), Globals(), status, jump) ==
                ExecEach(old(ForKind(c)), values, old(Globals()), retval, world, fuel)
      ensures !done ==>
                && level > 0
                && ExecEach(ForKind(c), values[1..], Globals(), status, world, fuel) ==
                   ExecEach(old(ForKind(c)), values, old(Globals()), retval, world, fuel)
      decreases fuel, true, c.form, 0, 1
    {
      hide Exec, ExecEach, Command.Valid, Snap, Executor.Valid, AllStored, CountDown, LeavesLoop;
      ExecutableParts(c);
      EachIs(ForKind(c), values, Globals(), retval, world, fuel);
      if !world.writable(trace, last, c.form.name) {
        SetLevels(level - 1, catching);
        return 1, Stay, true;
      }
      BindVariable(c.form.name, values[0]);
      status, jump := Execute(c.first, fuel);
      done := true;
      if jump != Stay { return; }
      var leave := CountTurn();
      if leave {
        SetLevels(level - 1, catching);
      } else {
        done := false;
      }
    }

    // execute_case_command
    method ExecuteCase(c: Command, fuel: nat) returns (status: int, jump: Jump)
      requires Valid() && Executable(c) && c.form.Case?
      modifies this, c.Repr - {c}
      ensures Valid()
      ensures var d := ExecCases(c.form.word, old(SnapPatterns(c.clauses)), false, c.inner, old(Globals()), 0, world, fuel);
        KindDone(c.SnapKind(), Globals(), status, jump) == KindDone(Case(c.form.word, d.clauses), d.sh, d.status, d.jump)
      decreases fuel, true, c.form, 1
    {
      hide Exec, ExecCases, Rebuild, Command.Valid, Command.SnapKind, SnapPatterns, Executor.Valid, AllStored, Mark;
      ExecutableParts(c);
      status, jump := ExecuteClauses(c.form.word, c.clauses, false, c.inner, 0, fuel);
      KindIs(c);
    }

    // The clauses from p on.
    method ExecuteClauses(word: string, p: Pattern?, fall: bool, inner: bool, retval: int, fuel: nat)
      returns (status: int, jump: Jump)
      requires Valid() && ValidPattern(p) && AllStored(PatternRepr(p), false)
      modifies this, PatternRepr(p)
      ensures Valid()
      ensures ClausesDone(SnapPatterns(p), Globals(), status, jump) ==
              ExecCases(word, old(SnapPatterns(p)), fall, inner, old(Globals()), retval, world, fuel)
      decreases fuel, p != null, FormOfPatterns(p), 0
    {
      hide Exec, Pattern.Valid, Snap, Executor.Valid, AllStored, Mark, Matches, ExecCases, SnapPatterns;
      PatternParts(p);
      CasesIs(word, SnapPatterns(p), fall, inner, Globals(), retval, world, fuel);
      if p == null { return retval, Stay; }
      ghost var a0, n0 := Snap(p.action), SnapPatterns(p.next);
      var matched := fall;
      var i := 0;
      while !matched && i < |p.patterns|
        invariant 0 <= i <= |p.patterns|
        invariant matched <==> fall || exists j :: 0 <= j < i && world.matches(trace, last, word, p.patterns[j])
      {
        matched := world.matches(trace, last, word, p.patterns[i]);
        i := i + 1;
      }
      MatchesIs(word, p.patterns, Abs(Globals()), world);
      if !matched {
        status, jump := ExecuteClauses(word, p.next, false, inner, retval, fuel);
        assert Snap(p.action) == a0;
        PatternParts(p);
        return;
      }
      status, jump := ExecutePart(p.action, inner, fuel);
      assert SnapPatterns(p.next) == n0;
      PatternParts(p);
      if jump != Stay || p.mode.Stop? { return; }
      ghost var a1 := Snap(p.action);
      status, jump := ExecuteClauses(word, p.next, p.mode.FallThrough?, inner, status, fuel);
      assert Snap(p.action) == a1;
      PatternParts(p);
    }

    // execute_function
    method ExecuteFunction(f: string, inner: bool, fuel: nat) returns (status: int, jump: Jump)
      requires Valid()
      modifies this
      ensures Valid()
      ensures KindDone(Call(f), Globals(), status, jump) == ExecFunction(f, inner, old(Globals()), world, fuel)
      decreases fuel, false, Plain(""), 0
    {
      hide Exec, Mark, Executor.Valid, AllStored, Command.Valid;
      FunctionKnown(f);
      if f !in functions { return 127, Stay; }
      if fuel == 0 { return 0, OutOfFuel; }
      var saved, catch := level, catching;
      var tc := CopyBody(f);
      SetLevels(level, catching + 1);
      status, jump := ExecutePart(tc, inner, fuel - 1);
      if jump == ToTop || jump == OutOfFuel { return; }
      SetLevels(saved, catch);
      jump := Stay;
    }

    method CopyBody(f: string) returns (tc: Command)
      requires Valid() && f in functions
      ensures Valid() && Executable(tc) && fresh(tc.Repr)
      ensures f in bodies && tc.Snapshot() == bodies[f]
    {
      hide Command.Valid, Command.Snapshot;
      var copy := CopyCommand(functions[f], false);
      tc := copy;
    }

    lemma FunctionKnown(f: string)
      requires Valid()
      ensures f in functions <==> f in bodies
      ensures f in functions ==> functions[f].Valid() && functions[f].Snapshot() == bodies[f]
    {
    }

    // bind_function: the body is copied.
    method DefineFunction(f: string, body: Command) returns (status: int, jump: Jump)
      requires Valid() && Executable(body)
      modifies this`functions, this`bodies
      ensures Valid() && status == 0 && jump == Stay && body.Snapshot() == old(body.Snapshot())
      ensures Globals() == old(Globals()).(functions := old(bodies)[f := body.Snapshot()])
    {
      hide Command.Valid, Command.Snapshot;
      SimpleForm(body);
      var copy := CopyCommand(body, true);
      SimpleForm(copy);
      functions := functions[f := copy];
      bodies := bodies[f := body.Snapshot()];
      status, jump := 0, Stay;
    }
  }

  lemma DefinitionHasBody(c: Command)
    requires c.Valid() && c.form.Define?
    ensures c.first != null
  {
  }

  lemma EachIs(k: Kind, values: seq<string>, sh: Shell, status: int, w: World, fuel: nat)
    requires k.For? && sh.level > 0
    ensures values == [] ==> ExecEach(k, values, sh, status, w, fuel) == LeaveLoop(k, sh, status)
    ensures values != [] ==>
              var a := Exec(k.action, sh.(trace := sh.trace + [Bound(k.name, values[0])]), w, fuel);
              var k' := For(k.name, k.words, a.tree);
              ExecEach(k, values, sh, status, w, fuel) ==
              if !w.writable(sh.trace, sh.last, k.name) then LeaveLoop(k, sh, 1)
              else if a.jump != Stay then KindDone(k', a.sh, a.status, a.jump)
              else if LeavesLoop(a.sh) then LeaveLoop(k', CountDown(a.sh), a.status)
              else ExecEach(k', values[1..], CountDown(a.sh), a.status, w, fuel)
  {
    hide Exec;
  }

  lemma CasesIs(x: string, c: Clauses, fall: bool, inner: bool, sh: Shell, status: int, w: World, fuel: nat)
    ensures c.NoClause? ==> ExecCases(x, c, fall, inner, sh, status, w, fuel) == ClausesDone(c, sh, status, Stay)
    ensures c.Clause? && !fall && !Matches(x, c.patterns, Abs(sh), w) ==>
              var d := ExecCases(x, c.next, false, inner, sh, status, w, fuel);
              ExecCases(x, c, fall, inner, sh, status, w, fuel) ==
              ClausesDone(Clause(c.patterns, c.action, c.mode, d.clauses), d.sh, d.status, d.jump)
    ensures c.Clause? && (fall || Matches(x, c.patterns, Abs(sh), w)) ==>
              var a := Exec(Mark(c.action, inner), sh, w, fuel);
              var d := ExecCases(x, c.next, c.mode.FallThrough?, inner, a.sh, a.status, w, fuel);
              ExecCases(x, c, fall, inner, sh, status, w, fuel) ==
              if a.jump != Stay || c.mode.Stop? then
                ClausesDone(Clause(c.patterns, a.tree, c.mode, c.next), a.sh, a.status, a.jump)
              else ClausesDone(Clause(c.patterns, a.tree, c.mode, d.clauses), d.sh, d.status, d.jump)
  {
    hide Exec, Matches;
  }

  lemma MatchesIs(word: string, patterns: seq<string>, s: St, w: World)
    ensures Matches(word, patterns, s, w) <==>
            exists j :: 0 <= j < |patterns| && w.matches(s.trace, s.last, word, patterns[j])
  {
    if Matches(word, patterns, s, w) {
      var p :| p in patterns && w.matches(s.trace, s.last, word, p);
      var j :| 0 <= j < |patterns| && patterns[j] == p;
    }
  }

  lemma PatternParts(p: Pattern?)
    requires ValidPattern(p)
    ensures p == null ==> SnapPatterns(p) == NoClause
    ensures p != null && AllStored(p.Repr, false) ==>
              AllStored(ReprOf(p.action), false) && AllStored(PatternRepr(p.next), false)
    ensures p != null ==>
              && ValidCommand(p.action) && ValidPattern(p.next)
              && ReprOf(p.action) + PatternRepr(p.next) == p.Repr && ReprOf(p.action) !! PatternRepr(p.next)
              && SnapPatterns(p) == Clause(p.patterns, Snap(p.action), p.mode, SnapPatterns(p.next))
              && (p.action != null ==> p.action.form < p.form) && (p.next != null ==> p.next.form < p.form)
  {
  }

  lemma LoopIs(k: Kind, sh: Shell, status: int, w: World, fuel: nat)
    requires k.While? && sh.level > 0
    ensures var t := Exec(k.test, sh, w, fuel);
      && (t.jump != Stay ==>
            ExecLoop(k, sh, status, w, fuel) ==
            KindDone(While(k.until, t.tree, k.action), t.sh, t.status, t.jump))
      && (t.jump == Stay && (t.status == 0) == k.until ==>
            ExecLoop(k, sh, status, w, fuel) ==
            LeaveLoop(While(k.until, t.tree, k.action), CountBreak(t.sh), status))
      && (t.jump == Stay && (t.status == 0) != k.until ==>
            var a := Exec(k.action, t.sh, w, fuel);
            ExecLoop(k, sh, status, w, fuel) == ExecTurn(While(k.until, t.tree, a.tree), a, w, fuel))
  {
    hide Exec, ExecTurn;
  }

  lemma TurnIs(k: Kind, a: Done, w: World, fuel: nat)
    requires k.While? && (a.jump == Stay ==> a.sh.level > 0)
    ensures ExecTurn(k, a, w, fuel) ==
            if a.jump != Stay then KindDone(k, a.sh, a.status, a.jump)
            else if LeavesLoop(a.sh) then LeaveLoop(k, CountDown(a.sh), a.status)
            else if fuel == 0 then KindDone(k, CountDown(a.sh), 0, OutOfFuel)
            else ExecLoop(k, CountDown(a.sh), a.status, w, fuel - 1)
  {
    hide ExecLoop;
  }

  lemma ExecIs(t: Tree, sh: Shell, w: World, fuel: nat)
    ensures Skipping(sh) ==> Exec(t, sh, w, fuel) == Done(t, sh, sh.last, Stay)
    ensures !Skipping(sh) && t.Null? ==> Exec(t, sh, w, fuel) == Done(t, sh, 0, Stay)
    ensures !Skipping(sh) && t.Tree? ==>
              var u := MarkInner(Mark(t, sh.errexit && t.invert));
              var d := ExecKind(u.kind, u.ignore, u.inner, sh, w, fuel);
              Exec(t, sh, w, fuel) == Conclude(Tree(u.invert, u.ignore, u.inner, d.kind), d)
  {
    hide ExecKind;
  }

  lemma SemiIs(a: Tree, b: Tree, ignore: bool, sh: Shell, w: World, fuel: nat)
    ensures var d := Exec(Mark(a, ignore), sh, w, fuel);
      && (d.jump != Stay ==> ExecSemi(a, b, ignore, sh, w, fuel) ==
                             KindDone(Semi(d.tree, Mark(b, ignore)), d.sh, d.status, d.jump))
      && (d.jump == Stay ==>
            var e := Exec(Mark(b, ignore), d.sh, w, fuel);
            ExecSemi(a, b, ignore, sh, w, fuel) == KindDone(Semi(d.tree, e.tree), e.sh, e.status, e.jump))
  {
    hide Exec;
  }

  // The marked kind of a command, by its parts.
  lemma KindIs(c: Command)
    requires c.Valid() && PartsValid(c)
    ensures c.form.Group? ==> c.SnapKind() == Group(Snap(c.first))
    ensures c.form.Semi? ==> c.SnapKind() == Semi(Snap(c.first), Snap(c.second))
    ensures c.form.AndAnd? ==> c.SnapKind() == AndAnd(Snap(c.first), Snap(c.second))
    ensures c.form.OrOr? ==> c.SnapKind() == OrOr(Snap(c.first), Snap(c.second))
    ensures c.form.If? ==> c.SnapKind() == If(Snap(c.first), Snap(c.second), Snap(c.third))
    ensures c.form.While? ==> c.SnapKind() == While(c.form.until, Snap(c.first), Snap(c.second))
    ensures c.form.For? ==> c.SnapKind() == For(c.form.name, c.form.words, Snap(c.first))
    ensures c.form.Case? ==> c.SnapKind() == Case(c.form.word, SnapPatterns(c.clauses))
    ensures c.form.Define? ==> c.SnapKind() == Define(c.form.name, Snap(c.first))
    ensures IsSimple(c.form) ==> c.SnapKind() == c.form
  {
    KindOfParts(c);
  }

  lemma SimpleForm(c: Command)
    requires c.Valid()
    ensures HasInner(c.SnapKind()) == HasInner(c.form) && IsSimple(c.SnapKind()) == IsSimple(c.form)
    ensures c in c.Repr
  {
  }

  lemma KindOfParts(c: Command)
    requires c.Valid() && PartsValid(c)
    ensures c.SnapKind() == Rebuild(c.form, Snap(c.first), Snap(c.second), Snap(c.third), SnapPatterns(c.clauses))
  {
    hide Rebuild, Command.Valid;
  }

  lemma ExecutableParts(c: Command)
    requires c.Valid() && AllStored(c.Repr, false)
    ensures PartsValid(c)
    ensures AllStored(ReprOf(c.first), false) && AllStored(ReprOf(c.second), false)
    ensures AllStored(ReprOf(c.third), false) && AllStored(PatternRepr(c.clauses), false)
    ensures ReprOf(c.first) + ReprOf(c.second) + ReprOf(c.third) + PatternRepr(c.clauses) <= c.Repr - {c}
    ensures ReprOf(c.first) !! ReprOf(c.second) && (ReprOf(c.first) + ReprOf(c.second)) !! ReprOf(c.third)
    ensures c.first != null ==> c.first in c.first.Repr && c.first.form < c.form
    ensures c.second != null ==> c.second in c.second.Repr && c.second.form < c.form
    ensures c.third != null ==> c.third in c.third.Repr && c.third.form < c.form
    ensures c.clauses != null ==> c.clauses.form < c.form
  {
    PartsSmaller(c.form);
    PartsAreValid(c);
  }
}
