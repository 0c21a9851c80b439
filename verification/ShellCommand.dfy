// Commands as the parser builds them, in memory: executing one sets marks in
// its nodes, and copying one gives new nodes.

module ShellCommand {
  import opened ShellSemantics
  import opened ShellExecution

  // The parts of a command.
  function FirstOf(k: Kind): Tree {
    match k
    case Group(b) => b
    case Semi(a, _) => a
    case AndAnd(a, _) => a
    case OrOr(a, _) => a
    case If(test, _, _) => test
    case While(_, test, _) => test
    case For(_, _, a) => a
    case Define(_, b) => b
    case _ => Null
  }

  function SecondOf(k: Kind): Tree {
    match k
    case Semi(_, b) => b
    case AndAnd(_, b) => b
    case OrOr(_, b) => b
    case If(_, yes, _) => yes
    case While(_, _, a) => a
    case _ => Null
  }

  function ThirdOf(k: Kind): Tree { if k.If? then k.no else Null }

  function ClausesOf(k: Kind): Clauses { if k.Case? then k.clauses else NoClause }

  // The same kind with other parts.
  function Rebuild(k: Kind, a: Tree, b: Tree, c: Tree, cs: Clauses): Kind {
    match k
    case Group(_) => Group(a)
    case Semi(_, _) => Semi(a, b)
    case AndAnd(_, _) => AndAnd(a, b)
    case OrOr(_, _) => OrOr(a, b)
    case If(_, _, _) => If(a, b, c)
    case While(until, _, _) => While(until, a, b)
    case For(x, ws, _) => For(x, ws, a)
    case Case(x, _) => Case(x, cs)
    case Define(f, _) => Define(f, a)
    case _ => k
  }

  // A COMMAND with its value: `ignore' and `inner' are CMD_IGNORE_RETURN in
  // the flags of the two.  A stored command is the body of a function.
  class Command {
    const invert: bool
    const form: Kind
    const first: Command?
    const second: Command?
    const third: Command?
    const clauses: Pattern?
    ghost const Repr: set<Command>
    ghost const stored: bool
    var ignore: bool
    var inner: bool

    constructor (invert: bool, ignore: bool, inner: bool, form: Kind, first: Command?, second: Command?,
                 third: Command?, clauses: Pattern?, ghost stored: bool)
      ensures this.invert == invert && this.ignore == ignore && this.inner == inner && this.form == form
      ensures this.first == first && this.second == second && this.third == third && this.clauses == clauses
      ensures this.stored == stored
      ensures Repr == {this} + ReprOf(first) + ReprOf(second) + ReprOf(third) + PatternRepr(clauses)
    {
      this.invert, this.ignore, this.inner, this.form := invert, ignore, inner, form;
      this.first, this.second, this.third, this.clauses := first, second, third, clauses;
      this.stored := stored;
      this.Repr := {this} + ReprOf(first) + ReprOf(second) + ReprOf(third) + PatternRepr(clauses);
    }

    // The structure never changes; only the marks do.
    ghost predicate Valid()
      decreases form
    {
      && this in Repr && (forall x | x in Repr :: x.stored == stored)
      && Part(first, FirstOf(form)) && Part(second, SecondOf(form)) && Part(third, ThirdOf(form))
      && this !in PatternRepr(clauses) && PatternRepr(clauses) <= Repr
      && ReprOf(first) !! ReprOf(second) && (ReprOf(first) + ReprOf(second)) !! ReprOf(third)
      && FormOfPatterns(clauses) == ClausesOf(form) && (clauses != null ==> form.Case? && form.clauses.Clause?)
      && (form.Define? ==> first != null)
      && (first != null ==> first.Valid())
      && (second != null ==> second.Valid())
      && (third != null ==> third.Valid())
      && (clauses != null ==> clauses.Valid())
    }

    ghost predicate Part(c: Command?, t: Tree) {
      this !in ReprOf(c) && ReprOf(c) <= Repr && FormOf(c) == t
    }

    // The command with its marks.
    ghost function Snapshot(): Tree
      requires Valid()
      reads Repr
      decreases form, 1
    {
      Tree(invert, ignore, inner, SnapKind())
    }

    ghost function SnapKind(): Kind
      requires Valid()
      reads Repr - {this}
      decreases form, 0
    {
      Rebuild(form, if first == null then Null else first.Snapshot(),
              if second == null then Null else second.Snapshot(),
              if third == null then Null else third.Snapshot(),
              if clauses == null then NoClause else clauses.Snapshot())
    }
  }

  // A PATTERN_LIST.
  class Pattern {
    const patterns: seq<string>
    const action: Command?
    const mode: Mode
    const next: Pattern?
    ghost const form: Clauses
    ghost const Repr: set<Command>

    constructor (patterns: seq<string>, action: Command?, mode: Mode, next: Pattern?, ghost form: Clauses)
      ensures this.patterns == patterns && this.action == action && this.mode == mode && this.next == next
      ensures this.form == form && Repr == ReprOf(action) + PatternRepr(next)
    {
      this.patterns, this.action, this.mode, this.next := patterns, action, mode, next;
      this.form := form;
      this.Repr := ReprOf(action) + PatternRepr(next);
    }

    ghost predicate Valid()
      decreases form
    {
      && form.Clause? && form.patterns == patterns && form.mode == mode
      && FormOf(action) == form.action && FormOfPatterns(next) == form.next && (next != null ==> form.next.Clause?)
      && (action != null ==> action.Valid())
      && (next != null ==> next.Valid())
      && Repr == ReprOf(action) + PatternRepr(next) && ReprOf(action) !! PatternRepr(next)
    }

    ghost function Snapshot(): Clauses
      requires Valid()
      reads Repr
      decreases form, 1
    {
      Clause(patterns, if action == null then Null else action.Snapshot(), mode,
             if next == null then NoClause else next.Snapshot())
    }
  }

  ghost function ReprOf(c: Command?): set<Command> { if c == null then {} else c.Repr }

  ghost function PatternRepr(p: Pattern?): set<Command> { if p == null then {} else p.Repr }

  ghost predicate ValidCommand(c: Command?) { c != null ==> c.Valid() }

  ghost predicate ValidPattern(p: Pattern?) { p != null ==> p.Valid() }

  ghost function Snap(c: Command?): Tree
    requires ValidCommand(c)
    reads ReprOf(c)
  {
    if c == null then Null else c.Snapshot()
  }

  ghost function SnapPatterns(p: Pattern?): Clauses
    requires ValidPattern(p)
    reads PatternRepr(p)
  {
    if p == null then NoClause else p.Snapshot()
  }

  ghost function FormOf(c: Command?): Tree {
    if c == null then Null else Tree(c.invert, false, false, c.form)
  }

  ghost function FormOfPatterns(p: Pattern?): Clauses { if p == null then NoClause else p.form }

  // ------------------------------------------------------------- copying

  lemma {:induction false} SnapshotForm(c: Command)
    requires c.Valid()
    ensures Strip(c.Snapshot()) == FormOf(c) && StripKind(c.SnapKind()) == c.form
    decreases c.form
  {
    hide StripKind;
    if c.first != null { SnapshotForm(c.first); }
    if c.second != null { SnapshotForm(c.second); }
    if c.third != null { SnapshotForm(c.third); }
    if c.clauses != null { PatternsForm(c.clauses); }
    RebuildForm(c.form, Snap(c.first), Snap(c.second), Snap(c.third), SnapPatterns(c.clauses));
  }

  lemma RebuildForm(k: Kind, a: Tree, b: Tree, c: Tree, cs: Clauses)
    requires Strip(a) == FirstOf(k) && Strip(b) == SecondOf(k) && Strip(c) == ThirdOf(k)
    requires StripClauses(cs) == ClausesOf(k)
    ensures StripKind(Rebuild(k, a, b, c, cs)) == k
  {
    hide Strip, StripClauses;
  }

  lemma {:induction false} PatternsForm(p: Pattern)
    requires p.Valid()
    ensures StripClauses(p.Snapshot()) == p.form
    decreases p.form
  {
    if p.action != null { SnapshotForm(p.action); }
    if p.next != null { PatternsForm(p.next); }
  }

  lemma PartsSmaller(k: Kind)
    ensures FirstOf(k).Tree? ==> FirstOf(k) < k
    ensures SecondOf(k).Tree? ==> SecondOf(k) < k
    ensures ThirdOf(k).Tree? ==> ThirdOf(k) < k
    ensures ClausesOf(k).Clause? ==> ClausesOf(k) < k
  {
  }

  ghost predicate AllStored(s: set<Command>, stored: bool) { forall x | x in s :: x.stored == stored }

  // A node over parts that were made for it.
  method NewCommand(c: Command, first: Command?, second: Command?, third: Command?, clauses: Pattern?,
                    ghost stored: bool) returns (r: Command)
    requires c.Valid() && ValidCommand(first) && ValidCommand(second) && ValidCommand(third)
    requires ValidPattern(clauses)
    requires FormOf(first) == FormOf(c.first) && FormOf(second) == FormOf(c.second)
    requires FormOf(third) == FormOf(c.third) && FormOfPatterns(clauses) == FormOfPatterns(c.clauses)
    requires clauses == null <==> c.clauses == null
    requires ReprOf(first) !! ReprOf(second) && (ReprOf(first) + ReprOf(second)) !! ReprOf(third)
    requires AllStored(ReprOf(first) + ReprOf(second) + ReprOf(third) + PatternRepr(clauses), stored)
    ensures r.Valid() && FormOf(r) == FormOf(c) && fresh(r)
    ensures r.Repr == {r} + ReprOf(first) + ReprOf(second) + ReprOf(third) + PatternRepr(clauses)
    ensures AllStored(r.Repr, stored) && r.ignore == c.ignore && r.inner == c.inner
    ensures r.first == first && r.second == second && r.third == third && r.clauses == clauses
  {
    r := new Command(c.invert, c.ignore, c.inner, c.form, first, second, third, clauses, stored);
  }

  // copy_command: new nodes all the way down, with the same marks.
  method CopyCommand(c: Command?, ghost stored: bool) returns (r: Command?)
    requires ValidCommand(c)
    ensures ValidCommand(r) && FormOf(r) == FormOf(c) && Snap(r) == Snap(c)
    ensures fresh(ReprOf(r)) && AllStored(ReprOf(r), stored)
    decreases c != null, KindOf(c), 1
  {
    if c == null { return null; }
    hide Rebuild, FirstOf, SecondOf, ThirdOf, ClausesOf, AllStored, Command.Part, Command.Valid;
    var first, second, third, clauses := CopyParts(c, stored);
    r := NewCommand(c, first, second, third, clauses, stored);
    SameParts(c, r);
  }

  method CopyParts(c: Command, ghost stored: bool)
    returns (first: Command?, second: Command?, third: Command?, clauses: Pattern?)
    requires c.Valid()
    ensures ValidCommand(first) && ValidCommand(second) && ValidCommand(third) && ValidPattern(clauses)
    ensures PartsValid(c)
    ensures FormOf(first) == FormOf(c.first) && Snap(first) == Snap(c.first)
    ensures FormOf(second) == FormOf(c.second) && Snap(second) == Snap(c.second)
    ensures FormOf(third) == FormOf(c.third) && Snap(third) == Snap(c.third)
    ensures FormOfPatterns(clauses) == FormOfPatterns(c.clauses) && SnapPatterns(clauses) == SnapPatterns(c.clauses)
    ensures clauses == null <==> c.clauses == null
    ensures ReprOf(first) !! ReprOf(second) && (ReprOf(first) + ReprOf(second)) !! ReprOf(third)
    ensures fresh(ReprOf(first) + ReprOf(second) + ReprOf(third) + PatternRepr(clauses))
    ensures AllStored(ReprOf(first) + ReprOf(second) + ReprOf(third) + PatternRepr(clauses), stored)
    decreases true, c.form, 0
  {
    PartsSmaller(c.form);
    PartsAreValid(c);
    hide Rebuild, FirstOf, SecondOf, ThirdOf, ClausesOf, AllStored, Command.Part, Command.Valid;
    first := CopyCommand(c.first, stored);
    second := CopyCommand(c.second, stored);
    third := CopyCommand(c.third, stored);
    clauses := CopyClauses(c.clauses, stored);
    StoredUnion(ReprOf(first), ReprOf(second), ReprOf(third), PatternRepr(clauses), stored);
  }

  ghost predicate PartsValid(c: Command) {
    ValidCommand(c.first) && ValidCommand(c.second) && ValidCommand(c.third) && ValidPattern(c.clauses)
  }

  lemma PartsAreValid(c: Command)
    requires c.Valid()
    ensures PartsValid(c)
    ensures FormOf(c.first) == FirstOf(c.form) && FormOf(c.second) == SecondOf(c.form)
    ensures FormOf(c.third) == ThirdOf(c.form) && FormOfPatterns(c.clauses) == ClausesOf(c.form)
    ensures c.clauses != null ==> ClausesOf(c.form).Clause?
    ensures c.first != null ==> c.first.form < FirstOf(c.form)
    ensures c.second != null ==> c.second.form < SecondOf(c.form)
    ensures c.third != null ==> c.third.form < ThirdOf(c.form)
  {
  }

  ghost function KindOf(c: Command?): Kind { if c == null then Plain("") else c.form }

  lemma SameParts(c: Command, r: Command)
    requires c.Valid() && r.Valid() && PartsValid(c) && PartsValid(r)
    requires FormOf(r) == FormOf(c) && r.ignore == c.ignore && r.inner == c.inner
    requires Snap(r.first) == Snap(c.first) && Snap(r.second) == Snap(c.second) && Snap(r.third) == Snap(c.third)
    requires SnapPatterns(r.clauses) == SnapPatterns(c.clauses)
    ensures r.Snapshot() == c.Snapshot()
  {
    hide Rebuild;
  }

  lemma StoredUnion(a: set<Command>, b: set<Command>, c: set<Command>, d: set<Command>, stored: bool)
    requires AllStored(a, stored) && AllStored(b, stored) && AllStored(c, stored) && AllStored(d, stored)
    ensures AllStored(a + b + c + d, stored)
  {
  }

  // copy_case_clauses
  method CopyClauses(p: Pattern?, ghost stored: bool) returns (r: Pattern?)
    requires ValidPattern(p)
    ensures ValidPattern(r) && FormOfPatterns(r) == FormOfPatterns(p) && SnapPatterns(r) == SnapPatterns(p)
    ensures (r == null <==> p == null)
    ensures fresh(PatternRepr(r)) && AllStored(PatternRepr(r), stored)
    decreases p != null, FormOfPatterns(p)
  {
    if p == null { return null; }
    var action := CopyCommand(p.action, stored);
    var next := CopyClauses(p.next, stored);
    r := new Pattern(p.patterns, action, p.mode, next, p.form);
  }
}
