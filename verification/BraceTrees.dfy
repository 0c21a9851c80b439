// Words as trees: texts, concatenations, alternatives and sequences nested to
// any depth, and what brace expansion makes of their printing.

module BraceTrees {
  import opened Options
  import opened Braces
  import opened BraceWords
  import opened BraceSequences

  // Count is a sequence of numbers or letters; Seq is any other spelling that
  // the reader takes for one, such as +1..3.
  datatype Tree =
    | Lit(text: string)
    | Cat(left: Tree, right: Tree)
    | Alt(first: Tree, others: Branches)
    | Count(c: Counting)
    | Seq(spec: string)

  datatype Branches = Final(tree: Tree) | Another(tree: Tree, rest: Branches)

  function Show(t: Tree): string {
    match t
    case Lit(s) => s
    case Cat(l, r) => Show(l) + Show(r)
    case Alt(first, others) => "{" + Show(first) + "," + ShowBranches(others) + "}"
    case Count(c) => "{" + Spec(c) + "}"
    case Seq(spec) => "{" + spec + "}"
  }

  function ShowBranches(b: Branches): string {
    match b
    case Final(t) => Show(t)
    case Another(t, rest) => Show(t) + "," + ShowBranches(rest)
  }

  predicate Proper(t: Tree) {
    match t
    case Lit(s) => Inert(s)
    case Cat(l, r) => Proper(l) && Proper(r)
    case Alt(first, others) => Proper(first) && ProperBranches(others)
    case Count(c) => Countable(c)
    case Seq(spec) => IsRange(spec)
  }

  predicate ProperBranches(b: Branches) {
    match b
    case Final(t) => Proper(t)
    case Another(t, rest) => Proper(t) && ProperBranches(rest)
  }

  // The strings a tree stands for, in order: a concatenation is the product
  // of its parts, an alternative lists its branches.
  function Strings(t: Tree): seq<string> {
    match t
    case Lit(s) => [s]
    case Cat(l, r) => Product(Strings(l), Strings(r))
    case Alt(first, others) => Strings(first) + BranchStrings(others)
    case Count(c) => Elements(c)
    case Seq(spec) => ExpandSeqterm(spec).GetOr([])
  }

  function BranchStrings(b: Branches): seq<string> {
    match b
    case Final(t) => Strings(t)
    case Another(t, rest) => Strings(t) + BranchStrings(rest)
  }

  // ------------------------------------------------------ trees as words

  function Append(v: Word, w: Word): Word {
    match v
    case Group(pre, amble, post) => Group(pre, amble, Append(post, w))
    case Text(s) =>
      match w
      case Text(t) => Text(s + t)
      case Group(pre, amble, post) => Group(s + pre, amble, post)
  }

  function ToWord(t: Tree): Word {
    match t
    case Lit(s) => Text(s)
    case Cat(l, r) => Append(ToWord(l), ToWord(r))
    case Alt(first, others) => Group("", More(ToWord(first), ToAmble(others)), Text(""))
    case Count(c) => Group("", Range(Spec(c)), Text(""))
    case Seq(spec) => Group("", Range(spec), Text(""))
  }

  function ToAmble(b: Branches): Amble {
    match b
    case Final(t) => One(ToWord(t))
    case Another(t, rest) => More(ToWord(t), ToAmble(rest))
  }

  lemma {:induction false} AppendPrint(v: Word, w: Word)
    ensures Print(Append(v, w)) == Print(v) + Print(w)
  {
    hide PrintAmble;
    match v
    case Group(pre, amble, post) =>
      AppendPrint(post, w);
      Associate(pre + "{" + PrintAmble(amble) + "}", Print(post), Print(w));
    case Text(s) =>
      match w
      case Text(t) =>
      case Group(pre, amble, post) =>
        assert s + (pre + "{" + PrintAmble(amble) + "}" + Print(post))
            == (s + pre) + "{" + PrintAmble(amble) + "}" + Print(post);
  }

  lemma Associate(a: string, b: string, c: string)
    ensures (a + b) + c == a + (b + c)
  {
  }

  lemma {:induction false} AppendWellFormed(v: Word, w: Word)
    requires WellFormed(v) && WellFormed(w)
    ensures WellFormed(Append(v, w))
  {
    hide Inert, WellFormedAmble;
    match v
    case Group(pre, amble, post) => AppendWellFormed(post, w);
    case Text(s) => InertAppend(s, if w.Text? then w.text else w.pre);
  }

  lemma {:induction false} ToWordFaithful(t: Tree)
    requires Proper(t)
    ensures Print(ToWord(t)) == Show(t) && WellFormed(ToWord(t))
  {
    hide Inert, IsRange, Spec, Countable;
    match t
    case Lit(s) =>
    case Cat(l, r) =>
      ToWordFaithful(l);
      ToWordFaithful(r);
      AppendPrint(ToWord(l), ToWord(r));
      AppendWellFormed(ToWord(l), ToWord(r));
    case Alt(first, others) =>
      ToWordFaithful(first);
      ToAmbleFaithful(others);
      InBraces(More(ToWord(first), ToAmble(others)), Show(first) + "," + ShowBranches(others));
    case Count(c) =>
      CountingIsRead(c);
      InBraces(Range(Spec(c)), Spec(c));
    case Seq(spec) =>
      InBraces(Range(spec), spec);
  }

  lemma InBraces(a: Amble, s: string)
    requires PrintAmble(a) == s && WellFormedAmble(a) && !a.One?
    ensures Print(Group("", a, Text(""))) == "{" + s + "}" && WellFormed(Group("", a, Text("")))
  {
    hide Inert, IsRange, PrintAmble, WellFormedAmble;
    EmptyInert();
    BracesOnly(s);
  }

  lemma EmptyInert()
    ensures Inert("")
  {
  }

  lemma BracesOnly(s: string)
    ensures "" + "{" + s + "}" + "" == "{" + s + "}"
  {
  }

  lemma {:induction false} ToAmbleFaithful(b: Branches)
    requires ProperBranches(b)
    ensures PrintAmble(ToAmble(b)) == ShowBranches(b) && WellFormedAmble(ToAmble(b)) && !ToAmble(b).Range?
  {
    match b
    case Final(t) => ToWordFaithful(t);
    case Another(t, rest) =>
      ToWordFaithful(t);
      ToAmbleFaithful(rest);
  }

  // -------------------------------------------------- the algebra of Product

  lemma {:induction false} PrefixedAppend(s: string, xs: seq<string>, ys: seq<string>)
    ensures Prefixed(s, xs + ys) == Prefixed(s, xs) + Prefixed(s, ys)
  {
    if xs == [] {
      assert xs + ys == ys;
    } else {
      assert (xs + ys)[1..] == xs[1..] + ys;
      PrefixedAppend(s, xs[1..], ys);
    }
  }

  lemma {:induction false} PrefixedTwice(s: string, t: string, xs: seq<string>)
    ensures Prefixed(s, Prefixed(t, xs)) == Prefixed(s + t, xs)
  {
    if xs != [] {
      PrefixedTwice(s, t, xs[1..]);
      assert Prefixed(t, xs)[1..] == Prefixed(t, xs[1..]);
      Associate(s, t, xs[0]);
    }
  }

  lemma {:induction false} PrefixedEmpty(xs: seq<string>)
    ensures Prefixed("", xs) == xs
  {
    if xs != [] {
      PrefixedEmpty(xs[1..]);
      assert "" + xs[0] == xs[0];
    }
  }

  lemma {:induction false} ProductAppend(xs: seq<string>, ys: seq<string>, zs: seq<string>)
    ensures Product(xs + ys, zs) == Product(xs, zs) + Product(ys, zs)
  {
    if xs == [] {
      assert xs + ys == ys;
    } else {
      hide Prefixed;
      assert (xs + ys)[1..] == xs[1..] + ys;
      ProductAppend(xs[1..], ys, zs);
    }
  }

  lemma {:induction false} PrefixedProduct(s: string, xs: seq<string>, ys: seq<string>)
    ensures Prefixed(s, Product(xs, ys)) == Product(Prefixed(s, xs), ys)
  {
    if xs == [] {
    } else {
      PrefixedAppend(s, Prefixed(xs[0], ys), Product(xs[1..], ys));
      PrefixedTwice(s, xs[0], ys);
      PrefixedProduct(s, xs[1..], ys);
      assert Prefixed(s, xs)[1..] == Prefixed(s, xs[1..]);
    }
  }

  lemma {:induction false} ProductAssociates(xs: seq<string>, ys: seq<string>, zs: seq<string>)
    ensures Product(Product(xs, ys), zs) == Product(xs, Product(ys, zs))
  {
    if xs != [] {
      hide Prefixed;
      ProductAppend(Prefixed(xs[0], ys), Product(xs[1..], ys), zs);
      PrefixedProduct(xs[0], ys, zs);
      ProductAssociates(xs[1..], ys, zs);
    }
  }

  lemma ProductOne(s: string, xs: seq<string>)
    ensures Product([s], xs) == Prefixed(s, xs)
  {
    hide Prefixed;
    assert [s][1..] == [];
  }

  lemma {:induction false} ProductUnit(xs: seq<string>)
    ensures Product(xs, [""]) == xs
  {
    if xs != [] {
      ProductUnit(xs[1..]);
      assert xs[0] + "" == xs[0];
      assert [""][1..] == [];
    }
  }

  // -------------------------------------------------------- the main result

  lemma {:induction false} AppendMeaning(v: Word, w: Word)
    ensures Meaning(Append(v, w)) == Product(Meaning(v), Meaning(w))
  {
    hide Product, Choices;
    match v
    case Group(pre, amble, post) =>
      AppendMeaning(post, w);
      ProductAssociates(Product([pre], Choices(amble)), Meaning(post), Meaning(w));
    case Text(s) =>
      ProductOne(s, Meaning(w));
      match w
      case Text(t) =>
        PrefixedSingle(s, t);
      case Group(pre, amble, post) =>
        PrefixGroup(s, pre, Choices(amble), Meaning(post));
  }

  lemma PrefixedSingle(s: string, t: string)
    ensures Prefixed(s, [t]) == [s + t]
  {
    assert [t][1..] == [];
  }

  lemma PrefixGroup(s: string, pre: string, choices: seq<string>, rest: seq<string>)
    ensures Prefixed(s, Product(Product([pre], choices), rest)) == Product(Product([s + pre], choices), rest)
  {
    hide Product, Prefixed;
    PrefixedProduct(s, Product([pre], choices), rest);
    PrefixedProduct(s, [pre], choices);
    PrefixedSingle(s, pre);
  }

  lemma GroupOnly(a: Amble)
    ensures Meaning(Group("", a, Text(""))) == Choices(a)
  {
    hide Product, Choices;
    ProductOne("", Choices(a));
    PrefixedEmpty(Choices(a));
    ProductUnit(Choices(a));
  }

  lemma {:induction false} ToWordMeaning(t: Tree)
    requires Proper(t)
    ensures Meaning(ToWord(t)) == Strings(t)
  {
    hide Product, ExpandSeqterm, Spec, Elements, Countable, IsRange, Inert;
    match t
    case Lit(s) =>
    case Cat(l, r) =>
      ToWordMeaning(l);
      ToWordMeaning(r);
      AppendMeaning(ToWord(l), ToWord(r));
    case Alt(first, others) =>
      ToWordMeaning(first);
      ToAmbleMeaning(others);
      GroupOnly(More(ToWord(first), ToAmble(others)));
    case Count(c) =>
      CountingIsRead(c);
      GroupOnly(Range(Spec(c)));
    case Seq(spec) =>
      GroupOnly(Range(spec));
  }

  lemma {:induction false} ToAmbleMeaning(b: Branches)
    requires ProperBranches(b)
    ensures Choices(ToAmble(b)) == BranchStrings(b)
  {
    hide Product;
    match b
    case Final(t) => ToWordMeaning(t);
    case Another(t, rest) =>
      ToWordMeaning(t);
      ToAmbleMeaning(rest);
  }

  // Brace expansion of a printed tree lists exactly the tree's strings.
  lemma ExpansionIsMeaning(t: Tree)
    requires Proper(t)
    ensures Meaning(Parse(Show(t))) == Strings(t)
  {
    hide Meaning, Parse, Strings, Inert;
    ToWordFaithful(t);
    ParsePrint(ToWord(t));
    ToWordMeaning(t);
  }
}
