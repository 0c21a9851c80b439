// Arithmetic expressions as trees: their value and effect, their spelling as
// lexemes with the parentheses precedence requires, and what it means for a
// text to spell a list of lexemes.

module ExprTrees {
  import opened Options
  import opened Numerals
  import opened Arithmetic
  import opened Expr

  datatype Tree =
    | Literal(text: string)
    | Name(x: string)
    | Set(x: string, e: Tree)
    | Update(op: Token, x: string, e: Tree)
    | IfElse(c: Tree, a: Tree, b: Tree)
    | Or(a: Tree, b: Tree)
    | And(a: Tree, b: Tree)
    | Binary(op: Token, a: Tree, b: Tree)
    | Raise(a: Tree, b: Tree)
    | Not(e: Tree)
    | Complement(e: Tree)
    | Minus(e: Tree)
    | Plus(e: Tree)
    | Pre(inc: bool, x: string)
    | Post(inc: bool, x: string)
    | Sequence(a: Tree, b: Tree)

  predicate ValidName(x: string) {
    x != [] && NameStart(x[0]) && forall k :: 0 <= k < |x| ==> NameChar(x[k])
  }

  predicate ValidNumeral(n: string) {
    n != [] && IsDigit(n[0]) && (forall k :: 0 <= k < |n| ==> NumberChar(n[k])) && StrLong(n).Ok?
  }

  function BinaryLevel(t: Token): (l: int)
    ensures l != -1 ==> 5 <= l <= 12 && BinaryAt(l, t)
  {
    match t
    case EqEq => 8 case Neq => 8
    case Leq => 9 case Geq => 9
    case LSh => 10 case RSh => 10
    case Char(c) =>
      if c == '|' then 5 else if c == '^' then 6 else if c == '&' then 7
      else if c == '<' || c == '>' then 9
      else if c == '+' || c == '-' then 11
      else if c == '*' || c == '/' || c == '%' then 12
      else -1
    case _ => -1
  }

  predicate Valid(e: Tree) {
    match e
    case Literal(n) => ValidNumeral(n)
    case Name(x) => ValidName(x)
    case Set(x, e1) => ValidName(x) && Valid(e1)
    case Update(op, x, e1) => AssignOp(op) && ValidName(x) && Valid(e1)
    case IfElse(c, a, b) => Valid(c) && Valid(a) && Valid(b)
    case Binary(op, a, b) => BinaryLevel(op) != -1 && Valid(a) && Valid(b)
    case Or(a, b) => Valid(a) && Valid(b)
    case And(a, b) => Valid(a) && Valid(b)
    case Raise(a, b) => Valid(a) && Valid(b)
    case Sequence(a, b) => Valid(a) && Valid(b)
    case Not(e1) => Valid(e1)
    case Complement(e1) => Valid(e1)
    case Minus(e1) => Valid(e1)
    case Plus(e1) => Valid(e1)
    case Pre(_, x) => ValidName(x)
    case Post(_, x) => ValidName(x)
  }

  // ------------------------------------------------------------- evaluation

  // The variables: integers, and texts where a name has no integer.
  datatype Store = Store(ints: map<string, int>, texts: map<string, string>)

  datatype Evaluation = Value(v: int, m: Store) | Error(error: ExprError, m: Store) {
    predicate IsFailure() { Error? }

    function PropagateFailure(): Evaluation
      requires Error?
    {
      this
    }

    function Extract(): (int, Store)
      requires Value?
    {
      (v, m)
    }
  }

  function Lookup(m: Store, x: string): int { if x in m.ints then m.ints[x] else 0 }

  function Put(m: Store, x: string, v: int, live: bool): Store {
    if live then m.(ints := m.ints[x := v]) else m
  }

  // Only an empty text stands for a number, which is 0.
  predicate Plain(texts: map<string, string>, x: string) { x in texts ==> texts[x] == "" }

  // No text is behind a name whose value e asks for.
  predicate Known(e: Tree, texts: map<string, string>) {
    match e
    case Literal(_) => true
    case Name(x) => Plain(texts, x)
    case Set(_, e1) => Known(e1, texts)
    case Update(_, x, e1) => Plain(texts, x) && Known(e1, texts)
    case IfElse(c, a, b) => Known(c, texts) && Known(a, texts) && Known(b, texts)
    case Binary(_, a, b) => Known(a, texts) && Known(b, texts)
    case Or(a, b) => Known(a, texts) && Known(b, texts)
    case And(a, b) => Known(a, texts) && Known(b, texts)
    case Raise(a, b) => Known(a, texts) && Known(b, texts)
    case Sequence(a, b) => Known(a, texts) && Known(b, texts)
    case Not(e1) => Known(e1, texts)
    case Complement(e1) => Known(e1, texts)
    case Minus(e1) => Known(e1, texts)
    case Plus(e1) => Known(e1, texts)
    case Pre(_, x) => Plain(texts, x)
    case Post(_, x) => Plain(texts, x)
  }

  function Checked(op: Token, a: int, b: int, m: Store): (r: Evaluation)
  {
    match Apply(op, a, b)
    case None => Error(DivisionByZero, m)
    case Some(v) => Value(v, m)
  }

  function Raised(a: int, b: int, m: Store): Evaluation {
    if b < 0 then Error(NegativeExponent, m) else Value(Power(a, b), m)
  }

  // The value of a tree and the store it leaves.  An operand that C skips is
  // evaluated too, but not `live': it assigns nothing, though it may fail.
  function Eval(e: Tree, m: Store, live: bool): (r: Evaluation)
    requires Valid(e)
    ensures r.m.texts == m.texts
  {
    match e
    case Literal(n) => Value(StrLong(n).value, m)
    case Name(x) => Value(Lookup(m, x), m)
    case Set(x, e1) =>
      var (v, m1) :- Eval(e1, m, live);
      Value(v, Put(m1, x, v, live))
    case Update(op, x, e1) =>
      var (w, m1) :- Eval(e1, m, live);
      var (v, m2) :- Checked(op, Lookup(m, x), w, m1);
      Value(v, Put(m2, x, v, live))
    case IfElse(c, a, b) =>
      var (v, m1) :- Eval(c, m, live);
      var (va, m2) :- Eval(a, m1, live && v != 0);
      var (vb, m3) :- Eval(b, m2, live && v == 0);
      Value(if v != 0 then va else vb, m3)
    case Or(a, b) =>
      var (va, m1) :- Eval(a, m, live);
      var (vb, m2) :- Eval(b, m1, live && va == 0);
      Value(Truth(va != 0 || vb != 0), m2)
    case And(a, b) =>
      var (va, m1) :- Eval(a, m, live);
      var (vb, m2) :- Eval(b, m1, live && va != 0);
      Value(Truth(va != 0 && vb != 0), m2)
    case Binary(op, a, b) =>
      var (va, m1) :- Eval(a, m, live);
      var (vb, m2) :- Eval(b, m1, live);
      Checked(op, va, vb, m2)
    case Raise(a, b) =>
      var (va, m1) :- Eval(a, m, live);
      var (vb, m2) :- Eval(b, m1, live);
      Raised(va, vb, m2)
    case Sequence(a, b) =>
      var (_, m1) :- Eval(a, m, live);
      Eval(b, m1, live)
    case Not(e1) =>
      var (v, m1) :- Eval(e1, m, live);
      Value(Truth(v == 0), m1)
    case Complement(e1) =>
      var (v, m1) :- Eval(e1, m, live);
      Value(-v - 1, m1)
    case Minus(e1) =>
      var (v, m1) :- Eval(e1, m, live);
      Value(Wrap(-v), m1)
    case Plus(e1) => Eval(e1, m, live)
    case Pre(inc, x) =>
      var v := Wrap(Lookup(m, x) + if inc then 1 else -1);
      Value(v, Put(m, x, v, live))
    case Post(inc, x) =>
      Value(Lookup(m, x), Put(m, x, Wrap(Lookup(m, x) + if inc then 1 else -1), live))
  }

  // --------------------------------------------------------------- lexemes

  datatype Lexeme = Ident(x: string) | Number(text: string) | Punct(t: Token) | Assigns(op: Token)

  datatype Lexemes = Nil | Cons(head: Lexeme, tail: Lexemes)

  function Level(e: Tree): nat
    requires Valid(e)
  {
    match e
    case Sequence(_, _) => 0
    case Set(_, _) => 1
    case Update(_, _, _) => 1
    case IfElse(_, _, _) => 2
    case Or(_, _) => 3
    case And(_, _) => 4
    case Binary(op, _, _) => BinaryLevel(op)
    case Raise(_, _) => 13
    case Not(_) => 14
    case Complement(_) => 14
    case _ => 15
  }

  // The lexemes of e where the grammar wants level l, before `rest'.
  function Spell(e: Tree, l: nat, rest: Lexemes): Lexemes
    requires Valid(e) && l <= 15
    decreases e, l
  {
    if Level(e) < l then
      Cons(Punct(Char('(')), Spell(e, 0, Cons(Punct(Char(')')), rest)))
    else
      match e
      case Literal(n) => Cons(Number(n), rest)
      case Name(x) => Cons(Ident(x), rest)
      case Set(x, e1) => Cons(Ident(x), Cons(Punct(Char('=')), Spell(e1, 1, rest)))
      case Update(op, x, e1) => Cons(Ident(x), Cons(Assigns(op), Spell(e1, 1, rest)))
      case IfElse(c, a, b) =>
        Spell(c, 3, Cons(Punct(Char('?')), Spell(a, 0, Cons(Punct(Char(':')), Spell(b, 2, rest)))))
      case Or(a, b) => Spell(a, 3, Cons(Punct(LOr), Spell(b, 4, rest)))
      case And(a, b) => Spell(a, 4, Cons(Punct(LAnd), Spell(b, 5, rest)))
      case Binary(op, a, b) => Spell(a, Level(e), Cons(Punct(op), Spell(b, Level(e) + 1, rest)))
      case Raise(a, b) => Spell(a, 14, Cons(Punct(Pow), Spell(b, 13, rest)))
      case Sequence(a, b) => Spell(a, 0, Cons(Punct(Char(',')), Spell(b, 1, rest)))
      case Not(e1) => Cons(Punct(Char('!')), Spell(e1, 14, rest))
      case Complement(e1) => Cons(Punct(Char('~')), Spell(e1, 14, rest))
      case Minus(e1) => Cons(Punct(Char('-')), Spell(e1, 15, rest))
      case Plus(e1) => Cons(Punct(Char('+')), Spell(e1, 15, rest))
      case Pre(inc, x) => Cons(Punct(if inc then PreInc else PreDec), Cons(Ident(x), rest))
      case Post(inc, x) => Cons(Ident(x), Cons(Punct(if inc then PostInc else PostDec), rest))
  }

  // ------------------------------------------------------------------ texts

  function TokenText(t: Token): string {
    match t
    case EqEq => "==" case Neq => "!=" case Leq => "<=" case Geq => ">="
    case LAnd => "&&" case LOr => "||" case LSh => "<<" case RSh => ">>" case Pow => "**"
    case PreInc => "++" case PreDec => "--" case PostInc => "++" case PostDec => "--"
    case Char(c) => [c]
    case _ => ""
  }

  function Spelling(h: Lexeme): string {
    match h
    case Ident(x) => x
    case Number(n) => n
    case Punct(t) => TokenText(t)
    case Assigns(op) => TokenText(op) + "="
  }

  // Two characters that the lexer would read as (part of) one operator.
  predicate Joins(c: char, c1: char) {
    || (c1 == '=' && c in {'=', '!', '<', '>', '&', '|', '*', '/', '%', '+', '-', '^'})
    || (c1 == c && c in {'<', '>', '&', '|', '*', '+', '-'})
  }

  // What may follow a lexeme that ends at i without changing it.
  predicate Boundary(s: string, i: nat, h: Lexeme) {
    match h
    case Ident(_) => !NameChar(CharAt(s, i)) && CharAt(s, i) != '['
    case Number(_) => !NumberChar(CharAt(s, i))
    case Assigns(_) => true
    case Punct(t) =>
      match t
      case Char(c) => !Joins(c, CharAt(s, i))
      case LSh => CharAt(s, i) != '='
      case RSh => CharAt(s, i) != '='
      case PreInc => i <= |s| && NameStart(CharAt(s, SkipBlanks(s, i)))
      case PreDec => i <= |s| && NameStart(CharAt(s, SkipBlanks(s, i)))
      case _ => true
  }

  predicate SpelledAt(s: string, i: nat, h: Lexeme) {
    var j := i + |Spelling(h)|;
    j <= |s| && s[i..j] == Spelling(h) && Boundary(s, j, h)
  }

  // From i on, the text s spells the lexemes, with blanks anywhere between.
  predicate Spells(s: string, i: nat, ls: Lexemes)
    requires i <= |s|
    decreases ls
  {
    var j := SkipBlanks(s, i);
    match ls
    case Nil => j == |s|
    case Cons(h, t) => SpelledAt(s, j, h) && Spells(s, j + |Spelling(h)|, t)
  }
}
