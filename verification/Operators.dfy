// What the operators of expr.c compute, said without their own terms: sums and
// products in 64 bits, quotients by their remainders, shifts by doubling and
// halving, connectives bit by bit.

module Operators {
  import opened Options
  import opened Arithmetic
  import opened Expr

  predicate Int64(n: int) { -9223372036854775808 <= n <= 9223372036854775807 }

  // Equal in 64 bits.
  predicate Same(x: int, y: int) { (x - y) % 18446744073709551616 == 0 }

  function Doubled(n: int, k: nat): int
    decreases k
  {
    if k == 0 then n else Doubled(n + n, k - 1)
  }

  // Half of n, rounded down, k times.
  function Halved(n: int, k: nat): int
    decreases k
  {
    if k == 0 then n else Halved(if n % 2 == 0 then n / 2 else (n - 1) / 2, k - 1)
  }

  // Bit k of n in two's complement.
  predicate Bit(n: int, k: nat) { Halved(n, k) % 2 == 1 }

  function IntPower(a: int, n: nat): int { if n == 0 then 1 else a * IntPower(a, n - 1) }

  // q is a / b toward zero and r what remains.
  predicate Truncated(a: int, b: int, q: int, r: int) {
    && q * b + r == a
    && (if b < 0 then b < r < -b else -b < r < b)
    && (r == 0 || (r < 0 <==> a < 0))
  }

  predicate OneIf(v: int, c: bool) { v == if c then 1 else 0 }

  const Connectives := ["|", "^", "&"]
  const Comparisons := ["==", "!=", "<=", ">=", "<", ">"]
  const Shifts := ["<<", ">>"]
  const Additive := ["+", "-"]
  const Multiplicative := ["*", "/", "%"]

  predicate Operator2(op: string) {
    op in Connectives || op in Comparisons || op in Shifts || op in Additive || op in Multiplicative
  }

  // v is what the operator written op makes of a and b.
  ghost predicate Computes(op: string, a: int, b: int, v: int) {
    && Int64(v)
    && (op == "+" ==> Same(v, a + b))
    && (op == "-" ==> Same(v, a - b))
    && (op == "*" ==> Same(v, a * b))
    && (op == "/" ==> exists q, r :: Truncated(a, b, q, r) && Same(v, q))
    && (op == "%" ==> exists q :: Truncated(a, b, q, v))
    && (op == "<" ==> OneIf(v, a < b))
    && (op == ">" ==> OneIf(v, b < a))
    && (op == "<=" ==> OneIf(v, a < b || a == b))
    && (op == ">=" ==> OneIf(v, b < a || a == b))
    && (op == "==" ==> OneIf(v, a == b))
    && (op == "!=" ==> OneIf(v, a != b))
    && (op == "<<" ==> Same(v, Doubled(a, b % 64)))
    && (op == ">>" ==> v == Halved(a, b % 64))
    && (op == "&" ==> forall k: nat :: Bit(v, k) <==> Bit(a, k) && Bit(b, k))
    && (op == "|" ==> forall k: nat :: Bit(v, k) <==> Bit(a, k) || Bit(b, k))
    && (op == "^" ==> forall k: nat :: Bit(v, k) <==> Bit(a, k) != Bit(b, k))
  }

  predicate DividesByZero(op: string, b: int) { (op == "/" || op == "%") && b == 0 }

  function OperatorToken(op: string): Token {
    if op == "==" then EqEq else if op == "!=" then Neq else if op == "<=" then Leq else if op == ">=" then Geq
    else if op == "<<" then LSh else if op == ">>" then RSh
    else if |op| == 1 then Char(op[0]) else End
  }

  // ------------------------------------------------------------ 64-bit values

  lemma WrapIsSame(n: int)
    ensures Int64(Wrap(n)) && Same(Wrap(n), n)
  {
    hide Wrap;
    var q :| n == q * Two64 + Wrap(n);
    NegatedTimes(q, Two64);
    Multiple(-q);
  }

  lemma SameTimes(x: int, y: int, a: int)
    requires Same(x, y)
    ensures Same(x * a, y * a)
  {
    var q := (x - y) / 18446744073709551616;
    assert x - y == q * 18446744073709551616;
    Factored(x, y, a, q);
    Multiple(q * a);
  }

  lemma Factored(x: int, y: int, a: int, q: int)
    requires x - y == q * 18446744073709551616
    ensures x * a - y * a == (q * a) * 18446744073709551616
  {
    assert (x - y) * a == x * a - y * a;
  }

  lemma Multiple(q: int)
    ensures (q * 18446744073709551616) % 18446744073709551616 == 0
  {
  }

  // The wrapping power is the power, in 64 bits.
  lemma {:induction false} PowerIsIntPower(a: int, n: nat)
    ensures Int64(Power(a, n)) && Same(Power(a, n), IntPower(a, n))
  {
    if n > 0 {
      hide Same, Wrap;
      var p, r := Power(a, n - 1), IntPower(a, n - 1);
      PowerIsIntPower(a, n - 1);
      SameTimes(p, r, a);
      WrapIsSame(p * a);
      SameThrough(Wrap(p * a), p * a, r * a);
    } else {
      assert Same(1, 1);
    }
  }

  lemma SameThrough(x: int, y: int, z: int)
    requires Same(x, y) && Same(y, z)
    ensures Same(x, z)
  {
  }

  // ------------------------------------------------------------------ shifts

  lemma {:induction false} DoubledIs(n: int, k: nat)
    ensures Doubled(n, k) == n * Pow2(k)
    decreases k
  {
    if k > 0 { DoubledIs(n + n, k - 1); }
  }

  lemma HalfIs(n: int)
    ensures (if n % 2 == 0 then n / 2 else (n - 1) / 2) == n / 2
  {
  }

  lemma {:induction false} HalvedIs(n: int, k: nat)
    ensures Halved(n, k) == n / Pow2(k)
    decreases k
  {
    HalfIs(n);
    if k > 0 {
      HalvedIs(n / 2, k - 1);
      HalfOfQuotient(n, Pow2(k - 1));
    }
  }

  lemma HalfOfQuotient(n: int, p: nat)
    requires p > 0
    ensures n / (2 * p) == (n / 2) / p
  {
    var q, r := (n / 2) / p, (n / 2) % p;
    assert n / 2 == q * p + r;
    assert n == q * (2 * p) + (2 * r + n % 2) by { Twice(q, p); }
    QuotientIs(n, 2 * p, q, 2 * r + n % 2);
  }

  lemma Twice(q: int, p: int)
    ensures q * (2 * p) == 2 * (q * p)
  {
  }

  lemma QuotientIs(n: int, d: nat, q: int, r: nat)
    requires n == q * d + r && r < d
    ensures n / d == q
  {
    var q', r' := n / d, n % d;
    assert (q - q') * d == r' - r by { assert n == q' * d + r'; Difference(q, q', d); }
    SmallMultiple(q - q', d);
  }

  lemma Difference(q: int, q': int, d: int)
    ensures (q - q') * d == q * d - q' * d
  {
  }

  // A multiple of d that is smaller than d is none.
  lemma SmallMultiple(q: int, d: int)
    requires d > 0 && -d < q * d < d
    ensures q == 0
  {
    if q >= 1 { AtLeast(q, d); }
    if q <= -1 {
      AtLeast(-q, d);
      NegatedTimes(q, d);
    }
  }

  lemma AtLeast(q: int, d: int)
    requires q >= 1 && d > 0
    ensures q * d >= d
  {
    assert (q - 1) * d >= 0;
    Difference(q, 1, d);
  }

  lemma NegatedTimes(q: int, d: int)
    ensures (-q) * d == -(q * d)
  {
  }

  lemma {:induction false} HalvedInRange(n: int, k: nat)
    requires Int64(n)
    ensures Int64(Halved(n, k))
    decreases k
  {
    if k > 0 { HalvedInRange(n / 2, k - 1); HalfIs(n); }
  }

  // -------------------------------------------------------------------- bits

  // Every bit of a joined number is the joined bit.
  lemma {:induction false} BitwiseBit(op: char, a: int, b: int, n: nat, k: nat)
    requires 0 - Pow2(n) <= a < Pow2(n) && 0 - Pow2(n) <= b < Pow2(n)
    ensures Bit(Bitwise(op, a, b, n), k) == Joined(op, Bit(a, k), Bit(b, k))
    decreases n + k
  {
    var r := Bitwise(op, a, b, n);
    HalfIs(a);
    HalfIs(b);
    HalfIs(r);
    hide Joined;
    if k == 0 {
      if n == 0 { SignBits(a, k); SignBits(b, k); SignBits(r, k); }
    } else if n == 0 {
      SignBits(a, k);
      SignBits(b, k);
      SignBits(r, k);
    } else {
      BitwiseBit(op, a / 2, b / 2, n - 1, k - 1);
      assert r / 2 == Bitwise(op, a / 2, b / 2, n - 1);
    }
  }

  lemma {:induction false} SignBits(n: int, k: nat)
    requires -1 <= n <= 0
    ensures Bit(n, k) == (n < 0)
    decreases k
  {
    if k > 0 { SignBits(n, k - 1); }
  }

  lemma BitsBit(op: char, a: int, b: int, k: nat)
    requires Int64(a) && Int64(b)
    ensures Bit(Bits(op, a, b), k) == Joined(op, Bit(a, k), Bit(b, k))
  {
    WordSize();
    hide Pow2;
    BitwiseBit(op, a, b, 63, k);
  }

  // ---------------------------------------------------------------- division

  lemma QuotientTruncates(a: int, b: int)
    requires b != 0
    ensures Truncated(a, b, Quotient(a, b), Remainder(a, b))
  {
    var q := Quotient(a, b);
    if a >= 0 {
      assert a == b * (a / b) + a % b;
    } else {
      assert -a == b * ((-a) / b) + (-a) % b;
      assert b * -((-a) / b) == -(b * ((-a) / b));
    }
    assert q * b == b * q;
  }

  // ------------------------------------------------------------- the results

  // Every operator computes what it should, and only a division by zero fails.
  lemma Applied(op: string, a: int, b: int)
    requires Operator2(op) && Int64(a) && Int64(b)
    ensures var r := Apply(OperatorToken(op), a, b);
      if DividesByZero(op, b) then r == None else r.Some? && Computes(op, a, b, r.value)
  {
    if op in Connectives { AppliedConnective(op, a, b); }
    else if op in Comparisons { AppliedComparison(op, a, b); }
    else if op in Shifts { AppliedShift(op, a, b); }
    else if op in Additive { AppliedSum(op, a, b); }
    else { AppliedProduct(op, a, b); }
  }

  lemma AppliedConnective(op: string, a: int, b: int)
    requires op in Connectives && Int64(a) && Int64(b)
    ensures var r := Apply(OperatorToken(op), a, b); r.Some? && Computes(op, a, b, r.value)
  {
    hide Bits, Bit;
    var v := Bits(op[0], a, b);
    assert Apply(OperatorToken(op), a, b) == Some(v);
    forall k: nat
      ensures Bit(v, k) == Joined(op[0], Bit(a, k), Bit(b, k))
    {
      BitsBit(op[0], a, b, k);
    }
  }

  lemma AppliedComparison(op: string, a: int, b: int)
    requires op in Comparisons
    ensures var r := Apply(OperatorToken(op), a, b); r.Some? && Computes(op, a, b, r.value)
  {
    hide Bit, Same, Truncated;
  }

  lemma AppliedShift(op: string, a: int, b: int)
    requires op in Shifts && Int64(a)
    ensures var r := Apply(OperatorToken(op), a, b); r.Some? && Computes(op, a, b, r.value)
  {
    hide Bit, Truncated, Same, Pow2, Halved, Doubled;
    var k := b % 64;
    DoubledIs(a, k);
    HalvedIs(a, k);
    HalvedInRange(a, k);
    WrapIsSame(a * Pow2(k));
  }

  lemma AppliedSum(op: string, a: int, b: int)
    requires op in Additive
    ensures var r := Apply(OperatorToken(op), a, b); r.Some? && Computes(op, a, b, r.value)
  {
    hide Bit, Truncated, Same;
    WrapIsSame(a + b);
    WrapIsSame(a - b);
  }

  lemma AppliedProduct(op: string, a: int, b: int)
    requires op in Multiplicative && Int64(b)
    ensures var r := Apply(OperatorToken(op), a, b);
      if DividesByZero(op, b) then r == None else r.Some? && Computes(op, a, b, r.value)
  {
    hide Bit, Same, Quotient, Remainder;
    if op == "*" {
      WrapIsSame(a * b);
    } else if b != 0 {
      QuotientTruncates(a, b);
      WrapIsSame(Quotient(a, b));
      assert IntMax(Remainder(a, b));
    }
  }

  // ---------------------------------------------------------- and nothing else

  lemma SameIsEqual(v: int, w: int, x: int)
    requires Int64(v) && Int64(w) && Same(v, x) && Same(w, x)
    ensures v == w
  {
  }

  lemma TruncatedOnce(a: int, b: int, q: int, r: int, q': int, r': int)
    requires Truncated(a, b, q, r) && Truncated(a, b, q', r')
    ensures q == q' && r == r'
  {
    var x := q - q';
    Difference(q, q', b);
    assert x * b == r' - r;
    SmallOne(x, b, r' - r);
  }

  lemma SmallOne(x: int, b: int, d: int)
    requires x * b == d && (if b < 0 then b < d < -b else -b < d < b)
    ensures x == 0 && d == 0
  {
    if b < 0 {
      BothNegated(x, b);
      SmallMultiple(-x, -b);
    } else {
      SmallMultiple(x, b);
    }
  }

  lemma BothNegated(x: int, b: int)
    ensures (-x) * (-b) == x * b
  {
  }

  lemma {:induction false} BitsOnce(v: int, w: int, n: nat)
    requires 0 - Pow2(n) <= v < Pow2(n) && 0 - Pow2(n) <= w < Pow2(n)
    requires forall k: nat :: Bit(v, k) == Bit(w, k)
    ensures v == w
    decreases n
  {
    assert Bit(v, 0) == Bit(w, 0);
    if n > 0 {
      HalfIs(v);
      HalfIs(w);
      forall k: nat
        ensures Bit(v / 2, k) == Bit(w / 2, k)
      {
        assert Bit(v, k + 1) == Bit(w, k + 1);
      }
      BitsOnce(v / 2, w / 2, n - 1);
    }
  }

  // An operator computes one value only.
  lemma ComputesOnce(op: string, a: int, b: int, v: int, w: int)
    requires Operator2(op) && Computes(op, a, b, v) && Computes(op, a, b, w)
    ensures v == w
  {
    if op in Connectives { ConnectiveOnce(op, a, b, v, w); }
    else if op in Comparisons { ComparisonOnce(op, a, b, v, w); }
    else if op in Multiplicative { ProductOnce(op, a, b, v, w); }
    else { SumOnce(op, a, b, v, w); }
  }

  lemma ConnectiveOnce(op: string, a: int, b: int, v: int, w: int)
    requires op in Connectives && Computes(op, a, b, v) && Computes(op, a, b, w)
    ensures v == w
  {
    hide Truncated, Bit, Halved, Doubled, Same, OneIf;
    assert forall k: nat :: Bit(v, k) == Bit(w, k);
    WordSize();
    BitsOnce(v, w, 63);
  }

  lemma ComparisonOnce(op: string, a: int, b: int, v: int, w: int)
    requires op in Comparisons && Computes(op, a, b, v) && Computes(op, a, b, w)
    ensures v == w
  {
    hide Truncated, Bit, Halved, Doubled, Same;
  }

  lemma ProductOnce(op: string, a: int, b: int, v: int, w: int)
    requires op in Multiplicative && Computes(op, a, b, v) && Computes(op, a, b, w)
    ensures v == w
  {
    hide Truncated, Bit, Halved, Doubled, Same, OneIf;
    if op == "*" {
      SameIsEqual(v, w, a * b);
    } else if op == "/" {
      var q, r :| Truncated(a, b, q, r) && Same(v, q);
      var q', r' :| Truncated(a, b, q', r') && Same(w, q');
      TruncatedOnce(a, b, q, r, q', r');
      SameIsEqual(v, w, q);
    } else {
      var q :| Truncated(a, b, q, v);
      var q' :| Truncated(a, b, q', w);
      TruncatedOnce(a, b, q, v, q', w);
    }
  }

  lemma SumOnce(op: string, a: int, b: int, v: int, w: int)
    requires (op in Additive || op in Shifts) && Computes(op, a, b, v) && Computes(op, a, b, w)
    ensures v == w
  {
    hide Truncated, Bit, Halved, Doubled, Same, OneIf;
    if op == "+" { SameIsEqual(v, w, a + b); }
    if op == "-" { SameIsEqual(v, w, a - b); }
    if op == "<<" { SameIsEqual(v, w, Doubled(a, b % 64)); }
  }
}
