/** Machine widths, and the few facts about products, quotients and sizes that the solver is not left to find. */
module Arith {

  const U16_MAX: nat := 0xffff
  const U32: nat := 0x1_0000_0000
  const U64: nat := 0x1_0000_0000_0000_0000

  lemma {:induction false} MulMono(n: nat, a: nat, b: nat)
    requires a <= b
    ensures n * a <= n * b
  {
    assert n * b == n * a + n * (b - a);
  }

  lemma {:induction false} MulSucc(n: nat, a: nat)
    ensures n * (a + 1) == n * a + n
  {
  }

  lemma {:induction false} DivIs(x: nat, n: nat, q: nat, r: nat)
    requires n > 0 && x == n * q + r && r < n
    ensures x / n == q && x % n == r
  {
    var q', r' := x / n, x % n;
    assert x == n * q' + r';
    MulSucc(n, q');
    MulSucc(n, q);
    if q' < q {
      MulMono(n, q' + 1, q);
    } else if q < q' {
      MulMono(n, q + 1, q');
    }
  }

  /** Dividing twice is dividing by the product, and the two remainders make up the one. */
  lemma {:induction false} DivTwice(x: nat, a: nat, b: nat)
    requires a > 0 && b > 0
    ensures a * b > 0 && x / a / b == x / (a * b) && x % (a * b) == a * (x / a % b) + x % a
  {
    var y, s := x / a, x % a;
    var q, r := y / b, y % b;
    QuotientAndRest(x, a);
    QuotientAndRest(y, b);
    TwoLevels(x, a, b, q, r, s);
    DivIs(x, a * b, q, a * r + s);
  }

  lemma {:induction false} QuotientAndRest(x: nat, n: nat)
    requires n > 0
    ensures x / n >= 0 && 0 <= x % n < n && x == n * (x / n) + x % n
  {
  }

  lemma {:induction false} TwoLevels(x: nat, a: nat, b: nat, q: nat, r: nat, s: nat)
    requires x == a * (b * q + r) + s && r < b && s < a
    ensures x == a * b * q + (a * r + s) && 0 <= a * r + s < a * b
  {
    MulMono(a, r + 1, b);
    MulSucc(a, r);
    assert a * (b * q + r) == a * b * q + a * r;
  }

  /** Multiplying by m loses nothing modulo n when m has an inverse. */
  lemma {:induction false} InvertibleFactor(x: nat, y: nat, m: nat, inverse: nat, n: nat, k: nat)
    requires n > 0 && m * inverse == 1 + n * k && x * m % n == y * m % n
    ensures x % n == y % n
  {
    SameAfterFactor(x * m, y * m, inverse, n);
    OneTurnEach(x, m, inverse, n, k);
    OneTurnEach(y, m, inverse, n, k);
  }

  lemma {:induction false} OneTurnEach(x: nat, m: nat, inverse: nat, n: nat, k: nat)
    requires n > 0 && m * inverse == 1 + n * k
    ensures x * m * inverse % n == x % n
  {
    calc {
      x * m * inverse;
      x * (m * inverse);
      x + n * (k * x);
    }
    TurnsDropped(x, n, k * x);
  }

  lemma {:induction false} TurnsDropped(x: nat, n: nat, q: nat)
    requires n > 0
    ensures (x + n * q) % n == x % n
  {
    var y := x + n * q;
    QuotientAndRest(x, n);
    assert y == n * (x / n + q) + x % n;
    DivIs(y, n, x / n + q, x % n);
  }

  lemma {:induction false} RestOfRest(x: nat, big: nat, n: nat, k: nat)
    requires n > 0 && k > 0 && big == n * k
    ensures big > 0 && x % big % n == x % n
  {
    DivTwice(x, n, k);
    var r := x % big;
    assert r == n * (x / n % k) + x % n;
    DivIs(r, n, x / n % k, x % n);
  }

  lemma {:induction false} SameAfterFactor(a: nat, b: nat, f: nat, n: nat)
    requires n > 0 && a % n == b % n
    ensures a * f % n == b * f % n
  {
    RestTimes(a, f, n);
    RestTimes(b, f, n);
  }

  lemma {:induction false} RestTimes(a: nat, f: nat, n: nat)
    requires n > 0
    ensures a * f % n == a % n * f % n
  {
    var q, r := a / n, a % n;
    QuotientAndRest(a, n);
    calc {
      a * f;
      (n * q + r) * f;
      r * f + n * (q * f);
    }
    TurnsDropped(r * f, n, q * f);
  }

  lemma {:induction false} DivBelow(x: nat, n: nat)
    requires n > 0
    ensures x / n <= x
  {
    var q := x / n;
    MulMono(q, 1, n);
    assert x == n * q + x % n;
  }

  lemma {:induction false} WholeTurns(x: int, q: nat)
    ensures (x + q * U64) % U64 == x % U64
  {
    if q > 0 {
      WholeTurns(x, q - 1);
      assert (x + (q - 1) * U64 + U64) % U64 == (x + (q - 1) * U64) % U64;
    }
  }

  lemma {:induction false} SumsAgree(a: nat, b: nat, c: nat)
    requires a % U64 == b % U64
    ensures (a + c) % U64 == (b + c) % U64
  {
    var p, q := a / U64, b / U64;
    WholeTurns(a % U64 + c, p);
    WholeTurns(b % U64 + c, q);
    assert a + c == a % U64 + c + p * U64;
    assert b + c == b % U64 + c + q * U64;
  }

  lemma {:induction false} QuotientBounds(x: nat, n: nat)
    requires n > 0
    ensures n * (x / n) <= x < n * (x / n) + n
  {
  }

  lemma {:induction false} SmallerFactor(n: nat, k: nat, q: nat)
    requires n * k + n < n * q + n
    ensures k < q
  {
    if k >= q {
      MulMono(n, q, k);
    }
  }

  /** A dividend that wrapped loses at least one unit of the quotient, because the divisor is below the modulus. */
  lemma {:induction false} WrapLowersQuotient(x: nat, m: nat, u: nat, whole: nat)
    requires 0 < whole < u && m + u <= x
    ensures m / whole < x / whole
  {
    QuotientBounds(m, whole);
    QuotientBounds(x, whole);
    SmallerFactor(whole, m / whole, x / whole);
  }

  lemma {:induction false} Wrapped(x: nat)
    ensures x < U64 ==> x % U64 == x
    ensures x >= U64 ==> x % U64 + U64 <= x
  {
  }

  lemma {:induction false} WrappedQuotient(x: nat, n: nat)
    requires 0 < n < U64 <= x
    ensures x % U64 / n < x / n
  {
    Wrapped(x);
    WrapLowersQuotient(x, x % U64, U64, n);
  }

  /** A quotient of a wrapped 64-bit product is right if and only if nothing wrapped. */
  lemma {:induction false} QuotientExact(x: nat, n: nat)
    requires 0 < n < U64
    ensures x % U64 / n == x / n <==> x < U64
  {
    if x < U64 {
      Wrapped(x);
    } else {
      WrappedQuotient(x, n);
    }
  }

  lemma {:induction false} SubsetSize<T>(a: set<T>, b: set<T>)
    requires a <= b
    ensures |a| <= |b| && (|a| == |b| ==> a == b)
  {
    assert b == a + (b - a);
    assert |b| == |a| + |b - a|;
  }
}
