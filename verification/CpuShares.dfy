/** CPU utilisation from the kernel's seven cumulative counters, which the agent only ever sees modulo 2^64. */
module CpuShares {
  import opened Options
  import opened Arith
  import opened Wire

  datatype Counters = Counters(user: nat, nice: nat, system: nat, idle: nat, iowait: nat, irq: nat, softirq: nat)

  const IDLE := Cpu(0, 0, 0, 0, 0)

  function Total(c: Counters): (n: nat) {
    c.user + c.nice + c.system + c.idle + c.iowait + c.irq + c.softirq
  }

  /** What a true, unbounded reading looks like in 64-bit counters. */
  function Seen(c: Counters): (r: Counters) {
    Counters(c.user % U64, c.nice % U64, c.system % U64, c.idle % U64, c.iowait % U64, c.irq % U64, c.softirq % U64)
  }

  predicate Advanced(a: Counters, b: Counters) {
    && a.user <= b.user && a.nice <= b.nice && a.system <= b.system && a.idle <= b.idle
    && a.iowait <= b.iowait && a.irq <= b.irq && a.softirq <= b.softirq
  }

  /** Parts per thousand, rounded down; nothing when nothing advanced. */
  function Share(part: nat, whole: nat): (n: nat) {
    if whole == 0 then 0 else 1000 * part / whole
  }

  /** How far each of the five reported parts advanced. */
  function Parts(a: Counters, b: Counters): (c: Cpu)
    requires Advanced(a, b)
    ensures SumOf(c) == Total(b) - Total(a)
  {
    Cpu(b.user - a.user + (b.nice - a.nice), b.system - a.system, b.idle - a.idle, b.iowait - a.iowait,
        b.irq - a.irq + (b.softirq - a.softirq))
  }

  function SumOf(c: Cpu): (n: nat) {
    c.user + c.system + c.idle + c.iowait + c.irq
  }

  /** The utilisation given by the five advances. */
  function Shares(parts: Cpu): (c: Cpu) {
    var whole := SumOf(parts);
    Cpu(Share(parts.user, whole), Share(parts.system, whole), Share(parts.idle, whole), Share(parts.iowait, whole),
        Share(parts.irq, whole))
  }

  // ---------------------------------------------------------------- what the shares add up to

  lemma {:induction false} ShareBounds(part: nat, whole: nat)
    requires part <= whole && whole > 0
    ensures Share(part, whole) <= 1000
    ensures Share(part, whole) * whole <= 1000 * part < Share(part, whole) * whole + whole
  {
    var q := 1000 * part / whole;
    if q >= 1001 {
      MulMono(whole, 1001, q);
    }
  }

  lemma {:induction false} Distribute(whole: nat, a: nat, b: nat, c: nat, d: nat, e: nat)
    ensures (a + b + c + d + e) * whole == a * whole + b * whole + c * whole + d * whole + e * whole
  {
  }

  lemma {:induction false} Squeeze(whole: nat, sum: nat)
    requires sum * whole <= 1000 * whole < sum * whole + 5 * whole
    ensures 996 <= sum <= 1000
  {
    if sum <= 995 {
      MulMono(whole, sum, 995);
    } else if sum >= 1001 {
      MulMono(whole, 1001, sum);
    }
  }

  lemma {:induction false} FiveFloors(whole: nat, u: nat, s: nat, i: nat, w: nat, q: nat)
    requires whole > 0 && u + s + i + w + q == whole
    ensures 996 <= Share(u, whole) + Share(s, whole) + Share(i, whole) + Share(w, whole) + Share(q, whole) <= 1000
  {
    var a, b, c, d, e := Share(u, whole), Share(s, whole), Share(i, whole), Share(w, whole), Share(q, whole);
    ShareBounds(u, whole);
    ShareBounds(s, whole);
    ShareBounds(i, whole);
    ShareBounds(w, whole);
    ShareBounds(q, whole);
    Distribute(whole, a, b, c, d, e);
    Squeeze(whole, a + b + c + d + e);
  }

  /** No share exceeds 1000, and together they make 1000 up to the rounding of five floors. */
  lemma {:induction false} SharesAddUp(parts: Cpu)
    ensures SumOf(parts) == 0 ==> Shares(parts) == IDLE
    ensures SumOf(parts) > 0 ==> 996 <= SumOf(Shares(parts)) <= 1000
    ensures var c := Shares(parts);
      c.user <= 1000 && c.system <= 1000 && c.idle <= 1000 && c.iowait <= 1000 && c.irq <= 1000
  {
    if SumOf(parts) > 0 {
      FiveFloors(SumOf(parts), parts.user, parts.system, parts.idle, parts.iowait, parts.irq);
    }
  }

  // ---------------------------------------------------------------- 64-bit arithmetic

  function Plus(a: nat, b: nat): (r: nat) { (a + b) % U64 }
  function Minus(a: nat, b: nat): (r: nat) { (a - b) % U64 }

  lemma {:induction false} PlusSeen(a: nat, b: nat)
    ensures Plus(a % U64, b % U64) == (a + b) % U64
  {
    var p, q := a / U64, b / U64;
    assert a + b == (a % U64 + b % U64) + (p + q) * U64;
    WholeTurns(a % U64 + b % U64, p + q);
  }

  /** Unsigned subtraction finds the advance even across a wrap, as long as the advance itself fits. */
  lemma {:induction false} MinusSeen(a: nat, b: nat)
    requires a <= b && b - a < U64
    ensures Minus(b % U64, a % U64) == b - a
  {
    var p, q := a / U64, b / U64;
    assert b % U64 - a % U64 == (b - a) - (q - p) * U64;
    assert q == p || q == p + 1;
  }

  function SeenTotal(c: Counters): (n: nat) {
    Plus(Plus(Plus(Plus(Plus(Plus(c.user, c.nice), c.system), c.idle), c.iowait), c.irq), c.softirq)
  }

  lemma {:induction false} SeenTotalIs(c: Counters)
    ensures SeenTotal(Seen(c)) == Total(c) % U64
  {
    PlusSeen(c.user, c.nice);
    PlusSeen(c.user + c.nice, c.system);
    PlusSeen(c.user + c.nice + c.system, c.idle);
    PlusSeen(c.user + c.nice + c.system + c.idle, c.iowait);
    PlusSeen(c.user + c.nice + c.system + c.idle + c.iowait, c.irq);
    PlusSeen(c.user + c.nice + c.system + c.idle + c.iowait + c.irq, c.softirq);
  }

  /** What 64-bit subtraction finds for the five parts. */
  function SeenParts(p: Counters, c: Counters): (r: Cpu) {
    Cpu(Plus(Minus(c.user, p.user), Minus(c.nice, p.nice)), Minus(c.system, p.system), Minus(c.idle, p.idle),
        Minus(c.iowait, p.iowait), Plus(Minus(c.irq, p.irq), Minus(c.softirq, p.softirq)))
  }

  lemma {:induction false} PairSeen(a: nat, b: nat, c: nat, d: nat)
    requires a <= b && c <= d && (b - a) + (d - c) < U64
    ensures Plus(Minus(b % U64, a % U64), Minus(d % U64, c % U64)) == (b - a) + (d - c)
  {
    MinusSeen(a, b);
    MinusSeen(c, d);
  }

  lemma {:induction false} SeenPartsAreParts(a: Counters, b: Counters)
    requires Advanced(a, b) && Total(b) - Total(a) < U64
    ensures SeenParts(Seen(a), Seen(b)) == Parts(a, b)
  {
    PairSeen(a.user, b.user, a.nice, b.nice);
    MinusSeen(a.system, b.system);
    MinusSeen(a.idle, b.idle);
    MinusSeen(a.iowait, b.iowait);
    PairSeen(a.irq, b.irq, a.softirq, b.softirq);
  }

  /** The 64-bit product, its quotient, and the cast to 16 bits. */
  function Permille(part: nat, divisor: nat): (n: nat)
    requires divisor > 0
  {
    1000 * part % U64 / divisor % 0x1_0000
  }

  function Permilles(parts: Cpu, divisor: nat): (c: Cpu)
    requires divisor > 0
  {
    Cpu(Permille(parts.user, divisor), Permille(parts.system, divisor), Permille(parts.idle, divisor),
        Permille(parts.iowait, divisor), Permille(parts.irq, divisor))
  }

  lemma {:induction false} CastKeeps(k: nat, q: nat, fits: bool)
    requires q <= 1000 && (if fits then k == q else k < q)
    ensures k % 0x1_0000 <= q && (k % 0x1_0000 == q <==> fits)
  {
  }

  lemma {:induction false} QuotientKept(x: nat, whole: nat)
    requires 0 < whole < U64 && x / whole <= 1000 && x < U64
    ensures x % U64 / whole % 0x1_0000 == x / whole
  {
    Wrapped(x);
    CastKeeps(x / whole, x / whole, true);
  }

  lemma {:induction false} QuotientLost(x: nat, whole: nat)
    requires 0 < whole < U64 <= x && x / whole <= 1000
    ensures x % U64 / whole % 0x1_0000 < x / whole
  {
    Wrapped(x);
    WrapLowersQuotient(x, x % U64, U64, whole);
    CastKeeps(x % U64 / whole, x / whole, false);
  }

  lemma {:induction false} NoPermille()
    ensures Permille(0, 1) == 0
  {
    Wrapped(0);
  }

  /** One share comes out right if and only if its own product fits 64 bits; otherwise it comes out too small. */
  lemma {:induction false} PermilleIsShare(part: nat, whole: nat, divisor: nat)
    requires part <= whole < U64 && divisor == if whole == 0 then 1 else whole
    ensures Permille(part, divisor) == Share(part, whole) <==> 1000 * part < U64
    ensures Permille(part, divisor) <= Share(part, whole)
  {
    if whole == 0 {
      NoPermille();
    } else {
      ShareBounds(part, whole);
      if 1000 * part < U64 {
        QuotientKept(1000 * part, whole);
      } else {
        QuotientLost(1000 * part, whole);
      }
    }
  }

  /** A thousand times each part fits 64 bits. */
  predicate InRange(parts: Cpu) {
    && 1000 * parts.user < U64 && 1000 * parts.system < U64 && 1000 * parts.idle < U64
    && 1000 * parts.iowait < U64 && 1000 * parts.irq < U64
  }

  predicate AtMost(c: Cpu, d: Cpu) {
    c.user <= d.user && c.system <= d.system && c.idle <= d.idle && c.iowait <= d.iowait && c.irq <= d.irq
  }

  lemma {:induction false} FieldByField(c: Cpu, d: Cpu, parts: Cpu)
    requires AtMost(c, d)
    requires (c.user == d.user <==> 1000 * parts.user < U64) && (c.system == d.system <==> 1000 * parts.system < U64)
    requires (c.idle == d.idle <==> 1000 * parts.idle < U64) && (c.iowait == d.iowait <==> 1000 * parts.iowait < U64)
    requires c.irq == d.irq <==> 1000 * parts.irq < U64
    ensures c == d <==> InRange(parts)
  {
  }

  /** For every advance below 2^64, fixed-width arithmetic gives the true shares if and only if each of the five
      products fits, and never a share that is too large. */
  lemma {:induction false} PermillesAreShares(parts: Cpu, divisor: nat)
    requires SumOf(parts) < U64 && divisor == if SumOf(parts) == 0 then 1 else SumOf(parts)
    ensures Permilles(parts, divisor) == Shares(parts) <==> InRange(parts)
    ensures AtMost(Permilles(parts, divisor), Shares(parts))
  {
    PermilleIsShare(parts.user, SumOf(parts), divisor);
    PermilleIsShare(parts.system, SumOf(parts), divisor);
    PermilleIsShare(parts.idle, SumOf(parts), divisor);
    PermilleIsShare(parts.iowait, SumOf(parts), divisor);
    PermilleIsShare(parts.irq, SumOf(parts), divisor);
    FieldByField(Permilles(parts, divisor), Shares(parts), parts);
  }

  /** So the five together never exceed 1000. */
  lemma {:induction false} PermillesStayBelow(parts: Cpu, divisor: nat)
    requires SumOf(parts) < U64 && divisor == if SumOf(parts) == 0 then 1 else SumOf(parts)
    ensures SumOf(Permilles(parts, divisor)) <= 1000
  {
    PermillesAreShares(parts, divisor);
    SharesAddUp(parts);
  }

  /** An input out of range: an entirely idle interval is reported as all zeros. */
  lemma {:induction false} SharesLostBeyondRange()
    ensures var idle := Cpu(0, 0, 18446744073709552, 0, 0);
      !InRange(idle) && Permilles(idle, SumOf(idle)) == IDLE && Shares(idle) == Cpu(0, 0, 1000, 0, 0)
  {
    assert 1000 * 18446744073709552 % U64 == 384;
  }

  // ---------------------------------------------------------------- the collector

  /** `latest` is the true reading behind the last one taken. */
  class CpuContext {
    var prev: Counters
    var prevTotal: nat
    var initialized: bool
    var payload: Cpu
    var diffTotal: nat
    ghost var latest: Counters

    ghost predicate Valid()
      reads this
    {
      initialized ==> prev == Seen(latest) && prevTotal == Total(latest) % U64
    }

    constructor ()
      ensures Valid() && !initialized && payload == IDLE && diffTotal == 1
    {
      prev, prevTotal, initialized := Counters(0, 0, 0, 0, 0, 0, 0), 0, false;
      payload, diffTotal := IDLE, 1;
      latest := Counters(0, 0, 0, 0, 0, 0, 0);
    }

    /** `line` is what could be read; None stands for a missing or malformed first line of the file. */
    method Collect(line: Option<Counters>, ghost now: Counters) returns (ok: bool)
      requires Valid() && (line.Some? ==> line.value == Seen(now))
      requires initialized ==> Advanced(latest, now)
      modifies this
      ensures Valid() && ok == line.Some?
      ensures !ok ==> payload == IDLE && unchanged(`prev, `prevTotal, `initialized, `diffTotal, `latest)
      ensures ok ==> initialized && latest == now
      ensures ok && !old(initialized) ==> payload == IDLE && diffTotal == 1
      ensures ok && old(initialized) && Total(now) - Total(old(latest)) < U64
          ==> (payload == Shares(Parts(old(latest), now)) <==> InRange(Parts(old(latest), now)))
              && SumOf(payload) <= 1000
              && diffTotal == if Total(now) == Total(old(latest)) then 1 else Total(now) - Total(old(latest))
    {
      if line.None? {
        payload := IDLE;
        return false;
      }
      var c := line.value;
      var total := SeenTotal(c);
      SeenTotalIs(now);
      if !initialized {
        prev, prevTotal, initialized, latest := c, total, true, now;
        payload, diffTotal := IDLE, 1;
        return true;
      }
      var diff := Minus(total, prevTotal);
      if diff == 0 {
        diff := 1;
      }
      diffTotal := diff;
      payload := Permilles(SeenParts(prev, c), diff);
      if Total(now) - Total(latest) < U64 {
        MinusSeen(Total(latest), Total(now));
        SeenPartsAreParts(latest, now);
        PermillesAreShares(Parts(latest, now), diff);
        PermillesStayBelow(Parts(latest, now), diff);
      }
      prev, prevTotal, latest := c, total, now;
      return true;
    }
  }
}
