/** The agent's hash of thread ids, and what its collisions lead to. */
module ThreadHashes {
  import opened Arith
  import opened Options
  import Threads = ThreadHistory
  import Steady = ThreadHistorySteady

  function Xor(a: nat, b: nat): (r: nat)
    decreases a + b
  {
    if a == 0 && b == 0 then 0 else (a % 2 + b % 2) % 2 + 2 * Xor(a / 2, b / 2)
  }

  /** The two numbers agree in their low k bits. */
  predicate SameLow(a: nat, b: nat, k: nat)
    decreases k, a
  {
    k == 0 || (a % 2 == b % 2 && SameLow(a / 2, b / 2, k - 1))
  }

  lemma {:induction false} XorUnfolds(a: nat, b: nat)
    ensures Xor(a, b) % 2 == (a % 2 + b % 2) % 2 && Xor(a, b) / 2 == Xor(a / 2, b / 2)
  {
    Halves(Xor(a, b), (a % 2 + b % 2) % 2, Xor(a / 2, b / 2));
  }

  lemma {:induction false} Halves(x: nat, bit: nat, rest: nat)
    requires bit < 2 && x == bit + 2 * rest
    ensures x % 2 == bit && x / 2 == rest
  {
  }

  lemma {:induction false} XorKeepsLow(a: nat, b: nat, c: nat, k: nat)
    requires SameLow(b, c, k)
    ensures SameLow(Xor(a, b), Xor(a, c), k)
    decreases k
  {
    if k > 0 {
      XorUnfolds(a, b);
      XorUnfolds(a, c);
      XorKeepsLow(a / 2, b / 2, c / 2, k - 1);
    }
  }

  function Pow2(k: nat): (n: nat)
    ensures n > 0
  {
    if k == 0 then 1 else 2 * Pow2(k - 1)
  }

  lemma {:induction false} HalvedRemainder(a: nat, n: nat)
    requires n > 0
    ensures a % (2 * n) == 2 * (a / 2 % n) + a % 2
  {
    DivTwice(a, 2, n);
  }

  lemma {:induction false} SameLowIs(a: nat, b: nat, k: nat)
    ensures SameLow(a, b, k) <==> a % Pow2(k) == b % Pow2(k)
    decreases k
  {
    if k > 0 {
      HalvedRemainder(a, Pow2(k - 1));
      HalvedRemainder(b, Pow2(k - 1));
      SameLowIs(a / 2, b / 2, k - 1);
    }
  }

  lemma {:induction false} TenBits()
    ensures Pow2(10) == 1024
  {
    assert Pow2(5) == 32;
  }

  const PID_FACTOR: nat := 11400714819323198485
  const TID_FACTOR: nat := 14029467366897019727

  function ThreadHash(k: Threads.Key): (i: nat)
    ensures i < Threads.TRACK
  {
    Xor(k.pid % U32 * PID_FACTOR % U64, k.tid % U32 * TID_FACTOR % U64) % Threads.TRACK
  }

  function ThreadHashing(): (h: Threads.Hash)
    ensures forall k :: h(k) == ThreadHash(k)
  {
    k => ThreadHash(k)
  }

  lemma {:induction false} XorReflectsLow(a: nat, b: nat, c: nat, k: nat)
    requires SameLow(Xor(a, b), Xor(a, c), k)
    ensures SameLow(b, c, k)
    decreases k
  {
    if k > 0 {
      XorUnfolds(a, b);
      XorUnfolds(a, c);
      BitCancels(a % 2, b % 2, c % 2);
      XorReflectsLow(a / 2, b / 2, c / 2, k - 1);
    }
  }

  lemma {:induction false} BitCancels(a: nat, b: nat, c: nat)
    requires a < 2 && b < 2 && c < 2
    ensures (a + b) % 2 == (a + c) % 2 <==> b == c
  {
  }

  lemma {:induction false} XorLowTen(a: nat, b: nat, c: nat)
    ensures Xor(a, b) % 1024 == Xor(a, c) % 1024 <==> b % 1024 == c % 1024
  {
    TenBits();
    SameLowIs(b, c, 10);
    SameLowIs(Xor(a, b), Xor(a, c), 10);
    if SameLow(b, c, 10) {
      XorKeepsLow(a, b, c, 10);
    }
    if SameLow(Xor(a, b), Xor(a, c), 10) {
      XorReflectsLow(a, b, c, 10);
    }
  }

  lemma {:induction false} ProductsAgreeIff(a: nat, b: nat)
    ensures a * TID_FACTOR % 1024 == b * TID_FACTOR % 1024 <==> a % 1024 == b % 1024
  {
    if a % 1024 == b % 1024 {
      SameAfterFactor(a, b, TID_FACTOR, 1024);
    }
    if a * TID_FACTOR % 1024 == b * TID_FACTOR % 1024 {
      InvertibleFactor(a, b, TID_FACTOR, 943, 1024, 12919714577132704690);
    }
  }

  lemma {:induction false} HashIs(pid: int, tid: nat)
    requires tid < U32
    ensures ThreadHash(Threads.Key(pid, tid)) == Xor(pid % U32 * PID_FACTOR % U64, tid * TID_FACTOR % U64) % 1024
  {
    assert tid % U32 == tid;
  }

  /** Two threads of a process share a slot if and only if their ids agree in their low ten bits. */
  lemma {:induction false} ThreadsCollideIff(pid: int, a: nat, b: nat)
    requires a < U32 && b < U32
    ensures ThreadHash(Threads.Key(pid, a)) == ThreadHash(Threads.Key(pid, b)) <==> a % 1024 == b % 1024
  {
    HashIs(pid, a);
    HashIs(pid, b);
    XorLowTen(pid % U32 * PID_FACTOR % U64, a * TID_FACTOR % U64, b * TID_FACTOR % U64);
    RestOfRest(a * TID_FACTOR, U64, 1024, 0x40_0000_0000_0000);
    RestOfRest(b * TID_FACTOR, U64, 1024, 0x40_0000_0000_0000);
    ProductsAgreeIff(a, b);
  }

  /** So the same process's threads 1024 apart collide. */
  lemma {:induction false} ThreadsApartCollide(pid: int, tid: nat)
    requires tid + 1024 < U32
    ensures ThreadHash(Threads.Key(pid, tid)) == ThreadHash(Threads.Key(pid, tid + 1024))
  {
    ThreadsCollideIff(pid, tid, tid + 1024);
  }

  /** With the agent's own hash: any thread whose twin 1024 ids below has ended is restarted from zero although it
      is still in the table. */
  lemma {:induction false} ThreadHashBreaksChains(pid: int, tid: nat)
    requires pid != 0 && tid + 1024 < U32
    ensures var a, b := Threads.Key(pid, tid), Threads.Key(pid, tid + 1024);
            var s := Steady.AfterLosing(ThreadHashing(), Threads.INITIAL, a, b);
            && s.slots[Threads.Pos(ThreadHashing()(b), 1)].key == b
            && Threads.Record(ThreadHashing(), s, Threads.Visit(b, 5, 13)).previous == Some(0)
  {
    ThreadsApartCollide(pid, tid);
    Steady.CollectionBreaksChains(ThreadHashing(), Threads.Key(pid, tid), Threads.Key(pid, tid + 1024));
  }
}
