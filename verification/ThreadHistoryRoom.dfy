/** How much room the thread history needs, and what the wrap of its generation costs. */
module ThreadHistoryRoom {
  import opened Arith
  import opened Options
  import opened ThreadHistory
  import opened ThreadHistorySteady

  // ---------------------------------------------------------------- counting slots

  function Bit(b: bool): (n: nat) { if b then 1 else 0 }

  /** How many of the first n slots are occupied. */
  function Taken(t: Table, n: nat): (k: nat)
    requires n <= TRACK
    ensures k <= n
    decreases n, |t|
  {
    if n == 0 then 0 else Taken(t, n - 1) + Bit(Occupied(t[n - 1]))
  }

  lemma {:induction false} TakenAll(t: Table, n: nat)
    requires n <= TRACK && forall i :: 0 <= i < n ==> Occupied(t[i])
    ensures Taken(t, n) == n
    decreases n
  {
    if n > 0 {
      TakenAll(t, n - 1);
    }
  }

  lemma {:induction false} TakenNone(t: Table, n: nat)
    requires n <= TRACK && forall i :: 0 <= i < n ==> !Occupied(t[i])
    ensures Taken(t, n) == 0
    decreases n
  {
    if n > 0 {
      TakenNone(t, n - 1);
    }
  }

  lemma {:induction false} TakenUpdate(t: Table, i: nat, slot: Slot, n: nat)
    requires i < TRACK && n <= TRACK
    ensures Taken(t[i := slot], n) + Bit(i < n && Occupied(t[i])) == Taken(t, n) + Bit(i < n && Occupied(slot))
    decreases n
  {
    if n > 0 {
      TakenUpdate(t, i, slot, n - 1);
    }
  }

  /** A search fails only in a table without an empty slot. */
  lemma {:induction false} RoomMeansFound(h: Hash, t: Table, k: Key)
    requires Taken(t, TRACK) < TRACK
    ensures Seek(t, h(k), k, 0) < TRACK
  {
    if Seek(t, h(k), k, 0) == TRACK {
      forall i | 0 <= i < TRACK ensures Occupied(t[i]) {
        assert !Stops(t[Pos(h(k), Dist(h(k), i))], k);
      }
      TakenAll(t, TRACK);
    }
  }

  // ---------------------------------------------------------------- threads not yet seen in the round

  function Falses(ms: seq<bool>): (n: nat)
    ensures n <= |ms|
  {
    if ms == [] then 0 else Falses(ms[..|ms| - 1]) + Bit(!ms[|ms| - 1])
  }

  lemma {:induction false} FalsesUpdate(ms: seq<bool>, i: nat)
    requires i < |ms|
    ensures Falses(ms) == Falses(ms[i := true]) + Bit(!ms[i])
  {
    var n := |ms| - 1;
    if i < n {
      assert ms[i := true][..n] == ms[..n][i := true];
      FalsesUpdate(ms[..n], i);
    } else {
      assert ms[i := true][..n] == ms[..n];
    }
  }

  lemma {:induction false} FalsesSame(ms: seq<bool>, b: bool)
    requires forall i :: 0 <= i < |ms| ==> ms[i] == b
    ensures Falses(ms) == if b then 0 else |ms|
  {
    if ms != [] {
      FalsesSame(ms[..|ms| - 1], b);
    }
  }

  ghost function Marks(h: Hash, s: State, ths: seq<Thread>): (ms: seq<bool>)
    ensures |ms| == |ths| && forall i :: 0 <= i < |ths| ==> ms[i] == FreshAt(h, s, ths[i].key)
  {
    seq(|ths|, i requires 0 <= i < |ths| => FreshAt(h, s, ths[i].key))
  }

  ghost function Unseen(h: Hash, s: State, ths: seq<Thread>): (n: nat)
    ensures n <= |ths|
  {
    Falses(Marks(h, s, ths))
  }

  lemma {:induction false} AllUnseen(h: Hash, s: State, ths: seq<Thread>)
    requires forall i :: 0 <= i < TRACK ==> !Fresh(s, i)
    ensures Unseen(h, s, ths) == |ths|
  {
    FalsesSame(Marks(h, s, ths), false);
  }

  lemma {:induction false} NoneUnseen(h: Hash, s: State, ths: seq<Thread>)
    requires forall n :: 0 <= n < |ths| ==> FreshAt(h, s, ths[n].key)
    ensures Unseen(h, s, ths) == 0
  {
    FalsesSame(Marks(h, s, ths), true);
  }

  /** Exactly the thread of key `k` changes from unseen to seen. */
  ghost predicate Sees(h: Hash, s: State, s': State, ths: seq<Thread>, k: Key) {
    forall n :: 0 <= n < |ths| ==> (FreshAt(h, s', ths[n].key) <==> FreshAt(h, s, ths[n].key) || ths[n].key == k)
  }

  lemma {:induction false} SeesOne(h: Hash, s: State, s': State, ths: seq<Thread>, m: nat)
    requires m < |ths| && Sees(h, s, s', ths, ths[m].key) && Distinct(ths)
    ensures Unseen(h, s, ths) == Unseen(h, s', ths) + Bit(!FreshAt(h, s, ths[m].key))
  {
    var ms, ms' := Marks(h, s, ths), Marks(h, s', ths);
    forall n | 0 <= n < |ths| ensures ms'[n] == ms[m := true][n] {
      assert ths[n].key == ths[m].key ==> n == m;
    }
    assert ms' == ms[m := true];
    FalsesUpdate(ms, m);
  }

  // ---------------------------------------------------------------- one recording

  /** A thread already seen in the round is found again where it was recorded. */
  lemma {:induction false} SeenNeverMisses(h: Hash, s: State, k: Key)
    requires Unbroken(h, s) && k.pid != 0 && FreshAt(h, s, k)
    ensures Seek(s.slots, h(k), k, 0) == Displacement(h, s.slots, k) && !Misses(h, s, k)
  {
    var e := Displacement(h, s.slots, k);
    PosInjective(h(k), e);
    assert Reachable(h, s.slots, Pos(h(k), e));
    assert Stops(s.slots[Pos(h(k), e)], k);
  }

  lemma {:induction false} RecordSees(h: Hash, s: State, v: Visit, k: Key)
    requires v.key.pid != 0 && k.pid != 0 && Seek(s.slots, h(v.key), v.key, 0) < TRACK
    ensures FreshAt(h, Record(h, s, v).state, k) <==> FreshAt(h, s, k) || k == v.key
  {
    var d := Seek(s.slots, h(v.key), v.key, 0);
    var i, slot := Pos(h(v.key), d), Slot(v.key, v.starttime, v.ticks, s.generation);
    RecordLands(h, s, v);
    if k == v.key {
      PlacedDisplacement(h, s.slots, s.slots[i := slot], d, slot);
    } else {
      OtherDisplacement(h, s.slots, s.slots[i := slot], i, slot, k);
    }
  }

  ghost predicate HasRoom(h: Hash, s: State, ths: seq<Thread>) {
    Taken(s.slots, TRACK) + Unseen(h, s, ths) <= TRACK
  }

  lemma {:induction false} RoomFound(h: Hash, s: State, ths: seq<Thread>, v: Visit, m: nat)
    requires Ordered(h, s) && Distinct(ths) && HasRoom(h, s, ths) && m < |ths| && ths[m].key == v.key
    ensures Seek(s.slots, h(v.key), v.key, 0) < TRACK
    ensures FreshAt(h, s, v.key) ==> !Misses(h, s, v.key)
  {
    if FreshAt(h, s, v.key) {
      SeenNeverMisses(h, s, v.key);
    } else {
      UnseenCounts(h, s, ths, m);
      RoomMeansFound(h, s.slots, v.key);
    }
  }

  lemma {:induction false} UnseenCounts(h: Hash, s: State, ths: seq<Thread>, m: nat)
    requires m < |ths| && !FreshAt(h, s, ths[m].key)
    ensures Unseen(h, s, ths) > 0
  {
    FalsesUpdate(Marks(h, s, ths), m);
  }

  lemma {:induction false} RecordKeepsRoom(h: Hash, s: State, ths: seq<Thread>, v: Visit)
    requires Ordered(h, s) && Distinct(ths) && Among(ths, v) && HasRoom(h, s, ths)
    ensures var s' := Record(h, s, v).state;
            && Record(h, s, v).previous.Some? && Ordered(h, s') && HasRoom(h, s', ths)
            && Unseen(h, s, ths) == Unseen(h, s', ths) + Bit(!FreshAt(h, s, v.key))
            && (FreshAt(h, s, v.key) ==> !Misses(h, s, v.key))
  {
    var m := ListedAt(ths, Thread(v.key, v.starttime));
    RoomFound(h, s, ths, v, m);
    var s' := Record(h, s, v).state;
    RecordLands(h, s, v);
    RecordKeepsOrdered(h, s, v);
    forall n | 0 <= n < |ths| ensures FreshAt(h, s', ths[n].key) <==> FreshAt(h, s, ths[n].key) || ths[n].key == v.key {
      RecordSees(h, s, v, ths[n].key);
    }
    SeesOne(h, s, s', ths, m);
    var i := Pos(h(v.key), Seek(s.slots, h(v.key), v.key, 0));
    TakenUpdate(s.slots, i, Slot(v.key, v.starttime, v.ticks, s.generation), TRACK);
  }

  // ---------------------------------------------------------------- a round

  lemma {:induction false} RoomLasts(h: Hash, s: State, ths: seq<Thread>, vs: seq<Visit>)
    requires Ordered(h, s) && Distinct(ths) && AllAmong(ths, vs) && HasRoom(h, s, ths)
    ensures NeverFull(h, s, vs) && MissCount(h, s, vs) <= Unseen(h, s, ths)
    decreases |vs|
  {
    if vs != [] {
      RecordKeepsRoom(h, s, ths, vs[0]);
      assert AllAmong(ths, vs[1..]);
      RoomLasts(h, Record(h, s, vs[0]).state, ths, vs[1..]);
    }
  }

  /** If the slots occupied after the last round and the threads of this one number at most 1024 together, every
      lookup of the round finds a slot, and at most one per thread misses. */
  lemma {:induction false} RoundHasRoom(h: Hash, s: State, ths: seq<Thread>, vs: seq<Visit>)
    requires Clean(s) && Distinct(ths) && AllAmong(ths, vs) && Taken(s.slots, TRACK) + |ths| <= TRACK
    ensures NeverFull(h, BeginRound(s), vs) && MissCount(h, BeginRound(s), vs) <= |ths|
  {
    var s1 := BeginRound(s);
    CleanStartsOrdered(h, s);
    AllUnseen(h, s1, ths);
    if s1.slots != s.slots {
      TakenNone(s1.slots, TRACK);
    }
    RoomLasts(h, s1, ths, vs);
  }

  /** So such a round, scanning the whole set, leaves a table that holds exactly that set. */
  lemma {:induction false} RoundSettlesWithRoom(h: Hash, s: State, ths: seq<Thread>, vs: seq<Visit>)
    requires Clean(s) && Distinct(ths) && Scans(ths, vs) && Taken(s.slots, TRACK) + |ths| <= TRACK
    ensures Settled(h, Round(h, s, vs), ths)
  {
    RoundHasRoom(h, s, ths, vs);
    RoundSettles(h, s, ths, vs);
  }

  // ---------------------------------------------------------------- the wrap

  ghost predicate AllFresh(s: State) {
    forall i :: 0 <= i < TRACK && Occupied(s.slots[i]) ==> Fresh(s, i)
  }

  lemma {:induction false} UnseenMisses(h: Hash, s: State, k: Key)
    requires AllFresh(s) && k.pid != 0 && !FreshAt(h, s, k) && Seek(s.slots, h(k), k, 0) < TRACK
    ensures Misses(h, s, k)
  {
    HeldIsFresh(h, s, k);
    assert s.slots[Pos(h(k), Seek(s.slots, h(k), k, 0))].key != k;
  }

  lemma {:induction false} HeldIsFresh(h: Hash, s: State, k: Key)
    requires AllFresh(s) && k.pid != 0
    ensures FreshAt(h, s, k) <==> Displacement(h, s.slots, k) < TRACK
  {
  }

  /** From a table with nothing stale in it, exactly the first sight of each thread misses. */
  lemma {:induction false} FirstSightsMiss(h: Hash, s: State, ths: seq<Thread>, vs: seq<Visit>)
    requires Ordered(h, s) && AllFresh(s) && Distinct(ths) && AllAmong(ths, vs) && HasRoom(h, s, ths)
    ensures MissCount(h, s, vs) + Unseen(h, RecordAll(h, s, vs), ths) == Unseen(h, s, ths)
    ensures AllFresh(RecordAll(h, s, vs)) && Ordered(h, RecordAll(h, s, vs))
    decreases |vs|
  {
    if vs != [] {
      var v, s' := vs[0], Record(h, s, vs[0]).state;
      RecordKeepsRoom(h, s, ths, v);
      RecordLands(h, s, v);
      var m := ListedAt(ths, Thread(v.key, v.starttime));
      if !FreshAt(h, s, v.key) {
        UnseenMisses(h, s, v.key);
      }
      assert AllFresh(s');
      assert AllAmong(ths, vs[1..]);
      FirstSightsMiss(h, s', ths, vs[1..]);
    }
  }

  lemma {:induction false} FreshIsStraight(h: Hash, s: State, ths: seq<Thread>)
    requires Unbroken(h, s) && AllFresh(s) && Distinct(ths)
    requires forall n :: 0 <= n < |ths| ==> FreshAt(h, s, ths[n].key)
    ensures AllStraight(h, Collect(s).slots, ths)
  {
    assert forall i :: 0 <= i < TRACK ==> Collect(s).slots[i] == Swept(s, i) == s.slots[i] || !Occupied(s.slots[i]);
    assert Collect(s).slots == s.slots;
    forall n | 0 <= n < |ths| ensures Straight(h, s.slots, ths[n].key) {
      SeenNeverMisses(h, s, ths[n].key);
    }
  }

  /** The round in which the generation wraps misses each thread exactly once, and leaves a table without holes. */
  lemma {:induction false} WrapCostsOneMissEach(h: Hash, s: State, ths: seq<Thread>, vs: seq<Visit>)
    requires Clean(s) && Distinct(ths) && Scans(ths, vs) && |ths| <= TRACK && s.generation + 1 == GENERATIONS
    ensures MissCount(h, BeginRound(s), vs) == |ths|
    ensures Settled(h, Round(h, s, vs), ths) && AllStraight(h, Round(h, s, vs).slots, ths)
    ensures Round(h, s, vs).generation == 1
  {
    var s1 := BeginRound(s);
    CleanStartsOrdered(h, s);
    EmptyTableFills(h, s1, ths, vs);
    RoundSettles(h, s, ths, vs);
    FreshIsStraight(h, RecordAll(h, s1, vs), ths);
  }

  lemma {:induction false} EmptyTableFills(h: Hash, s: State, ths: seq<Thread>, vs: seq<Visit>)
    requires (forall i :: 0 <= i < TRACK ==> !Occupied(s.slots[i])) && Ordered(h, s)
    requires Distinct(ths) && Scans(ths, vs) && |ths| <= TRACK
    ensures NeverFull(h, s, vs) && MissCount(h, s, vs) == |ths|
    ensures var s2 := RecordAll(h, s, vs);
            && s2.generation == s.generation && Unbroken(h, s2) && AllFresh(s2)
            && forall n :: 0 <= n < |ths| ==> FreshAt(h, s2, ths[n].key)
  {
    AllUnseen(h, s, ths);
    TakenNone(s.slots, TRACK);
    RoomLasts(h, s, ths, vs);
    FirstSightsMiss(h, s, ths, vs);
    FreshEntries(h, s, ths, vs);
    forall n | 0 <= n < |ths| ensures FreshAt(h, RecordAll(h, s, vs), ths[n].key) {
      var i := SeenAt(vs, ths[n].key);
    }
    NoneUnseen(h, RecordAll(h, s, vs), ths);
  }

  // ---------------------------------------------------------------- any number of rounds

  /** How often the generation wraps in n rounds. */
  function Wraps(generation: nat, n: nat): (k: nat)
    decreases n
  {
    if n == 0 then 0
    else if generation + 1 == GENERATIONS then 1 + Wraps(1, n - 1)
    else Wraps(generation + 1, n - 1)
  }

  /** What a settled table can still cost: nothing if it has no holes in front of its threads. */
  ghost function Debt(h: Hash, s: State, ths: seq<Thread>): (n: nat) {
    if AllStraight(h, s.slots, ths) then 0 else Total(h, s.slots, ths)
  }

  lemma {:induction false} RoundPaysDebt(h: Hash, s: State, ths: seq<Thread>, vs: seq<Visit>)
    requires Settled(h, s, ths) && Scans(ths, vs) && s.generation + 1 < GENERATIONS
    ensures MissCount(h, BeginRound(s), vs) + Debt(h, Round(h, s, vs), ths) <= Debt(h, s, ths)
  {
    if AllStraight(h, s.slots, ths) {
      StraightRound(h, s, ths, vs);
    } else {
      RoundPaysForMisses(h, s, ths, vs);
    }
  }

  /** `fine` for every wrap. */
  function Fines(fine: nat, generation: nat, n: nat): (k: nat)
    decreases n
  {
    if n == 0 then 0
    else if generation + 1 == GENERATIONS then fine + Fines(fine, 1, n - 1)
    else Fines(fine, generation + 1, n - 1)
  }

  lemma {:induction false} FinesAre(fine: nat, generation: nat, n: nat)
    ensures Fines(fine, generation, n) == fine * Wraps(generation, n)
    decreases n
  {
    if n > 0 {
      if generation + 1 == GENERATIONS {
        FinesAre(fine, 1, n - 1);
        MulSucc(fine, Wraps(1, n - 1));
      } else {
        FinesAre(fine, generation + 1, n - 1);
      }
    }
  }

  function NextGeneration(generation: nat): (g: nat) {
    if generation + 1 == GENERATIONS then 1 else generation + 1
  }

  lemma {:induction false} FinesNext(fine: nat, generation: nat, n: nat)
    ensures Fines(fine, generation, n + 1)
         == (if generation + 1 == GENERATIONS then fine else 0) + Fines(fine, NextGeneration(generation), n)
  {
  }

  lemma {:induction false} AnyRoundSettles(h: Hash, s: State, ths: seq<Thread>, vs: seq<Visit>)
    requires Settled(h, s, ths) && |ths| <= TRACK && Scans(ths, vs)
    ensures Settled(h, Round(h, s, vs), ths) && Round(h, s, vs).generation == NextGeneration(s.generation)
  {
    if s.generation + 1 < GENERATIONS {
      RoundStaysSettled(h, s, ths, vs);
    } else {
      WrapCostsOneMissEach(h, s, ths, vs);
    }
  }

  /** The misses of a round are covered by what it takes off the debt and by the fine for a wrap. */
  ghost predicate Pays(h: Hash, s: State, ths: seq<Thread>, vs: seq<Visit>) {
    MissCount(h, BeginRound(s), vs) + Debt(h, Round(h, s, vs), ths)
      <= Debt(h, s, ths) + if s.generation + 1 == GENERATIONS then |ths| else 0
  }

  lemma {:induction false} AnyRoundPays(h: Hash, s: State, ths: seq<Thread>, vs: seq<Visit>)
    requires Settled(h, s, ths) && |ths| <= TRACK && Scans(ths, vs)
    ensures Pays(h, s, ths, vs)
  {
    if s.generation + 1 < GENERATIONS {
      RoundPaysDebt(h, s, ths, vs);
    } else {
      WrapCostsOneMissEach(h, s, ths, vs);
    }
  }

  ghost predicate AllPay(h: Hash, s: State, ths: seq<Thread>, rounds: seq<seq<Visit>>)
    decreases |rounds|
  {
    rounds == [] ||
    (var s' := Round(h, s, rounds[0]);
     && Pays(h, s, ths, rounds[0]) && s'.generation == NextGeneration(s.generation)
     && AllPay(h, s', ths, rounds[1..]))
  }

  lemma {:induction false} EveryRoundPays(h: Hash, s: State, ths: seq<Thread>, rounds: seq<seq<Visit>>)
    requires Settled(h, s, ths) && |ths| <= TRACK && forall r :: 0 <= r < |rounds| ==> Scans(ths, rounds[r])
    ensures AllPay(h, s, ths, rounds)
    decreases |rounds|
  {
    if rounds != [] {
      AnyRoundSettles(h, s, ths, rounds[0]);
      AnyRoundPays(h, s, ths, rounds[0]);
      EveryRoundPays(h, Round(h, s, rounds[0]), ths, rounds[1..]);
    }
  }

  lemma {:induction false} PaidUp(h: Hash, s: State, ths: seq<Thread>, rounds: seq<seq<Visit>>)
    requires AllPay(h, s, ths, rounds)
    ensures TotalMisses(h, s, rounds) <= Debt(h, s, ths) + Fines(|ths|, s.generation, |rounds|)
    decreases |rounds|
  {
    if rounds != [] {
      PaidUp(h, Round(h, s, rounds[0]), ths, rounds[1..]);
      FinesNext(|ths|, s.generation, |rounds| - 1);
    }
  }

  /** With an unchanged thread set, over any number of rounds: the misses never exceed the total displacement at the
      start plus one per thread and wrap. */
  lemma {:induction false} MissesAcrossWraps(h: Hash, s: State, ths: seq<Thread>, rounds: seq<seq<Visit>>)
    requires Settled(h, s, ths) && |ths| <= TRACK && forall r :: 0 <= r < |rounds| ==> Scans(ths, rounds[r])
    ensures TotalMisses(h, s, rounds) <= Debt(h, s, ths) + |ths| * Wraps(s.generation, |rounds|)
  {
    EveryRoundPays(h, s, ths, rounds);
    PaidUp(h, s, ths, rounds);
    FinesAre(|ths|, s.generation, |rounds|);
  }
}
