/** The thread history over an unchanged thread set: holes left by the collection make lookups miss, but
    every miss lowers the total probe displacement, so the misses die out. */
module ThreadHistorySteady {
  import opened Options
  import opened ThreadHistory

  datatype Thread = Thread(key: Key, starttime: nat)

  predicate Distinct(ths: seq<Thread>) {
    (forall n :: 0 <= n < |ths| ==> ths[n].key.pid != 0) &&
    (forall m, n :: 0 <= m < n < |ths| ==> ths[m].key != ths[n].key)
  }

  /** The first probe, from `from` on, at which slot `k` itself is met, holes or not. */
  function DisplacementFrom(t: Table, start: nat, k: Key, from: nat): (d: nat)
    requires start < TRACK && from <= TRACK
    ensures from <= d <= TRACK
    ensures forall p :: from <= p < d ==> t[Pos(start, p)].key != k
    ensures d < TRACK ==> t[Pos(start, d)].key == k
    decreases TRACK - from
  {
    if from == TRACK || t[Pos(start, from)].key == k then from else DisplacementFrom(t, start, k, from + 1)
  }

  function Displacement(h: Hash, t: Table, k: Key): (d: nat)
    ensures d <= TRACK
  {
    DisplacementFrom(t, h(k), k, 0)
  }

  function Total(h: Hash, t: Table, ths: seq<Thread>): (n: nat) {
    if ths == [] then 0 else Displacement(h, t, ths[0].key) + Total(h, t, ths[1..])
  }

  function MissCount(h: Hash, s: State, vs: seq<Visit>): (n: nat)
    decreases |vs|
  {
    if vs == [] then 0
    else (if Misses(h, s, vs[0].key) then 1 else 0) + MissCount(h, Record(h, s, vs[0]).state, vs[1..])
  }

  predicate Listed(ths: seq<Thread>, th: Thread) {
    ths != [] && (ths[0] == th || Listed(ths[1..], th))
  }

  lemma {:induction false} ListedAt(ths: seq<Thread>, th: Thread) returns (n: nat)
    requires Listed(ths, th)
    ensures n < |ths| && ths[n] == th
  {
    if ths[0] == th {
      n := 0;
    } else {
      n := ListedAt(ths[1..], th);
      n := n + 1;
    }
  }

  predicate Among(ths: seq<Thread>, v: Visit) {
    Listed(ths, Thread(v.key, v.starttime))
  }

  predicate AllAmong(ths: seq<Thread>, vs: seq<Visit>) {
    forall i :: 0 <= i < |vs| ==> Among(ths, vs[i])
  }

  /** The scan sees the given threads, each at least once and in any order, and no others. */
  predicate Scans(ths: seq<Thread>, vs: seq<Visit>) {
    AllAmong(ths, vs) && forall n :: 0 <= n < |ths| ==> Seen(vs, ths[n].key)
  }

  predicate Seen(vs: seq<Visit>, k: Key) {
    vs != [] && (vs[0].key == k || Seen(vs[1..], k))
  }

  lemma {:induction false} SeenAt(vs: seq<Visit>, k: Key) returns (i: nat)
    requires Seen(vs, k)
    ensures i < |vs| && vs[i].key == k
  {
    if vs[0].key == k {
      i := 0;
    } else {
      i := SeenAt(vs[1..], k);
      i := i + 1;
    }
  }

  ghost predicate Tracked(h: Hash, t: Table, th: Thread) {
    var d := Displacement(h, t, th.key);
    d < TRACK && t[Pos(h(th.key), d)].starttime == th.starttime
  }

  ghost predicate AllTracked(h: Hash, t: Table, ths: seq<Thread>) {
    forall n :: 0 <= n < |ths| ==> Tracked(h, t, ths[n])
  }

  ghost predicate Owned(t: Table, ths: seq<Thread>) {
    forall i :: 0 <= i < TRACK && Occupied(t[i]) ==> Listed(ths, Thread(t[i].key, t[i].starttime))
  }

  /** The table after a collection, when it holds exactly the given threads. */
  ghost predicate Settled(h: Hash, s: State, ths: seq<Thread>) {
    Distinct(ths) && Clean(s) && AllTracked(h, s.slots, ths) && Owned(s.slots, ths)
  }

  ghost predicate FreshAt(h: Hash, s: State, k: Key) {
    var d := Displacement(h, s.slots, k);
    d < TRACK && Fresh(s, Pos(h(k), d))
  }

  lemma {:induction false} DisplacementIs(h: Hash, t: Table, k: Key, d: nat)
    requires d < TRACK && t[Pos(h(k), d)].key == k
    requires forall p :: 0 <= p < d ==> t[Pos(h(k), p)].key != k
    ensures Displacement(h, t, k) == d
  {
  }

  lemma {:induction false} SeekWithinDisplacement(h: Hash, s: State, k: Key)
    requires k.pid != 0 && Displacement(h, s.slots, k) < TRACK
    ensures Seek(s.slots, h(k), k, 0) <= Displacement(h, s.slots, k)
    ensures Misses(h, s, k) <==> Seek(s.slots, h(k), k, 0) < Displacement(h, s.slots, k)
  {
    var d := Seek(s.slots, h(k), k, 0);
    var e := Displacement(h, s.slots, k);
    assert Stops(s.slots[Pos(h(k), e)], k);
    if d < e {
      assert s.slots[Pos(h(k), d)].key != k;
    }
  }

  lemma {:induction false} RecordLands(h: Hash, s: State, v: Visit)
    requires Seek(s.slots, h(v.key), v.key, 0) < TRACK
    ensures var i := Pos(h(v.key), Seek(s.slots, h(v.key), v.key, 0));
            Record(h, s, v).state == s.(slots := s.slots[i := Slot(v.key, v.starttime, v.ticks, s.generation)])
  {
  }

  lemma {:induction false} PlacedDisplacement(h: Hash, t: Table, t': Table, d: nat, slot: Slot)
    requires d == Seek(t, h(slot.key), slot.key, 0) < TRACK && slot.key.pid != 0
    requires t' == t[Pos(h(slot.key), d) := slot]
    ensures Displacement(h, t', slot.key) == d
  {
    var k := slot.key;
    forall p | 0 <= p < d ensures t'[Pos(h(k), p)].key != k {
      PosInjective(h(k), p);
      PosInjective(h(k), d);
    }
    DisplacementIs(h, t', k, d);
  }

  lemma {:induction false} OtherDisplacement(h: Hash, t: Table, t': Table, i: nat, slot: Slot, k: Key)
    requires i < TRACK && t' == t[i := slot] && t[i].key != k && slot.key != k
    ensures Displacement(h, t', k) == Displacement(h, t, k)
  {
    var e := Displacement(h, t, k);
    forall p | 0 <= p < e ensures t'[Pos(h(k), p)].key != k {
    }
    if e < TRACK {
      DisplacementIs(h, t', k, e);
    }
  }

  /** A recording moves its own key to where its search stopped, and no other key at all. */
  lemma {:induction false} RecordMoves(h: Hash, s: State, v: Visit, k: Key)
    requires v.key.pid != 0 && k.pid != 0 && Displacement(h, s.slots, v.key) < TRACK
    ensures var t' := Record(h, s, v).state.slots;
            if k == v.key then
              Displacement(h, t', k) == Displacement(h, s.slots, k) <==> !Misses(h, s, k)
            else
              Displacement(h, t', k) == Displacement(h, s.slots, k)
    ensures Displacement(h, Record(h, s, v).state.slots, k) <= Displacement(h, s.slots, k)
  {
    var d := Seek(s.slots, h(v.key), v.key, 0);
    SeekWithinDisplacement(h, s, v.key);
    RecordLands(h, s, v);
    var slot := Slot(v.key, v.starttime, v.ticks, s.generation);
    if k == v.key {
      PlacedDisplacement(h, s.slots, Record(h, s, v).state.slots, d, slot);
    } else {
      OtherDisplacement(h, s.slots, Record(h, s, v).state.slots, Pos(h(v.key), d), slot, k);
    }
  }

  predicate HasKey(ths: seq<Thread>, k: Key) {
    exists n :: 0 <= n < |ths| && ths[n].key == k
  }

  lemma {:induction false} HasKeyFirst(ths: seq<Thread>, k: Key)
    requires ths != []
    ensures HasKey(ths, k) <==> ths[0].key == k || HasKey(ths[1..], k)
  {
    assert forall n :: 1 <= n < |ths| ==> ths[n] == ths[1..][n - 1];
    assert forall n :: 0 <= n < |ths| - 1 ==> ths[1..][n] == ths[n + 1];
  }

  lemma {:induction false} TotalMoves(h: Hash, s: State, v: Visit, ths: seq<Thread>)
    requires Distinct(ths) && v.key.pid != 0 && Displacement(h, s.slots, v.key) < TRACK
    ensures var t' := Record(h, s, v).state.slots;
            var moved := HasKey(ths, v.key);
            Total(h, t', ths) + (if moved then Displacement(h, s.slots, v.key) else 0)
              == Total(h, s.slots, ths) + (if moved then Displacement(h, t', v.key) else 0)
  {
    if ths != [] {
      RecordMoves(h, s, v, ths[0].key);
      TotalMoves(h, s, v, ths[1..]);
      HasKeyFirst(ths, v.key);
    }
  }

  ghost predicate Ordered(h: Hash, s: State) {
    Newest(h, s) && Unbroken(h, s)
  }

  ghost predicate Steady(h: Hash, s: State, ths: seq<Thread>) {
    Distinct(ths) && Ordered(h, s) && AllTracked(h, s.slots, ths)
  }

  lemma {:induction false} RecordKeepsOrdered(h: Hash, s: State, v: Visit)
    requires Ordered(h, s) && v.key.pid != 0
    ensures Ordered(h, Record(h, s, v).state)
  {
    var d := Seek(s.slots, h(v.key), v.key, 0);
    if d < TRACK {
      RecordLands(h, s, v);
      StopIsAhead(h, s, v.key, d);
      RecordKeepsNewest(h, s, Record(h, s, v).state, v, Pos(h(v.key), d));
      RecordKeepsUnbroken(h, s, Record(h, s, v).state, v, Pos(h(v.key), d));
    }
  }

  lemma {:induction false} RecordKeepsTracked(h: Hash, s: State, v: Visit, th: Thread)
    requires v.key.pid != 0 && th.key.pid != 0 && Displacement(h, s.slots, v.key) < TRACK
    requires Tracked(h, s.slots, th) && (v.key == th.key ==> v.starttime == th.starttime)
    ensures Tracked(h, Record(h, s, v).state.slots, th)
    ensures v.key == th.key || FreshAt(h, s, th.key) ==> FreshAt(h, Record(h, s, v).state, th.key)
  {
    var d := Seek(s.slots, h(v.key), v.key, 0);
    SeekWithinDisplacement(h, s, v.key);
    RecordLands(h, s, v);
    var slot := Slot(v.key, v.starttime, v.ticks, s.generation);
    if th.key == v.key {
      PlacedDisplacement(h, s.slots, Record(h, s, v).state.slots, d, slot);
    } else {
      OtherDisplacement(h, s.slots, Record(h, s, v).state.slots, Pos(h(v.key), d), slot, th.key);
    }
  }

  lemma {:induction false} RecordSteady(h: Hash, s: State, ths: seq<Thread>, v: Visit)
    requires Steady(h, s, ths) && Among(ths, v)
    ensures Steady(h, Record(h, s, v).state, ths)
    ensures FreshAt(h, Record(h, s, v).state, v.key)
    ensures forall n :: 0 <= n < |ths| && FreshAt(h, s, ths[n].key) ==> FreshAt(h, Record(h, s, v).state, ths[n].key)
    ensures Total(h, Record(h, s, v).state.slots, ths) + (if Misses(h, s, v.key) then 1 else 0)
        <= Total(h, s.slots, ths)
    ensures forall n :: 0 <= n < |ths| ==>
              Displacement(h, Record(h, s, v).state.slots, ths[n].key) <= Displacement(h, s.slots, ths[n].key)
    ensures Hits(h, s, v) <==> !Misses(h, s, v.key)
  {
    var m := ListedAt(ths, Thread(v.key, v.starttime));
    assert Tracked(h, s.slots, ths[m]);
    RecordKeepsOrdered(h, s, v);
    TotalMoves(h, s, v, ths);
    RecordMoves(h, s, v, v.key);
    SeekWithinDisplacement(h, s, v.key);
    forall n | 0 <= n < |ths|
      ensures Tracked(h, Record(h, s, v).state.slots, ths[n])
      ensures v.key == ths[n].key || FreshAt(h, s, ths[n].key) ==> FreshAt(h, Record(h, s, v).state, ths[n].key)
      ensures Displacement(h, Record(h, s, v).state.slots, ths[n].key) <= Displacement(h, s.slots, ths[n].key)
    {
      assert n != m ==> ths[n].key != ths[m].key;
      RecordKeepsTracked(h, s, v, ths[n]);
      RecordMoves(h, s, v, ths[n].key);
    }
  }

  lemma {:induction false} RecordAllSteady(h: Hash, s: State, ths: seq<Thread>, vs: seq<Visit>)
    requires Steady(h, s, ths) && AllAmong(ths, vs)
    ensures Steady(h, RecordAll(h, s, vs), ths)
    ensures RecordAll(h, s, vs).generation == s.generation
    ensures forall n :: 0 <= n < |ths| && FreshAt(h, s, ths[n].key) ==> FreshAt(h, RecordAll(h, s, vs), ths[n].key)
    ensures forall i :: 0 <= i < |vs| ==> FreshAt(h, RecordAll(h, s, vs), vs[i].key)
    ensures Total(h, RecordAll(h, s, vs).slots, ths) + MissCount(h, s, vs) <= Total(h, s.slots, ths)
    ensures forall n :: 0 <= n < |ths| ==>
              Displacement(h, RecordAll(h, s, vs).slots, ths[n].key) <= Displacement(h, s.slots, ths[n].key)
    decreases |vs|
  {
    if vs != [] {
      var s' := Record(h, s, vs[0]).state;
      RecordSteady(h, s, ths, vs[0]);
      assert AllAmong(ths, vs[1..]);
      RecordAllSteady(h, s', ths, vs[1..]);
      forall i | 0 <= i < |vs| ensures FreshAt(h, RecordAll(h, s, vs), vs[i].key) {
        if i == 0 {
          var m := ListedAt(ths, Thread(vs[0].key, vs[0].starttime));
          assert FreshAt(h, s', ths[m].key);
        } else {
          assert vs[i] == vs[1..][i - 1];
        }
      }
    }
  }

  lemma {:induction false} CollectKeepsTracked(h: Hash, s: State, th: Thread)
    requires Tracked(h, s.slots, th) && FreshAt(h, s, th.key)
    ensures Tracked(h, Collect(s).slots, th)
    ensures Displacement(h, Collect(s).slots, th.key) == Displacement(h, s.slots, th.key)
  {
    var k := th.key;
    var d := Displacement(h, s.slots, k);
    var t' := Collect(s).slots;
    assert forall p :: 0 <= p < TRACK ==> t'[Pos(h(k), p)] == Swept(s, Pos(h(k), p));
    DisplacementIs(h, t', k, d);
  }

  lemma {:induction false} SameTotal(h: Hash, t: Table, t': Table, ths: seq<Thread>)
    requires forall n :: 0 <= n < |ths| ==> Displacement(h, t', ths[n].key) == Displacement(h, t, ths[n].key)
    ensures Total(h, t', ths) == Total(h, t, ths)
  {
    if ths != [] {
      assert forall n :: 0 <= n < |ths| - 1 ==> ths[1..][n] == ths[n + 1];
      assert Displacement(h, t', ths[0].key) == Displacement(h, t, ths[0].key);
      SameTotal(h, t, t', ths[1..]);
    }
  }

  lemma {:induction false} RecordAllOwned(h: Hash, s: State, ths: seq<Thread>, vs: seq<Visit>)
    requires Owned(s.slots, ths) && AllAmong(ths, vs)
    ensures Owned(RecordAll(h, s, vs).slots, ths)
    decreases |vs|
  {
    if vs != [] {
      if Seek(s.slots, h(vs[0].key), vs[0].key, 0) < TRACK {
        RecordLands(h, s, vs[0]);
      }
      assert AllAmong(ths, vs[1..]);
      RecordAllOwned(h, Record(h, s, vs[0]).state, ths, vs[1..]);
    }
  }

  lemma {:induction false} CleanStartsOrdered(h: Hash, s: State)
    requires Clean(s)
    ensures Ordered(h, BeginRound(s)) && BeginRound(s).generation < GENERATIONS
    ensures forall i :: 0 <= i < TRACK ==> !Fresh(BeginRound(s), i)
  {
  }

  lemma {:induction false} CollectKeepsAllTracked(h: Hash, s: State, ths: seq<Thread>)
    requires AllTracked(h, s.slots, ths)
    requires forall n :: 0 <= n < |ths| ==> FreshAt(h, s, ths[n].key)
    ensures AllTracked(h, Collect(s).slots, ths)
    ensures forall n :: 0 <= n < |ths| ==>
              Displacement(h, Collect(s).slots, ths[n].key) == Displacement(h, s.slots, ths[n].key)
  {
    forall n | 0 <= n < |ths|
      ensures Tracked(h, Collect(s).slots, ths[n])
      ensures Displacement(h, Collect(s).slots, ths[n].key) == Displacement(h, s.slots, ths[n].key)
    {
      CollectKeepsTracked(h, s, ths[n]);
    }
  }

  lemma {:induction false} RoundStarts(h: Hash, s: State, ths: seq<Thread>)
    requires Settled(h, s, ths) && s.generation + 1 < GENERATIONS
    ensures BeginRound(s) == State(s.slots, s.generation + 1)
    ensures Steady(h, State(s.slots, s.generation + 1), ths)
  {
    CleanStartsOrdered(h, s);
  }

  /** Every scanned thread ends the recording phase with a fresh slot in front. */
  lemma {:induction false} RoundStages(h: Hash, s: State, ths: seq<Thread>, vs: seq<Visit>)
    requires Steady(h, s, ths) && Scans(ths, vs)
    ensures var s2 := RecordAll(h, s, vs);
            && s2.generation == s.generation && Steady(h, s2, ths)
            && (forall n :: 0 <= n < |ths| ==> FreshAt(h, s2, ths[n].key))
  {
    RecordAllSteady(h, s, ths, vs);
    ScansReach(h, RecordAll(h, s, vs), ths, vs);
  }

  lemma {:induction false} RoundStaysSettled(h: Hash, s: State, ths: seq<Thread>, vs: seq<Visit>)
    requires Settled(h, s, ths) && Scans(ths, vs) && s.generation + 1 < GENERATIONS
    ensures Settled(h, Round(h, s, vs), ths)
    ensures Round(h, s, vs).generation == s.generation + 1
  {
    RoundStarts(h, s, ths);
    var s1 := State(s.slots, s.generation + 1);
    var s2 := RecordAll(h, s1, vs);
    RoundStages(h, s1, ths, vs);
    CollectKeepsAllTracked(h, s2, ths);
    RecordAllOwned(h, s1, ths, vs);
    CollectCleans(h, s2);
  }

  /** In a round over an unchanged thread set each miss is paid for by at least one unit of total displacement. */
  lemma {:induction false} RoundPaysForMisses(h: Hash, s: State, ths: seq<Thread>, vs: seq<Visit>)
    requires Settled(h, s, ths) && Scans(ths, vs) && s.generation + 1 < GENERATIONS
    ensures Total(h, Round(h, s, vs).slots, ths) + MissCount(h, BeginRound(s), vs) <= Total(h, s.slots, ths)
  {
    RoundStarts(h, s, ths);
    var s1 := State(s.slots, s.generation + 1);
    var s2 := RecordAll(h, s1, vs);
    RoundStages(h, s1, ths, vs);
    RecordAllSteady(h, s1, ths, vs);
    CollectKeepsAllTracked(h, s2, ths);
    SameTotal(h, s2.slots, Collect(s2).slots, ths);
  }

  /** And no thread is ever displaced further. */
  lemma {:induction false} DisplacementNeverGrows(h: Hash, s: State, ths: seq<Thread>, vs: seq<Visit>, n: nat)
    requires Settled(h, s, ths) && Scans(ths, vs) && s.generation + 1 < GENERATIONS && n < |ths|
    ensures Displacement(h, Round(h, s, vs).slots, ths[n].key) <= Displacement(h, s.slots, ths[n].key)
  {
    RoundStarts(h, s, ths);
    var s1 := State(s.slots, s.generation + 1);
    RoundStages(h, s1, ths, vs);
    RecordAllSteady(h, s1, ths, vs);
    CollectKeepsTracked(h, RecordAll(h, s1, vs), ths[n]);
  }

  lemma {:induction false} ScansReach(h: Hash, s: State, ths: seq<Thread>, vs: seq<Visit>)
    requires Scans(ths, vs)
    requires forall i :: 0 <= i < |vs| ==> FreshAt(h, s, vs[i].key)
    ensures forall n :: 0 <= n < |ths| ==> FreshAt(h, s, ths[n].key)
  {
    forall n | 0 <= n < |ths| ensures FreshAt(h, s, ths[n].key) {
      var i := SeenAt(vs, ths[n].key);
    }
  }

  /** No hole lies in front of the slot of `k`. */
  ghost predicate Straight(h: Hash, t: Table, k: Key) {
    Seek(t, h(k), k, 0) == Displacement(h, t, k) < TRACK
  }

  /** On the table itself: every slot that the search passes before it meets `k` is occupied. */
  ghost predicate NoHoleBefore(h: Hash, t: Table, k: Key) {
    forall p :: 0 <= p < Displacement(h, t, k) ==> Occupied(t[Pos(h(k), p)])
  }

  lemma {:induction false} StraightUnlessHole(h: Hash, t: Table, k: Key)
    requires k.pid != 0
    ensures Straight(h, t, k) <==> Displacement(h, t, k) < TRACK && NoHoleBefore(h, t, k)
  {
    var d, e := Seek(t, h(k), k, 0), Displacement(h, t, k);
    if e < TRACK {
      assert Stops(t[Pos(h(k), e)], k);
      assert forall p :: 0 <= p < e && Occupied(t[Pos(h(k), p)]) ==> !Stops(t[Pos(h(k), p)], k);
    }
  }

  ghost predicate AllStraight(h: Hash, t: Table, ths: seq<Thread>) {
    forall n :: 0 <= n < |ths| ==> Straight(h, t, ths[n].key)
  }

  ghost predicate SameLayout(t: Table, t': Table) {
    forall i :: 0 <= i < TRACK ==> t[i].key == t'[i].key
  }

  lemma {:induction false} LayoutDecidesSeek(h: Hash, t: Table, t': Table, k: Key)
    requires SameLayout(t, t')
    ensures Seek(t, h(k), k, 0) <= Seek(t', h(k), k, 0)
  {
    var d' := Seek(t', h(k), k, 0);
    if d' < TRACK {
      assert Stops(t'[Pos(h(k), d')], k);
      assert Stops(t[Pos(h(k), d')], k);
    }
  }

  lemma {:induction false} LayoutDecidesDisplacement(h: Hash, t: Table, t': Table, k: Key)
    requires SameLayout(t, t')
    ensures Displacement(h, t, k) <= Displacement(h, t', k)
  {
    var e' := Displacement(h, t', k);
    if e' < TRACK {
      assert t'[Pos(h(k), e')].key == k;
      assert t[Pos(h(k), e')].key == k;
    }
  }

  lemma {:induction false} LayoutDecides(h: Hash, t: Table, t': Table, k: Key)
    requires SameLayout(t, t')
    ensures Seek(t, h(k), k, 0) == Seek(t', h(k), k, 0)
    ensures Displacement(h, t, k) == Displacement(h, t', k)
  {
    LayoutDecidesSeek(h, t, t', k);
    LayoutDecidesSeek(h, t', t, k);
    LayoutDecidesDisplacement(h, t, t', k);
    LayoutDecidesDisplacement(h, t', t, k);
  }

  lemma {:induction false} NoMissKeepsLayout(h: Hash, s: State, v: Visit)
    requires v.key.pid != 0 && Displacement(h, s.slots, v.key) < TRACK && !Misses(h, s, v.key)
    ensures SameLayout(s.slots, Record(h, s, v).state.slots) && Straight(h, s.slots, v.key)
  {
    SeekWithinDisplacement(h, s, v.key);
    RecordLands(h, s, v);
  }

  lemma {:induction false} NoMissesMeanStraight(h: Hash, s: State, ths: seq<Thread>, vs: seq<Visit>)
    requires Steady(h, s, ths) && AllAmong(ths, vs) && MissCount(h, s, vs) == 0
    ensures SameLayout(s.slots, RecordAll(h, s, vs).slots)
    ensures forall i :: 0 <= i < |vs| ==> Straight(h, s.slots, vs[i].key)
    decreases |vs|
  {
    if vs != [] {
      var s' := Record(h, s, vs[0]).state;
      RecordSteady(h, s, ths, vs[0]);
      var m := ListedAt(ths, Thread(vs[0].key, vs[0].starttime));
      assert Tracked(h, s.slots, ths[m]);
      NoMissKeepsLayout(h, s, vs[0]);
      assert AllAmong(ths, vs[1..]);
      NoMissesMeanStraight(h, s', ths, vs[1..]);
      StraightBefore(h, s.slots, s'.slots, vs);
    }
  }

  lemma {:induction false} StraightBefore(h: Hash, t: Table, t': Table, vs: seq<Visit>)
    requires vs != [] && SameLayout(t, t') && Straight(h, t, vs[0].key)
    requires forall i :: 0 <= i < |vs[1..]| ==> Straight(h, t', vs[1..][i].key)
    ensures forall i :: 0 <= i < |vs| ==> Straight(h, t, vs[i].key)
  {
    forall i | 0 < i < |vs| ensures Straight(h, t, vs[i].key) {
      assert vs[i] == vs[1..][i - 1];
      LayoutDecides(h, t, t', vs[i].key);
    }
  }

  predicate AllHit(h: Hash, s: State, vs: seq<Visit>)
    decreases |vs|
  {
    vs == [] || (Hits(h, s, vs[0]) && AllHit(h, Record(h, s, vs[0]).state, vs[1..]))
  }

  lemma {:induction false} StraightMeansHits(h: Hash, s: State, ths: seq<Thread>, vs: seq<Visit>)
    requires Steady(h, s, ths) && AllAmong(ths, vs) && AllStraight(h, s.slots, ths)
    ensures AllHit(h, s, vs) && MissCount(h, s, vs) == 0
    decreases |vs|
  {
    if vs != [] {
      var s' := Record(h, s, vs[0]).state;
      RecordSteady(h, s, ths, vs[0]);
      var m := ListedAt(ths, Thread(vs[0].key, vs[0].starttime));
      assert Straight(h, s.slots, ths[m].key);
      SeekWithinDisplacement(h, s, vs[0].key);
      NoMissKeepsLayout(h, s, vs[0]);
      forall n | 0 <= n < |ths| ensures Straight(h, s'.slots, ths[n].key) {
        LayoutDecides(h, s.slots, s'.slots, ths[n].key);
      }
      assert AllAmong(ths, vs[1..]);
      StraightMeansHits(h, s', ths, vs[1..]);
    }
  }

  /** A round that misses nothing reproduces the layout it started from, and that layout is straight. */
  lemma {:induction false} NoMissRoundStraightens(h: Hash, s: State, ths: seq<Thread>, vs: seq<Visit>)
    requires Settled(h, s, ths) && Scans(ths, vs) && s.generation + 1 < GENERATIONS
    requires MissCount(h, BeginRound(s), vs) == 0
    ensures AllStraight(h, s.slots, ths) && SameLayout(s.slots, Round(h, s, vs).slots)
  {
    RoundStarts(h, s, ths);
    var s1 := State(s.slots, s.generation + 1);
    var s2 := RecordAll(h, s1, vs);
    RoundStages(h, s1, ths, vs);
    NoMissesMeanStraight(h, s1, ths, vs);
    ScansStraight(h, s.slots, ths, vs);
    CollectKeepsLayout(h, s, s2, ths);
  }

  lemma {:induction false} ScansStraight(h: Hash, t: Table, ths: seq<Thread>, vs: seq<Visit>)
    requires Scans(ths, vs)
    requires forall i :: 0 <= i < |vs| ==> Straight(h, t, vs[i].key)
    ensures AllStraight(h, t, ths)
  {
    forall n | 0 <= n < |ths| ensures Straight(h, t, ths[n].key) {
      var i := SeenAt(vs, ths[n].key);
    }
  }

  lemma {:induction false} CollectKeepsLayout(h: Hash, s: State, s2: State, ths: seq<Thread>)
    requires Settled(h, s, ths) && SameLayout(s.slots, s2.slots)
    requires forall n :: 0 <= n < |ths| ==> FreshAt(h, s2, ths[n].key)
    ensures SameLayout(s.slots, Collect(s2).slots)
  {
    forall i | 0 <= i < TRACK ensures Collect(s2).slots[i].key == s.slots[i].key {
      assert Collect(s2).slots[i] == Swept(s2, i);
      if Occupied(s.slots[i]) {
        SettledSlotIsKept(h, s, s2, ths, i);
      }
    }
  }

  lemma {:induction false} SettledSlotIsKept(h: Hash, s: State, s2: State, ths: seq<Thread>, i: nat)
    requires Settled(h, s, ths) && i < TRACK && Occupied(s.slots[i]) && SameLayout(s.slots, s2.slots)
    requires forall n :: 0 <= n < |ths| ==> FreshAt(h, s2, ths[n].key)
    ensures Fresh(s2, i)
  {
    var k := s.slots[i].key;
    var n := ListedAt(ths, Thread(k, s.slots[i].starttime));
    assert Tracked(h, s.slots, ths[n]) && FreshAt(h, s2, ths[n].key);
    LayoutDecides(h, s.slots, s2.slots, k);
    OnlySlot(h, s, k, i);
  }

  lemma {:induction false} OnlySlot(h: Hash, s: State, k: Key, i: nat)
    requires Clean(s) && i < TRACK && Occupied(s.slots[i]) && s.slots[i].key == k && Displacement(h, s.slots, k) < TRACK
    ensures Pos(h(k), Displacement(h, s.slots, k)) == i
  {
    assert s.slots[Pos(h(k), Displacement(h, s.slots, k))].key == s.slots[i].key;
  }

  ghost predicate NoHoles(h: Hash, t: Table, ths: seq<Thread>) {
    forall n :: 0 <= n < |ths| ==> NoHoleBefore(h, t, ths[n].key)
  }

  /** A round over an unchanged thread set misses nothing if and only if no slot in front of any of its threads is
      empty when it begins. */
  lemma {:induction false} RoundHitsUnlessHoles(h: Hash, s: State, ths: seq<Thread>, vs: seq<Visit>)
    requires Settled(h, s, ths) && Scans(ths, vs) && s.generation + 1 < GENERATIONS
    ensures MissCount(h, BeginRound(s), vs) == 0 <==> NoHoles(h, s.slots, ths)
  {
    forall n | 0 <= n < |ths|
      ensures Straight(h, s.slots, ths[n].key) <==> NoHoleBefore(h, s.slots, ths[n].key)
    {
      assert Tracked(h, s.slots, ths[n]);
      StraightUnlessHole(h, s.slots, ths[n].key);
    }
    if MissCount(h, BeginRound(s), vs) == 0 {
      NoMissRoundStraightens(h, s, ths, vs);
    }
    if NoHoles(h, s.slots, ths) {
      StraightRound(h, s, ths, vs);
    }
  }

  function TotalMisses(h: Hash, s: State, rounds: seq<seq<Visit>>): (n: nat)
    decreases |rounds|
  {
    if rounds == [] then 0
    else MissCount(h, BeginRound(s), rounds[0]) + TotalMisses(h, Round(h, s, rounds[0]), rounds[1..])
  }

  /** In every round whose number is at least `n`, every lookup hits. */
  predicate HitsFrom(h: Hash, s: State, rounds: seq<seq<Visit>>, n: nat)
    decreases |rounds|
  {
    rounds == [] ||
    ((n == 0 ==> AllHit(h, BeginRound(s), rounds[0])) &&
     HitsFrom(h, Round(h, s, rounds[0]), rounds[1..], if n == 0 then 0 else n - 1))
  }

  lemma {:induction false} HitsFromLater(h: Hash, s: State, rounds: seq<seq<Visit>>, m: nat, n: nat)
    requires HitsFrom(h, s, rounds, m) && m <= n
    ensures HitsFrom(h, s, rounds, n)
    decreases |rounds|
  {
    if rounds != [] {
      HitsFromLater(h, Round(h, s, rounds[0]), rounds[1..], if m == 0 then 0 else m - 1, if n == 0 then 0 else n - 1);
    }
  }

  lemma {:induction false} StraightRound(h: Hash, s: State, ths: seq<Thread>, vs: seq<Visit>)
    requires Settled(h, s, ths) && Scans(ths, vs) && s.generation + 1 < GENERATIONS
    requires AllStraight(h, s.slots, ths)
    ensures AllHit(h, BeginRound(s), vs) && MissCount(h, BeginRound(s), vs) == 0
    ensures AllStraight(h, Round(h, s, vs).slots, ths)
  {
    RoundStarts(h, s, ths);
    StraightMeansHits(h, State(s.slots, s.generation + 1), ths, vs);
    NoMissRoundStraightens(h, s, ths, vs);
    SameLayoutStraight(h, s.slots, Round(h, s, vs).slots, ths);
  }

  lemma {:induction false} SameLayoutStraight(h: Hash, t: Table, t': Table, ths: seq<Thread>)
    requires AllStraight(h, t, ths) && SameLayout(t, t')
    ensures AllStraight(h, t', ths)
  {
    forall n | 0 <= n < |ths| ensures Straight(h, t', ths[n].key) {
      LayoutDecides(h, t, t', ths[n].key);
    }
  }

  lemma {:induction false} StraightForever(h: Hash, s: State, ths: seq<Thread>, rounds: seq<seq<Visit>>)
    requires Settled(h, s, ths) && AllStraight(h, s.slots, ths) && s.generation + |rounds| < GENERATIONS
    requires forall r :: 0 <= r < |rounds| ==> Scans(ths, rounds[r])
    ensures TotalMisses(h, s, rounds) == 0 && HitsFrom(h, s, rounds, 0)
    decreases |rounds|
  {
    if rounds != [] {
      StraightRound(h, s, ths, rounds[0]);
      RoundStaysSettled(h, s, ths, rounds[0]);
      StraightForever(h, Round(h, s, rounds[0]), ths, rounds[1..]);
    }
  }

  /** With an unchanged thread set, the misses of all later rounds together never exceed the total
      displacement at the start, and from the round of that number on every lookup hits. */
  lemma {:induction false} MissesDieOut(h: Hash, s: State, ths: seq<Thread>, rounds: seq<seq<Visit>>)
    requires Settled(h, s, ths) && s.generation + |rounds| < GENERATIONS
    requires forall r :: 0 <= r < |rounds| ==> Scans(ths, rounds[r])
    ensures TotalMisses(h, s, rounds) <= Total(h, s.slots, ths)
    ensures HitsFrom(h, s, rounds, Total(h, s.slots, ths))
    decreases |rounds|
  {
    if rounds != [] {
      if MissCount(h, BeginRound(s), rounds[0]) == 0 {
        NoMissRoundStraightens(h, s, ths, rounds[0]);
        StraightForever(h, s, ths, rounds);
        HitsFromLater(h, s, rounds, 0, Total(h, s.slots, ths));
      } else {
        RoundStaysSettled(h, s, ths, rounds[0]);
        RoundPaysForMisses(h, s, ths, rounds[0]);
        MissesDieOut(h, Round(h, s, rounds[0]), ths, rounds[1..]);
        PayThenHit(h, s, rounds, Total(h, s.slots, ths), Total(h, Round(h, s, rounds[0]).slots, ths));
      }
    }
  }

  lemma {:induction false} PayThenHit(h: Hash, s: State, rounds: seq<seq<Visit>>, n: nat, n': nat)
    requires rounds != [] && MissCount(h, BeginRound(s), rounds[0]) > 0
    requires n' + MissCount(h, BeginRound(s), rounds[0]) <= n
    requires TotalMisses(h, Round(h, s, rounds[0]), rounds[1..]) <= n'
    requires HitsFrom(h, Round(h, s, rounds[0]), rounds[1..], n')
    ensures TotalMisses(h, s, rounds) <= n && HitsFrom(h, s, rounds, n)
  {
    LaterHits(h, s, Round(h, s, rounds[0]), rounds, rounds[1..], n', n - 1, n);
  }

  lemma {:induction false} LaterHits(
    h: Hash, s: State, s': State, rounds: seq<seq<Visit>>, rest: seq<seq<Visit>>, n': nat, m: nat, n: nat)
    requires rounds != [] && s' == Round(h, s, rounds[0]) && rest == rounds[1..]
    requires n' <= m && n == m + 1 && HitsFrom(h, s', rest, n')
    ensures HitsFrom(h, s, rounds, n)
  {
    HitsFromLater(h, s', rest, n', m);
    HitsFromNext(h, s, s', rounds, rest, m, n);
  }

  lemma {:induction false} HitsFromNext(
    h: Hash, s: State, s': State, rounds: seq<seq<Visit>>, rest: seq<seq<Visit>>, m: nat, n: nat)
    requires rounds != [] && s' == Round(h, s, rounds[0]) && rest == rounds[1..]
    requires n == m + 1 && HitsFrom(h, s', rest, m)
    ensures HitsFrom(h, s, rounds, n)
  {
  }

  /** How a settled table arises: any round that scans the set and finds a slot for every thread. */
  lemma {:induction false} RoundSettles(h: Hash, s: State, ths: seq<Thread>, vs: seq<Visit>)
    requires Clean(s) && Distinct(ths) && Scans(ths, vs) && NeverFull(h, BeginRound(s), vs)
    ensures Settled(h, Round(h, s, vs), ths)
  {
    var s1 := BeginRound(s);
    var s2 := RecordAll(h, s1, vs);
    CleanStartsOrdered(h, s);
    FreshEntries(h, s1, ths, vs);
    forall n | 0 <= n < |ths| ensures Tracked(h, s2.slots, ths[n]) && FreshAt(h, s2, ths[n].key) {
      var i := SeenAt(vs, ths[n].key);
    }
    CollectCleans(h, s2);
    CollectKeepsAllTracked(h, s2, ths);
  }

  predicate NeverFull(h: Hash, s: State, vs: seq<Visit>)
    decreases |vs|
  {
    vs == [] || (Record(h, s, vs[0]).previous.Some? && NeverFull(h, Record(h, s, vs[0]).state, vs[1..]))
  }

  ghost predicate FreshOwned(s: State, ths: seq<Thread>) {
    forall i :: 0 <= i < TRACK && Fresh(s, i) ==> Listed(ths, Thread(s.slots[i].key, s.slots[i].starttime))
  }

  lemma {:induction false} FreshEntries(h: Hash, s: State, ths: seq<Thread>, vs: seq<Visit>)
    requires Ordered(h, s) && Distinct(ths) && FreshOwned(s, ths) && AllAmong(ths, vs) && NeverFull(h, s, vs)
    ensures Ordered(h, RecordAll(h, s, vs)) && FreshOwned(RecordAll(h, s, vs), ths)
    ensures RecordAll(h, s, vs).generation == s.generation
    ensures forall n :: 0 <= n < |ths| && Tracked(h, s.slots, ths[n]) && FreshAt(h, s, ths[n].key) ==>
              Tracked(h, RecordAll(h, s, vs).slots, ths[n]) && FreshAt(h, RecordAll(h, s, vs), ths[n].key)
    ensures forall n, i :: 0 <= n < |ths| && 0 <= i < |vs| && vs[i].key == ths[n].key ==>
              Tracked(h, RecordAll(h, s, vs).slots, ths[n]) && FreshAt(h, RecordAll(h, s, vs), ths[n].key)
    decreases |vs|
  {
    if vs != [] {
      var v := vs[0];
      var s' := Record(h, s, v).state;
      var m := ListedAt(ths, Thread(v.key, v.starttime));
      var d := Seek(s.slots, h(v.key), v.key, 0);
      RecordLands(h, s, v);
      RecordKeepsOrdered(h, s, v);
      PlacedDisplacement(h, s.slots, s'.slots, d, Slot(v.key, v.starttime, v.ticks, s.generation));
      assert Tracked(h, s'.slots, ths[m]) && FreshAt(h, s', ths[m].key);
      forall n | 0 <= n < |ths| && n != m && Tracked(h, s.slots, ths[n]) && FreshAt(h, s, ths[n].key)
        ensures Tracked(h, s'.slots, ths[n]) && FreshAt(h, s', ths[n].key)
      {
        assert ths[n].key != v.key;
        OtherDisplacement(h, s.slots, s'.slots, Pos(h(v.key), d), s'.slots[Pos(h(v.key), d)], ths[n].key);
      }
      assert AllAmong(ths, vs[1..]);
      FreshEntries(h, s', ths, vs[1..]);
      forall n, i | 0 <= n < |ths| && 0 <= i < |vs| && vs[i].key == ths[n].key
        ensures Tracked(h, RecordAll(h, s, vs).slots, ths[n]) && FreshAt(h, RecordAll(h, s, vs), ths[n].key)
      {
        if i == 0 {
          assert n == m;
        } else {
          assert vs[i] == vs[1..][i - 1];
        }
      }
    }
  }

  /** The one exception: when the 32-bit generation wraps the whole table is zeroed, so even a settled
      table with nothing displaced then misses. */
  lemma {:induction false} SteadyRoundHitsUnlessWrapped(h: Hash, s: State, ths: seq<Thread>, vs: seq<Visit>)
    requires Settled(h, s, ths) && AllStraight(h, s.slots, ths) && ths != [] && Scans(ths, vs)
    ensures AllHit(h, BeginRound(s), vs) <==> s.generation + 1 < GENERATIONS
  {
    if s.generation + 1 < GENERATIONS {
      StraightRound(h, s, ths, vs);
    } else {
      assert Seen(vs, ths[0].key);
      var n := ListedAt(ths, Thread(vs[0].key, vs[0].starttime));
      assert ths[n].key.pid != 0;
      WrappedMisses(h, s, vs);
    }
  }

  lemma {:induction false} WrappedMisses(h: Hash, s: State, vs: seq<Visit>)
    requires s.generation + 1 == GENERATIONS && vs != [] && vs[0].key.pid != 0
    ensures !AllHit(h, BeginRound(s), vs)
  {
    assert Seek(BeginRound(s).slots, h(vs[0].key), vs[0].key, 0) == 0;
  }

  /** The run in question: `a` and `b` are recorded, then only `b`. */
  function AfterLosing(h: Hash, start: State, a: Key, b: Key): (s: State) {
    BeginRound(Round(h, Round(h, start, [Visit(a, 5, 7), Visit(b, 5, 9)]), [Visit(b, 5, 11)]))
  }

  /** The textbook invariant fails for any two threads with the same hash: once the first is gone, a collection
      leaves the second behind a hole, so the next lookup restarts it from zero in a second slot. */
  lemma {:induction false} CollectionBreaksChains(h: Hash, a: Key, b: Key)
    requires a.pid != 0 && b.pid != 0 && a != b && h(a) == h(b)
    ensures var s := AfterLosing(h, INITIAL, a, b);
            s.slots[Pos(h(b), 1)] == Slot(b, 5, 11, 2) && Record(h, s, Visit(b, 5, 13)).previous == Some(0)
  {
    var j := Pos(h(b), 1);
    TwoRecorded(h, a, b);
    OneRecorded(h, a, b, Round(h, INITIAL, [Visit(a, 5, 7), Visit(b, 5, 9)]));
    RecordFirst(h, State(INITIAL.slots[j := Slot(b, 5, 11, 2)], 3), Visit(b, 5, 13));
  }

  lemma {:induction false} TwoRecorded(h: Hash, a: Key, b: Key)
    requires a.pid != 0 && b.pid != 0 && a != b && h(a) == h(b)
    ensures Round(h, INITIAL, [Visit(a, 5, 7), Visit(b, 5, 9)])
         == State(INITIAL.slots[Pos(h(b), 0) := Slot(a, 5, 7, 1)][Pos(h(b), 1) := Slot(b, 5, 9, 1)], 1)
  {
    var s1 := State(INITIAL.slots[Pos(h(b), 0) := Slot(a, 5, 7, 1)][Pos(h(b), 1) := Slot(b, 5, 9, 1)], 1);
    RecordFirst(h, BeginRound(INITIAL), Visit(a, 5, 7));
    var s0 := Record(h, BeginRound(INITIAL), Visit(a, 5, 7)).state;
    RecordSecond(h, s0, Visit(b, 5, 9));
    assert [Visit(a, 5, 7), Visit(b, 5, 9)][1..] == [Visit(b, 5, 9)];
    RecordOne(h, s0, Visit(b, 5, 9));
    assert Collect(s1).slots == s1.slots;
  }

  lemma {:induction false} OneRecorded(h: Hash, a: Key, b: Key, s: State)
    requires a.pid != 0 && b.pid != 0 && a != b
    requires s == State(INITIAL.slots[Pos(h(b), 0) := Slot(a, 5, 7, 1)][Pos(h(b), 1) := Slot(b, 5, 9, 1)], 1)
    ensures Round(h, s, [Visit(b, 5, 11)]) == State(INITIAL.slots[Pos(h(b), 1) := Slot(b, 5, 11, 2)], 2)
  {
    var s2 := State(s.slots[Pos(h(b), 1) := Slot(b, 5, 11, 2)], 2);
    RecordSecond(h, BeginRound(s), Visit(b, 5, 11));
    RecordOne(h, BeginRound(s), Visit(b, 5, 11));
    assert Collect(s2).slots == INITIAL.slots[Pos(h(b), 1) := Slot(b, 5, 11, 2)];
  }

  lemma {:induction false} RecordOne(h: Hash, s: State, v: Visit)
    ensures RecordAll(h, s, [v]) == Record(h, s, v).state
  {
    assert [v][1..] == [];
  }

  lemma {:induction false} RecordFirst(h: Hash, s: State, v: Visit)
    requires !Occupied(s.slots[Pos(h(v.key), 0)]) && v.key.pid != 0
    ensures Record(h, s, v)
         == Recorded(Some(0), s.(slots := s.slots[Pos(h(v.key), 0) := Slot(v.key, v.starttime, v.ticks, s.generation)]))
  {
    assert Seek(s.slots, h(v.key), v.key, 0) == 0;
    RecordLands(h, s, v);
  }

  lemma {:induction false} RecordSecond(h: Hash, s: State, v: Visit)
    requires !Stops(s.slots[Pos(h(v.key), 0)], v.key) && Stops(s.slots[Pos(h(v.key), 1)], v.key)
    ensures Record(h, s, v).state
         == s.(slots := s.slots[Pos(h(v.key), 1) := Slot(v.key, v.starttime, v.ticks, s.generation)])
  {
    assert Seek(s.slots, h(v.key), v.key, 0) == 1;
    RecordLands(h, s, v);
  }
}
