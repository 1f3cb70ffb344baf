/** The agent's per-thread CPU history: open addressing over TRACK slots, cleared in place by
    a generation-based collection that leaves neither tombstones nor back-shifts. */
module ThreadHistory {
  import opened Options

  const TRACK: nat := 1024
  const GENERATIONS: nat := 0x1_0000_0000

  datatype Key = Key(pid: int, tid: int)
  datatype Slot = Slot(key: Key, starttime: nat, ticks: nat, generation: nat)
  datatype Visit = Visit(key: Key, starttime: nat, ticks: nat)

  const EMPTY := Slot(Key(0, 0), 0, 0, 0)

  /** The hash is irrelevant to every result here: any function into the table will do. */
  type Hash = h: Key -> nat | forall k :: h(k) < TRACK witness k => 0
  type Table = t: seq<Slot> | |t| == TRACK witness seq(TRACK, _ => EMPTY)

  datatype State = State(slots: Table, generation: nat)

  // ---------------------------------------------------------------- probing

  function Pos(start: nat, probe: nat): (i: nat)
    requires start < TRACK && probe < TRACK
    ensures i < TRACK
    ensures i == if start + probe < TRACK then start + probe else start + probe - TRACK
  {
    (start + probe) % TRACK
  }

  /** How many probes a search that begins at `start` makes before it looks at slot `i`. */
  function Dist(start: nat, i: nat): (d: nat)
    requires start < TRACK && i < TRACK
    ensures d < TRACK && Pos(start, d) == i
  {
    if i >= start then i - start else i + TRACK - start
  }

  lemma {:induction false} PosInjective(start: nat, d: nat)
    requires start < TRACK && d < TRACK
    ensures Dist(start, Pos(start, d)) == d
  {
  }

  predicate Occupied(s: Slot) {
    s.key.pid != 0
  }

  predicate Stops(s: Slot, k: Key) {
    s.key == k || !Occupied(s)
  }

  /** The first probe, from `from` on, at which the search for `k` stops; TRACK when there is none. */
  function Seek(t: Table, start: nat, k: Key, from: nat): (d: nat)
    requires start < TRACK && from <= TRACK
    ensures from <= d <= TRACK
    ensures forall p :: from <= p < d ==> !Stops(t[Pos(start, p)], k)
    ensures d < TRACK ==> Stops(t[Pos(start, d)], k)
    decreases TRACK - from
  {
    if from == TRACK || Stops(t[Pos(start, from)], k) then from else Seek(t, start, k, from + 1)
  }

  datatype Found = NoSlot | Found(index: nat, slots: Table)

  function FindSlot(h: Hash, t: Table, k: Key, starttime: nat): (r: Found)
    ensures r.Found? ==> r.index < TRACK
  {
    var d := Seek(t, h(k), k, 0);
    if d == TRACK then NoSlot
    else
      var i := Pos(h(k), d);
      if t[i].key == k && t[i].starttime == starttime then Found(i, t)
      else Found(i, t[i := Slot(k, starttime, 0, t[i].generation)])
  }

  /** Looking a thread up and recording its ticks; `previous` is what the lookup found there. */
  datatype Recorded = Recorded(previous: Option<nat>, state: State)

  function Record(h: Hash, s: State, v: Visit): (r: Recorded) {
    match FindSlot(h, s.slots, v.key, v.starttime)
    case NoSlot => Recorded(None, s)
    case Found(i, t) =>
      Recorded(Some(t[i].ticks),
               s.(slots := t[i := t[i].(ticks := v.ticks, generation := s.generation)]))
  }

  function BeginRound(s: State): (r: State) {
    var g := (s.generation + 1) % GENERATIONS;
    if g == 0 then State(seq(TRACK, _ => EMPTY), 1) else s.(generation := g)
  }

  function Swept(s: State, i: nat): (r: Slot)
    requires i < TRACK
  {
    if Occupied(s.slots[i]) && s.slots[i].generation != s.generation then EMPTY else s.slots[i]
  }

  function Collect(s: State): (r: State) {
    s.(slots := seq(TRACK, i requires 0 <= i < TRACK => Swept(s, i)))
  }

  function RecordAll(h: Hash, s: State, vs: seq<Visit>): (r: State)
    decreases |vs|
  {
    if vs == [] then s else RecordAll(h, Record(h, s, vs[0]).state, vs[1..])
  }

  function Round(h: Hash, s: State, vs: seq<Visit>): (r: State) {
    Collect(RecordAll(h, BeginRound(s), vs))
  }

  /** The zeroed table. */
  const INITIAL := State(seq(TRACK, _ => EMPTY), 0)

  /** Probe d is the first at which the search for `k` stops. */
  predicate StopsAt(t: Table, start: nat, k: Key, d: nat)
    requires start < TRACK && d <= TRACK
  {
    (forall p :: 0 <= p < d ==> !Stops(t[Pos(start, p)], k)) && (d < TRACK ==> Stops(t[Pos(start, d)], k))
  }

  lemma {:induction false} SeekIs(t: Table, start: nat, k: Key, d: nat)
    requires start < TRACK && d <= TRACK && StopsAt(t, start, k, d)
    ensures Seek(t, start, k, 0) == d
  {
  }

  lemma {:induction false} FindSlotIs(h: Hash, t: Table, k: Key, starttime: nat, d: nat)
    requires d <= TRACK && StopsAt(t, h(k), k, d)
    ensures FindSlot(h, t, k, starttime) ==
            if d == TRACK then NoSlot
            else
              var i := Pos(h(k), d);
              Found(i, if t[i].key == k && t[i].starttime == starttime then t
                       else t[i := Slot(k, starttime, 0, t[i].generation)])
  {
    SeekIs(t, h(k), k, d);
  }

  // ---------------------------------------------------------------- the table itself

  class ThreadTable {
    const hash: Hash
    const slots: array<Slot>
    var generation: nat

    ghost predicate Valid() {
      slots.Length == TRACK
    }

    ghost function Abs(): (s: State)
      reads this, slots
      requires Valid()
    {
      State(slots[..], generation)
    }

    constructor (h: Hash)
      ensures Valid() && Abs() == INITIAL && hash == h && fresh(slots)
    {
      hash := h;
      slots := new Slot[TRACK](_ => EMPTY);
      generation := 0;
      new;
      assert slots[..] == INITIAL.slots;
    }

    /** Makes a slot the thread's own, starting from zero unless it already is. */
    method Claim(i: nat, k: Key, starttime: nat)
      requires Valid() && i < TRACK
      modifies slots
      ensures slots[..] == if old(slots[i]).key == k && old(slots[i]).starttime == starttime then old(slots[..])
                           else old(slots[..])[i := Slot(k, starttime, 0, old(slots[i]).generation)]
    {
      if slots[i].key != k || slots[i].starttime != starttime {
        slots[i] := Slot(k, starttime, 0, slots[i].generation);
      }
    }

    /** The probe loop, up to a slot that holds the key or is empty. */
    method Probe(k: Key, idx: nat) returns (probe: nat)
      requires Valid() && idx < TRACK
      ensures probe <= TRACK && StopsAt(slots[..], idx, k, probe)
    {
      probe := 0;
      while probe < TRACK
        invariant 0 <= probe <= TRACK
        invariant forall p :: 0 <= p < probe ==> !Stops(slots[Pos(idx, p)], k)
      {
        var i := Pos(idx, probe);
        if slots[i].key == k || slots[i].key.pid == 0 {
          return;
        }
        probe := probe + 1;
      }
    }

    /** A negative index stands for the null pointer. */
    method FindThreadSlot(k: Key, starttime: nat) returns (index: int)
      requires Valid()
      modifies slots
      ensures index < TRACK
      ensures index < 0 <==> FindSlot(hash, old(slots[..]), k, starttime).NoSlot?
      ensures index < 0 ==> slots[..] == old(slots[..])
      ensures index >= 0 ==> FindSlot(hash, old(slots[..]), k, starttime) == Found(index, slots[..])
    {
      var idx := hash(k);
      var probe := Probe(k, idx);
      FindSlotIs(hash, slots[..], k, starttime, probe);
      if probe == TRACK {
        return -1;
      }
      index := Pos(idx, probe);
      Claim(index, k, starttime);
    }

    method RecordThread(v: Visit) returns (previous: Option<nat>)
      requires Valid()
      modifies slots
      ensures Recorded(previous, Abs()) == Record(hash, old(Abs()), v)
    {
      var i := FindThreadSlot(v.key, v.starttime);
      if i < 0 {
        return None;
      }
      previous := Some(slots[i].ticks);
      ghost var t: Table := slots[..];
      slots[i] := slots[i].(ticks := v.ticks, generation := generation);
      assert slots[..] == t[i := t[i].(ticks := v.ticks, generation := generation)];
    }

    method NextGeneration()
      requires Valid()
      modifies this`generation, slots
      ensures Abs() == BeginRound(old(Abs()))
    {
      generation := (generation + 1) % GENERATIONS;
      if generation == 0 {
        generation := 1;
        forall i | 0 <= i < TRACK {
          slots[i] := EMPTY;
        }
        assert slots[..] == INITIAL.slots;
      }
    }

    method ThreadHistoryGc()
      requires Valid()
      modifies slots
      ensures Abs() == Collect(old(Abs()))
    {
      ghost var s := Abs();
      var i := 0;
      while i < TRACK
        invariant 0 <= i <= TRACK
        invariant forall j :: 0 <= j < i ==> slots[j] == Swept(s, j)
        invariant forall j :: i <= j < TRACK ==> slots[j] == s.slots[j]
      {
        if slots[i].key.pid != 0 && slots[i].generation != generation {
          slots[i] := EMPTY;
        }
        i := i + 1;
      }
      assert slots[..] == Collect(s).slots;
    }

    /** One collection round: the generation is bumped, every visible thread is recorded, then stale
        slots are cleared. */
    method CollectRound(vs: seq<Visit>)
      requires Valid()
      modifies this`generation, slots
      ensures Abs() == Round(hash, old(Abs()), vs)
    {
      NextGeneration();
      ghost var s := Abs();
      var n := 0;
      while n < |vs|
        invariant 0 <= n <= |vs|
        invariant RecordAll(hash, s, vs) == RecordAll(hash, Abs(), vs[n..])
      {
        var previous := RecordThread(vs[n]);
        n := n + 1;
      }
      ThreadHistoryGc();
    }
  }

  // ---------------------------------------------------------------- soundness over every run

  /** What was recorded last for exactly this thread instance, read off the history of recordings. */
  function LastRecorded(log: seq<Visit>, k: Key, starttime: nat): (r: Option<nat>) {
    if log == [] then None
    else
      var v := log[|log| - 1];
      if v.key == k && v.starttime == starttime then Some(v.ticks)
      else LastRecorded(log[..|log| - 1], k, starttime)
  }

  function Logged(h: Hash, s: State, log: seq<Visit>, v: Visit): (r: seq<Visit>) {
    if Record(h, s, v).previous.None? then log else log + [v]
  }

  /** Whether the recording lands in a slot that was empty, so that it finds no history. */
  predicate Misses(h: Hash, s: State, k: Key) {
    var d := Seek(s.slots, h(k), k, 0);
    d < TRACK && !Occupied(s.slots[Pos(h(k), d)])
  }

  predicate Fresh(s: State, i: nat)
    requires i < TRACK
  {
    Occupied(s.slots[i]) && s.slots[i].generation == s.generation
  }

  ghost predicate Precedes(h: Hash, s: State, i: nat, j: nat)
    requires i < TRACK && j < TRACK
  {
    Dist(h(s.slots[i].key), i) < Dist(h(s.slots[i].key), j)
  }

  /** Within a round a key may own two slots, but then exactly one is fresh and it comes first. */
  ghost predicate Newest(h: Hash, s: State) {
    forall i, j ::
      0 <= i < TRACK && 0 <= j < TRACK && i != j && Occupied(s.slots[i]) && s.slots[i].key == s.slots[j].key
      ==>
        (Fresh(s, i) && !Fresh(s, j) && Precedes(h, s, i, j)) ||
        (Fresh(s, j) && !Fresh(s, i) && Precedes(h, s, j, i))
  }

  /** No hole opens in front of a fresh slot before the round is over. */
  ghost predicate Unbroken(h: Hash, s: State) {
    forall i :: 0 <= i < TRACK && Fresh(s, i) ==> Reachable(h, s.slots, i)
  }

  ghost predicate Reachable(h: Hash, t: Table, i: nat)
    requires i < TRACK
  {
    forall p :: 0 <= p < Dist(h(t[i].key), i) ==> Occupied(t[Pos(h(t[i].key), p)])
  }

  ghost predicate First(h: Hash, s: State, i: nat)
    requires i < TRACK
  {
    Occupied(s.slots[i]) &&
    forall j :: 0 <= j < TRACK && j != i && s.slots[j].key == s.slots[i].key ==> Precedes(h, s, i, j)
  }

  /** The first slot of a key remembers the last recording of the thread instance it names. */
  ghost predicate Remembers(h: Hash, s: State, log: seq<Visit>) {
    forall i :: 0 <= i < TRACK && First(h, s, i) ==>
      LastRecorded(log, s.slots[i].key, s.slots[i].starttime) == Some(s.slots[i].ticks)
  }

  ghost predicate MidRound(h: Hash, s: State, log: seq<Visit>) {
    Newest(h, s) && Unbroken(h, s) && Remembers(h, s, log)
  }

  /** What each collection restores: one slot per key, all of the current generation. */
  ghost predicate Clean(s: State) {
    && s.generation < GENERATIONS
    && (forall i :: 0 <= i < TRACK && Occupied(s.slots[i]) ==> s.slots[i].generation == s.generation)
    && (forall i, j :: 0 <= i < j < TRACK && Occupied(s.slots[i]) ==> s.slots[i].key != s.slots[j].key)
  }

  ghost predicate Boundary(h: Hash, s: State, log: seq<Visit>) {
    Clean(s) && Remembers(h, s, log)
  }

  /** Whether the search stops at a slot of this very thread instance. */
  predicate Hits(h: Hash, s: State, v: Visit) {
    var d := Seek(s.slots, h(v.key), v.key, 0);
    d < TRACK && s.slots[Pos(h(v.key), d)].key == v.key && s.slots[Pos(h(v.key), d)].starttime == v.starttime
  }

  /** A lookup's answer never comes from another thread: no slot exactly when all slots hold other keys;
      otherwise the last value recorded for this instance, or zero when the search finds no slot of it. */
  ghost predicate Sound(h: Hash, s: State, log: seq<Visit>, v: Visit) {
    var previous := Record(h, s, v).previous;
    && (previous.None? <==> forall i :: 0 <= i < TRACK ==> Occupied(s.slots[i]) && s.slots[i].key != v.key)
    && (previous.Some? ==>
          previous == if Hits(h, s, v) then LastRecorded(log, v.key, v.starttime) else Some(0))
  }

  lemma {:induction false} RecordSound(h: Hash, s: State, log: seq<Visit>, v: Visit)
    requires MidRound(h, s, log) && v.key.pid != 0
    ensures Sound(h, s, log, v)
  {
    var start := h(v.key);
    var d := Seek(s.slots, start, v.key, 0);
    if d == TRACK {
      forall i | 0 <= i < TRACK ensures Occupied(s.slots[i]) && s.slots[i].key != v.key {
        assert !Stops(s.slots[Pos(start, Dist(start, i))], v.key);
      }
    } else {
      var i := Pos(start, d);
      if s.slots[i].key == v.key {
        FoundIsFirst(h, s, v.key, d);
      }
    }
  }

  lemma {:induction false} FoundIsFirst(h: Hash, s: State, k: Key, d: nat)
    requires k.pid != 0 && d == Seek(s.slots, h(k), k, 0) < TRACK
    requires s.slots[Pos(h(k), d)].key == k
    ensures First(h, s, Pos(h(k), d))
  {
    var i := Pos(h(k), d);
    forall j | 0 <= j < TRACK && j != i && s.slots[j].key == s.slots[i].key
      ensures Precedes(h, s, i, j)
    {
      assert Pos(h(k), Dist(h(k), j)) == j;
      PosInjective(h(k), d);
    }
  }

  lemma {:induction false} RecordKeepsMidRound(h: Hash, s: State, log: seq<Visit>, v: Visit)
    requires MidRound(h, s, log) && v.key.pid != 0
    ensures MidRound(h, Record(h, s, v).state, Logged(h, s, log, v))
  {
    var d := Seek(s.slots, h(v.key), v.key, 0);
    if d < TRACK {
      var i := Pos(h(v.key), d);
      var s' := Record(h, s, v).state;
      assert s'.slots == s.slots[i := Slot(v.key, v.starttime, v.ticks, s.generation)];
      PosInjective(h(v.key), d);
      StopIsAhead(h, s, v.key, d);
      RecordKeepsNewest(h, s, s', v, i);
      RecordKeepsUnbroken(h, s, s', v, i);
      RecordKeepsRemembers(h, s, s', log, v, i);
    }
  }

  /** The state after a recording that lands in slot `i`. */
  ghost predicate Lands(h: Hash, s: State, s': State, v: Visit, i: nat) {
    && i < TRACK && v.key.pid != 0
    && s'.generation == s.generation
    && s'.slots == s.slots[i := Slot(v.key, v.starttime, v.ticks, s.generation)]
    && Stops(s.slots[i], v.key)
    && Ahead(h, s, v.key, i)
  }

  /** Every other slot of `k` lies behind slot `i`, and every slot in front of `i` is occupied. */
  ghost predicate Ahead(h: Hash, s: State, k: Key, i: nat)
    requires i < TRACK
  {
    && (forall j :: 0 <= j < TRACK && j != i && s.slots[j].key == k ==> Dist(h(k), i) < Dist(h(k), j))
    && (forall p :: 0 <= p < Dist(h(k), i) ==> Occupied(s.slots[Pos(h(k), p)]))
  }

  lemma {:induction false} StopIsAhead(h: Hash, s: State, k: Key, d: nat)
    requires d == Seek(s.slots, h(k), k, 0) < TRACK
    ensures Ahead(h, s, k, Pos(h(k), d))
  {
    var i := Pos(h(k), d);
    PosInjective(h(k), d);
    forall j | 0 <= j < TRACK && j != i && s.slots[j].key == k
      ensures Dist(h(k), i) < Dist(h(k), j)
    {
      assert Pos(h(k), Dist(h(k), j)) == j;
    }
  }

  lemma {:induction false} RecordKeepsNewest(h: Hash, s: State, s': State, v: Visit, i: nat)
    requires Newest(h, s) && Unbroken(h, s) && Lands(h, s, s', v, i)
    ensures Newest(h, s')
  {
    forall j | 0 <= j < TRACK && j != i && s'.slots[j].key == v.key
      ensures !Fresh(s', j) && Precedes(h, s', i, j)
    {
      SkippedIsStale(h, s, v.key, i, j);
    }
    forall a, b |
      0 <= a < TRACK && 0 <= b < TRACK && a != b && Occupied(s'.slots[a]) && s'.slots[a].key == s'.slots[b].key
      ensures (Fresh(s', a) && !Fresh(s', b) && Precedes(h, s', a, b)) ||
              (Fresh(s', b) && !Fresh(s', a) && Precedes(h, s', b, a))
    {
      if a != i && b != i {
        assert s'.slots[a] == s.slots[a] && s'.slots[b] == s.slots[b];
      }
    }
  }

  /** The search never passes a fresh slot of its own key: it would have to stop at a hole before it. */
  lemma {:induction false} SkippedIsStale(h: Hash, s: State, k: Key, i: nat, j: nat)
    requires Newest(h, s) && Unbroken(h, s) && k.pid != 0
    requires i < TRACK && j < TRACK && i != j && Stops(s.slots[i], k) && Ahead(h, s, k, i)
    requires s.slots[j].key == k
    ensures !Fresh(s, j)
  {
    assert Fresh(s, j) ==> Reachable(h, s.slots, j);
    assert Reachable(h, s.slots, j) ==> Occupied(s.slots[Pos(h(k), Dist(h(k), i))]);
    assert s.slots[i].key == k && Fresh(s, j) ==> Precedes(h, s, j, i);
  }

  lemma {:induction false} RecordKeepsUnbroken(h: Hash, s: State, s': State, v: Visit, i: nat)
    requires Unbroken(h, s) && Lands(h, s, s', v, i)
    ensures Unbroken(h, s')
  {
    forall j | 0 <= j < TRACK && Fresh(s', j) ensures Reachable(h, s'.slots, j) {
      if j != i {
        assert Fresh(s, j) && Reachable(h, s.slots, j);
      }
    }
  }

  lemma {:induction false} RecordKeepsRemembers(h: Hash, s: State, s': State, log: seq<Visit>, v: Visit, i: nat)
    requires Remembers(h, s, log) && Lands(h, s, s', v, i)
    ensures Remembers(h, s', log + [v])
  {
    forall j | 0 <= j < TRACK && First(h, s', j)
      ensures LastRecorded(log + [v], s'.slots[j].key, s'.slots[j].starttime) == Some(s'.slots[j].ticks)
    {
      assert (log + [v])[..|log|] == log;
      if j != i {
        assert s'.slots[j].key == v.key ==> Precedes(h, s', j, i);
        assert First(h, s, j) by {
          forall m | 0 <= m < TRACK && m != j && s.slots[m].key == s.slots[j].key
            ensures Precedes(h, s, j, m)
          {
            if m != i {
              assert s'.slots[m] == s.slots[m];
              assert Precedes(h, s', j, m);
            }
          }
        }
      }
    }
  }

  lemma {:induction false} BeginRoundStarts(h: Hash, s: State, log: seq<Visit>)
    requires Boundary(h, s, log)
    ensures MidRound(h, BeginRound(s), log)
  {
    var s' := BeginRound(s);
    if s'.slots == s.slots {
      assert forall i :: 0 <= i < TRACK && First(h, s', i) ==> First(h, s, i);
    }
  }

  lemma {:induction false} CollectCleans(h: Hash, s: State)
    requires Newest(h, s) && s.generation < GENERATIONS
    ensures Clean(Collect(s))
    ensures forall i :: 0 <= i < TRACK && Occupied(Collect(s).slots[i]) ==>
              First(h, s, i) && Fresh(s, i) && Collect(s).slots[i] == s.slots[i]
  {
    assert forall i :: 0 <= i < TRACK ==> Collect(s).slots[i] == Swept(s, i);
  }

  lemma {:induction false} CollectRestores(h: Hash, s: State, log: seq<Visit>)
    requires MidRound(h, s, log) && s.generation < GENERATIONS
    ensures Boundary(h, Collect(s), log)
  {
    CollectCleans(h, s);
  }

  // ---- runs: any number of rounds, each with any recordings whatsoever

  function LogAll(h: Hash, s: State, log: seq<Visit>, vs: seq<Visit>): (r: seq<Visit>)
    decreases |vs|
  {
    if vs == [] then log else LogAll(h, Record(h, s, vs[0]).state, Logged(h, s, log, vs[0]), vs[1..])
  }

  ghost predicate AllSound(h: Hash, s: State, log: seq<Visit>, vs: seq<Visit>)
    decreases |vs|
  {
    vs == [] ||
    (Sound(h, s, log, vs[0]) && AllSound(h, Record(h, s, vs[0]).state, Logged(h, s, log, vs[0]), vs[1..]))
  }

  predicate Visits(vs: seq<Visit>) {
    forall i :: 0 <= i < |vs| ==> vs[i].key.pid != 0
  }

  lemma {:induction false} RecordingsSound(h: Hash, s: State, log: seq<Visit>, vs: seq<Visit>)
    requires MidRound(h, s, log) && Visits(vs)
    ensures AllSound(h, s, log, vs)
    ensures MidRound(h, RecordAll(h, s, vs), LogAll(h, s, log, vs))
    ensures RecordAll(h, s, vs).generation == s.generation
    decreases |vs|
  {
    if vs != [] {
      RecordSound(h, s, log, vs[0]);
      RecordKeepsMidRound(h, s, log, vs[0]);
      RecordingsSound(h, Record(h, s, vs[0]).state, Logged(h, s, log, vs[0]), vs[1..]);
    }
  }

  /** In the whole run every lookup is sound, and every collection leaves the table clean. */
  ghost predicate RunSound(h: Hash, s: State, log: seq<Visit>, rounds: seq<seq<Visit>>)
    decreases |rounds|
  {
    rounds == [] ||
    (var s' := Round(h, s, rounds[0]);
     var log' := LogAll(h, BeginRound(s), log, rounds[0]);
     AllSound(h, BeginRound(s), log, rounds[0]) && Clean(s') && RunSound(h, s', log', rounds[1..]))
  }

  lemma {:induction false} RunsAreSound(h: Hash, s: State, log: seq<Visit>, rounds: seq<seq<Visit>>)
    requires Boundary(h, s, log)
    requires forall r :: 0 <= r < |rounds| ==> Visits(rounds[r])
    ensures RunSound(h, s, log, rounds)
    decreases |rounds|
  {
    if rounds != [] {
      BeginRoundStarts(h, s, log);
      RecordingsSound(h, BeginRound(s), log, rounds[0]);
      var log' := LogAll(h, BeginRound(s), log, rounds[0]);
      CollectRestores(h, RecordAll(h, BeginRound(s), rounds[0]), log');
      RunsAreSound(h, Round(h, s, rounds[0]), log', rounds[1..]);
    }
  }

  /** From the zeroed table, whatever the hash, the threads and the order of the scans. */
  lemma {:induction false} EveryRunIsSound(h: Hash, rounds: seq<seq<Visit>>)
    requires forall r :: 0 <= r < |rounds| ==> Visits(rounds[r])
    ensures RunSound(h, INITIAL, [], rounds)
  {
    RunsAreSound(h, INITIAL, [], rounds);
  }
}
