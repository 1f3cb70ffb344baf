/** The agent's per-process CPU history: PROC_TRACK slots, searched at the hash slot first and then from
    slot 0 on. Dead processes are cleared in place, and duplicates of live ones are left behind. */
module ProcHistory {
  import opened Options

  const PROC_TRACK: nat := 64

  datatype Slot = Slot(pid: int, ticks: nat)
  const EMPTY := Slot(0, 0)

  type Hash = h: int -> nat | forall p :: h(p) < PROC_TRACK witness p => 0
  type Table = t: seq<Slot> | |t| == PROC_TRACK witness seq(PROC_TRACK, _ => EMPTY)

  /** A step of the collector: a scan clears the slots of processes no longer listed, or a listed process is
      looked up and its ticks (never zero) are stored. */
  datatype Event = Scan(alive: set<int>) | Sample(pid: int, ticks: nat)

  // ---------------------------------------------------------------- probing

  /** Probe 0 looks at the hash slot, probe p > 0 at slot p - 1. */
  function Probed(start: nat, probe: nat): (i: nat)
    requires start < PROC_TRACK && probe <= PROC_TRACK
    ensures i < PROC_TRACK
  {
    if probe == 0 then start else probe - 1
  }

  /** The probe at which a search starting at `start` first sees slot `i`. */
  function Rank(start: nat, i: nat): (p: nat)
    requires start < PROC_TRACK && i < PROC_TRACK
    ensures p <= PROC_TRACK && Probed(start, p) == i
    ensures forall q :: 0 <= q < p ==> Probed(start, q) != i
  {
    if i == start then 0 else i + 1
  }

  predicate Stops(s: Slot, pid: int) {
    s.pid == pid || s.pid == 0
  }

  function Seek(t: Table, start: nat, pid: int, from: nat): (p: nat)
    requires start < PROC_TRACK && from <= PROC_TRACK + 1
    ensures from <= p <= PROC_TRACK + 1
    ensures forall q :: from <= q < p ==> !Stops(t[Probed(start, q)], pid)
    ensures p <= PROC_TRACK ==> Stops(t[Probed(start, p)], pid)
    decreases PROC_TRACK + 1 - from
  {
    if from > PROC_TRACK || Stops(t[Probed(start, from)], pid) then from else Seek(t, start, pid, from + 1)
  }

  lemma {:induction false} SeekIs(t: Table, start: nat, pid: int, p: nat)
    requires start < PROC_TRACK && 0 < p <= PROC_TRACK + 1 && !Stops(t[start], pid)
    requires forall j :: 0 <= j < p - 1 ==> !Stops(t[j], pid)
    requires p <= PROC_TRACK ==> Stops(t[p - 1], pid)
    ensures Seek(t, start, pid, 0) == p
  {
    assert forall q :: 0 <= q < p ==> !Stops(t[Probed(start, q)], pid);
    assert p <= PROC_TRACK ==> Stops(t[Probed(start, p)], pid);
  }

  /** No slot is free and none belongs to `pid`: the search then falls back on the hash slot. */
  predicate Full(t: Table, pid: int) {
    forall i :: 0 <= i < PROC_TRACK ==> !Stops(t[i], pid)
  }

  datatype Found = Found(index: nat, slots: Table)

  function FindSlot(h: Hash, t: Table, pid: int): (r: Found)
    ensures r.index < PROC_TRACK
  {
    var p := Seek(t, h(pid), pid, 0);
    if p > PROC_TRACK then Found(h(pid), t)
    else
      var i := Probed(h(pid), p);
      if t[i].pid == pid then Found(i, t) else Found(i, t[i := Slot(pid, 0)])
  }

  lemma {:induction false} ProbedFromZero(h: Hash, t: Table, pid: int, i: nat)
    requires i <= PROC_TRACK && !Stops(t[h(pid)], pid)
    requires forall j :: 0 <= j < i ==> !Stops(t[j], pid)
    requires i < PROC_TRACK ==> Stops(t[i], pid)
    ensures FindSlot(h, t, pid) ==
            if i == PROC_TRACK then Found(h(pid), t)
            else if t[i].pid == pid then Found(i, t) else Found(i, t[i := Slot(pid, 0)])
  {
    SeekIs(t, h(pid), pid, i + 1);
  }

  function Store(h: Hash, t: Table, pid: int, ticks: nat): (r: Table) {
    var f := FindSlot(h, t, pid);
    f.slots[f.index := f.slots[f.index].(ticks := ticks)]
  }

  /** The ticks found by the lookup that precedes the store. */
  function Previous(h: Hash, t: Table, pid: int): (n: nat) {
    var f := FindSlot(h, t, pid);
    f.slots[f.index].ticks
  }

  function Cleared(s: Slot, alive: set<int>): (r: Slot) {
    if s.pid != 0 && s.pid !in alive then EMPTY else s
  }

  function Sweep(t: Table, alive: set<int>): (r: Table) {
    seq(PROC_TRACK, i requires 0 <= i < PROC_TRACK => Cleared(t[i], alive))
  }

  function Apply(h: Hash, t: Table, e: Event): (r: Table) {
    match e
    case Scan(alive) => Sweep(t, alive)
    case Sample(pid, ticks) => Store(h, t, pid, ticks)
  }

  // ---------------------------------------------------------------- the table itself

  class ProcTable {
    const hash: Hash
    const slots: array<Slot>

    ghost predicate Valid() {
      slots.Length == PROC_TRACK
    }

    constructor (h: Hash)
      ensures Valid() && hash == h && fresh(slots)
      ensures slots[..] == seq(PROC_TRACK, _ => EMPTY)
    {
      hash := h;
      slots := new Slot[PROC_TRACK](_ => EMPTY);
      new;
      assert slots[..] == seq(PROC_TRACK, _ => EMPTY);
    }

    method FindSlotIndex(pid: int) returns (index: nat)
      requires Valid()
      modifies slots
      ensures index < PROC_TRACK
      ensures Found(index, slots[..]) == FindSlot(hash, old(slots[..]), pid)
    {
      var idx := hash(pid);
      ghost var t: Table := slots[..];
      if slots[idx].pid == pid {
        assert Seek(t, idx, pid, 0) == 0;
        return idx;
      }
      if slots[idx].pid == 0 {
        assert Seek(t, idx, pid, 0) == 0;
        slots[idx] := Slot(pid, 0);
        assert slots[..] == t[idx := Slot(pid, 0)];
        return idx;
      }
      index := ProbeFromZero(pid, idx);
    }

    /** The linear part of the search, once the hash slot is known to hold another pid. */
    method ProbeFromZero(pid: int, idx: nat) returns (index: nat)
      requires Valid() && idx == hash(pid) && !Stops(slots[idx], pid)
      modifies slots
      ensures index < PROC_TRACK
      ensures Found(index, slots[..]) == FindSlot(hash, old(slots[..]), pid)
    {
      ghost var t: Table := slots[..];
      var i := 0;
      while i < PROC_TRACK && slots[i].pid != pid && slots[i].pid != 0
        invariant 0 <= i <= PROC_TRACK
        invariant forall j :: 0 <= j < i ==> !Stops(slots[j], pid)
      {
        i := i + 1;
      }
      ProbedFromZero(hash, t, pid, i);
      if i == PROC_TRACK {
        return idx;
      }
      if slots[i].pid != pid {
        slots[i] := Slot(pid, 0);
        assert slots[..] == t[i := Slot(pid, 0)];
      }
      return i;
    }

    method SampleProcess(pid: int, ticks: nat) returns (previous: nat)
      requires Valid()
      modifies slots
      ensures previous == Previous(hash, old(slots[..]), pid)
      ensures slots[..] == Store(hash, old(slots[..]), pid, ticks)
    {
      var i := FindSlotIndex(pid);
      previous := slots[i].ticks;
      ghost var t: Table := slots[..];
      slots[i] := slots[i].(ticks := ticks);
      assert slots[..] == t[i := t[i].(ticks := ticks)];
    }

    /** `groups` are the pid lists of the watch groups. */
    method HistoryGc(groups: seq<seq<int>>)
      requires Valid()
      modifies slots
      ensures slots[..] == Sweep(old(slots[..]), set g, i | 0 <= g < |groups| && 0 <= i < |groups[g]| :: groups[g][i])
    {
      ghost var t: Table := slots[..];
      ghost var alivePids := set g, i | 0 <= g < |groups| && 0 <= i < |groups[g]| :: groups[g][i];
      var i := 0;
      while i < PROC_TRACK
        invariant 0 <= i <= PROC_TRACK
        invariant forall j :: 0 <= j < i ==> slots[j] == Cleared(t[j], alivePids)
        invariant forall j :: i <= j < PROC_TRACK ==> slots[j] == t[j]
      {
        if slots[i].pid != 0 {
          var alive := ListedIn(groups, slots[i].pid);
          if !alive {
            slots[i] := EMPTY;
          }
        }
        i := i + 1;
      }
      assert slots[..] == Sweep(t, alivePids);
    }

    static method ListedIn(groups: seq<seq<int>>, pid: int) returns (alive: bool)
      ensures alive <==> pid in (set g, i | 0 <= g < |groups| && 0 <= i < |groups[g]| :: groups[g][i])
    {
      alive := false;
      var g := 0;
      while g < |groups| && !alive
        invariant 0 <= g <= |groups|
        invariant alive <==> exists f, i :: 0 <= f < g && 0 <= i < |groups[f]| && groups[f][i] == pid
      {
        var i := 0;
        while i < |groups[g]|
          invariant 0 <= i <= |groups[g]|
          invariant !alive && pid !in groups[g][..i]
          invariant !exists f, j :: 0 <= f < g && 0 <= j < |groups[f]| && groups[f][j] == pid
        {
          if groups[g][i] == pid {
            alive := true;
            break;
          }
          i := i + 1;
        }
        g := g + 1;
      }
    }
  }

  // ---------------------------------------------------------------- soundness

  /** The last ticks stored for `pid`, read off the history of events. */
  function LastStored(log: seq<Event>, pid: int): (r: Option<nat>) {
    if log == [] then None
    else
      var e := log[|log| - 1];
      if e.Sample? && e.pid == pid then Some(e.ticks) else LastStored(log[..|log| - 1], pid)
  }

  ghost predicate First(h: Hash, t: Table, i: nat)
    requires i < PROC_TRACK
  {
    t[i].pid != 0 &&
    forall j :: 0 <= j < PROC_TRACK && j != i && t[j].pid == t[i].pid ==> Rank(h(t[i].pid), i) < Rank(h(t[i].pid), j)
  }

  /** Duplicates may be stale, but the slot of a pid that comes first in its own probe order never is. */
  ghost predicate FirstIsNewest(h: Hash, t: Table, log: seq<Event>) {
    forall i :: 0 <= i < PROC_TRACK && First(h, t, i) ==> LastStored(log, t[i].pid) == Some(t[i].ticks)
  }

  predicate FindsOwn(h: Hash, t: Table, pid: int) {
    var p := Seek(t, h(pid), pid, 0);
    p <= PROC_TRACK && t[Probed(h(pid), p)].pid == pid
  }

  /** What a lookup may answer: the last ticks stored for this very pid, or zero when its search finds no slot of it. */
  ghost predicate Sound(h: Hash, t: Table, log: seq<Event>, pid: int) {
    Some(Previous(h, t, pid)) == if FindsOwn(h, t, pid) then LastStored(log, pid) else Some(0)
  }

  /** The slot a lookup returns belongs to its own pid exactly when the table is not full of others. */
  lemma {:induction false} OwnsItsSlotUnlessFull(h: Hash, t: Table, pid: int)
    requires pid != 0
    ensures FindSlot(h, t, pid).slots[FindSlot(h, t, pid).index].pid == pid <==> !Full(t, pid)
    ensures Full(t, pid) <==> Seek(t, h(pid), pid, 0) == PROC_TRACK + 1
  {
    var p := Seek(t, h(pid), pid, 0);
    if p > PROC_TRACK {
      forall i | 0 <= i < PROC_TRACK ensures !Stops(t[i], pid) {
        assert Probed(h(pid), Rank(h(pid), i)) == i;
      }
    }
  }

  lemma {:induction false} SampleSound(h: Hash, t: Table, log: seq<Event>, pid: int)
    requires pid != 0 && FirstIsNewest(h, t, log) && !Full(t, pid)
    ensures Sound(h, t, log, pid)
  {
    OwnsItsSlotUnlessFull(h, t, pid);
    var i := Probed(h(pid), Seek(t, h(pid), pid, 0));
    StopIsFirst(h, t, pid);
  }

  /** Where the search for `pid` stops, every slot of `pid` lies behind. */
  lemma {:induction false} StopIsFirst(h: Hash, t: Table, pid: int)
    requires Seek(t, h(pid), pid, 0) <= PROC_TRACK
    ensures var i := Probed(h(pid), Seek(t, h(pid), pid, 0));
            forall j :: 0 <= j < PROC_TRACK && j != i && t[j].pid == pid ==> Rank(h(pid), i) < Rank(h(pid), j)
  {
    var p := Seek(t, h(pid), pid, 0);
    var i := Probed(h(pid), p);
    forall j | 0 <= j < PROC_TRACK && j != i && t[j].pid == pid ensures Rank(h(pid), i) < Rank(h(pid), j) {
      assert Probed(h(pid), Rank(h(pid), j)) == j;
    }
  }

  lemma {:induction false} SampleKeeps(h: Hash, t: Table, log: seq<Event>, pid: int, ticks: nat)
    requires pid != 0 && FirstIsNewest(h, t, log) && !Full(t, pid)
    ensures FirstIsNewest(h, Store(h, t, pid, ticks), log + [Sample(pid, ticks)])
  {
    OwnsItsSlotUnlessFull(h, t, pid);
    StopIsFirst(h, t, pid);
    var i := Probed(h(pid), Seek(t, h(pid), pid, 0));
    var t' := Store(h, t, pid, ticks);
    var log' := log + [Sample(pid, ticks)];
    assert t' == t[i := Slot(pid, ticks)] && log'[..|log|] == log;
    forall j | 0 <= j < PROC_TRACK && First(h, t', j)
      ensures LastStored(log', t'[j].pid) == Some(t'[j].ticks)
    {
      if j != i {
        assert t'[i].pid == pid;
        OtherStaysFirst(h, t, i, Slot(pid, ticks), j);
      }
    }
  }

  lemma {:induction false} OtherStaysFirst(h: Hash, t: Table, i: nat, s: Slot, j: nat)
    requires i < PROC_TRACK && j < PROC_TRACK && i != j && First(h, t[i := s], j) && t[i].pid != t[j].pid
    ensures First(h, t, j)
  {
    var t' := t[i := s];
    forall m | 0 <= m < PROC_TRACK && m != j && t[m].pid == t[j].pid
      ensures Rank(h(t[j].pid), j) < Rank(h(t[j].pid), m)
    {
      assert t'[m] == t[m];
    }
  }

  /** A scan clears all slots of a pid or none of them. */
  lemma {:induction false} ScanKeeps(h: Hash, t: Table, log: seq<Event>, alive: set<int>)
    requires FirstIsNewest(h, t, log)
    ensures FirstIsNewest(h, Sweep(t, alive), log + [Scan(alive)])
  {
    var t' := Sweep(t, alive);
    assert (log + [Scan(alive)])[..|log|] == log;
    forall j | 0 <= j < PROC_TRACK && First(h, t', j) ensures First(h, t, j) && t'[j] == t[j] {
      assert forall m :: 0 <= m < PROC_TRACK ==> t'[m] == Cleared(t[m], alive);
    }
  }

  // ---- runs

  predicate Real(e: Event) {
    e.Sample? ==> e.pid != 0
  }

  predicate NeverFull(h: Hash, t: Table, es: seq<Event>)
    decreases |es|
  {
    es == [] || ((es[0].Sample? ==> !Full(t, es[0].pid)) && NeverFull(h, Apply(h, t, es[0]), es[1..]))
  }

  ghost predicate RunSound(h: Hash, t: Table, log: seq<Event>, es: seq<Event>)
    decreases |es|
  {
    es == [] ||
    ((es[0].Sample? ==> Sound(h, t, log, es[0].pid)) && RunSound(h, Apply(h, t, es[0]), log + [es[0]], es[1..]))
  }

  lemma {:induction false} RunsAreSound(h: Hash, t: Table, log: seq<Event>, es: seq<Event>)
    requires FirstIsNewest(h, t, log) && NeverFull(h, t, es)
    requires forall i :: 0 <= i < |es| ==> Real(es[i])
    ensures RunSound(h, t, log, es)
    decreases |es|
  {
    if es != [] {
      assert Real(es[0]);
      match es[0] {
        case Scan(alive) =>
          ScanKeeps(h, t, log, alive);
        case Sample(pid, ticks) =>
          SampleSound(h, t, log, pid);
          SampleKeeps(h, t, log, pid, ticks);
      }
      RunsAreSound(h, Apply(h, t, es[0]), log + [es[0]], es[1..]);
    }
  }

  /** Every run from the zeroed table in which the fallback on a foreign slot is never taken. */
  lemma {:induction false} EveryRunIsSound(h: Hash, es: seq<Event>)
    requires NeverFull(h, seq(PROC_TRACK, _ => EMPTY), es)
    requires forall i :: 0 <= i < |es| ==> Real(es[i])
    ensures RunSound(h, seq(PROC_TRACK, _ => EMPTY), [], es)
  {
    RunsAreSound(h, seq(PROC_TRACK, _ => EMPTY), [], es);
  }

  // ---- the fallback can be taken with no more live processes than slots

  function Run(h: Hash, t: Table, es: seq<Event>): (r: Table)
    decreases |es|
  {
    if es == [] then t else Run(h, Apply(h, t, es[0]), es[1..])
  }

  lemma {:induction false} RunConcat(h: Hash, t: Table, xs: seq<Event>, ys: seq<Event>)
    ensures Run(h, t, xs + ys) == Run(h, Run(h, t, xs), ys)
    decreases |xs|
  {
    if xs == [] {
      assert xs + ys == ys;
    } else {
      assert (xs + ys)[1..] == xs[1..] + ys;
      RunConcat(h, Apply(h, t, xs[0]), xs[1..], ys);
    }
  }

  /** Processes that share the hash slot `c` fill it first and then slots 0, 1, ...: which of them slot `i` gets. */
  function Turn(c: nat, i: nat): (n: nat) {
    if i == c then 0 else if i < c then i + 1 else i
  }

  /** And the slot that the n-th of them gets. */
  function Place(c: nat, n: nat): (i: nat)
    requires c < PROC_TRACK && n < PROC_TRACK
    ensures i < PROC_TRACK && Turn(c, i) == n && forall j :: 0 <= j < i ==> Turn(c, j) < n || n == 0
  {
    if n == 0 then c else if n - 1 < c then n - 1 else n
  }

  function Filled(c: nat, pids: seq<int>, n: nat): (t: Table)
    requires n <= |pids|
  {
    seq(PROC_TRACK, i requires 0 <= i < PROC_TRACK =>
      if Turn(c, i) < n then Slot(pids[Turn(c, i)], 7 + Turn(c, i)) else EMPTY)
  }

  function FillEvents(pids: seq<int>, n: nat): (es: seq<Event>)
    requires n <= |pids|
    ensures |es| == n && forall i :: 0 <= i < n ==> es[i] == Sample(pids[i], 7 + i)
  {
    seq(n, i requires 0 <= i < n => Sample(pids[i], 7 + i))
  }

  /** At least as many processes as there are slots, all different and all with the same hash slot. */
  predicate Crowd(h: Hash, c: nat, pids: seq<int>) {
    && |pids| >= PROC_TRACK && c < PROC_TRACK
    && (forall i :: 0 <= i < |pids| ==> pids[i] != 0 && h(pids[i]) == c)
    && (forall i, j :: 0 <= i < j < |pids| ==> pids[i] != pids[j])
  }

  lemma {:induction false} FillStep(h: Hash, c: nat, pids: seq<int>, n: nat)
    requires Crowd(h, c, pids) && n < PROC_TRACK
    ensures Store(h, Filled(c, pids, n), pids[n], 7 + n) == Filled(c, pids, n + 1)
  {
    FilledNext(c, pids, n);
    if n == 0 {
      StoreAtHash(h, Filled(c, pids, n), pids[n], 7 + n);
    } else {
      HoleAtPlace(h, c, pids, n, Filled(c, pids, n));
      StoreAtHole(h, Filled(c, pids, n), pids[n], 7 + n, Place(c, n));
    }
  }

  lemma {:induction false} HoleAtPlace(h: Hash, c: nat, pids: seq<int>, n: nat, t: Table)
    requires Crowd(h, c, pids) && 0 < n < PROC_TRACK && t == Filled(c, pids, n)
    ensures !Stops(t[c], pids[n]) && t[Place(c, n)].pid == 0
    ensures forall j :: 0 <= j < Place(c, n) ==> !Stops(t[j], pids[n])
  {
    assert Turn(c, c) == 0 && pids[0] != pids[n];
    forall j | 0 <= j < Place(c, n) ensures !Stops(t[j], pids[n]) {
      assert Turn(c, j) < n && pids[Turn(c, j)] != pids[n];
    }
  }

  lemma {:induction false} FilledNext(c: nat, pids: seq<int>, n: nat)
    requires c < PROC_TRACK && n < PROC_TRACK && n < |pids|
    ensures Filled(c, pids, n)[Place(c, n) := Slot(pids[n], 7 + n)] == Filled(c, pids, n + 1)
  {
  }

  lemma {:induction false} StoreAtHole(h: Hash, t: Table, pid: int, ticks: nat, i: nat)
    requires pid != 0 && i < PROC_TRACK && !Stops(t[h(pid)], pid) && t[i].pid == 0
    requires forall j :: 0 <= j < i ==> !Stops(t[j], pid)
    ensures Store(h, t, pid, ticks) == t[i := Slot(pid, ticks)]
  {
    ProbedFromZero(h, t, pid, i);
  }

  lemma {:induction false} StoreAtHash(h: Hash, t: Table, pid: int, ticks: nat)
    ensures t[h(pid)].pid == 0 ==> Store(h, t, pid, ticks) == t[h(pid) := Slot(pid, ticks)]
  {
    assert t[h(pid)].pid == 0 ==> Seek(t, h(pid), pid, 0) == 0;
  }

  lemma {:induction false} RunLeadsOn(h: Hash, t0: Table, es: seq<Event>, e: Event, t: Table, t': Table)
    requires Run(h, t0, es) == t && Apply(h, t, e) == t'
    ensures Run(h, t0, es + [e]) == t'
  {
    RunNext(h, t0, es, e);
  }

  lemma {:induction false} FillEventsNext(pids: seq<int>, n: nat)
    requires n < |pids|
    ensures FillEvents(pids, n + 1) == FillEvents(pids, n) + [Sample(pids[n], 7 + n)]
  {
  }

  lemma {:induction false} FillsUp(h: Hash, c: nat, pids: seq<int>, n: nat)
    requires Crowd(h, c, pids) && n <= PROC_TRACK
    ensures Run(h, Filled(c, pids, 0), FillEvents(pids, n)) == Filled(c, pids, n)
  {
    if n > 0 {
      FillsUp(h, c, pids, n - 1);
      FillStep(h, c, pids, n - 1);
      var es, e := FillEvents(pids, n - 1), Sample(pids[n - 1], 7 + (n - 1));
      FillEventsNext(pids, n - 1);
      RunLeadsOn(h, Filled(c, pids, 0), es, e, Filled(c, pids, n - 1), Filled(c, pids, n));
    }
  }

  lemma {:induction false} RunNext(h: Hash, t: Table, es: seq<Event>, e: Event)
    ensures Run(h, t, es + [e]) == Apply(h, Run(h, t, es), e)
  {
    RunConcat(h, t, es, [e]);
    assert [e][1..] == [];
  }

  /** 64 processes fill the table, the first one ends, and the second moves up into its slot, leaving its old slot
      behind. */
  function ExhaustingRun(pids: seq<int>, alive: set<int>): (es: seq<Event>)
    requires |pids| == PROC_TRACK + 1
  {
    FillEvents(pids, PROC_TRACK) + [Scan(alive)] + [Sample(pids[1], 100)]
  }

  /** All but the first of the processes are alive. */
  predicate OthersLive(pids: seq<int>, alive: set<int>) {
    forall i :: 0 <= i < |pids| ==> (pids[i] in alive <==> i > 0)
  }

  /** No more live processes than slots do not keep the fallback away: after that run, of the 64 live processes the last
      one finds only foreign slots, and reads the ticks of the second. */
  lemma {:induction false} DuplicatesExhaustTheTable(h: Hash, c: nat, pids: seq<int>, alive: set<int>)
    requires Crowd(h, c, pids) && |pids| == PROC_TRACK + 1 && OthersLive(pids, alive)
    ensures var t := Run(h, seq(PROC_TRACK, _ => EMPTY), ExhaustingRun(pids, alive));
            && (forall i :: 0 <= i < PROC_TRACK ==> t[i].pid in alive)
            && Full(t, pids[PROC_TRACK]) && Previous(h, t, pids[PROC_TRACK]) == 100
  {
    var t0 := Filled(c, pids, 0);
    assert t0 == seq(PROC_TRACK, _ => EMPTY);
    var scan, last := Scan(alive), Sample(pids[1], 100);
    var es := FillEvents(pids, PROC_TRACK);
    FillsUp(h, c, pids, PROC_TRACK);
    RunNext(h, t0, es, scan);
    RunNext(h, t0, es + [scan], last);
    MovedUp(h, c, pids, alive);
  }

  lemma {:induction false} MovedUp(h: Hash, c: nat, pids: seq<int>, alive: set<int>)
    requires Crowd(h, c, pids) && |pids| == PROC_TRACK + 1 && OthersLive(pids, alive)
    ensures var t := Store(h, Sweep(Filled(c, pids, PROC_TRACK), alive), pids[1], 100);
            && (forall i :: 0 <= i < PROC_TRACK ==> t[i].pid in alive)
            && Full(t, pids[PROC_TRACK]) && Previous(h, t, pids[PROC_TRACK]) == 100
  {
    var t1 := Sweep(Filled(c, pids, PROC_TRACK), alive);
    SweptFilled(h, c, pids, alive, t1);
    StoreAtHash(h, t1, pids[1], 100);
    var t := t1[c := Slot(pids[1], 100)];
    forall i | 0 <= i < PROC_TRACK ensures t[i].pid in alive && !Stops(t[i], pids[PROC_TRACK]) {
      var n := if i == c then 1 else Turn(c, i);
      assert t[i].pid == pids[n] && pids[n] != pids[PROC_TRACK];
    }
    FallsBack(h, t, pids[PROC_TRACK]);
  }

  lemma {:induction false} SweptFilled(h: Hash, c: nat, pids: seq<int>, alive: set<int>, t: Table)
    requires Crowd(h, c, pids) && OthersLive(pids, alive) && t == Sweep(Filled(c, pids, PROC_TRACK), alive)
    ensures t[c] == EMPTY
    ensures forall i :: 0 <= i < PROC_TRACK && i != c ==> 0 < Turn(c, i) < PROC_TRACK && t[i].pid == pids[Turn(c, i)]
  {
    forall i | 0 <= i < PROC_TRACK ensures t[i] == Cleared(Filled(c, pids, PROC_TRACK)[i], alive) {
    }
  }

  lemma {:induction false} FallsBack(h: Hash, t: Table, pid: int)
    requires Full(t, pid)
    ensures Previous(h, t, pid) == t[h(pid)].ticks
  {
  }
}
