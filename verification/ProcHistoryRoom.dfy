/** When the process history cannot run out of slots: a bound on what is in use and who is still to come. */
module ProcHistoryRoom {
  import opened Arith
  import opened Options
  import opened ProcHistory

  // ---------------------------------------------------------------- slots in use

  function InUse(slots: seq<Slot>): (n: nat)
    ensures n <= |slots|
  {
    if slots == [] then 0 else (if slots[0].pid != 0 then 1 else 0) + InUse(slots[1..])
  }

  lemma {:induction false} InUseUpdate(slots: seq<Slot>, i: nat, s: Slot)
    requires i < |slots| && s.pid != 0
    ensures InUse(slots[i := s]) == InUse(slots) + if slots[i].pid == 0 then 1 else 0
  {
    if i == 0 {
      assert slots[i := s][1..] == slots[1..];
    } else {
      assert slots[i := s][1..] == slots[1..][i - 1 := s];
      InUseUpdate(slots[1..], i - 1, s);
    }
  }

  lemma {:induction false} AllInUse(slots: seq<Slot>)
    ensures InUse(slots) == |slots| <==> forall i :: 0 <= i < |slots| ==> slots[i].pid != 0
  {
    if slots != [] {
      AllInUse(slots[1..]);
      assert forall i :: 1 <= i < |slots| ==> slots[i] == slots[1..][i - 1];
      assert forall i :: 0 <= i < |slots| - 1 ==> slots[1..][i] == slots[i + 1];
    }
  }

  // ---------------------------------------------------------------- who will need a slot

  /** The processes whose search does not reach a slot of their own. Being in the table is not enough: an empty slot in
      front ends the search. */
  function Newcomers(h: Hash, t: Table, pids: set<int>): (r: set<int>) {
    set p | p in pids && !FindsOwn(h, t, p)
  }

  predicate HasRoom(h: Hash, t: Table, pids: set<int>) {
    InUse(t) + |Newcomers(h, t, pids)| <= PROC_TRACK
  }

  lemma {:induction false} SeekStopsAt(t: Table, start: nat, pid: int, p: nat)
    requires start < PROC_TRACK && p <= PROC_TRACK && Stops(t[Probed(start, p)], pid)
    requires forall q :: 0 <= q < p ==> !Stops(t[Probed(start, q)], pid)
    ensures Seek(t, start, pid, 0) == p
  {
  }

  /** A store that overwrites no foreign slot takes no other process's slot out of its reach. */
  lemma {:induction false} StaysFound(h: Hash, t: Table, i: nat, s: Slot, pid: int)
    requires i < PROC_TRACK && s.pid != 0 && s.pid != pid && pid != 0 && (t[i].pid == 0 || t[i].pid == s.pid)
    requires FindsOwn(h, t, pid)
    ensures FindsOwn(h, t[i := s], pid)
  {
    SeekStopsAt(t[i := s], h(pid), pid, Seek(t, h(pid), pid, 0));
  }

  lemma {:induction false} FindsOwnAfterwards(h: Hash, t: Table, pid: int, ticks: nat)
    requires pid != 0 && Seek(t, h(pid), pid, 0) <= PROC_TRACK
    ensures var i := Probed(h(pid), Seek(t, h(pid), pid, 0));
            && Store(h, t, pid, ticks) == t[i := Slot(pid, ticks)] && (t[i].pid == 0 || t[i].pid == pid)
            && FindsOwn(h, t[i := Slot(pid, ticks)], pid) && (FindsOwn(h, t, pid) <==> t[i].pid != 0)
  {
    var p := Seek(t, h(pid), pid, 0);
    SeekStopsAt(t[Probed(h(pid), p) := Slot(pid, ticks)], h(pid), pid, p);
  }

  lemma {:induction false} FewerNewcomers(h: Hash, t: Table, pids: set<int>, i: nat, s: Slot)
    requires i < PROC_TRACK && s.pid in pids && s.pid != 0 && 0 !in pids && (t[i].pid == 0 || t[i].pid == s.pid)
    requires FindsOwn(h, t[i := s], s.pid)
    ensures |Newcomers(h, t[i := s], pids)| <= |Newcomers(h, t, pids)| - if FindsOwn(h, t, s.pid) then 0 else 1
  {
    var before, after := Newcomers(h, t, pids), Newcomers(h, t[i := s], pids);
    forall p | p in after ensures p in before - {s.pid} {
      if FindsOwn(h, t, p) {
        StaysFound(h, t, i, s, p);
      }
    }
    SubsetSize(after, before - {s.pid});
  }

  lemma {:induction false} SampleHasRoom(h: Hash, t: Table, pids: set<int>, pid: int)
    requires pid in pids && 0 !in pids && HasRoom(h, t, pids)
    ensures !Full(t, pid)
  {
    if Full(t, pid) {
      FullForNewcomer(h, t, pid);
      OneNewcomer(h, t, pids, pid);
      assert false;
    }
  }

  lemma {:induction false} OneNewcomer(h: Hash, t: Table, pids: set<int>, pid: int)
    requires pid in pids && !FindsOwn(h, t, pid)
    ensures |Newcomers(h, t, pids)| >= 1
  {
    assert pid in Newcomers(h, t, pids);
  }

  lemma {:induction false} FullForNewcomer(h: Hash, t: Table, pid: int)
    requires Full(t, pid) && pid != 0
    ensures InUse(t) == PROC_TRACK && !FindsOwn(h, t, pid)
  {
    OwnsItsSlotUnlessFull(h, t, pid);
    AllInUse(t);
  }

  lemma {:induction false} SampleKeepsRoom(h: Hash, t: Table, pids: set<int>, pid: int, ticks: nat)
    requires pid in pids && 0 !in pids && HasRoom(h, t, pids)
    ensures HasRoom(h, Store(h, t, pid, ticks), pids)
  {
    SampleHasRoom(h, t, pids, pid);
    OwnsItsSlotUnlessFull(h, t, pid);
    var i, s := Probed(h(pid), Seek(t, h(pid), pid, 0)), Slot(pid, ticks);
    FindsOwnAfterwards(h, t, pid, ticks);
    InUseUpdate(t, i, s);
    FewerNewcomers(h, t, pids, i, s);
  }

  // ---------------------------------------------------------------- scans

  /** Samples of listed processes only. */
  predicate SamplesOf(pids: set<int>, es: seq<Event>) {
    forall i :: 0 <= i < |es| ==> es[i].Sample? && es[i].pid in pids
  }

  lemma {:induction false} SamplesHaveRoom(h: Hash, t: Table, pids: set<int>, es: seq<Event>)
    requires SamplesOf(pids, es) && 0 !in pids && HasRoom(h, t, pids)
    ensures NeverFull(h, t, es)
    decreases |es|
  {
    if es != [] {
      SampleHasRoom(h, t, pids, es[0].pid);
      SampleKeepsRoom(h, t, pids, es[0].pid, es[0].ticks);
      SamplesHaveRoom(h, Store(h, t, es[0].pid, es[0].ticks), pids, es[1..]);
    }
  }

  /** A scan that lists some processes, and the samples of them until the next one. */
  datatype Round = Round(alive: set<int>, samples: seq<Event>)

  function Events(r: Round): (es: seq<Event>) {
    [Scan(r.alive)] + r.samples
  }

  /** The slots still in use after the scan and the listed processes that do not find their own make at most 64. */
  predicate RoundFits(h: Hash, t: Table, r: Round) {
    SamplesOf(r.alive, r.samples) && 0 !in r.alive && HasRoom(h, Sweep(t, r.alive), r.alive)
  }

  /** Then no sample until the next scan finds the table full, however often and in whatever order they come. */
  lemma {:induction false} RoundHasRoom(h: Hash, t: Table, r: Round)
    requires RoundFits(h, t, r)
    ensures NeverFull(h, t, Events(r))
  {
    assert Events(r)[1..] == r.samples;
    SamplesHaveRoom(h, Sweep(t, r.alive), r.alive, r.samples);
  }

  /** It is enough that slots in use and listed processes together number at most 64. */
  lemma {:induction false} FewEnough(h: Hash, t: Table, pids: set<int>)
    requires InUse(t) + |pids| <= PROC_TRACK
    ensures HasRoom(h, t, pids)
  {
    SubsetSize(Newcomers(h, t, pids), pids);
  }

  // ---------------------------------------------------------------- runs

  function AllEvents(rs: seq<Round>): (es: seq<Event>) {
    if rs == [] then [] else Events(rs[0]) + AllEvents(rs[1..])
  }

  predicate RoundsFit(h: Hash, t: Table, rs: seq<Round>)
    decreases |rs|
  {
    rs == [] || (RoundFits(h, t, rs[0]) && RoundsFit(h, Run(h, t, Events(rs[0])), rs[1..]))
  }

  lemma {:induction false} NeverFullTogether(h: Hash, t: Table, xs: seq<Event>, ys: seq<Event>)
    requires NeverFull(h, t, xs) && NeverFull(h, Run(h, t, xs), ys)
    ensures NeverFull(h, t, xs + ys)
    decreases |xs|
  {
    if xs == [] {
      assert xs + ys == ys;
    } else {
      assert (xs + ys)[1..] == xs[1..] + ys;
      NeverFullTogether(h, Apply(h, t, xs[0]), xs[1..], ys);
    }
  }

  lemma {:induction false} RoundsHaveRoom(h: Hash, t: Table, rs: seq<Round>)
    requires RoundsFit(h, t, rs)
    ensures NeverFull(h, t, AllEvents(rs))
    decreases |rs|
  {
    if rs != [] {
      RoundHasRoom(h, t, rs[0]);
      RoundsHaveRoom(h, Run(h, t, Events(rs[0])), rs[1..]);
      NeverFullTogether(h, t, Events(rs[0]), AllEvents(rs[1..]));
    }
  }

  lemma {:induction false} AllReal(h: Hash, t: Table, rs: seq<Round>)
    requires RoundsFit(h, t, rs)
    ensures forall i :: 0 <= i < |AllEvents(rs)| ==> Real(AllEvents(rs)[i])
    decreases |rs|
  {
    if rs != [] {
      AllReal(h, Run(h, t, Events(rs[0])), rs[1..]);
      assert forall i :: 0 <= i < |Events(rs[0])| ==> Real(Events(rs[0])[i]);
    }
  }

  /** So every run whose scans all meet that bound is sound: each lookup gives zero or the pid's own last ticks. */
  lemma {:induction false} RunsWithRoomAreSound(h: Hash, rs: seq<Round>)
    requires RoundsFit(h, seq(PROC_TRACK, _ => EMPTY), rs)
    ensures RunSound(h, seq(PROC_TRACK, _ => EMPTY), [], AllEvents(rs))
  {
    RoundsHaveRoom(h, seq(PROC_TRACK, _ => EMPTY), rs);
    AllReal(h, seq(PROC_TRACK, _ => EMPTY), rs);
    EveryRunIsSound(h, AllEvents(rs));
  }

  // ---------------------------------------------------------------- what is not enough

  lemma {:induction false} OneHole(slots: seq<Slot>, i: nat)
    requires i < |slots| && slots[i].pid == 0 && forall j :: 0 <= j < |slots| && j != i ==> slots[j].pid != 0
    ensures InUse(slots) == |slots| - 1
  {
    var s := Slot(1, 1);
    InUseUpdate(slots, i, s);
    AllInUse(slots[i := s]);
  }

  /** Counting only the processes that are not in the table would not do: 63 slots in use and one process to come make
      64, but when one that is in the table is sampled first, it moves into the hole in front of it, and the newcomer
      finds the table full. */
  lemma {:induction false} AbsentOnesAreNotEnough(h: Hash, c: nat, pids: seq<int>, alive: set<int>)
    requires Crowd(h, c, pids) && |pids| == PROC_TRACK + 1 && OthersLive(pids, alive)
    ensures var t := Sweep(Filled(c, pids, PROC_TRACK), alive);
            && InUse(t) == PROC_TRACK - 1 && (exists i :: 0 <= i < PROC_TRACK && t[i].pid == pids[1])
            && (forall i :: 0 <= i < PROC_TRACK ==> t[i].pid != pids[PROC_TRACK])
            && !NeverFull(h, t, [Sample(pids[1], 100), Sample(pids[PROC_TRACK], 1)])
  {
    var t := Sweep(Filled(c, pids, PROC_TRACK), alive);
    var a, b := Sample(pids[1], 100), Sample(pids[PROC_TRACK], 1);
    SweptFilled(h, c, pids, alive, t);
    OneHole(t, c);
    assert t[Place(c, 1)].pid == pids[1];
    MovedUp(h, c, pids, alive);
    SecondFindsFull(h, t, a, b);
  }

  lemma {:induction false} SecondFindsFull(h: Hash, t: Table, a: Event, b: Event)
    requires a.Sample? && b.Sample? && Full(Store(h, t, a.pid, a.ticks), b.pid)
    ensures !NeverFull(h, t, [a, b])
  {
    assert [a, b][1..] == [b];
  }
}
