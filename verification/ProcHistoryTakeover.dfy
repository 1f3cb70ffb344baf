/** How stale duplicates can give one process the whole process history. */
module ProcHistoryTakeover {
  import opened ProcHistory

  /** The last of the processes that filled the table. */
  function Last(pids: seq<int>): (pid: int)
    requires |pids| >= PROC_TRACK
  {
    pids[PROC_TRACK - 1]
  }

  /** The table when all but the first m processes and the last one have ended, one by one, and the last process has
      moved into the slot of each. */
  function TakenOver(c: nat, pids: seq<int>, m: nat): (t: Table)
    requires |pids| >= PROC_TRACK && m < PROC_TRACK
  {
    seq(PROC_TRACK, i requires 0 <= i < PROC_TRACK =>
      var n := Turn(c, i);
      if n < m then Slot(pids[n], 7 + n) else Slot(Last(pids), if n < PROC_TRACK - 1 then 200 - n else 7 + n))
  }

  /** Those first m and the last. */
  function StillAlive(pids: seq<int>, m: nat): (alive: set<int>)
    requires |pids| >= PROC_TRACK && m < PROC_TRACK
  {
    (set i | 0 <= i < m :: pids[i]) + {Last(pids)}
  }

  /** The process in front of the last one ends, a scan clears its slot, and the last one is sampled again. */
  function TakeOverEvents(pids: seq<int>, m: nat): (es: seq<Event>)
    requires |pids| >= PROC_TRACK && m < PROC_TRACK
    decreases PROC_TRACK - m
  {
    if m == PROC_TRACK - 1 then []
    else TakeOverEvents(pids, m + 1) + [Scan(StillAlive(pids, m))] + [Sample(Last(pids), 200 - m)]
  }

  lemma {:induction false} BeginsFull(h: Hash, c: nat, pids: seq<int>)
    requires Crowd(h, c, pids)
    ensures Filled(c, pids, PROC_TRACK) == TakenOver(c, pids, PROC_TRACK - 1)
  {
    forall i | 0 <= i < PROC_TRACK ensures Filled(c, pids, PROC_TRACK)[i] == TakenOver(c, pids, PROC_TRACK - 1)[i] {
      assert Turn(c, i) < PROC_TRACK;
    }
  }

  lemma {:induction false} OthersEnded(h: Hash, c: nat, pids: seq<int>, m: nat, n: nat)
    requires Crowd(h, c, pids) && m < PROC_TRACK - 1 && n < PROC_TRACK - 1
    ensures pids[n] in StillAlive(pids, m) <==> n < m
  {
    assert pids[n] != Last(pids);
    assert forall i :: 0 <= i < m && i != n ==> pids[i] != pids[n];
  }

  lemma {:induction false} SlotCleared(h: Hash, c: nat, pids: seq<int>, m: nat, t: Table)
    requires Crowd(h, c, pids) && m < PROC_TRACK - 1 && t == Sweep(TakenOver(c, pids, m + 1), StillAlive(pids, m))
    ensures t == TakenOver(c, pids, m)[Place(c, m) := EMPTY]
  {
    forall i | 0 <= i < PROC_TRACK ensures t[i] == TakenOver(c, pids, m)[Place(c, m) := EMPTY][i] {
      var n := Turn(c, i);
      assert i == Place(c, m) <==> n == m;
      if n < PROC_TRACK - 1 {
        OthersEnded(h, c, pids, m, n);
      }
    }
  }

  lemma {:induction false} MovesIn(h: Hash, c: nat, pids: seq<int>, m: nat, t: Table)
    requires Crowd(h, c, pids) && m < PROC_TRACK - 1 && t == TakenOver(c, pids, m)[Place(c, m) := EMPTY]
    ensures Store(h, t, Last(pids), 200 - m) == TakenOver(c, pids, m)
  {
    FilledBack(c, pids, m);
    if m == 0 {
      StoreAtHash(h, t, Last(pids), 200 - m);
    } else {
      HoleFound(h, c, pids, m, t);
      StoreAtHole(h, t, Last(pids), 200 - m, Place(c, m));
    }
  }

  lemma {:induction false} FilledBack(c: nat, pids: seq<int>, m: nat)
    requires |pids| >= PROC_TRACK && c < PROC_TRACK && m < PROC_TRACK - 1
    ensures var owned := TakenOver(c, pids, m);
            owned[Place(c, m) := EMPTY][Place(c, m) := Slot(Last(pids), 200 - m)] == owned
  {
    assert TakenOver(c, pids, m)[Place(c, m)] == Slot(Last(pids), 200 - m);
  }

  lemma {:induction false} HoleFound(h: Hash, c: nat, pids: seq<int>, m: nat, t: Table)
    requires Crowd(h, c, pids) && 0 < m < PROC_TRACK - 1 && t == TakenOver(c, pids, m)[Place(c, m) := EMPTY]
    ensures !Stops(t[c], Last(pids)) && t[Place(c, m)].pid == 0
    ensures forall j :: 0 <= j < Place(c, m) ==> !Stops(t[j], Last(pids))
  {
    forall j | 0 <= j < Place(c, m) || j == c ensures !Stops(t[j], Last(pids)) {
      InFront(h, c, pids, m, j);
    }
  }

  /** The slots searched before the hole belong to processes that are still alive. */
  lemma {:induction false} InFront(h: Hash, c: nat, pids: seq<int>, m: nat, j: nat)
    requires Crowd(h, c, pids) && 0 < m < PROC_TRACK - 1 && (j < Place(c, m) || j == c)
    ensures j != Place(c, m) && !Stops(TakenOver(c, pids, m)[j], Last(pids))
  {
    assert Turn(c, j) < m && pids[Turn(c, j)] != Last(pids);
  }

  lemma {:induction false} TakesOver(h: Hash, c: nat, pids: seq<int>, m: nat)
    requires Crowd(h, c, pids) && m < PROC_TRACK
    ensures Run(h, TakenOver(c, pids, PROC_TRACK - 1), TakeOverEvents(pids, m)) == TakenOver(c, pids, m)
    decreases PROC_TRACK - m
  {
    if m < PROC_TRACK - 1 {
      var t := TakesOneOver(h, c, pids, m);
      TakesOver(h, c, pids, m + 1);
      RunTwoMore(h, TakenOver(c, pids, PROC_TRACK - 1), TakeOverEvents(pids, m + 1), Scan(StillAlive(pids, m)),
                 Sample(Last(pids), 200 - m), TakenOver(c, pids, m + 1), t, TakenOver(c, pids, m));
    }
  }

  lemma {:induction false} TakesOneOver(h: Hash, c: nat, pids: seq<int>, m: nat) returns (t: Table)
    requires Crowd(h, c, pids) && m < PROC_TRACK - 1
    ensures Apply(h, TakenOver(c, pids, m + 1), Scan(StillAlive(pids, m))) == t
    ensures Apply(h, t, Sample(Last(pids), 200 - m)) == TakenOver(c, pids, m)
  {
    t := Sweep(TakenOver(c, pids, m + 1), StillAlive(pids, m));
    SlotCleared(h, c, pids, m, t);
    MovesIn(h, c, pids, m, t);
  }

  lemma {:induction false} RunTwoMore(
    h: Hash, t0: Table, es: seq<Event>, e1: Event, e2: Event, t: Table, t1: Table, t2: Table)
    requires Run(h, t0, es) == t && Apply(h, t, e1) == t1 && Apply(h, t1, e2) == t2
    ensures Run(h, t0, es + [e1] + [e2]) == t2
  {
    RunLeadsOn(h, t0, es, e1, t, t1);
    RunLeadsOn(h, t0, es + [e1], e2, t1, t2);
  }

  /** 64 processes fill the table, and then end one by one, each just in front of the last. */
  function OwningRun(pids: seq<int>): (es: seq<Event>)
    requires |pids| >= PROC_TRACK
  {
    FillEvents(pids, PROC_TRACK) + TakeOverEvents(pids, 0)
  }

  lemma {:induction false} OwningRunEnds(h: Hash, c: nat, pids: seq<int>)
    requires Crowd(h, c, pids)
    ensures Run(h, seq(PROC_TRACK, _ => EMPTY), OwningRun(pids)) == TakenOver(c, pids, 0)
  {
    var t0 := Filled(c, pids, 0);
    assert t0 == seq(PROC_TRACK, _ => EMPTY);
    FillsUp(h, c, pids, PROC_TRACK);
    BeginsFull(h, c, pids);
    TakesOver(h, c, pids, 0);
    RunConcat(h, t0, FillEvents(pids, PROC_TRACK), TakeOverEvents(pids, 0));
  }

  predicate Owns(owner: int, t: Table) {
    forall i :: 0 <= i < PROC_TRACK ==> t[i].pid == owner && t[i].ticks > 0
  }

  lemma {:induction false} LastOwnsAll(c: nat, pids: seq<int>)
    requires |pids| >= PROC_TRACK && c < PROC_TRACK
    ensures Owns(Last(pids), TakenOver(c, pids, 0)) && TakenOver(c, pids, 0)[c].ticks == 200
  {
  }

  lemma {:induction false} OwnedByOne(h: Hash, t: Table, owner: int, pid: int)
    requires pid != 0 && owner != 0 && pid != owner && Owns(owner, t)
    ensures Sweep(t, {owner, pid}) == t && Full(t, pid) && Previous(h, t, pid) == t[h(pid)].ticks > 0
  {
    FallsBack(h, t, pid);
  }

  /** Two live processes are enough for the fallback: after that run the last process owns all 64 slots, a scan that
      lists it and any other one keeps them all, and the other, whichever it is, reads the first one's ticks. */
  lemma {:induction false} TwoProcessesExhaustTheTable(h: Hash, c: nat, pids: seq<int>, pid: int)
    requires Crowd(h, c, pids) && pid != 0 && pid != Last(pids)
    ensures var t := Run(h, seq(PROC_TRACK, _ => EMPTY), OwningRun(pids));
            && Owns(Last(pids), t) && Sweep(t, {Last(pids), pid}) == t && Full(t, pid)
            && Previous(h, t, pid) == t[h(pid)].ticks > 0 && (h(pid) == c ==> Previous(h, t, pid) == 200)
  {
    OwningRunEnds(h, c, pids);
    LastOwnsAll(c, pids);
    OwnedByOne(h, TakenOver(c, pids, 0), Last(pids), pid);
  }
}
