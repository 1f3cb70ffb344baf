/** What the loads of a run of scans are, told by the readings alone: each is taken against the last earlier reading of
    the very same thread. */
module ThreadLoads {
  import opened Options
  import opened Arith
  import opened ThreadGroups
  import H = ThreadHistory
  import Steady = ThreadHistorySteady
  import Room = ThreadHistoryRoom

  /** One round of the agent: the rate at its time and the threads of all groups, in the order in which they are
      read. */
  datatype Scan = Scan(rate: Rate, readings: seq<Reading>)

  /** The history after a run of rounds. */
  function HistoryOf(h: H.Hash, start: H.State, scans: seq<Scan>): (s: H.State) {
    if scans == [] then start
    else
      var n := |scans| - 1;
      H.Collect(HistoryAfter(h, H.BeginRound(HistoryOf(h, start, scans[..n])), scans[n].readings, true))
  }

  /** The tasks of round i. */
  function TasksOf(h: H.Hash, start: H.State, scans: seq<Scan>, i: nat): (ts: seq<Task>)
    requires i < |scans|
    ensures |ts| == |scans[i].readings|
  {
    MeasureAll(h, H.BeginRound(HistoryOf(h, start, scans[..i])), scans[i].readings, scans[i].rate, true)
  }

  /** The readings whose threads had a history slot. */
  function Tracked(rs: seq<Reading>, ts: seq<Task>): (r: seq<Reading>)
    requires |rs| == |ts|
  {
    if rs == [] then []
    else
      var n := |rs| - 1;
      Tracked(rs[..n], ts[..n]) + if ts[n].tracked then [rs[n]] else []
  }

  /** All those of a run. */
  function TrackedOf(h: H.Hash, start: H.State, scans: seq<Scan>): (r: seq<Reading>) {
    if scans == [] then []
    else
      var n := |scans| - 1;
      TrackedOf(h, start, scans[..n]) + Tracked(scans[n].readings, TasksOf(h, start, scans, n))
  }

  /** All those before reading j of round i. */
  function Earlier(h: H.Hash, start: H.State, scans: seq<Scan>, i: nat, j: nat): (r: seq<Reading>)
    requires i < |scans| && j <= |scans[i].readings|
  {
    TrackedOf(h, start, scans[..i]) + Tracked(scans[i].readings[..j], TasksOf(h, start, scans, i)[..j])
  }

  // ---------------------------------------------------------------- what a load should be

  /** The same thread of the same process, and not a later one that got its ids. */
  predicate SameThread(a: Reading, b: Reading) {
    a.pid == b.pid && a.tid == b.tid && a.starttime == b.starttime
  }

  /** Reading n is the last of the thread that r is a reading of. */
  predicate LastOfThread(log: seq<Reading>, n: nat, r: Reading) {
    n < |log| && SameThread(log[n], r) && forall m :: n < m < |log| ==> !SameThread(log[m], r)
  }

  /** The load of r since an earlier reading of its thread: none if that had no ticks or more than r, and otherwise
      their difference, per thousand and processor, over the advance of all counters, in 64 bits. */
  predicate LoadBetween(cpu: nat, q: Reading, r: Reading, rate: Rate) {
    if q.ticks == 0 || q.ticks > r.ticks then cpu == 0
    else if rate.total == 0 then cpu == (r.ticks - q.ticks) * 1000 * rate.cpus % 0x1_0000_0000_0000_0000
    else cpu == (r.ticks - q.ticks) * 1000 * rate.cpus % 0x1_0000_0000_0000_0000 / rate.total
  }

  /** The load is taken since the last of the earlier readings of the thread. */
  predicate LoadSinceLast(t: Task, r: Reading, log: seq<Reading>, rate: Rate) {
    exists n :: 0 <= n < |log| && LastOfThread(log, n, r) && LoadBetween(t.cpu, log[n], r, rate)
  }

  predicate SameTask(t: Task, r: Reading) {
    t.pid == r.pid && t.tid == r.tid && t.name == r.name && t.state == r.state
  }

  /** Whether the search for the thread stops at a slot of it. */
  predicate Found(h: H.Hash, s: H.State, r: Reading) {
    H.Hits(h, s, H.Visit(H.Key(r.pid, r.tid), r.starttime, r.ticks))
  }

  // ---------------------------------------------------------------- readings and recordings

  function VisitsOf(rs: seq<Reading>): (vs: seq<H.Visit>)
    ensures |vs| == |rs| && forall i :: 0 <= i < |rs| ==> vs[i] == VisitOf(rs[i])
  {
    seq(|rs|, i requires 0 <= i < |rs| => VisitOf(rs[i]))
  }

  /** The last recording of a thread is that of its last reading. */
  lemma {:induction false} LastIsLast(log: seq<Reading>, r: Reading)
    ensures var last := H.LastRecorded(VisitsOf(log), H.Key(r.pid, r.tid), r.starttime);
            last.Some? ==> exists n :: 0 <= n < |log| && LastOfThread(log, n, r) && last == Some(log[n].ticks)
  {
    if log != [] {
      var n := |log| - 1;
      assert VisitsOf(log)[..n] == VisitsOf(log[..n]);
      LastIsLast(log[..n], r);
      if SameThread(log[n], r) {
        assert LastOfThread(log, n, r);
      } else {
        forall m: nat | LastOfThread(log[..n], m, r) ensures LastOfThread(log, m, r) && log[..n][m] == log[m] {
        }
      }
    }
  }

  lemma {:induction false} LoadSinceIs(q: Reading, r: Reading, rate: Rate)
    ensures LoadBetween(LoadSince(q.ticks, r.ticks, rate), q, r, rate)
  {
  }

  /** One reading, met with any history that remembers the readings before it. */
  lemma {:induction false} ReadingIsMeasured(h: H.Hash, s: H.State, log: seq<Reading>, r: Reading, rate: Rate)
    requires H.MidRound(h, s, VisitsOf(log)) && r.pid != 0
    ensures var t := Measure(h, s, r, rate, true);
            && SameTask(t, r)
            && (if Found(h, s, r) then LoadSinceLast(t, r, log, rate) else t.cpu == 0)
            && H.MidRound(h, H.Record(h, s, VisitOf(r)).state, VisitsOf(if t.tracked then log + [r] else log))
  {
    H.RecordKeepsMidRound(h, s, VisitsOf(log), VisitOf(r));
    assert VisitsOf(log + [r]) == VisitsOf(log) + [VisitOf(r)];
    H.RecordSound(h, s, VisitsOf(log), VisitOf(r));
    SoundMeansLoad(h, s, log, r, rate);
  }

  lemma {:induction false} SoundMeansLoad(h: H.Hash, s: H.State, log: seq<Reading>, r: Reading, rate: Rate)
    requires H.Sound(h, s, VisitsOf(log), VisitOf(r))
    ensures var t := Measure(h, s, r, rate, true);
            SameTask(t, r) && if Found(h, s, r) then LoadSinceLast(t, r, log, rate) else t.cpu == 0
  {
    var v := VisitOf(r);
    if Found(h, s, r) {
      LastIsLast(log, r);
      var n :| 0 <= n < |log| && LastOfThread(log, n, r)
        && H.LastRecorded(VisitsOf(log), v.key, v.starttime) == Some(log[n].ticks);
      LoadSinceIs(log[n], r, rate);
    }
  }

  /** The history after the first j readings of a round remembers the tracked ones. */
  lemma {:induction false} RoundRemembers(
    h: H.Hash, s: H.State, log: seq<Reading>, rs: seq<Reading>, rate: Rate, ts: seq<Task>)
    requires H.MidRound(h, s, VisitsOf(log)) && (forall i :: 0 <= i < |rs| ==> rs[i].pid != 0)
    requires ts == MeasureAll(h, s, rs, rate, true)
    ensures H.MidRound(h, HistoryAfter(h, s, rs, true), VisitsOf(log + Tracked(rs, ts)))
    ensures HistoryAfter(h, s, rs, true).generation == s.generation
  {
    if rs == [] {
      assert log + Tracked(rs, ts) == log;
    } else {
      var n := |rs| - 1;
      var before, ts' := rs[..n], MeasureAll(h, s, rs[..n], rate, true);
      assert ts[..n] == ts';
      RoundRemembers(h, s, log, before, rate, ts');
      var all := log + Tracked(before, ts');
      ReadingIsMeasured(h, HistoryAfter(h, s, before, true), all, rs[n], rate);
      assert log + Tracked(rs, ts) == if ts[n].tracked then all + [rs[n]] else all;
    }
  }

  lemma {:induction false} MeasuredAt(
    h: H.Hash, s: H.State, rs: seq<Reading>, rate: Rate, top: bool, j: nat, ts: seq<Task>, before: seq<Reading>)
    requires j < |rs| && ts == MeasureAll(h, s, rs, rate, top) && before == rs[..j]
    ensures ts[..j] == MeasureAll(h, s, before, rate, top)
    ensures ts[j] == Measure(h, HistoryAfter(h, s, before, top), rs[j], rate, top)
  {
    var n := |rs| - 1;
    MeasuredLast(h, s, rs, rs[..n], rate, top, ts);
    if j < n {
      FrontOfFront(rs, n, j);
      FrontOfFront(ts, n, j);
      MeasuredAt(h, s, rs[..n], rate, top, j, ts[..n], before);
    }
  }

  lemma {:induction false} FrontOfFront<T>(s: seq<T>, n: nat, j: nat)
    requires j < n <= |s|
    ensures s[..n][..j] == s[..j] && s[..n][j] == s[j]
  {
  }

  lemma {:induction false} MeasuredLast(
    h: H.Hash, s: H.State, rs: seq<Reading>, before: seq<Reading>, rate: Rate, top: bool, ts: seq<Task>)
    requires rs != [] && before == rs[..|rs| - 1] && ts == MeasureAll(h, s, rs, rate, top)
    ensures ts[..|before|] == MeasureAll(h, s, before, rate, top)
    ensures ts[|before|] == Measure(h, HistoryAfter(h, s, before, top), rs[|before|], rate, top)
  {
  }

  predicate RealPids(scans: seq<Scan>) {
    forall i, j :: 0 <= i < |scans| && 0 <= j < |scans[i].readings| ==> scans[i].readings[j].pid != 0
  }

  lemma {:induction false} RunRemembers(h: H.Hash, start: H.State, scans: seq<Scan>)
    requires H.Boundary(h, start, []) && RealPids(scans)
    ensures H.Boundary(h, HistoryOf(h, start, scans), VisitsOf(TrackedOf(h, start, scans)))
  {
    if scans == [] {
      assert VisitsOf([]) == [];
    } else {
      var n := |scans| - 1;
      var before, scan := scans[..n], scans[n];
      RunRemembers(h, start, before);
      var s, log := HistoryOf(h, start, before), TrackedOf(h, start, before);
      H.BeginRoundStarts(h, s, VisitsOf(log));
      RoundRemembers(h, H.BeginRound(s), log, scan.readings, scan.rate, TasksOf(h, start, scans, n));
      H.CollectRestores(h, HistoryAfter(h, H.BeginRound(s), scan.readings, true),
                        VisitsOf(TrackedOf(h, start, scans)));
    }
  }

  /** The history that reading j of round i is looked up in. */
  function HistoryAt(h: H.Hash, start: H.State, scans: seq<Scan>, i: nat, j: nat): (s: H.State)
    requires i < |scans| && j <= |scans[i].readings|
  {
    HistoryAfter(h, H.BeginRound(HistoryOf(h, start, scans[..i])), scans[i].readings[..j], true)
  }

  /** In every run of rounds from the zeroed history, with any hash, any threads and any order of reading: each task has
      the ids, name and state of its reading, and its load is taken since the last earlier reading of the very same
      thread, or is zero if the search finds no slot of that thread. */
  lemma {:induction false} LoadsComeFromTheLastReading(h: H.Hash, scans: seq<Scan>, i: nat, j: nat)
    requires RealPids(scans) && i < |scans| && j < |scans[i].readings|
    ensures var r, t := scans[i].readings[j], TasksOf(h, H.INITIAL, scans, i)[j];
            && SameTask(t, r)
            && if Found(h, HistoryAt(h, H.INITIAL, scans, i, j), r)
               then LoadSinceLast(t, r, Earlier(h, H.INITIAL, scans, i, j), scans[i].rate)
               else t.cpu == 0
  {
    LoadAt(h, H.INITIAL, scans, i, j);
  }

  lemma {:induction false} LoadAt(h: H.Hash, start: H.State, scans: seq<Scan>, i: nat, j: nat)
    requires H.Boundary(h, start, []) && RealPids(scans) && i < |scans| && j < |scans[i].readings|
    ensures var r, t := scans[i].readings[j], TasksOf(h, start, scans, i)[j];
            && SameTask(t, r)
            && if Found(h, HistoryAt(h, start, scans, i, j), r)
               then LoadSinceLast(t, r, Earlier(h, start, scans, i, j), scans[i].rate)
               else t.cpu == 0
  {
    var s, log := HistoryOf(h, start, scans[..i]), TrackedOf(h, start, scans[..i]);
    var rs, rate := scans[i].readings, scans[i].rate;
    RunRemembers(h, start, scans[..i]);
    H.BeginRoundStarts(h, s, VisitsOf(log));
    MeasuredAt(h, H.BeginRound(s), rs, rate, true, j, TasksOf(h, start, scans, i), rs[..j]);
    RoundRemembers(h, H.BeginRound(s), log, rs[..j], rate, TasksOf(h, start, scans, i)[..j]);
    ReadingIsMeasured(h, HistoryAt(h, start, scans, i, j), Earlier(h, start, scans, i, j), rs[j], rate);
  }

  /** Without a Top-N list nothing is looked up. */
  lemma {:induction false} NoLoadsOutsideTopMode(h: H.Hash, s: H.State, rs: seq<Reading>, rate: Rate, j: nat)
    requires j < |rs|
    ensures var t := MeasureAll(h, s, rs, rate, false)[j];
            SameTask(t, rs[j]) && t.cpu == 0 && t.tracked
    ensures HistoryAfter(h, s, rs, false) == s
  {
    MeasuredAt(h, s, rs, rate, false, j, MeasureAll(h, s, rs, rate, false), rs[..j]);
  }

  /** The groups of a round share the history: what one group's scan measures is its stretch of the round. */
  lemma {:induction false} GroupsShareTheRound(
    h: H.Hash, s: H.State, before: seq<Reading>, group: seq<Reading>, rate: Rate, top: bool)
    ensures HistoryAfter(h, s, before + group, top) == HistoryAfter(h, HistoryAfter(h, s, before, top), group, top)
    ensures MeasureAll(h, s, before + group, rate, top)
         == MeasureAll(h, s, before, rate, top) + MeasureAll(h, HistoryAfter(h, s, before, top), group, rate, top)
    decreases |group|
  {
    if group == [] {
      assert before + group == before;
    } else {
      var n := |group| - 1;
      GroupsShareTheRound(h, s, before, group[..n], rate, top);
      assert before + group == before + group[..n] + [group[n]] && group == group[..n] + [group[n]];
      OneMoreShared(h, s, before, group[..n], group[n], rate, top, HistoryAfter(h, s, before, top),
                    before + group, group);
    }
  }

  lemma {:induction false} OneMoreShared(
    h: H.Hash, s: H.State, before: seq<Reading>, group: seq<Reading>, r: Reading, rate: Rate, top: bool, mid: H.State,
    all: seq<Reading>, part: seq<Reading>)
    requires all == before + group + [r] && part == group + [r]
    requires HistoryAfter(h, s, before + group, top) == HistoryAfter(h, mid, group, top)
    requires MeasureAll(h, s, before + group, rate, top)
          == MeasureAll(h, s, before, rate, top) + MeasureAll(h, mid, group, rate, top)
    requires !top ==> mid == s
    ensures HistoryAfter(h, s, all, top) == HistoryAfter(h, mid, part, top)
    ensures MeasureAll(h, s, all, rate, top)
         == MeasureAll(h, s, before, rate, top) + MeasureAll(h, mid, part, rate, top)
  {
    MeasureNext(h, s, before + group, r, rate, top);
    MeasureNext(h, mid, group, r, rate, top);
  }

  // ---------------------------------------------------------------- an unchanged set of threads

  predicate IsReadingOf(th: Steady.Thread, r: Reading) {
    th.key.pid == r.pid && th.key.tid == r.tid && th.starttime == r.starttime
  }

  /** The round reads these threads, each at least once and in any order, and no others. */
  predicate ReadsAll(ths: seq<Steady.Thread>, rs: seq<Reading>) {
    && (forall j :: 0 <= j < |rs| ==> IsOneOf(ths, rs[j]))
    && (forall n :: 0 <= n < |ths| ==> IsRead(ths[n], rs))
  }

  predicate IsOneOf(ths: seq<Steady.Thread>, r: Reading) {
    exists n :: 0 <= n < |ths| && IsReadingOf(ths[n], r)
  }

  predicate IsRead(th: Steady.Thread, rs: seq<Reading>) {
    exists j :: 0 <= j < |rs| && IsReadingOf(th, rs[j])
  }

  lemma {:induction false} InList(ths: seq<Steady.Thread>, n: nat)
    requires n < |ths|
    ensures Steady.Listed(ths, ths[n])
  {
    if n > 0 {
      InList(ths[1..], n - 1);
    }
  }

  lemma {:induction false} ReadsAllScans(ths: seq<Steady.Thread>, rs: seq<Reading>)
    requires ReadsAll(ths, rs)
    ensures Steady.Scans(ths, VisitsOf(rs))
  {
    var vs := VisitsOf(rs);
    forall j | 0 <= j < |vs| ensures Steady.Among(ths, vs[j]) {
      assert IsOneOf(ths, rs[j]);
      ReadingIsAmong(ths, rs[j]);
    }
    forall n | 0 <= n < |ths| ensures Steady.Seen(vs, ths[n].key) {
      assert IsRead(ths[n], rs);
      ReadIsSeen(ths[n], rs);
    }
  }

  lemma {:induction false} ReadingIsAmong(ths: seq<Steady.Thread>, r: Reading)
    requires IsOneOf(ths, r)
    ensures Steady.Among(ths, VisitOf(r))
  {
    var n :| 0 <= n < |ths| && IsReadingOf(ths[n], r);
    InList(ths, n);
  }

  lemma {:induction false} ReadIsSeen(th: Steady.Thread, rs: seq<Reading>)
    requires IsRead(th, rs)
    ensures Steady.Seen(VisitsOf(rs), th.key)
  {
    var j :| 0 <= j < |rs| && IsReadingOf(th, rs[j]);
    SeenIn(VisitsOf(rs), j);
  }

  lemma {:induction false} SeenIn(vs: seq<H.Visit>, j: nat)
    requires j < |vs|
    ensures Steady.Seen(vs, vs[j].key)
  {
    if j > 0 {
      SeenIn(vs[1..], j - 1);
    }
  }

  lemma {:induction false} RecordAllNext(
    h: H.Hash, s: H.State, vs: seq<H.Visit>, v: H.Visit, all: seq<H.Visit>, before: H.State)
    requires all == vs + [v] && before == H.RecordAll(h, s, vs)
    ensures H.RecordAll(h, s, all) == H.Record(h, before, v).state
    decreases |vs|
  {
    if vs == [] {
      assert all[1..] == [];
    } else {
      assert all[1..] == vs[1..] + [v];
      RecordAllNext(h, H.Record(h, s, vs[0]).state, vs[1..], v, all[1..], before);
    }
  }

  lemma {:induction false} HistoryIsRecorded(h: H.Hash, s: H.State, rs: seq<Reading>, vs: seq<H.Visit>)
    requires vs == VisitsOf(rs)
    ensures HistoryAfter(h, s, rs, true) == H.RecordAll(h, s, vs)
  {
    if rs != [] {
      var n := |rs| - 1;
      var vs' := VisitsOf(rs[..n]);
      VisitsNext(rs, vs, n, vs');
      HistoryIsRecorded(h, s, rs[..n], vs');
      OneMoreRecorded(h, s, rs, vs, vs', VisitOf(rs[n]), n, HistoryAfter(h, s, rs[..n], true));
    }
  }

  lemma {:induction false} VisitsNext(rs: seq<Reading>, vs: seq<H.Visit>, n: nat, vs': seq<H.Visit>)
    requires n == |rs| - 1 && vs == VisitsOf(rs) && vs' == VisitsOf(rs[..n])
    ensures vs == vs' + [VisitOf(rs[n])]
  {
  }

  lemma {:induction false} OneMoreRecorded(
    h: H.Hash, s: H.State, rs: seq<Reading>, vs: seq<H.Visit>, vs': seq<H.Visit>, v: H.Visit, n: nat,
    before: H.State)
    requires n == |rs| - 1 && vs == vs' + [v] && v == VisitOf(rs[n])
    requires before == HistoryAfter(h, s, rs[..n], true) && before == H.RecordAll(h, s, vs')
    ensures HistoryAfter(h, s, rs, true) == H.RecordAll(h, s, vs)
  {
    RecordAllNext(h, s, vs', v, vs, before);
    HistorySnoc(h, s, rs, n, before);
  }

  lemma {:induction false} HistorySnoc(h: H.Hash, s: H.State, rs: seq<Reading>, n: nat, before: H.State)
    requires n == |rs| - 1 && before == HistoryAfter(h, s, rs[..n], true)
    ensures HistoryAfter(h, s, rs, true) == H.Record(h, before, VisitOf(rs[n])).state
  {
  }

  lemma {:induction false} HitAt(h: H.Hash, s: H.State, vs: seq<H.Visit>, j: nat)
    requires Steady.AllHit(h, s, vs) && j < |vs|
    ensures H.Hits(h, H.RecordAll(h, s, vs[..j]), vs[j])
    decreases |vs|
  {
    if j > 0 {
      HitAt(h, H.Record(h, s, vs[0]).state, vs[1..], j - 1);
      assert vs[..j][1..] == vs[1..][..j - 1];
    }
  }

  lemma {:induction false} SlotAt(h: H.Hash, s: H.State, vs: seq<H.Visit>, j: nat)
    requires Steady.NeverFull(h, s, vs) && j < |vs|
    ensures H.Record(h, H.RecordAll(h, s, vs[..j]), vs[j]).previous.Some?
    decreases |vs|
  {
    if j > 0 {
      SlotAt(h, H.Record(h, s, vs[0]).state, vs[1..], j - 1);
      assert vs[..j][1..] == vs[1..][..j - 1];
    }
  }

  lemma {:induction false} RoundIs(h: H.Hash, s: H.State, rs: seq<Reading>)
    ensures H.Collect(HistoryAfter(h, H.BeginRound(s), rs, true)) == H.Round(h, s, VisitsOf(rs))
  {
    HistoryIsRecorded(h, H.BeginRound(s), rs, VisitsOf(rs));
  }

  ghost predicate Straightened(h: H.Hash, s: H.State, ths: seq<Steady.Thread>) {
    Steady.Settled(h, s, ths) && Steady.AllStraight(h, s.slots, ths)
  }

  predicate Zeroed(s: H.State) {
    s.generation == 0 && forall i :: 0 <= i < H.TRACK ==> s.slots[i] == H.EMPTY
  }

  lemma {:induction false} FirstRoundStraightens(h: H.Hash, s: H.State, ths: seq<Steady.Thread>, vs: seq<H.Visit>)
    requires Zeroed(s) && Steady.Distinct(ths) && |ths| <= H.TRACK && Steady.Scans(ths, vs)
    ensures Steady.NeverFull(h, H.BeginRound(s), vs)
    ensures Straightened(h, H.Round(h, s, vs), ths) && H.Round(h, s, vs).generation == 1
  {
    var s1 := H.BeginRound(s);
    ZeroedStarts(h, s);
    Room.EmptyTableFills(h, s1, ths, vs);
    Steady.RoundSettles(h, s, ths, vs);
    FreshRoundIsStraight(h, s, s1, H.RecordAll(h, s1, vs), ths, vs);
  }

  lemma {:induction false} ZeroedStarts(h: H.Hash, s: H.State)
    requires Zeroed(s)
    ensures H.Clean(s) && H.BeginRound(s).generation == 1 && Steady.Ordered(h, H.BeginRound(s))
    ensures forall i :: 0 <= i < H.TRACK ==> !H.Occupied(H.BeginRound(s).slots[i])
  {
    Steady.CleanStartsOrdered(h, s);
  }

  lemma {:induction false} FreshRoundIsStraight(
    h: H.Hash, s: H.State, s1: H.State, s2: H.State, ths: seq<Steady.Thread>, vs: seq<H.Visit>)
    requires s1 == H.BeginRound(s) && s2 == H.RecordAll(h, s1, vs) && Steady.Distinct(ths)
    requires s2.generation == s1.generation && H.Unbroken(h, s2) && Room.AllFresh(s2)
    requires forall n :: 0 <= n < |ths| ==> Steady.FreshAt(h, s2, ths[n].key)
    ensures Steady.AllStraight(h, H.Round(h, s, vs).slots, ths) && H.Round(h, s, vs).generation == s1.generation
  {
    Room.FreshIsStraight(h, s2, ths);
  }

  lemma {:induction false} LaterRoundStraightens(h: H.Hash, s: H.State, ths: seq<Steady.Thread>, vs: seq<H.Visit>)
    requires Straightened(h, s, ths) && s.generation + 1 < H.GENERATIONS && Steady.Scans(ths, vs)
    ensures Steady.AllHit(h, H.BeginRound(s), vs)
    ensures Straightened(h, H.Round(h, s, vs), ths) && H.Round(h, s, vs).generation == s.generation + 1
  {
    Steady.StraightRound(h, s, ths, vs);
    Steady.RoundStaysSettled(h, s, ths, vs);
  }

  /** Every round reads exactly these threads, and there are slots and generations enough. */
  predicate Unchanging(ths: seq<Steady.Thread>, scans: seq<Scan>) {
    && Steady.Distinct(ths) && |ths| <= 1024 && |scans| < 0x1_0000_0000
    && forall i :: 0 <= i < |scans| ==> ReadsAll(ths, scans[i].readings)
  }

  /** The history before round n. */
  ghost predicate ReadyFor(h: H.Hash, s: H.State, ths: seq<Steady.Thread>, n: nat) {
    if n == 0 then Zeroed(s) else Straightened(h, s, ths) && s.generation == n
  }

  lemma {:induction false} StraightNext(
    h: H.Hash, s: H.State, ths: seq<Steady.Thread>, rs: seq<Reading>, n: nat, next: nat, s': H.State)
    requires ReadyFor(h, s, ths, n) && next == n + 1 < H.GENERATIONS
    requires Steady.Distinct(ths) && |ths| <= H.TRACK && ReadsAll(ths, rs)
    requires s' == H.Collect(HistoryAfter(h, H.BeginRound(s), rs, true))
    ensures ReadyFor(h, s', ths, next)
  {
    ReadsAllScans(ths, rs);
    RoundIs(h, s, rs);
    if n == 0 {
      FirstRoundStraightens(h, s, ths, VisitsOf(rs));
    } else {
      LaterRoundStraightens(h, s, ths, VisitsOf(rs));
    }
  }

  lemma {:induction false} HistoryNext(h: H.Hash, start: H.State, scans: seq<Scan>, i: nat)
    requires i < |scans|
    ensures HistoryOf(h, start, scans[..i + 1])
         == H.Collect(HistoryAfter(h, H.BeginRound(HistoryOf(h, start, scans[..i])), scans[i].readings, true))
  {
    assert scans[..i + 1][..i] == scans[..i];
  }

  lemma {:induction false} ReadyAt(
    h: H.Hash, start: H.State, ths: seq<Steady.Thread>, scans: seq<Scan>, i: nat, s: H.State)
    requires Zeroed(start) && Unchanging(ths, scans) && i <= |scans| && s == HistoryOf(h, start, scans[..i])
    ensures ReadyFor(h, s, ths, i)
  {
    if i > 0 {
      var before := HistoryOf(h, start, scans[..i - 1]);
      ReadyAt(h, start, ths, scans, i - 1, before);
      ReadyNext(h, start, ths, scans, i - 1, i, before, s);
    }
  }

  lemma {:induction false} ReadyNext(
    h: H.Hash, start: H.State, ths: seq<Steady.Thread>, scans: seq<Scan>, n: nat, next: nat, s: H.State, s': H.State)
    requires Unchanging(ths, scans) && n < |scans| && next == n + 1 && ReadyFor(h, s, ths, n)
    requires s == HistoryOf(h, start, scans[..n]) && s' == HistoryOf(h, start, scans[..next])
    ensures ReadyFor(h, s', ths, next)
  {
    HistoryNext(h, start, scans, n);
    assert ReadsAll(ths, scans[n].readings);
    StraightNext(h, s, ths, scans[n].readings, n, next, s');
  }

  lemma {:induction false} SlotInFirstRound(
    h: H.Hash, s: H.State, ths: seq<Steady.Thread>, rs: seq<Reading>, vs: seq<H.Visit>, j: nat)
    requires Zeroed(s) && j < |rs| && vs == VisitsOf(rs)
    requires Steady.Distinct(ths) && |ths| <= H.TRACK && Steady.Scans(ths, vs)
    ensures H.Record(h, H.RecordAll(h, H.BeginRound(s), vs[..j]), vs[j]).previous.Some?
  {
    FirstRoundStraightens(h, s, ths, vs);
    SlotAt(h, H.BeginRound(s), vs, j);
  }

  lemma {:induction false} SlotInLaterRound(
    h: H.Hash, s: H.State, ths: seq<Steady.Thread>, rs: seq<Reading>, vs: seq<H.Visit>, j: nat)
    requires Straightened(h, s, ths) && s.generation + 1 < H.GENERATIONS && j < |rs| && vs == VisitsOf(rs)
    requires Steady.Scans(ths, vs)
    ensures H.Hits(h, H.RecordAll(h, H.BeginRound(s), vs[..j]), vs[j])
  {
    LaterRoundStraightens(h, s, ths, vs);
    HitAt(h, H.BeginRound(s), vs, j);
  }

  lemma {:induction false} HitsAreTracked(h: H.Hash, s: H.State, r: Reading, rate: Rate)
    ensures Found(h, s, r) ==> H.Record(h, s, VisitOf(r)).previous.Some?
    ensures Measure(h, s, r, rate, true).tracked <==> H.Record(h, s, VisitOf(r)).previous.Some?
  {
  }

  lemma {:induction false} SlotInRound(
    h: H.Hash, s: H.State, ths: seq<Steady.Thread>, rs: seq<Reading>, rate: Rate, n: nat, j: nat, at: H.State)
    requires ReadyFor(h, s, ths, n) && n + 1 < H.GENERATIONS && j < |rs|
    requires Steady.Distinct(ths) && |ths| <= H.TRACK && ReadsAll(ths, rs)
    requires at == HistoryAfter(h, H.BeginRound(s), rs[..j], true)
    ensures Measure(h, at, rs[j], rate, true).tracked && (n > 0 ==> Found(h, at, rs[j]))
  {
    ReadsAllScans(ths, rs);
    AtIsRecorded(h, s, rs, VisitsOf(rs), j, at);
    SlotForVisit(h, s, ths, rs, VisitsOf(rs), n, j, at);
    HitsAreTracked(h, at, rs[j], rate);
  }

  lemma {:induction false} AtIsRecorded(
    h: H.Hash, s: H.State, rs: seq<Reading>, vs: seq<H.Visit>, j: nat, at: H.State)
    requires j < |rs| && vs == VisitsOf(rs) && at == HistoryAfter(h, H.BeginRound(s), rs[..j], true)
    ensures at == H.RecordAll(h, H.BeginRound(s), vs[..j])
  {
    HistoryIsRecorded(h, H.BeginRound(s), rs[..j], vs[..j]);
  }

  lemma {:induction false} SlotForVisit(
    h: H.Hash, s: H.State, ths: seq<Steady.Thread>, rs: seq<Reading>, vs: seq<H.Visit>, n: nat, j: nat, at: H.State)
    requires ReadyFor(h, s, ths, n) && n + 1 < H.GENERATIONS && j < |rs| && vs == VisitsOf(rs)
    requires Steady.Distinct(ths) && |ths| <= H.TRACK && Steady.Scans(ths, vs)
    requires at == H.RecordAll(h, H.BeginRound(s), vs[..j])
    ensures if n == 0 then H.Record(h, at, vs[j]).previous.Some? else H.Hits(h, at, vs[j])
  {
    if n == 0 {
      SlotInFirstRound(h, s, ths, rs, vs, j);
    } else {
      SlotInLaterRound(h, s, ths, rs, vs, j);
    }
  }

  lemma {:induction false} SlotForEach(
    h: H.Hash, start: H.State, ths: seq<Steady.Thread>, scans: seq<Scan>, i: nat, j: nat)
    requires Zeroed(start) && Unchanging(ths, scans) && i < |scans| && j < |scans[i].readings|
    ensures TasksOf(h, start, scans, i)[j].tracked
    ensures i > 0 ==> Found(h, HistoryAt(h, start, scans, i, j), scans[i].readings[j])
  {
    ReadyAt(h, start, ths, scans, i, HistoryOf(h, start, scans[..i]));
    assert ReadsAll(ths, scans[i].readings);
    SlotInRound(h, HistoryOf(h, start, scans[..i]), ths, scans[i].readings, scans[i].rate, i, j,
                HistoryAt(h, start, scans, i, j));
    TaskAt(h, start, scans, i, j);
  }

  lemma {:induction false} TaskAt(h: H.Hash, start: H.State, scans: seq<Scan>, i: nat, j: nat)
    requires i < |scans| && j < |scans[i].readings|
    ensures TasksOf(h, start, scans, i)[j]
         == Measure(h, HistoryAt(h, start, scans, i, j), scans[i].readings[j], scans[i].rate, true)
  {
    MeasuredAt(h, H.BeginRound(HistoryOf(h, start, scans[..i])), scans[i].readings, scans[i].rate, true, j,
               TasksOf(h, start, scans, i), scans[i].readings[..j]);
  }

  function Readings(scans: seq<Scan>): (rs: seq<Reading>) {
    if scans == [] then [] else Readings(scans[..|scans| - 1]) + scans[|scans| - 1].readings
  }

  lemma {:induction false} AllTracked(rs: seq<Reading>, ts: seq<Task>)
    requires |rs| == |ts| && forall j :: 0 <= j < |ts| ==> ts[j].tracked
    ensures Tracked(rs, ts) == rs
  {
    if rs != [] {
      var n := |rs| - 1;
      AllTracked(rs[..n], ts[..n]);
      assert rs == rs[..n] + [rs[n]];
    }
  }

  lemma {:induction false} RoundTracked(
    h: H.Hash, start: H.State, ths: seq<Steady.Thread>, scans: seq<Scan>, i: nat, j: nat)
    requires Zeroed(start) && Unchanging(ths, scans) && i < |scans| && j <= |scans[i].readings|
    ensures Tracked(scans[i].readings[..j], TasksOf(h, start, scans, i)[..j]) == scans[i].readings[..j]
  {
    var rs, ts := scans[i].readings, TasksOf(h, start, scans, i);
    forall m: nat | m < j ensures ts[..j][m].tracked {
      SlotForEach(h, start, ths, scans, i, m);
    }
    AllTracked(rs[..j], ts[..j]);
  }

  lemma {:induction false} WholeRoundTracked(
    h: H.Hash, start: H.State, ths: seq<Steady.Thread>, scans: seq<Scan>, i: nat)
    requires Zeroed(start) && Unchanging(ths, scans) && i < |scans|
    ensures Tracked(scans[i].readings, TasksOf(h, start, scans, i)) == scans[i].readings
  {
    var rs, ts := scans[i].readings, TasksOf(h, start, scans, i);
    RoundTracked(h, start, ths, scans, i, |rs|);
    assert rs[..|rs|] == rs && ts[..|rs|] == ts;
  }

  lemma {:induction false} TrackedOfNext(h: H.Hash, start: H.State, scans: seq<Scan>, n: nat, next: seq<Scan>)
    requires n < |scans| && next == scans[..n + 1]
    ensures TrackedOf(h, start, next)
         == TrackedOf(h, start, scans[..n]) + Tracked(scans[n].readings, TasksOf(h, start, scans, n))
  {
    assert next[..n] == scans[..n] && next[n] == scans[n];
  }

  lemma {:induction false} ReadingsNext(scans: seq<Scan>, n: nat, next: seq<Scan>)
    requires n < |scans| && next == scans[..n + 1]
    ensures Readings(next) == Readings(scans[..n]) + scans[n].readings
  {
    assert next[..n] == scans[..n];
  }

  lemma {:induction false} AllReadingsTracked(
    h: H.Hash, start: H.State, ths: seq<Steady.Thread>, scans: seq<Scan>, n: nat, before: seq<Scan>)
    requires Zeroed(start) && Unchanging(ths, scans) && n <= |scans| && before == scans[..n]
    ensures TrackedOf(h, start, before) == Readings(before)
  {
    if n > 0 {
      AllReadingsTracked(h, start, ths, scans, n - 1, scans[..n - 1]);
      TrackedOfNext(h, start, scans, n - 1, before);
      ReadingsNext(scans, n - 1, before);
      WholeRoundTracked(h, start, ths, scans, n - 1);
    }
  }

  /** With an unchanged set of up to 1024 threads, from the zeroed history on and before the generation wraps: no thread
      is ever without a slot, and from the second round on every load is taken since the last reading of that thread
      before it, whatever the hash and the order in which the threads are read. */
  lemma {:induction false} EveryLoadIsTaken(h: H.Hash, ths: seq<Steady.Thread>, scans: seq<Scan>, i: nat, j: nat)
    requires Unchanging(ths, scans) && i < |scans| && j < |scans[i].readings|
    ensures var r, t := scans[i].readings[j], TasksOf(h, H.INITIAL, scans, i)[j];
            && t.tracked && SameTask(t, r)
            && (i > 0 ==> LoadSinceLast(t, r, Readings(scans[..i]) + scans[i].readings[..j], scans[i].rate))
  {
    LoadTaken(h, H.INITIAL, ths, scans, i, j);
  }

  lemma {:induction false} LoadTaken(
    h: H.Hash, start: H.State, ths: seq<Steady.Thread>, scans: seq<Scan>, i: nat, j: nat)
    requires Zeroed(start) && H.Boundary(h, start, [])
    requires Unchanging(ths, scans) && i < |scans| && j < |scans[i].readings|
    ensures var r, t := scans[i].readings[j], TasksOf(h, start, scans, i)[j];
            && t.tracked && SameTask(t, r)
            && (i > 0 ==> LoadSinceLast(t, r, Readings(scans[..i]) + scans[i].readings[..j], scans[i].rate))
  {
    SlotForEach(h, start, ths, scans, i, j);
    RealWhenListed(ths, scans);
    LoadAt(h, start, scans, i, j);
    EarlierIsAll(h, start, ths, scans, i, j);
  }

  lemma {:induction false} RealWhenListed(ths: seq<Steady.Thread>, scans: seq<Scan>)
    requires Unchanging(ths, scans)
    ensures RealPids(scans)
  {
    forall i, j | 0 <= i < |scans| && 0 <= j < |scans[i].readings| ensures scans[i].readings[j].pid != 0 {
      assert ReadsAll(ths, scans[i].readings) && IsOneOf(ths, scans[i].readings[j]);
    }
  }

  lemma {:induction false} EarlierIsAll(
    h: H.Hash, start: H.State, ths: seq<Steady.Thread>, scans: seq<Scan>, i: nat, j: nat)
    requires Zeroed(start) && Unchanging(ths, scans) && i < |scans| && j < |scans[i].readings|
    ensures Earlier(h, start, scans, i, j) == Readings(scans[..i]) + scans[i].readings[..j]
  {
    AllReadingsTracked(h, start, ths, scans, i, scans[..i]);
    RoundTracked(h, start, ths, scans, i, j);
  }
}
