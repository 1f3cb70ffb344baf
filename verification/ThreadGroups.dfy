/** Collecting one watched group's threads: counting them by state and folding them into candidates. */
module ThreadGroups {
  import opened Options
  import opened Arith
  import opened Bytes
  import H = ThreadHistory

  const SCAN_LIMIT: nat := 512
  const CANDIDATES: nat := 512
  const PID_LIMIT: nat := 64

  /** A thread's stat line. */
  datatype Reading = Reading(pid: int, tid: int, name: seq<byte>, state: char, starttime: nat, ticks: nat)

  /** A thread with its load; `tracked` says that the history had a slot for it. */
  datatype Task = Task(pid: int, tid: int, name: seq<byte>, state: char, cpu: nat, tracked: bool)

  datatype Candidate = Candidate(name: seq<byte>, pid: nat, tid: nat, instances: nat, cpu: nat)

  // ---------------------------------------------------------------- states

  /** The letters of running, sleeping, disk sleep, stopped, zombie and idle, in the order in which the counts are
      sent. */
  const STATE_LETTERS: seq<string> := ["R", "S", "D", "Tt", "Z", "I"]

  function StateIndex(state: char): (i: nat)
    ensures i < 7
    ensures i < 6 ==> state in STATE_LETTERS[i]
    ensures i == 6 ==> forall j :: 0 <= j < 6 ==> state !in STATE_LETTERS[j]
  {
    match state
    case 'R' => 0
    case 'S' => 1
    case 'D' => 2
    case 'T' => 3
    case 't' => 3
    case 'Z' => 4
    case 'I' => 5
    case _ => 6
  }

  function CountState(ts: seq<Task>, i: nat): (n: nat)
    ensures n <= |ts|
  {
    if ts == [] then 0
    else CountState(ts[..|ts| - 1], i) + if StateIndex(ts[|ts| - 1].state) == i then 1 else 0
  }

  function Sum(s: seq<nat>): (n: nat) {
    if s == [] then 0 else Sum(s[..|s| - 1]) + s[|s| - 1]
  }

  function StateCounts(ts: seq<Task>): (s: seq<nat>)
    ensures |s| == 7
  {
    seq(7, i requires 0 <= i < 7 => CountState(ts, i))
  }

  lemma {:induction false} SumOfSeven(s: seq<nat>)
    requires |s| == 7
    ensures Sum(s) == s[0] + s[1] + s[2] + s[3] + s[4] + s[5] + s[6]
  {
    assert s[..6][..5] == s[..5] && s[..5][..4] == s[..4] && s[..4][..3] == s[..3] && s[..3][..2] == s[..2]
        && s[..2][..1] == s[..1];
    assert Sum(s[..1]) == s[0];
    assert Sum(s[..3]) == Sum(s[..2]) + s[2] && Sum(s[..4]) == Sum(s[..3]) + s[3];
    assert Sum(s[..5]) == Sum(s[..4]) + s[4] && Sum(s[..6]) == Sum(s[..5]) + s[5];
  }

  /** Every thread is counted under exactly one of the seven states. */
  lemma {:induction false} StatesAddUp(ts: seq<Task>)
    ensures Sum(StateCounts(ts)) == |ts|
  {
    SumOfSeven(StateCounts(ts));
    if ts != [] {
      SumOfSeven(StateCounts(ts[..|ts| - 1]));
      StatesAddUp(ts[..|ts| - 1]);
    }
  }

  // ---------------------------------------------------------------- candidates

  predicate Same(c: Candidate, t: Task, byTid: bool) {
    if byTid then c.pid == t.pid % U32 && c.tid == t.tid % U32 else c.name == t.name
  }

  function Merged(c: Candidate, t: Task): (r: Candidate) {
    c.(instances := if c.instances < U32 - 1 then c.instances + 1 else c.instances, cpu := (c.cpu + t.cpu) % U64)
  }

  predicate ValidIds(t: Task) {
    0 < t.pid < U32 && 0 < t.tid < U32
  }

  function NewCandidate(t: Task, byTid: bool): (c: Candidate)
    requires ValidIds(t)
  {
    Candidate(t.name, if byTid then t.pid else 0, if byTid then t.tid else 0, 1, t.cpu)
  }

  function FirstSame(cs: seq<Candidate>, t: Task, byTid: bool, from: nat): (i: nat)
    requires from <= |cs|
    ensures from <= i <= |cs| && (i < |cs| ==> Same(cs[i], t, byTid))
    ensures forall j :: from <= j < i ==> !Same(cs[j], t, byTid)
    decreases |cs| - from
  {
    if from == |cs| || Same(cs[from], t, byTid) then from else FirstSame(cs, t, byTid, from + 1)
  }

  predicate Accepts(cs: seq<Candidate>, t: Task, byTid: bool) {
    FirstSame(cs, t, byTid, 0) < |cs| || (|cs| < CANDIDATES && ValidIds(t))
  }

  /** A thread is refused exactly when it has no candidate yet and the 512 are taken or an id does not fit. */
  lemma {:induction false} RefusedIff(cs: seq<Candidate>, t: Task, byTid: bool)
    ensures !Accepts(cs, t, byTid) <==>
              && (forall i :: 0 <= i < |cs| ==> !Same(cs[i], t, byTid))
              && (|cs| >= 512 || t.pid < 1 || t.tid < 1 || t.pid > 0xffff_ffff || t.tid > 0xffff_ffff)
  {
    var i := FirstSame(cs, t, byTid, 0);
    assert i < |cs| ==> Same(cs[i], t, byTid);
  }

  function Add(cs: seq<Candidate>, t: Task, byTid: bool): (r: seq<Candidate>) {
    var i := FirstSame(cs, t, byTid, 0);
    if i < |cs| then cs[i := Merged(cs[i], t)]
    else if Accepts(cs, t, byTid) then cs + [NewCandidate(t, byTid)]
    else cs
  }

  function Fold(ts: seq<Task>, byTid: bool): (cs: seq<Candidate>) {
    if ts == [] then [] else Add(Fold(ts[..|ts| - 1], byTid), ts[|ts| - 1], byTid)
  }

  /** Some thread found the candidate table full, or had an id that does not fit. */
  predicate Rejects(ts: seq<Task>, byTid: bool) {
    ts != [] &&
    (Rejects(ts[..|ts| - 1], byTid) || !Accepts(Fold(ts[..|ts| - 1], byTid), ts[|ts| - 1], byTid))
  }

  class CandidateTable {
    const candidates: array<Candidate>
    var count: nat
    const byTid: bool

    ghost predicate Valid()
      reads this
    {
      candidates.Length == CANDIDATES && count <= CANDIDATES
    }

    ghost function Contents(): (cs: seq<Candidate>)
      reads this, candidates
      requires Valid()
    {
      candidates[..count]
    }

    constructor (includeTid: bool)
      ensures Valid() && Contents() == [] && byTid == includeTid && fresh(candidates)
    {
      candidates := new Candidate[CANDIDATES](_ => Candidate([], 0, 0, 0, 0));
      count := 0;
      byTid := includeTid;
    }

    method AddThread(t: Task) returns (ok: bool)
      requires Valid()
      modifies this`count, candidates
      ensures Valid() && Contents() == Add(old(Contents()), t, byTid)
      ensures ok <==> Accepts(old(Contents()), t, byTid)
    {
      ghost var cs := Contents();
      var i := 0;
      while i < count
        invariant 0 <= i <= count && Contents() == cs
        invariant FirstSame(cs, t, byTid, 0) == FirstSame(cs, t, byTid, i)
      {
        var c := candidates[i];
        assert c == cs[i];
        var same := if byTid then c.pid == t.pid % U32 && c.tid == t.tid % U32 else c.name == t.name;
        if same {
          candidates[i] := Merged(c, t);
          assert Contents() == cs[i := Merged(c, t)];
          return true;
        }
        i := i + 1;
      }
      if count >= CANDIDATES || t.pid <= 0 || t.tid <= 0 || t.pid > U32 - 1 || t.tid > U32 - 1 {
        return false;
      }
      candidates[count] := NewCandidate(t, byTid);
      count := count + 1;
      return true;
    }
  }

  // ---------------------------------------------------------------- measuring a thread

  /** The processors, and by how much all counters advanced since the last sample. */
  datatype Rate = Rate(cpus: nat, total: nat)

  function VisitOf(r: Reading): (v: H.Visit) {
    H.Visit(H.Key(r.pid, r.tid), r.starttime, r.ticks)
  }

  /** The load since the previous ticks, in tenths of a percent; none without a history or when the ticks went back. */
  function LoadSince(previous: nat, ticks: nat, rate: Rate): (n: nat)
    ensures n < U64
  {
    if previous == 0 || ticks < previous then 0
    else
      var scaled, total := (ticks - previous) * 1000 * rate.cpus % U64, if rate.total == 0 then 1 else rate.total;
      DivBelow(scaled, total);
      scaled / total
  }

  /** The load is exact if and only if the scaled ticks fit 64 bits. */
  lemma {:induction false} LoadIsExact(previous: nat, ticks: nat, rate: Rate)
    requires 0 < previous <= ticks && 0 < rate.total < U64
    ensures var scaled := (ticks - previous) * 1000 * rate.cpus;
            LoadSince(previous, ticks, rate) == scaled / rate.total <==> scaled < U64
  {
    QuotientExact((ticks - previous) * 1000 * rate.cpus, rate.total);
  }

  /** What the history answers decides the load; only the Top-N list asks it. */
  function Measure(h: H.Hash, s: H.State, r: Reading, rate: Rate, top: bool): (t: Task) {
    if !top then Task(r.pid, r.tid, r.name, r.state, 0, true)
    else
      match H.Record(h, s, VisitOf(r)).previous
      case None => Task(r.pid, r.tid, r.name, r.state, 0, false)
      case Some(previous) => Task(r.pid, r.tid, r.name, r.state, LoadSince(previous, r.ticks, rate), true)
  }

  function HistoryAfter(h: H.Hash, s: H.State, rs: seq<Reading>, top: bool): (t: H.State) {
    if rs == [] || !top then s else H.Record(h, HistoryAfter(h, s, rs[..|rs| - 1], top), VisitOf(rs[|rs| - 1])).state
  }

  function MeasureAll(h: H.Hash, s: H.State, rs: seq<Reading>, rate: Rate, top: bool): (ts: seq<Task>)
    ensures |ts| == |rs|
  {
    if rs == [] then []
    else
      var before := rs[..|rs| - 1];
      MeasureAll(h, s, before, rate, top) + [Measure(h, HistoryAfter(h, s, before, top), rs[|rs| - 1], rate, top)]
  }

  lemma {:induction false} MeasureNext(h: H.Hash, s: H.State, rs: seq<Reading>, r: Reading, rate: Rate, top: bool)
    ensures MeasureAll(h, s, rs + [r], rate, top)
         == MeasureAll(h, s, rs, rate, top) + [Measure(h, HistoryAfter(h, s, rs, top), r, rate, top)]
    ensures HistoryAfter(h, s, rs + [r], top)
         == if top then H.Record(h, HistoryAfter(h, s, rs, top), VisitOf(r)).state else s
  {
    assert (rs + [r])[..|rs|] == rs;
  }

  /** The history as one scan uses it. `readings` are the threads measured since it stood at `start`. */
  class Meter {
    const history: H.ThreadTable
    const rate: Rate
    const top: bool
    ghost const start: H.State
    ghost var readings: seq<Reading>

    ghost predicate Valid()
      reads this, history, history.slots
    {
      history.Valid() && history.Abs() == HistoryAfter(history.hash, start, readings, top)
    }

    ghost function Measured(): (ts: seq<Task>)
      reads this
    {
      MeasureAll(history.hash, start, readings, rate, top)
    }

    constructor (h: H.ThreadTable, r: Rate, topMode: bool)
      requires h.Valid()
      ensures Valid() && history == h && rate == r && top == topMode && start == h.Abs() && readings == []
    {
      history, rate, top := h, r, topMode;
      start, readings := h.Abs(), [];
    }

    method MeasureThread(r: Reading) returns (t: Task)
      requires Valid()
      modifies this, history.slots
      ensures Valid() && readings == old(readings) + [r] && Measured() == old(Measured()) + [t]
      ensures t.pid == r.pid && t.tid == r.tid && t.name == r.name && t.state == r.state
      ensures !top ==> t.cpu == 0 && t.tracked
    {
      MeasureNext(history.hash, start, readings, r, rate, top);
      t := Task(r.pid, r.tid, r.name, r.state, 0, true);
      if top {
        var previous := history.RecordThread(VisitOf(r));
        if previous.None? {
          t := t.(tracked := false);
        } else {
          t := t.(cpu := LoadSince(previous.value, r.ticks, rate));
        }
      }
      readings := readings + [r];
    }
  }

  /** Some lookup of the scan finds all 1024 slots held by other threads. */
  predicate TurnedAway(h: H.Hash, s: H.State, rs: seq<Reading>) {
    rs != [] &&
    (TurnedAway(h, s, rs[..|rs| - 1])
     || AllForeign(HistoryAfter(h, s, rs[..|rs| - 1], true), VisitOf(rs[|rs| - 1]).key))
  }

  /** A thread goes untracked exactly in that case. */
  lemma {:induction false} UntrackedWhenFull(h: H.Hash, s: H.State, rs: seq<Reading>, rate: Rate)
    ensures Untracked(MeasureAll(h, s, rs, rate, true)) <==> TurnedAway(h, s, rs)
  {
    if rs != [] {
      var before, r := rs[..|rs| - 1], rs[|rs| - 1];
      UntrackedWhenFull(h, s, before, rate);
      UntrackedNext(MeasureAll(h, s, before, rate, true), Measure(h, HistoryAfter(h, s, before, true), r, rate, true));
      NoSlotWhenFull(h, HistoryAfter(h, s, before, true), VisitOf(r));
    }
  }

  predicate AllForeign(s: H.State, k: H.Key) {
    forall i :: 0 <= i < H.TRACK ==> H.Occupied(s.slots[i]) && s.slots[i].key != k
  }

  lemma {:induction false} NoSlotWhenFull(h: H.Hash, s: H.State, v: H.Visit)
    ensures H.Record(h, s, v).previous.None? <==> AllForeign(s, v.key)
  {
    var start := h(v.key);
    var d := H.Seek(s.slots, start, v.key, 0);
    if d == H.TRACK {
      forall i | 0 <= i < H.TRACK ensures H.Occupied(s.slots[i]) && s.slots[i].key != v.key {
        assert !H.Stops(s.slots[H.Pos(start, H.Dist(start, i))], v.key);
      }
    }
  }

  lemma {:induction false} UntrackedNext(ts: seq<Task>, t: Task)
    ensures Untracked(ts + [t]) <==> Untracked(ts) || !t.tracked
  {
    var all := ts + [t];
    assert all[|ts|] == t && forall i :: 0 <= i < |ts| ==> all[i] == ts[i];
  }

  // ---------------------------------------------------------------- scanning the group

  /** A task directory: its numeric entries in listing order, None for one whose stat line could not be read. */
  type Directory = seq<Option<Reading>>

  /** What is read of one directory: up to SCAN_LIMIT threads. */
  function Read(d: Directory): (ts: seq<Reading>)
    ensures |ts| <= SCAN_LIMIT
  {
    if d == [] then []
    else
      var ts := Read(d[..|d| - 1]);
      if d[|d| - 1].None? || |ts| == SCAN_LIMIT then ts else ts + [d[|d| - 1].value]
  }

  /** An entry was left unread because the limit had been reached. */
  predicate Overlong(d: Directory) {
    d != [] && (|Read(d[..|d| - 1])| == SCAN_LIMIT || Overlong(d[..|d| - 1]))
  }

  function ReadAll(ds: seq<Directory>): (ts: seq<Reading>)
    ensures |ts| <= |ds| * SCAN_LIMIT
  {
    if ds == [] then [] else ReadAll(ds[..|ds| - 1]) + Read(ds[|ds| - 1])
  }

  predicate AnyOverlong(ds: seq<Directory>) {
    ds != [] && (AnyOverlong(ds[..|ds| - 1]) || Overlong(ds[|ds| - 1]))
  }

  predicate Untracked(ts: seq<Task>) {
    exists i :: 0 <= i < |ts| && !ts[i].tracked
  }

  /** What the counters, the flag and the candidates say of the threads seen. */
  ghost predicate Describes(total: nat, states: seq<nat>, truncated: bool, contents: seq<Candidate>,
                            seen: seq<Task>, overlong: bool, top: bool, byTid: bool) {
    && total == |seen| && states == StateCounts(seen)
    && contents == (if top then Fold(seen, byTid) else [])
    && (truncated <==> overlong || (top && (Untracked(seen) || Rejects(seen, byTid))))
  }

  /** The scan of one group. The meter holds the threads read so far, `overlong` whether a directory was cut short. */
  class GroupScan {
    const table: CandidateTable
    const meter: Meter
    var total: nat
    var states: seq<nat>
    var truncated: bool
    ghost var overlong: bool

    ghost predicate Valid()
      reads this, table, table.candidates, meter, meter.history, meter.history.slots
    {
      && table.Valid() && meter.Valid()
      && Describes(total, states, truncated, table.Contents(), meter.Measured(), overlong, meter.top, table.byTid)
    }

    constructor (includeTid: bool, m: Meter)
      requires m.Valid() && m.readings == []
      ensures Valid() && fresh(table) && fresh(table.candidates) && meter == m && !overlong && table.byTid == includeTid
    {
      table := new CandidateTable(includeTid);
      meter := m;
      total, states, truncated := 0, seq(7, _ => 0), false;
      overlong := false;
    }

    static function Increment(v: nat): (r: nat) {
      if v < U16_MAX then v + 1 else v
    }

    method CountThread(state: nat)
      requires |states| == 7 && state < 7
      modifies this`total, this`states, this`truncated
      ensures total == Increment(old(total)) && states == old(states)[state := Increment(old(states)[state])]
      ensures truncated == (old(truncated) || old(total) == U16_MAX || old(states)[state] == U16_MAX)
    {
      truncated := truncated || total == U16_MAX || states[state] == U16_MAX;
      total := Increment(total);
      states := states[state := Increment(states[state])];
    }

    method AddToTop(t: Task)
      requires table.Valid()
      modifies `truncated, table`count, table.candidates
      ensures table.Valid()
      ensures table.Contents()
           == if meter.top then Add(old(table.Contents()), t, table.byTid) else old(table.Contents())
      ensures truncated
           == (old(truncated) || (meter.top && (!t.tracked || !Accepts(old(table.Contents()), t, table.byTid))))
    {
      if meter.top {
        truncated := truncated || !t.tracked;
        var ok := table.AddThread(t);
        truncated := truncated || !ok;
      }
    }

    /** Counting a thread and the lookup that measures it touch different state, so their order does not matter. */
    method TakeMeasured(t: Task, ghost seen: seq<Task>)
      requires table.Valid() && |seen| < U16_MAX
      requires Describes(total, states, truncated, table.Contents(), seen, overlong, meter.top, table.byTid)
      modifies `total, `states, `truncated, table`count, table.candidates
      ensures table.Valid()
      ensures Describes(total, states, truncated, table.Contents(), seen + [t], overlong, meter.top, table.byTid)
    {
      DescribesNext(total, states, truncated, table.Contents(), seen, overlong, meter.top, table.byTid, t);
      CountThread(StateIndex(t.state));
      AddToTop(t);
    }

    method TakeThread(r: Reading)
      requires Valid() && |meter.readings| < U16_MAX
      modifies `total, `states, `truncated, table`count, table.candidates, meter, meter.history.slots
      ensures Valid() && meter.readings == old(meter.readings) + [r]
    {
      ghost var seen := meter.Measured();
      var t := meter.MeasureThread(r);
      TakeMeasured(t, seen);
    }

    method CutShort()
      requires Valid()
      modifies `truncated, `overlong
      ensures Valid() && overlong
    {
      truncated := true;
      overlong := true;
    }

    /** One directory entry: counted if its stat line could be read. */
    method TakeEntry(e: Option<Reading>)
      requires Valid() && |meter.readings| < U16_MAX
      modifies `total, `states, `truncated, table`count, table.candidates, meter, meter.history.slots
      ensures Valid() && meter.readings == old(meter.readings) + if e.Some? then [e.value] else []
    {
      if e.Some? {
        TakeThread(e.value);
      }
    }

    /** Entry i of a directory; `before` are the readings of the directories before it. */
    method TakeNext(d: Directory, i: nat, ghost before: seq<Reading>)
      requires Valid() && i < |d| && |Read(d[..i])| < SCAN_LIMIT && !Overlong(d[..i])
      requires |before| + SCAN_LIMIT <= U16_MAX && meter.readings == before + Read(d[..i])
      modifies `total, `states, `truncated, table`count, table.candidates, meter, meter.history.slots
      ensures Valid() && meter.readings == before + Read(d[..i + 1]) && !Overlong(d[..i + 1])
      ensures |Read(d[..i + 1])| == |Read(d[..i])| + if d[i].Some? then 1 else 0
    {
      ReadNext(d, i);
      TakeEntry(d[i]);
    }

    method ScanDirectory(d: Directory)
      requires Valid() && |meter.readings| + SCAN_LIMIT <= U16_MAX
      modifies this, table`count, table.candidates, meter, meter.history.slots
      ensures Valid() && meter.readings == old(meter.readings) + Read(d)
      ensures overlong == (old(overlong) || Overlong(d))
    {
      var i := ScanEntries(d);
      if i < |d| {
        ReadStops(d, i);
        CutShort();
      } else {
        assert d[..|d|] == d;
      }
    }

    /** Up to the first entry that finds the limit reached, or to the end. */
    method ScanEntries(d: Directory) returns (i: nat)
      requires Valid() && |meter.readings| + SCAN_LIMIT <= U16_MAX
      modifies `total, `states, `truncated, table`count, table.candidates, meter, meter.history.slots
      ensures Valid() && i <= |d| && meter.readings == old(meter.readings) + Read(d[..i])
      ensures !Overlong(d[..i]) && (i < |d| ==> |Read(d[..i])| == SCAN_LIMIT)
    {
      var scanned := 0;
      i := 0;
      while i < |d| && scanned < SCAN_LIMIT
        invariant 0 <= i <= |d| && Valid()
        invariant meter.readings == old(meter.readings) + Read(d[..i]) && scanned == |Read(d[..i])|
        invariant !Overlong(d[..i])
      {
        TakeNext(d, i, old(meter.readings));
        scanned := if d[i].Some? then scanned + 1 else scanned;
        i := i + 1;
      }
    }

    method ScanAll(ds: seq<Directory>)
      requires Valid() && meter.readings == [] && !overlong && |ds| <= PID_LIMIT
      modifies this, table`count, table.candidates, meter, meter.history.slots
      ensures Valid() && meter.readings == ReadAll(ds) && overlong == AnyOverlong(ds)
    {
      var i := 0;
      while i < |ds|
        invariant 0 <= i <= |ds| && Valid() && meter.readings == ReadAll(ds[..i]) && overlong == AnyOverlong(ds[..i])
      {
        ReadAllNext(ds, i);
        ScanDirectory(ds[i]);
        i := i + 1;
      }
      assert ds[..|ds|] == ds;
    }

    /** The whole group: at most 64 processes, so no 16-bit counter can saturate. The flag is set if and only if a
        directory was cut short or, for a Top-N list, a lookup found no slot or a thread no candidate. */
    method CollectThreadGroup(ds: seq<Directory>)
      requires Valid() && meter.readings == [] && !overlong && |ds| <= PID_LIMIT
      modifies this, table`count, table.candidates, meter, meter.history.slots
      ensures Valid() && meter.readings == ReadAll(ds) && overlong == AnyOverlong(ds)
      ensures total == |ReadAll(ds)| == Sum(states) && total <= 32768
      ensures var seen := meter.Measured();
              && states == StateCounts(seen)
              && table.Contents() == (if meter.top then Fold(seen, table.byTid) else [])
              && (truncated <==> AnyOverlong(ds) || (meter.top && (Untracked(seen) || Rejects(seen, table.byTid))))
    {
      ScanAll(ds);
      StatesAddUp(meter.Measured());
    }
  }

  lemma {:induction false} ReadAllNext(ds: seq<Directory>, i: nat)
    requires i < |ds|
    ensures ReadAll(ds[..i + 1]) == ReadAll(ds[..i]) + Read(ds[i])
    ensures AnyOverlong(ds[..i + 1]) <==> AnyOverlong(ds[..i]) || Overlong(ds[i])
    ensures |ReadAll(ds[..i])| <= i * SCAN_LIMIT
  {
    assert ds[..i + 1][..i] == ds[..i];
  }

  lemma {:induction false} DescribesNext(total: nat, states: seq<nat>, truncated: bool, contents: seq<Candidate>,
                                         seen: seq<Task>, overlong: bool, top: bool, byTid: bool, t: Task)
    requires Describes(total, states, truncated, contents, seen, overlong, top, byTid) && |seen| < U16_MAX
    ensures var i := StateIndex(t.state);
            && states[i] < U16_MAX
            && Describes(total + 1, states[i := states[i] + 1],
                         truncated || (top && (!t.tracked || !Accepts(contents, t, byTid))),
                         if top then Add(contents, t, byTid) else contents, seen + [t], overlong, top, byTid)
  {
    Counted(seen, t, byTid);
  }

  lemma {:induction false} Counted(ts: seq<Task>, t: Task, byTid: bool)
    ensures StateCounts(ts + [t]) == StateCounts(ts)[StateIndex(t.state) := StateCounts(ts)[StateIndex(t.state)] + 1]
    ensures Untracked(ts + [t]) <==> Untracked(ts) || !t.tracked
    ensures Fold(ts + [t], byTid) == Add(Fold(ts, byTid), t, byTid)
    ensures Rejects(ts + [t], byTid) <==> Rejects(ts, byTid) || !Accepts(Fold(ts, byTid), t, byTid)
  {
    var all := ts + [t];
    assert all[..|ts|] == ts && all[|ts|] == t;
    assert forall i :: 0 <= i < |ts| ==> all[i] == ts[i];
  }

  lemma {:induction false} ReadNext(d: Directory, i: nat)
    requires i < |d| && |Read(d[..i])| < SCAN_LIMIT && !Overlong(d[..i])
    ensures !Overlong(d[..i + 1])
    ensures Read(d[..i + 1]) == Read(d[..i]) + if d[i].Some? then [d[i].value] else []
  {
    assert d[..i + 1][..i] == d[..i] && d[..i + 1][i] == d[i];
  }

  lemma {:induction false} ReadStops(d: Directory, i: nat)
    requires i < |d| && |Read(d[..i])| == SCAN_LIMIT
    ensures Read(d) == Read(d[..i]) && Overlong(d)
    decreases |d|
  {
    var d' := d[..|d| - 1];
    if i < |d'| {
      assert d'[..i] == d[..i];
      ReadStops(d', i);
    } else {
      assert d[..i] == d';
    }
  }

  // ---------------------------------------------------------------- nothing is lost in the candidates

  function Instances(cs: seq<Candidate>): (n: nat) {
    if cs == [] then 0 else Instances(cs[..|cs| - 1]) + cs[|cs| - 1].instances
  }

  function Cpus(cs: seq<Candidate>): (n: nat) {
    if cs == [] then 0 else Cpus(cs[..|cs| - 1]) + cs[|cs| - 1].cpu
  }

  /** The threads that found a place. */
  function Accepted(ts: seq<Task>, byTid: bool): (r: seq<Task>)
    ensures |r| <= |ts|
  {
    if ts == [] then []
    else
      var t := ts[|ts| - 1];
      Accepted(ts[..|ts| - 1], byTid) + if Accepts(Fold(ts[..|ts| - 1], byTid), t, byTid) then [t] else []
  }

  function TaskCpus(ts: seq<Task>): (n: nat) {
    if ts == [] then 0 else TaskCpus(ts[..|ts| - 1]) + ts[|ts| - 1].cpu
  }

  lemma {:induction false} UpdateSums(cs: seq<Candidate>, i: nat, c: Candidate)
    requires i < |cs|
    ensures Instances(cs[i := c]) == Instances(cs) - cs[i].instances + c.instances
    ensures Cpus(cs[i := c]) == Cpus(cs) - cs[i].cpu + c.cpu
    ensures cs[i].instances <= Instances(cs) && cs[i].cpu <= Cpus(cs)
  {
    var n := |cs| - 1;
    if i < n {
      assert cs[i := c][..n] == cs[..n][i := c];
      UpdateSums(cs[..n], i, c);
    } else {
      assert cs[i := c][..n] == cs[..n];
    }
  }

  lemma {:induction false} AppendSums(cs: seq<Candidate>, c: Candidate)
    ensures Instances(cs + [c]) == Instances(cs) + c.instances && Cpus(cs + [c]) == Cpus(cs) + c.cpu
  {
    assert (cs + [c])[..|cs|] == cs;
  }

  lemma {:induction false} AppendTaskCpus(ts: seq<Task>, t: Task)
    ensures TaskCpus(ts + [t]) == TaskCpus(ts) + t.cpu
  {
    assert (ts + [t])[..|ts|] == ts;
  }

  lemma {:induction false} ReducedSum(others: nat, x: nat)
    ensures (others + x % U64) % U64 == (others + x) % U64
    ensures others + x < U64 ==> x % U64 == x
  {
    SumsAgree(x % U64, x, others);
    Wrapped(x);
  }

  lemma {:induction false} MergeConserves(cs: seq<Candidate>, i: nat, t: Task)
    requires Instances(cs) < U32 - 1 && i < |cs|
    ensures Instances(cs[i := Merged(cs[i], t)]) == Instances(cs) + 1
    ensures Cpus(cs[i := Merged(cs[i], t)]) % U64 == (Cpus(cs) + t.cpu) % U64
    ensures Cpus(cs) + t.cpu < U64 ==> Cpus(cs[i := Merged(cs[i], t)]) == Cpus(cs) + t.cpu
  {
    UpdateSums(cs, i, Merged(cs[i], t));
    ReducedSum(Cpus(cs) - cs[i].cpu, cs[i].cpu + t.cpu);
  }

  lemma {:induction false} AddConserves(cs: seq<Candidate>, t: Task, byTid: bool)
    requires Instances(cs) < U32 - 1 && Accepts(cs, t, byTid)
    ensures Instances(Add(cs, t, byTid)) == Instances(cs) + 1
    ensures Cpus(Add(cs, t, byTid)) % U64 == (Cpus(cs) + t.cpu) % U64
    ensures Cpus(cs) + t.cpu < U64 ==> Cpus(Add(cs, t, byTid)) == Cpus(cs) + t.cpu
  {
    var i := FirstSame(cs, t, byTid, 0);
    if i < |cs| {
      MergeConserves(cs, i, t);
    } else {
      AppendSums(cs, NewCandidate(t, byTid));
    }
  }

  /** No thread is rejected exactly when all of them are accepted. */
  lemma {:induction false} AcceptedUnlessRejected(ts: seq<Task>, byTid: bool)
    ensures !Rejects(ts, byTid) <==> Accepted(ts, byTid) == ts
  {
    if ts != [] {
      var ts', t := ts[..|ts| - 1], ts[|ts| - 1];
      AcceptedUnlessRejected(ts', byTid);
      assert ts == ts' + [t];
      if Accepted(ts', byTid) != ts' && Accepts(Fold(ts', byTid), t, byTid) {
        assert Accepted(ts, byTid) == Accepted(ts', byTid) + [t];
        assert |Accepted(ts', byTid)| == |ts'| ==> Accepted(ts, byTid)[..|ts'|] == Accepted(ts', byTid);
      }
    }
  }

  /** The candidates account for the accepted threads. */
  ghost predicate Stands(cs: seq<Candidate>, accepted: seq<Task>) {
    && Instances(cs) == |accepted|
    && Cpus(cs) % U64 == TaskCpus(accepted) % U64
    && (TaskCpus(accepted) < U64 ==> Cpus(cs) == TaskCpus(accepted))
  }

  lemma {:induction false} AddStands(cs: seq<Candidate>, accepted: seq<Task>, t: Task, byTid: bool)
    requires Stands(cs, accepted) && |accepted| < U32 - 1 && Accepts(cs, t, byTid)
    ensures Stands(Add(cs, t, byTid), accepted + [t])
  {
    AddConserves(cs, t, byTid);
    AppendTaskCpus(accepted, t);
    SumsAgree(Cpus(cs), TaskCpus(accepted), t.cpu);
  }

  /** The candidates' instances count the accepted threads, and their cpu values add up to those of the accepted
      threads, modulo 2^64 in any case and exactly when that sum does not overflow. */
  lemma {:induction false} CandidatesConserve(ts: seq<Task>, byTid: bool)
    requires |ts| < U32 - 1
    ensures Stands(Fold(ts, byTid), Accepted(ts, byTid))
  {
    if ts != [] {
      var ts', t := ts[..|ts| - 1], ts[|ts| - 1];
      CandidatesConserve(ts', byTid);
      if Accepts(Fold(ts', byTid), t, byTid) {
        AddStands(Fold(ts', byTid), Accepted(ts', byTid), t, byTid);
      } else {
        assert Accepted(ts, byTid) == Accepted(ts', byTid);
      }
    }
  }

  // ---------------------------------------------------------------- one candidate per thread

  predicate DistinctIds(ts: seq<Task>) {
    forall i, j :: 0 <= i < j < |ts| ==> ts[i].pid != ts[j].pid || ts[i].tid != ts[j].tid
  }

  predicate StandsFor(c: Candidate, t: Task) {
    c.name == t.name && c.pid == t.pid && c.tid == t.tid && c.instances == 1 && c.cpu == t.cpu
  }

  /** With thread ids included, up to 512 different threads become one candidate each, in scan order. */
  lemma {:induction false} OneCandidatePerThread(ts: seq<Task>)
    requires DistinctIds(ts) && |ts| <= CANDIDATES && forall i :: 0 <= i < |ts| ==> ValidIds(ts[i])
    ensures |Fold(ts, true)| == |ts| && !Rejects(ts, true)
    ensures forall i :: 0 <= i < |ts| ==> StandsFor(Fold(ts, true)[i], ts[i])
  {
    if ts != [] {
      var n := |ts| - 1;
      OneCandidatePerThread(ts[..n]);
      var cs := Fold(ts[..n], true);
      forall i | 0 <= i < n ensures !Same(cs[i], ts[n], true) {
        assert StandsFor(cs[i], ts[..n][i]) && ts[..n][i] == ts[i];
        OthersDiffer(cs[i], ts[i], ts[n]);
      }
      assert FirstSame(cs, ts[n], true, 0) == n;
      assert Fold(ts, true) == cs + [NewCandidate(ts[n], true)];
    }
  }

  lemma {:induction false} OthersDiffer(c: Candidate, t: Task, u: Task)
    requires StandsFor(c, t) && ValidIds(t) && ValidIds(u) && (t.pid != u.pid || t.tid != u.tid)
    ensures !Same(c, u, true)
  {
  }
}
