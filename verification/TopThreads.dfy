/** The Top-N list of a group in name-aggregated mode: it depends on the threads' names and loads alone, not on the
    order of the scan nor on the sorting algorithm. */
module TopThreads {
  import opened Arith
  import opened Bytes
  import opened Wire
  import opened ThreadGroups

  // ---------------------------------------------------------------- the ranking

  /** strcmp on names without NUL. */
  function Strcmp(a: seq<byte>, b: seq<byte>): (r: int) {
    if a == [] && b == [] then 0
    else if a == [] then -1
    else if b == [] then 1
    else if a[0] != b[0] then (if a[0] < b[0] then -1 else 1)
    else Strcmp(a[1..], b[1..])
  }

  function Compare(l: Candidate, r: Candidate): (c: int) {
    if l.cpu > r.cpu then -1 else if l.cpu < r.cpu then 1 else Strcmp(l.name, r.name)
  }

  lemma {:induction false} StrcmpZero(a: seq<byte>, b: seq<byte>)
    ensures Strcmp(a, b) == 0 <==> a == b
    ensures Strcmp(a, b) == -Strcmp(b, a)
  {
    if a != [] && b != [] && a[0] == b[0] {
      StrcmpZero(a[1..], b[1..]);
      assert a == [a[0]] + a[1..] && b == [b[0]] + b[1..];
    }
  }

  /** How long the two names agree. */
  function Common(a: seq<byte>, b: seq<byte>): (n: nat)
    ensures n <= |a| && n <= |b| && a[..n] == b[..n] && (n < |a| && n < |b| ==> a[n] != b[n])
  {
    if a == [] || b == [] || a[0] != b[0] then 0
    else
      assert a == [a[0]] + a[1..] && b == [b[0]] + b[1..];
      1 + Common(a[1..], b[1..])
  }

  /** The comparison is the dictionary order: the shorter name first if it begins the other, else the smaller byte. */
  lemma {:induction false} StrcmpIsLexicographic(a: seq<byte>, b: seq<byte>)
    ensures Strcmp(a, b) < 0 <==> (var n := Common(a, b); n < |b| && (n == |a| || a[n] < b[n]))
  {
    if a != [] && b != [] && a[0] == b[0] {
      StrcmpIsLexicographic(a[1..], b[1..]);
    }
  }

  lemma {:induction false} StrcmpTransitive(a: seq<byte>, b: seq<byte>, c: seq<byte>)
    requires Strcmp(a, b) <= 0 && Strcmp(b, c) <= 0
    ensures Strcmp(a, c) <= 0
  {
    if a != [] && b != [] && c != [] && a[0] == b[0] == c[0] {
      StrcmpTransitive(a[1..], b[1..], c[1..]);
    }
  }

  predicate Ranked(s: seq<Candidate>) {
    forall i, j :: 0 <= i < j < |s| ==> Compare(s[i], s[j]) <= 0
  }

  predicate DistinctNames(s: seq<Candidate>) {
    forall i, j :: 0 <= i < j < |s| ==> s[i].name != s[j].name
  }

  /** What any correct sort may return. */
  ghost predicate SortedVersion(cs: seq<Candidate>, s: seq<Candidate>) {
    multiset(s) == multiset(cs) && Ranked(s)
  }

  lemma {:induction false} CompareTransitive(a: Candidate, b: Candidate, c: Candidate)
    requires Compare(a, b) <= 0 && Compare(b, c) <= 0
    ensures Compare(a, c) <= 0
  {
    if a.cpu == b.cpu == c.cpu {
      StrcmpTransitive(a.name, b.name, c.name);
    }
  }

  function Insert(c: Candidate, s: seq<Candidate>): (r: seq<Candidate>)
    ensures multiset(r) == multiset(s) + multiset{c}
    ensures r != [] && (r[0] == c || (s != [] && r[0] == s[0]))
  {
    if s == [] || Compare(c, s[0]) <= 0 then [c] + s
    else
      assert s == [s[0]] + s[1..];
      [s[0]] + Insert(c, s[1..])
  }

  lemma {:induction false} RankedFromHead(x: Candidate, s: seq<Candidate>)
    requires Ranked(s) && (s != [] ==> Compare(x, s[0]) <= 0)
    ensures Ranked([x] + s)
  {
    var r := [x] + s;
    forall i, j | 0 <= i < j < |r| ensures Compare(r[i], r[j]) <= 0 {
      if i == 0 && j > 1 {
        CompareTransitive(x, s[0], s[j - 1]);
      }
    }
  }

  lemma {:induction false} InsertRanked(c: Candidate, s: seq<Candidate>)
    requires Ranked(s)
    ensures Ranked(Insert(c, s))
  {
    if s == [] || Compare(c, s[0]) <= 0 {
      RankedFromHead(c, s);
    } else {
      InsertRanked(c, s[1..]);
      StrcmpZero(c.name, s[0].name);
      RankedFromHead(s[0], Insert(c, s[1..]));
    }
  }

  /** The comparison is a consistent order: every candidate list can be sorted by it. */
  lemma {:induction false} SortExists(cs: seq<Candidate>) returns (s: seq<Candidate>)
    ensures SortedVersion(cs, s)
  {
    s := [];
    if cs != [] {
      var t := SortExists(cs[1..]);
      s := Insert(cs[0], t);
      InsertRanked(cs[0], t);
      assert cs == [cs[0]] + cs[1..];
    }
  }

  lemma {:induction false} TailHas(s: seq<Candidate>, c: Candidate)
    requires s != [] && DistinctNames(s)
    ensures c in s[1..] <==> c in s && c != s[0]
  {
    if c in s && c != s[0] {
      var i :| 0 <= i < |s| && s[i] == c;
      assert s[1..][i - 1] == c;
    }
    if c in s[1..] {
      var i :| 0 <= i < |s| - 1 && s[1..][i] == c;
      assert s[i + 1] == c;
    }
  }

  lemma {:induction false} SameHeads(s: seq<Candidate>, t: seq<Candidate>)
    requires Ranked(s) && Ranked(t) && DistinctNames(t)
    requires forall c :: c in s <==> c in t
    ensures s == [] <==> t == []
    ensures s != [] ==> s[0] == t[0]
  {
    assert s != [] ==> s[0] in s;
    assert t != [] ==> t[0] in t;
    if s != [] && t != [] {
      var i :| 0 <= i < |t| && t[i] == s[0];
      var j :| 0 <= j < |s| && s[j] == t[0];
      StrcmpZero(s[0].name, t[0].name);
    }
  }

  /** A ranking without ties is determined by its elements. */
  lemma {:induction false} RankingIsUnique(s: seq<Candidate>, t: seq<Candidate>)
    requires Ranked(s) && Ranked(t) && DistinctNames(s) && DistinctNames(t)
    requires forall c :: c in s <==> c in t
    ensures s == t
    decreases |s|
  {
    SameHeads(s, t);
    if s != [] {
      forall c ensures c in s[1..] <==> c in t[1..] {
        TailHas(s, c);
        TailHas(t, c);
      }
      RankingIsUnique(s[1..], t[1..]);
      assert s == [s[0]] + s[1..] && t == [t[0]] + t[1..];
    }
  }

  // ---------------------------------------------------------------- what the fold computes

  datatype Load = Load(name: seq<byte>, cpu: nat)

  function LoadOf(t: Task): (l: Load) { Load(t.name, t.cpu) }

  function Loads(ts: seq<Task>): (ls: seq<Load>)
    ensures |ls| == |ts|
  {
    seq(|ts|, i requires 0 <= i < |ts| => LoadOf(ts[i]))
  }

  function Count(ls: seq<Load>, name: seq<byte>): (n: nat) {
    if ls == [] then 0 else Count(ls[..|ls| - 1], name) + if ls[|ls| - 1].name == name then 1 else 0
  }

  function CpuOf(ls: seq<Load>, name: seq<byte>): (n: nat) {
    if ls == [] then 0 else CpuOf(ls[..|ls| - 1], name) + if ls[|ls| - 1].name == name then ls[|ls| - 1].cpu else 0
  }

  function Names(ls: seq<Load>): (s: set<seq<byte>>) {
    set i | 0 <= i < |ls| :: ls[i].name
  }

  /** One name's candidate, computed from the loads alone: how often it occurs and its total cpu modulo 2^64. */
  function Summary(ls: seq<Load>, name: seq<byte>): (c: Candidate) {
    Candidate(name, 0, 0, if Count(ls, name) < U32 - 1 then Count(ls, name) else U32 - 1, CpuOf(ls, name) % U64)
  }

  predicate ValidTask(t: Task) {
    ValidIds(t) && t.cpu < U64
  }

  predicate ValidTasks(ts: seq<Task>) {
    forall i :: 0 <= i < |ts| ==> ValidTask(ts[i])
  }

  /** Where a name stands among the candidates, |cs| when it does not. */
  function IndexOf(cs: seq<Candidate>, name: seq<byte>): (i: nat)
    ensures i <= |cs| && (i < |cs| ==> cs[i].name == name)
    ensures forall j :: 0 <= j < i ==> cs[j].name != name
  {
    if cs == [] || cs[0].name == name then 0 else 1 + IndexOf(cs[1..], name)
  }

  predicate Listed(cs: seq<Candidate>, name: seq<byte>) {
    IndexOf(cs, name) < |cs|
  }

  /** A listed name is summarised exactly; a name is left out only if it does not occur or the table is full. */
  predicate Faithful(cs: seq<Candidate>, ls: seq<Load>, name: seq<byte>) {
    if Listed(cs, name) then Count(ls, name) > 0 && cs[IndexOf(cs, name)] == Summary(ls, name)
    else Count(ls, name) == 0 || |cs| == CANDIDATES
  }

  ghost predicate Summarises(cs: seq<Candidate>, ls: seq<Load>) {
    DistinctNames(cs) && |cs| <= CANDIDATES && forall n :: Faithful(cs, ls, n)
  }

  lemma {:induction false} ListedAt(cs: seq<Candidate>, i: nat)
    requires DistinctNames(cs) && i < |cs|
    ensures IndexOf(cs, cs[i].name) == i
  {
  }

  lemma {:induction false} SumsNext(ls: seq<Load>, l: Load, name: seq<byte>)
    ensures Count(ls + [l], name) == Count(ls, name) + if l.name == name then 1 else 0
    ensures CpuOf(ls + [l], name) == CpuOf(ls, name) + if l.name == name then l.cpu else 0
  {
    assert (ls + [l])[..|ls|] == ls;
  }

  lemma {:induction false} NoCountNoCpu(ls: seq<Load>, name: seq<byte>)
    requires Count(ls, name) == 0
    ensures CpuOf(ls, name) == 0
  {
    if ls != [] {
      NoCountNoCpu(ls[..|ls| - 1], name);
    }
  }

  lemma {:induction false} SummaryNext(ls: seq<Load>, l: Load)
    requires l.cpu < U64
    ensures Count(ls, l.name) == 0 ==> Summary(ls + [l], l.name) == Candidate(l.name, 0, 0, 1, l.cpu)
    ensures Summary(ls + [l], l.name)
         == Merged(Summary(ls, l.name), Task(0, 0, l.name, 'R', l.cpu, true))
  {
    SumsNext(ls, l, l.name);
    SumsAgree(CpuOf(ls, l.name) % U64, CpuOf(ls, l.name), l.cpu);
    if Count(ls, l.name) == 0 {
      NoCountNoCpu(ls, l.name);
      Wrapped(l.cpu);
    }
  }

  lemma {:induction false} AddIndex(cs: seq<Candidate>, t: Task)
    ensures FirstSame(cs, t, false, 0) == IndexOf(cs, t.name)
  {
  }

  lemma {:induction false} MergeFaithful(cs: seq<Candidate>, ls: seq<Load>, t: Task, name: seq<byte>)
    requires DistinctNames(cs) && ValidTask(t) && Listed(cs, t.name)
    requires Faithful(cs, ls, t.name) && Faithful(cs, ls, name)
    ensures Faithful(cs[IndexOf(cs, t.name) := Merged(cs[IndexOf(cs, t.name)], t)], ls + [LoadOf(t)], name)
  {
    var i := IndexOf(cs, t.name);
    var cs' := cs[i := Merged(cs[i], t)];
    assert forall j :: 0 <= j < |cs| ==> cs'[j].name == cs[j].name;
    assert IndexOf(cs', name) == IndexOf(cs, name);
    SumsNext(ls, LoadOf(t), name);
    SummaryNext(ls, LoadOf(t));
  }

  lemma {:induction false} AppendFaithful(cs: seq<Candidate>, ls: seq<Load>, t: Task, name: seq<byte>)
    requires ValidTask(t) && !Listed(cs, t.name) && |cs| < CANDIDATES
    requires Faithful(cs, ls, t.name) && Faithful(cs, ls, name)
    ensures Faithful(cs + [NewCandidate(t, false)], ls + [LoadOf(t)], name)
  {
    var cs' := cs + [NewCandidate(t, false)];
    assert forall j :: 0 <= j < |cs| ==> cs'[j] == cs[j];
    assert cs'[|cs|].name == t.name;
    assert name != t.name ==> (IndexOf(cs', name) == IndexOf(cs, name) < |cs| || IndexOf(cs', name) == |cs'|);
    assert name == t.name ==> IndexOf(cs', name) == |cs|;
    SumsNext(ls, LoadOf(t), name);
    SummaryNext(ls, LoadOf(t));
  }

  lemma {:induction false} AddSummarises(cs: seq<Candidate>, ls: seq<Load>, t: Task)
    requires Summarises(cs, ls) && ValidTask(t)
    ensures Summarises(Add(cs, t, false), ls + [LoadOf(t)])
  {
    AddIndex(cs, t);
    assert Faithful(cs, ls, t.name);
    forall name ensures Faithful(Add(cs, t, false), ls + [LoadOf(t)], name) {
      assert Faithful(cs, ls, name);
      if Listed(cs, t.name) {
        MergeFaithful(cs, ls, t, name);
      } else if |cs| < CANDIDATES {
        AppendFaithful(cs, ls, t, name);
      } else {
        SumsNext(ls, LoadOf(t), name);
      }
    }
  }

  /** Whatever the order of the scan, the candidates are exact summaries of distinct names, and of every name that
      occurs unless the table is full. */
  lemma {:induction false} FoldSummarises(ts: seq<Task>)
    requires ValidTasks(ts)
    ensures Summarises(Fold(ts, false), Loads(ts))
  {
    if ts == [] {
      assert forall n :: Faithful([], [], n);
    } else {
      var ts', t := ts[..|ts| - 1], ts[|ts| - 1];
      assert Loads(ts) == Loads(ts') + [LoadOf(t)];
      FoldSummarises(ts');
      AddSummarises(Fold(ts', false), Loads(ts'), t);
    }
  }

  // ---------------------------------------------------------------- how many names there are

  function NamesOf(cs: seq<Candidate>): (s: set<seq<byte>>) {
    if cs == [] then {} else NamesOf(cs[..|cs| - 1]) + {cs[|cs| - 1].name}
  }

  lemma {:induction false} NamesOfHas(cs: seq<Candidate>, name: seq<byte>)
    ensures name in NamesOf(cs) <==> Listed(cs, name)
  {
    if cs != [] {
      var cs', c := cs[..|cs| - 1], cs[|cs| - 1];
      NamesOfHas(cs', name);
      assert forall j :: 0 <= j < |cs'| ==> cs'[j] == cs[j];
      assert Listed(cs', name) ==> cs[IndexOf(cs', name)].name == name;
    }
  }

  lemma {:induction false} NamesOfSize(cs: seq<Candidate>)
    requires DistinctNames(cs)
    ensures |NamesOf(cs)| == |cs|
  {
    if cs != [] {
      var cs' := cs[..|cs| - 1];
      NamesOfSize(cs');
      NamesOfHas(cs', cs[|cs| - 1].name);
    }
  }

  lemma {:induction false} Occurs(ls: seq<Load>, name: seq<byte>)
    ensures name in Names(ls) <==> Count(ls, name) > 0
  {
    if ls != [] {
      var ls', l := ls[..|ls| - 1], ls[|ls| - 1];
      Occurs(ls', name);
      assert forall j :: 0 <= j < |ls'| ==> ls'[j] == ls[j];
      assert l.name in Names(ls);
      assert name in Names(ls') ==> name in Names(ls);
    }
  }

  lemma {:induction false} ListedOccur(cs: seq<Candidate>, ls: seq<Load>)
    requires Summarises(cs, ls)
    ensures NamesOf(cs) <= Names(ls) && |NamesOf(cs)| == |cs|
    ensures |cs| < CANDIDATES ==> NamesOf(cs) == Names(ls)
  {
    NamesOfSize(cs);
    forall n ensures n in NamesOf(cs) ==> n in Names(ls)
             ensures |cs| < CANDIDATES && n in Names(ls) ==> n in NamesOf(cs)
    {
      assert Faithful(cs, ls, n);
      NamesOfHas(cs, n);
      Occurs(ls, n);
    }
  }

  /** Up to 512 distinct names all find a place. */
  lemma {:induction false} AllListed(cs: seq<Candidate>, ls: seq<Load>, name: seq<byte>)
    requires Summarises(cs, ls) && |Names(ls)| <= CANDIDATES
    ensures Listed(cs, name) <==> Count(ls, name) > 0
  {
    ListedOccur(cs, ls);
    SubsetSize(NamesOf(cs), Names(ls));
    NamesOfHas(cs, name);
    Occurs(ls, name);
  }

  // ---------------------------------------------------------------- order does not matter

  function Without(ls: seq<Load>, j: nat): (r: seq<Load>)
    requires j < |ls|
  {
    ls[..j] + ls[j + 1..]
  }

  lemma {:induction false} WithoutSums(ls: seq<Load>, j: nat, name: seq<byte>)
    requires j < |ls|
    ensures Count(ls, name) == Count(Without(ls, j), name) + if ls[j].name == name then 1 else 0
    ensures CpuOf(ls, name) == CpuOf(Without(ls, j), name) + if ls[j].name == name then ls[j].cpu else 0
  {
    var n := |ls| - 1;
    if j < n {
      WithoutSums(ls[..n], j, name);
      assert Without(ls, j) == Without(ls[..n], j) + [ls[n]];
      SumsNext(Without(ls[..n], j), ls[n], name);
    } else {
      assert Without(ls, j) == ls[..n];
    }
  }

  lemma {:induction false} WithoutElements<T>(ls: seq<T>, j: nat)
    requires j < |ls|
    ensures multiset(ls[..j] + ls[j + 1..]) == multiset(ls) - multiset{ls[j]}
  {
    assert ls == ls[..j] + [ls[j]] + ls[j + 1..];
  }

  lemma {:induction false} Position<T>(s: seq<T>, x: T) returns (i: nat)
    requires multiset(s)[x] > 0
    ensures i < |s| && s[i] == x
  {
    assert x in s;
    i :| 0 <= i < |s| && s[i] == x;
  }

  lemma {:induction false} SumsIgnoreOrder(xs: seq<Load>, ys: seq<Load>, name: seq<byte>)
    requires multiset(xs) == multiset(ys)
    ensures Count(xs, name) == Count(ys, name) && CpuOf(xs, name) == CpuOf(ys, name)
    decreases |xs|
  {
    assert |xs| == |multiset(xs)| == |multiset(ys)| == |ys|;
    if xs != [] {
      var n := |xs| - 1;
      assert xs == xs[..n] + [xs[n]];
      assert multiset(xs)[xs[n]] > 0;
      var j := Position(ys, xs[n]);
      WithoutSums(ys, j, name);
      WithoutElements(ys, j);
      SumsIgnoreOrder(xs[..n], Without(ys, j), name);
    }
  }

  lemma {:induction false} NamesIgnoreOrder(xs: seq<Load>, ys: seq<Load>)
    requires multiset(xs) == multiset(ys)
    ensures Names(xs) == Names(ys)
  {
    forall n ensures n in Names(xs) <==> n in Names(ys) {
      SumsIgnoreOrder(xs, ys, n);
      Occurs(xs, n);
      Occurs(ys, n);
    }
  }

  lemma {:induction false} CandidateFound(
    cs: seq<Candidate>, ds: seq<Candidate>, xs: seq<Load>, ys: seq<Load>, c: Candidate)
    requires Summarises(cs, xs) && Summarises(ds, ys) && multiset(xs) == multiset(ys) && |Names(xs)| <= CANDIDATES
    requires c in cs
    ensures c in ds
  {
    var i :| 0 <= i < |cs| && cs[i] == c;
    ListedAt(cs, i);
    assert Faithful(cs, xs, c.name) && Faithful(ds, ys, c.name);
    NamesIgnoreOrder(xs, ys);
    SumsIgnoreOrder(xs, ys, c.name);
    AllListed(ds, ys, c.name);
    assert ds[IndexOf(ds, c.name)] == c;
  }

  lemma {:induction false} AtMostOnce(cs: seq<Candidate>, c: Candidate)
    requires DistinctNames(cs)
    ensures multiset(cs)[c] <= 1
  {
    if cs != [] {
      var n := |cs| - 1;
      AtMostOnce(cs[..n], c);
      assert cs == cs[..n] + [cs[n]];
      assert cs[n] == c ==> c !in cs[..n];
    }
  }

  lemma {:induction false} OccursTwice<T>(s: seq<T>, i: nat, j: nat)
    requires i < j < |s|
    ensures s[i] == s[j] ==> multiset(s)[s[i]] >= 2
  {
    assert s == s[..j] + [s[j]] + s[j + 1..];
    assert s[..j][i] == s[i];
    assert multiset(s[..j])[s[i]] > 0;
  }

  lemma {:induction false} SortedKeepsNames(cs: seq<Candidate>, s: seq<Candidate>)
    requires SortedVersion(cs, s) && DistinctNames(cs)
    ensures DistinctNames(s)
  {
    forall i, j | 0 <= i < j < |s| ensures s[i].name != s[j].name {
      AtMostOnce(cs, s[i]);
      OccursTwice(s, i, j);
      assert multiset(s)[s[i]] > 0 && multiset(s)[s[j]] > 0;
      var a := Position(cs, s[i]);
      var b := Position(cs, s[j]);
      assert a < b || b < a;
    }
  }

  lemma {:induction false} SortedHas(cs: seq<Candidate>, s: seq<Candidate>, c: Candidate)
    requires SortedVersion(cs, s)
    ensures c in s <==> c in cs
  {
    assert c in s <==> c in multiset(s);
    assert c in cs <==> c in multiset(cs);
  }

  lemma {:induction false} CandidatesAgree(
    cs: seq<Candidate>, ds: seq<Candidate>, xs: seq<Load>, ys: seq<Load>, c: Candidate)
    requires Summarises(cs, xs) && Summarises(ds, ys) && multiset(xs) == multiset(ys) && |Names(xs)| <= CANDIDATES
    ensures c in cs <==> c in ds
  {
    NamesIgnoreOrder(xs, ys);
    if c in cs {
      CandidateFound(cs, ds, xs, ys, c);
    }
    if c in ds {
      CandidateFound(ds, cs, ys, xs, c);
    }
  }

  // ---------------------------------------------------------------- the report

  /** m is the smaller of the two. */
  predicate Smaller(m: nat, a: nat, b: nat) {
    m <= a && m <= b && (m == a || m == b)
  }

  /** The entry reports the candidate: its name and ids, and its count and load as far as 16 bits go. */
  predicate Reports(e: ThreadEntry, c: Candidate) {
    && e.name == c.name && e.pid == c.pid && e.tid == c.tid
    && Smaller(e.instances, c.instances, 65535) && Smaller(e.cpu, c.cpu, 65535)
  }

  /** Counts and loads are cut to 16 bits only after the selection. */
  function Copied(c: Candidate): (e: ThreadEntry)
    ensures Reports(e, c)
  {
    ThreadEntry(c.name, if c.instances > U16_MAX then U16_MAX else c.instances,
                if c.cpu > U16_MAX then U16_MAX else c.cpu, c.pid, c.tid)
  }

  /** How many of the sorted candidates are reported: at most n and at most seven. */
  function TopCount(s: seq<Candidate>, n: nat): (k: nat)
    ensures k <= |s| && k <= n && k <= 7 && (k == |s| || k == n || k == 7)
  {
    var k := if |s| > n then n else |s|;
    if k > MAX_TOP then MAX_TOP else k
  }

  /** The list has the first n of the sorted candidates, or seven, or all of them, whichever is the fewest. */
  predicate TopOf(r: seq<ThreadEntry>, s: seq<Candidate>, n: nat) {
    && |r| <= |s| && |r| <= n && |r| <= 7 && (|r| == |s| || |r| == n || |r| == 7)
    && forall i :: 0 <= i < |r| ==> Reports(r[i], s[i])
  }

  function Report(s: seq<Candidate>, n: nat): (r: seq<ThreadEntry>)
    ensures |r| == TopCount(s, n) && TopOf(r, s, n)
  {
    seq(TopCount(s, n), i requires 0 <= i < TopCount(s, n) => Copied(s[i]))
  }

  method CopyTop(sorted: array<Candidate>, count: nat, topN: nat) returns (top: seq<ThreadEntry>)
    requires count <= sorted.Length
    ensures top == Report(sorted[..count], topN) && TopOf(top, sorted[..count], topN)
  {
    var topCount := count;
    if topCount > topN {
      topCount := topN;
    }
    if topCount > MAX_TOP {
      topCount := MAX_TOP;
    }
    top := [];
    for i := 0 to topCount
      invariant |top| == i && forall j :: 0 <= j < i ==> top[j] == Copied(sorted[j])
    {
      top := top + [Copied(sorted[i])];
    }
  }

  /** The reported list is a function of the multiset of (name, cpu) pairs: neither the scan order nor the sort
      shows. */
  lemma {:induction false} TopListIgnoresOrder(
    a: seq<Task>, b: seq<Task>, sa: seq<Candidate>, sb: seq<Candidate>, n: nat)
    requires ValidTasks(a) && ValidTasks(b)
    requires multiset(Loads(a)) == multiset(Loads(b)) && |Names(Loads(a))| <= CANDIDATES
    requires SortedVersion(Fold(a, false), sa) && SortedVersion(Fold(b, false), sb)
    ensures sa == sb && Report(sa, n) == Report(sb, n)
  {
    FoldSummarises(a);
    FoldSummarises(b);
    var cs, ds := Fold(a, false), Fold(b, false);
    SortedKeepsNames(cs, sa);
    SortedKeepsNames(ds, sb);
    forall c ensures c in sa <==> c in sb {
      SortedHas(cs, sa, c);
      SortedHas(ds, sb, c);
      CandidatesAgree(cs, ds, Loads(a), Loads(b), c);
    }
    RankingIsUnique(sa, sb);
  }

  /** Strictly by cpu, descending, then by name; so every omitted name ranks after every listed one. */
  lemma {:induction false} StrictlyRanked(a: seq<Task>, sa: seq<Candidate>, i: nat, j: nat)
    requires ValidTasks(a) && SortedVersion(Fold(a, false), sa) && i < j < |sa|
    ensures sa[i].cpu > sa[j].cpu || (sa[i].cpu == sa[j].cpu && Strcmp(sa[i].name, sa[j].name) < 0)
  {
    FoldSummarises(a);
    SortedKeepsNames(Fold(a, false), sa);
    StrcmpZero(sa[i].name, sa[j].name);
    assert Compare(sa[i], sa[j]) <= 0;
  }

  // ---------------------------------------------------------------- more than 512 names

  /** The threads whose name is (or, with `same` false, is not) the given one, in scan order. */
  function Named(ts: seq<Task>, name: seq<byte>, same: bool): (r: seq<Task>) {
    if ts == [] then []
    else Named(ts[..|ts| - 1], name, same) + if (ts[|ts| - 1].name == name) == same then [ts[|ts| - 1]] else []
  }

  /** The same threads, with those of one name moved to the end. */
  function MovedLast(ts: seq<Task>, name: seq<byte>): (r: seq<Task>) {
    Named(ts, name, false) + Named(ts, name, true)
  }

  lemma {:induction false} NamedSound(ts: seq<Task>, name: seq<byte>, same: bool)
    requires ValidTasks(ts)
    ensures ValidTasks(Named(ts, name, same))
    ensures forall i :: 0 <= i < |Named(ts, name, same)| ==> (Named(ts, name, same)[i].name == name) == same
  {
    if ts != [] {
      NamedSound(ts[..|ts| - 1], name, same);
    }
  }

  lemma {:induction false} OneMorePermutes(a: seq<Task>, b: seq<Task>, t: Task)
    ensures multiset(a + [t] + b) == multiset(a + b + [t]) == multiset(a + (b + [t]))
  {
    assert a + (b + [t]) == a + b + [t];
  }

  lemma {:induction false} MovedLastPermutes(ts: seq<Task>, name: seq<byte>)
    ensures multiset(MovedLast(ts, name)) == multiset(ts)
  {
    if ts != [] {
      var ts', t := ts[..|ts| - 1], ts[|ts| - 1];
      MovedLastPermutes(ts', name);
      assert ts == ts' + [t];
      OneMorePermutes(Named(ts', name, false), Named(ts', name, true), t);
    }
  }

  lemma {:induction false} CountNext(ts: seq<Task>, t: Task, name: seq<byte>)
    ensures Count(Loads(ts + [t]), name) == Count(Loads(ts), name) + if t.name == name then 1 else 0
  {
    assert Loads(ts + [t]) == Loads(ts) + [LoadOf(t)];
    SumsNext(Loads(ts), LoadOf(t), name);
  }

  lemma {:induction false} OthersKeepCount(ts: seq<Task>, name: seq<byte>, other: seq<byte>)
    ensures Count(Loads(Named(ts, name, false)), other) == if other == name then 0 else Count(Loads(ts), other)
  {
    if ts != [] {
      var ts', t := ts[..|ts| - 1], ts[|ts| - 1];
      OthersKeepCount(ts', name, other);
      assert ts == ts' + [t];
      CountNext(ts', t, other);
      var rest := Named(ts', name, false);
      CountNext(rest, t, other);
      assert rest + [] == rest;
    }
  }

  lemma {:induction false} OthersNames(ts: seq<Task>, name: seq<byte>)
    ensures Names(Loads(Named(ts, name, false))) == Names(Loads(ts)) - {name}
  {
    forall n ensures n in Names(Loads(Named(ts, name, false))) <==> n in Names(Loads(ts)) - {name} {
      OthersKeepCount(ts, name, n);
      Occurs(Loads(ts), n);
      Occurs(Loads(Named(ts, name, false)), n);
    }
  }

  lemma {:induction false} FullTableStays(before: seq<Task>, late: seq<Task>, name: seq<byte>)
    requires |Fold(before, false)| == CANDIDATES && !Listed(Fold(before, false), name)
    requires forall i :: 0 <= i < |late| ==> late[i].name == name
    ensures Fold(before + late, false) == Fold(before, false)
  {
    if late == [] {
      assert before + late == before;
    } else {
      var n := |late| - 1;
      assert (before + late)[..|before| + n] == before + late[..n];
      FullTableStays(before, late[..n], name);
      AddIndex(Fold(before, false), late[n]);
    }
  }

  lemma {:induction false} ManyNamesFill(ts: seq<Task>)
    requires ValidTasks(ts) && |Names(Loads(ts))| >= CANDIDATES
    ensures |Fold(ts, false)| == CANDIDATES
  {
    FoldSummarises(ts);
    ListedOccur(Fold(ts, false), Loads(ts));
  }

  /** A name whose threads are scanned last is dropped when 512 others came first. */
  lemma {:induction false} ScannedLastIsDropped(ts: seq<Task>, name: seq<byte>)
    requires ValidTasks(ts) && |Names(Loads(ts))| > CANDIDATES
    ensures !Listed(Fold(MovedLast(ts, name), false), name)
  {
    var rest := Named(ts, name, false);
    NamedSound(ts, name, false);
    NamedSound(ts, name, true);
    OthersNames(ts, name);
    assert |Names(Loads(ts)) - {name}| >= |Names(Loads(ts))| - 1;
    ManyNamesFill(rest);
    FoldSummarises(rest);
    assert Faithful(Fold(rest, false), Loads(rest), name);
    OthersKeepCount(ts, name, name);
    FullTableStays(rest, Named(ts, name, true), name);
  }

  /** Beyond 512 names the list always depends on the scan order: moving the threads of the top name to the end of the
      scan changes it, whichever way the candidates are sorted. */
  lemma {:induction false} TopListDependsOnOrder(ts: seq<Task>, sa: seq<Candidate>, sb: seq<Candidate>, n: nat)
    requires ValidTasks(ts) && |Names(Loads(ts))| > CANDIDATES && n >= 1 && SortedVersion(Fold(ts, false), sa)
    ensures sa != [] && multiset(MovedLast(ts, sa[0].name)) == multiset(ts)
    ensures SortedVersion(Fold(MovedLast(ts, sa[0].name), false), sb) ==> Report(sb, n) != Report(sa, n)
  {
    ManyNamesFill(ts);
    assert |sa| == |multiset(sa)| == |Fold(ts, false)|;
    var name := sa[0].name;
    MovedLastPermutes(ts, name);
    ScannedLastIsDropped(ts, name);
    if sb != [] && SortedVersion(Fold(MovedLast(ts, name), false), sb) {
      SortedHas(Fold(MovedLast(ts, name), false), sb, sb[0]);
      assert sb[0].name != name;
    }
    ReportsFirst(sa, n);
    ReportsFirst(sb, n);
  }

  lemma {:induction false} ReportsFirst(s: seq<Candidate>, n: nat)
    requires n >= 1
    ensures if s == [] then Report(s, n) == [] else Report(s, n) != [] && Report(s, n)[0].name == s[0].name
  {
  }

  // ---------------------------------------------------------------- thread identities

  const FIRST := Task(1, 1, [97], 'R', 5, true)
  const SECOND := Task(1, 2, [97], 'R', 5, true)

  /** With one entry per thread, equal names and loads tie, and the list depends on how the sort breaks the tie. */
  lemma {:induction false} TiesDependOnTheSort()
    ensures exists s, t ::
              && SortedVersion(Fold([FIRST, SECOND], true), s) && SortedVersion(Fold([FIRST, SECOND], true), t)
              && Report(s, 1) != Report(t, 1)
  {
    var c, d := NewCandidate(FIRST, true), NewCandidate(SECOND, true);
    FoldTwo();
    EitherOrder(c, d);
    assert Report([c, d], 1)[0] == Copied(c) && Report([d, c], 1)[0] == Copied(d);
  }

  lemma {:induction false} FoldTwo()
    ensures Fold([FIRST, SECOND], true) == [NewCandidate(FIRST, true), NewCandidate(SECOND, true)]
  {
    var ts := [FIRST, SECOND];
    assert ts[..1] == [FIRST] && [FIRST][..0] == [];
    assert Fold([FIRST], true) == [NewCandidate(FIRST, true)];
  }

  lemma {:induction false} EitherOrder(c: Candidate, d: Candidate)
    requires Compare(c, d) == 0 == Compare(d, c)
    ensures SortedVersion([c, d], [c, d]) && SortedVersion([c, d], [d, c])
  {
    assert multiset([c, d]) == multiset([d, c]);
  }

  // ---------------------------------------------------------------- when the sort shows

  /** What the comparison looks at. */
  function Key(c: Candidate): (k: Candidate) {
    Candidate(c.name, 0, 0, 0, c.cpu)
  }

  function Keys(s: seq<Candidate>): (ks: seq<Candidate>)
    ensures |ks| == |s|
  {
    seq(|s|, i requires 0 <= i < |s| => Key(s[i]))
  }

  predicate AllKeys(s: seq<Candidate>) {
    forall i :: 0 <= i < |s| ==> s[i] == Key(s[i])
  }

  lemma {:induction false} KeysRanked(s: seq<Candidate>)
    requires Ranked(s)
    ensures Ranked(Keys(s)) && AllKeys(Keys(s))
  {
    forall i, j | 0 <= i < j < |s| ensures Compare(Keys(s)[i], Keys(s)[j]) <= 0 {
      assert Compare(s[i], s[j]) <= 0;
    }
  }

  lemma {:induction false} KeysWithout(s: seq<Candidate>, j: nat)
    requires j < |s|
    ensures multiset(Keys(s)) == multiset(Keys(s[..j] + s[j + 1..])) + multiset{Key(s[j])}
  {
    assert Keys(s)[..j] + Keys(s)[j + 1..] == Keys(s[..j] + s[j + 1..]);
    assert Keys(s) == Keys(s)[..j] + [Key(s[j])] + Keys(s)[j + 1..];
  }

  lemma {:induction false} TailElements<T>(s: seq<T>)
    requires s != []
    ensures multiset(s[1..]) == multiset(s) - multiset{s[0]}
  {
    assert s == [s[0]] + s[1..];
  }

  lemma {:induction false} KeysTail(s: seq<Candidate>)
    requires s != []
    ensures multiset(Keys(s)) == multiset(Keys(s[1..])) + multiset{Key(s[0])}
  {
    assert Keys(s) == [Key(s[0])] + Keys(s[1..]);
  }

  lemma {:induction false} KeysIgnoreOrder(s: seq<Candidate>, t: seq<Candidate>)
    requires multiset(s) == multiset(t)
    ensures multiset(Keys(s)) == multiset(Keys(t))
    decreases |s|
  {
    assert |s| == |multiset(s)| == |multiset(t)| == |t|;
    if s == [] {
      assert Keys(s) == Keys(t);
    } else {
      assert multiset(s)[s[0]] > 0;
      var j := Position(t, s[0]);
      var t' := t[..j] + t[j + 1..];
      WithoutElements(t, j);
      TailElements(s);
      KeysIgnoreOrder(s[1..], t');
      KeysTail(s);
      KeysWithout(t, j);
    }
  }

  lemma {:induction false} KeyRankingIsUnique(s: seq<Candidate>, t: seq<Candidate>)
    requires Ranked(s) && Ranked(t) && AllKeys(s) && AllKeys(t) && multiset(s) == multiset(t)
    ensures s == t
    decreases |s|
  {
    assert |s| == |multiset(s)| == |multiset(t)| == |t|;
    if s != [] {
      SameFirstKey(s, t);
      TailElements(s);
      TailElements(t);
      assert s == [s[0]] + s[1..] && t == [t[0]] + t[1..];
      KeyRankingIsUnique(s[1..], t[1..]);
    }
  }

  lemma {:induction false} SameFirstKey(s: seq<Candidate>, t: seq<Candidate>)
    requires Ranked(s) && Ranked(t) && AllKeys(s) && AllKeys(t) && multiset(s) == multiset(t) && s != [] && t != []
    ensures s[0] == t[0]
  {
    assert multiset(s)[s[0]] > 0 && multiset(t)[t[0]] > 0;
    var i := Position(t, s[0]);
    var j := Position(s, t[0]);
    assert i == 0 || Compare(t[0], t[i]) <= 0;
    assert j == 0 || Compare(s[0], s[j]) <= 0;
    StrcmpZero(s[0].name, t[0].name);
  }

  /** Any two sorts agree on loads and names, place by place. */
  lemma {:induction false} SortsAgreeOnKeys(cs: seq<Candidate>, s: seq<Candidate>, t: seq<Candidate>, i: nat)
    requires SortedVersion(cs, s) && SortedVersion(cs, t) && i < |s|
    ensures |t| == |s| && Key(s[i]) == Key(t[i])
  {
    KeysIgnoreOrder(s, t);
    KeysRanked(s);
    KeysRanked(t);
    KeyRankingIsUnique(Keys(s), Keys(t));
    assert Keys(s)[i] == Keys(t)[i];
  }

  /** Two candidates of equal load and name that report differently, at least one of them within the list. */
  predicate TieShows(s: seq<Candidate>, k: nat) {
    exists i, j :: 0 <= i < j < |s| && i < k && Key(s[i]) == Key(s[j]) && Copied(s[i]) != Copied(s[j])
  }

  lemma {:induction false} WithoutTiesSortsAgree(cs: seq<Candidate>, s: seq<Candidate>, t: seq<Candidate>, n: nat)
    requires SortedVersion(cs, s) && SortedVersion(cs, t) && !TieShows(s, TopCount(s, n))
    ensures Report(s, n) == Report(t, n)
  {
    assert |s| == |multiset(s)| == |multiset(t)| == |t|;
    forall i | 0 <= i < TopCount(s, n) ensures Copied(s[i]) == Copied(t[i]) {
      SortsAgreeOnKeys(cs, s, t, i);
      assert multiset(t)[t[i]] > 0;
      var j := Position(s, t[i]);
      assert j == i || (i < j && Key(s[i]) == Key(s[j])) || (j < i && Key(s[j]) == Key(s[i]));
    }
  }

  lemma {:induction false} SwappedIsSorted(cs: seq<Candidate>, s: seq<Candidate>, i: nat, j: nat)
    requires SortedVersion(cs, s) && i < j < |s| && Key(s[i]) == Key(s[j])
    ensures SortedVersion(cs, s[i := s[j]][j := s[i]])
  {
    var t := s[i := s[j]][j := s[i]];
    assert multiset(t) == multiset(s);
    forall a, b | 0 <= a < b < |t| ensures Compare(t[a], t[b]) <= 0 {
      assert Key(t[a]) == Key(s[a]) && Key(t[b]) == Key(s[b]);
      assert Compare(s[a], s[b]) <= 0;
    }
  }

  lemma {:induction false} SwapShows(s: seq<Candidate>, i: nat, j: nat, n: nat)
    requires i < j < |s| && i < TopCount(s, n) && Copied(s[i]) != Copied(s[j])
    ensures Report(s[i := s[j]][j := s[i]], n) != Report(s, n)
  {
    var t := s[i := s[j]][j := s[i]];
    assert Report(t, n)[i] == Copied(s[j]) && Report(s, n)[i] == Copied(s[i]);
  }

  lemma {:induction false} TieSwapped(cs: seq<Candidate>, s: seq<Candidate>, n: nat) returns (t: seq<Candidate>)
    requires SortedVersion(cs, s) && TieShows(s, TopCount(s, n))
    ensures SortedVersion(cs, t) && Report(t, n) != Report(s, n)
  {
    var i, j :| 0 <= i < j < |s| && i < TopCount(s, n) && Key(s[i]) == Key(s[j]) && Copied(s[i]) != Copied(s[j]);
    SwappedIsSorted(cs, s, i, j);
    SwapShows(s, i, j, n);
    t := s[i := s[j]][j := s[i]];
  }

  /** In either mode the list is the same for every correct sort if and only if no tie reaches into it. */
  lemma {:induction false} SortShowsOnlyInTies(cs: seq<Candidate>, s: seq<Candidate>, n: nat)
    requires SortedVersion(cs, s)
    ensures (forall t :: SortedVersion(cs, t) ==> Report(t, n) == Report(s, n)) <==> !TieShows(s, TopCount(s, n))
  {
    if TieShows(s, TopCount(s, n)) {
      var t := TieSwapped(cs, s, n);
    } else {
      forall t | SortedVersion(cs, t) ensures Report(t, n) == Report(s, n) {
        WithoutTiesSortsAgree(cs, s, t, n);
      }
    }
  }
}
