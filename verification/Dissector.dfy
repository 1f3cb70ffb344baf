/** The Wireshark dissector's stream tracking: packets may be visited in any order and any number of times, and
    each is compared with the latest packet of its own stream, across wraps of the 32-bit sequence number. */
module Dissector {
  import opened Options

  const MODULUS: nat := 0x1_0000_0000
  const WRAP_WINDOW: nat := 65536

  /** One captured datagram; `stream` is its tracking key. */
  datatype Packet = Packet(number: nat, time: real, stream: string, timestamp: int, sequence: nat)
  datatype Record = Record(number: nat, time: real, timestamp: int, sequence: nat)

  datatype Analysis = Analysis(
    stream: string, previousFrame: Option<nat>, arrivalDelta: Option<real>, timestampDelta: Option<int>,
    sequenceDelta: Option<nat>, missing: nat, gap: bool, regression: bool, duplicate: bool, arrivalGap: bool)

  /** The forward distance between two sequence numbers; None stands for a regression. */
  function ForwardDelta(previous: nat, current: nat): (r: Option<nat>)
    requires previous < MODULUS && current < MODULUS
  {
    if current >= previous then Some(current - previous)
    else if previous >= MODULUS - WRAP_WINDOW && current < WRAP_WINDOW then Some(MODULUS - previous + current)
    else None
  }

  function RecordOf(p: Packet): (r: Record) {
    Record(p.number, p.time, p.timestamp, p.sequence)
  }

  function Alone(p: Packet): (a: Analysis) {
    Analysis(p.stream, None, None, None, None, 0, false, false, false, false)
  }

  function Compare(r: Record, p: Packet, threshold: real): (a: Analysis)
    requires r.sequence < MODULUS && p.sequence < MODULUS
  {
    var delta := ForwardDelta(r.sequence, p.sequence);
    Analysis(p.stream, Some(r.number), Some(p.time - r.time), Some(p.timestamp - r.timestamp), delta,
             if delta.Some? && delta.value > 1 then delta.value - 1 else 0,
             delta.Some? && delta.value > 1, delta.None?, delta == Some(0), p.time - r.time > threshold)
  }

  type Streams = m: map<string, Record> | forall k :: k in m ==> m[k].sequence < MODULUS

  datatype Tracker = Tracker(streams: Streams, analyses: map<nat, Analysis>)
  const EMPTY := Tracker(map[], map[])

  predicate Newer(t: Tracker, p: Packet) {
    p.stream in t.streams && p.number > t.streams[p.stream].number
  }

  function Fresh(t: Tracker, p: Packet, threshold: real): (a: Analysis)
    requires p.sequence < MODULUS
  {
    if Newer(t, p) then Compare(t.streams[p.stream], p, threshold) else Alone(p)
  }

  function Visit(t: Tracker, p: Packet, threshold: real): (t': Tracker)
    requires p.sequence < MODULUS
  {
    if p.number in t.analyses then t
    else
      Tracker(if p.stream !in t.streams || Newer(t, p) then t.streams[p.stream := RecordOf(p)] else t.streams,
              t.analyses[p.number := Fresh(t, p, threshold)])
  }

  class StreamTracker {
    var streams: Streams
    var analyses: map<nat, Analysis>
    var threshold: real

    ghost function Abs(): (t: Tracker)
      reads this
    {
      Tracker(streams, analyses)
    }

    constructor (gapThreshold: real)
      ensures Abs() == EMPTY && threshold == gapThreshold
    {
      streams, analyses, threshold := map[], map[], gapThreshold;
    }

    method AnalyseFrame(p: Packet) returns (a: Analysis)
      requires p.sequence < MODULUS
      modifies this`streams, this`analyses
      ensures Abs() == Visit(old(Abs()), p, threshold)
      ensures p.number in analyses && a == analyses[p.number]
    {
      if p.number in analyses {
        return analyses[p.number];
      }
      a := Alone(p);
      var first := p.stream !in streams;
      var newer := !first && p.number > streams[p.stream].number;
      if newer {
        var previous := streams[p.stream];
        a := a.(previousFrame := Some(previous.number), arrivalDelta := Some(p.time - previous.time),
                timestampDelta := Some(p.timestamp - previous.timestamp));
        var delta := ForwardDelta(previous.sequence, p.sequence);
        a := a.(sequenceDelta := delta, regression := delta.None?);
        if delta.Some? {
          a := a.(duplicate := delta.value == 0);
          if delta.value > 1 {
            a := a.(missing := delta.value - 1, gap := true);
          }
        }
        a := a.(arrivalGap := p.time - previous.time > threshold);
      }
      analyses := analyses[p.number := a];
      if first || newer {
        streams := streams[p.stream := RecordOf(p)];
      }
    }
  }

  // ---------------------------------------------------------------- visit histories

  predicate Sane(h: seq<Packet>) {
    forall i :: 0 <= i < |h| ==> h[i].sequence < MODULUS
  }

  /** A frame number names one packet of the capture. */
  predicate Consistent(h: seq<Packet>) {
    Sane(h) && forall i, j :: 0 <= i < |h| && 0 <= j < |h| && h[i].number == h[j].number ==> h[i] == h[j]
  }

  /** The tracker after a history of visits. */
  function After(h: seq<Packet>, threshold: real): (t: Tracker)
    requires Sane(h)
  {
    if h == [] then EMPTY else Visit(After(h[..|h| - 1], threshold), h[|h| - 1], threshold)
  }

  predicate Visited(h: seq<Packet>, n: nat) {
    exists i :: 0 <= i < |h| && h[i].number == n
  }

  lemma {:induction false} AnalysedAreVisited(h: seq<Packet>, threshold: real, n: nat)
    requires Sane(h)
    ensures n in After(h, threshold).analyses <==> Visited(h, n)
  {
    if h != [] {
      var h', p := h[..|h| - 1], h[|h| - 1];
      AnalysedAreVisited(h', threshold, n);
      assert Visited(h', n) ==> Visited(h, n);
      assert p.number == n ==> Visited(h, n);
      assert Visited(h, n) ==> Visited(h', n) || p.number == n;
    }
  }

  /** Re-dissecting a packet changes nothing, however much was visited in between. */
  lemma {:induction false} RevisitChangesNothing(h: seq<Packet>, threshold: real, p: Packet)
    requires Sane(h) && p.sequence < MODULUS && Visited(h, p.number)
    ensures Visit(After(h, threshold), p, threshold) == After(h, threshold)
  {
    AnalysedAreVisited(h, threshold, p.number);
  }

  /** And it answers what the first dissection answered. */
  lemma {:induction false} FirstAnalysisStays(h: seq<Packet>, more: seq<Packet>, threshold: real, n: nat)
    requires Sane(h) && Sane(h + more) && Visited(h, n)
    ensures n in After(h, threshold).analyses && n in After(h + more, threshold).analyses
    ensures After(h + more, threshold).analyses[n] == After(h, threshold).analyses[n]
    decreases |more|
  {
    AnalysedAreVisited(h, threshold, n);
    if more == [] {
      assert h + more == h;
    } else {
      var more' := more[..|more| - 1];
      assert (h + more)[..|h + more| - 1] == h + more';
      FirstAnalysisStays(h, more', threshold, n);
    }
  }

  // ---- the state of a stream

  /** `r` is the record of the highest-numbered packet of the stream among those visited. */
  ghost predicate Highest(h: seq<Packet>, stream: string, r: Record) {
    && (exists i :: 0 <= i < |h| && h[i].stream == stream && RecordOf(h[i]) == r)
    && (forall i :: 0 <= i < |h| && h[i].stream == stream ==> h[i].number <= r.number)
  }

  predicate Seen(h: seq<Packet>, stream: string) {
    exists i :: 0 <= i < |h| && h[i].stream == stream
  }

  lemma {:induction false} StreamHoldsHighest(h: seq<Packet>, threshold: real, stream: string)
    requires Consistent(h)
    ensures stream in After(h, threshold).streams <==> Seen(h, stream)
    ensures Seen(h, stream) ==> Highest(h, stream, After(h, threshold).streams[stream])
  {
    if h != [] {
      var h', p := h[..|h| - 1], h[|h| - 1];
      StreamHoldsHighest(h', threshold, stream);
      AnalysedAreVisited(h', threshold, p.number);
      HighestStep(h', p, threshold, stream);
      assert h == h' + [p];
    }
  }

  lemma {:induction false} HighestStep(h: seq<Packet>, p: Packet, threshold: real, stream: string)
    requires Consistent(h + [p]) && Consistent(h) && p.sequence < MODULUS
    requires stream in After(h, threshold).streams <==> Seen(h, stream)
    requires Seen(h, stream) ==> Highest(h, stream, After(h, threshold).streams[stream])
    requires p.number in After(h, threshold).analyses <==> Visited(h, p.number)
    ensures var t := Visit(After(h, threshold), p, threshold);
            && (stream in t.streams <==> Seen(h + [p], stream))
            && (Seen(h + [p], stream) ==> Highest(h + [p], stream, t.streams[stream]))
  {
    var t := After(h, threshold);
    var hp := h + [p];
    assert forall i :: 0 <= i < |h| ==> hp[i] == h[i];
    assert hp[|h|] == p;
    if Visited(h, p.number) {
      var i :| 0 <= i < |h| && h[i].number == p.number;
      assert hp[i] == hp[|h|];
    }
  }

  // ---- what an analysis says

  /** Nothing to compare with. */
  predicate Unmarked(a: Analysis, p: Packet) {
    && a.stream == p.stream && a.previousFrame.None? && a.arrivalDelta.None? && a.timestampDelta.None?
    && a.sequenceDelta.None? && a.missing == 0 && !a.gap && !a.regression && !a.duplicate && !a.arrivalGap
  }

  /** The number fell, but from the last 65536 numbers to the first 65536: it is taken for a wrap. */
  predicate SeemsWrapped(q: Packet, p: Packet) {
    q.sequence >= 0x1_0000_0000 - 65536 && p.sequence < 65536
  }

  /** The analysis of p is that of a packet that follows q. */
  predicate Follows(a: Analysis, q: Packet, p: Packet, threshold: real) {
    && a.stream == p.stream && a.previousFrame == Some(q.number)
    && a.arrivalDelta == Some(p.time - q.time) && a.timestampDelta == Some(p.timestamp - q.timestamp)
    && (a.arrivalGap <==> p.time > q.time + threshold)
    && (a.regression <==> p.sequence < q.sequence && !SeemsWrapped(q, p))
    && (a.duplicate <==> p.sequence == q.sequence)
    && (a.gap <==> a.missing > 0)
    && (a.sequenceDelta.None? <==> a.regression)
    && (p.sequence >= q.sequence ==> a.sequenceDelta == Some(p.sequence - q.sequence))
    && (p.sequence < q.sequence && SeemsWrapped(q, p) ==>
          a.sequenceDelta == Some(0x1_0000_0000 - q.sequence + p.sequence))
    && (if a.sequenceDelta.Some? && a.sequenceDelta.value > 1 then a.missing == a.sequenceDelta.value - 1
        else a.missing == 0)
  }

  /** q is the packet of p's stream with the highest number among those visited. */
  predicate Latest(h: seq<Packet>, q: Packet, stream: string) {
    q in h && q.stream == stream && forall i :: 0 <= i < |h| && h[i].stream == stream ==> h[i].number <= q.number
  }

  /** A packet visited for the first time, after any history: it is compared with the packet of its stream that has the
      highest number so far, and with none if that is not below its own. */
  lemma {:induction false} FirstVisitIsAnalysed(h: seq<Packet>, p: Packet, threshold: real)
    requires Consistent(h + [p]) && !Visited(h, p.number)
    ensures var t := After(h + [p], threshold);
            && p.number in t.analyses
            && (!Seen(h, p.stream) ==> Unmarked(t.analyses[p.number], p))
            && forall q :: Latest(h, q, p.stream) ==>
                 if q.number < p.number then Follows(t.analyses[p.number], q, p, threshold)
                 else Unmarked(t.analyses[p.number], p)
  {
    ConsistentBefore(h, p);
    assert (h + [p])[..|h|] == h && (h + [p])[|h|] == p;
    AnalysedAreVisited(h, threshold, p.number);
    StreamHoldsHighest(h, threshold, p.stream);
    forall q | Latest(h, q, p.stream)
      ensures var a := After(h + [p], threshold).analyses[p.number];
              if q.number < p.number then Follows(a, q, p, threshold) else Unmarked(a, p)
    {
      LatestIsHeld(h, q, p.stream, After(h, threshold).streams[p.stream]);
      VisitFollows(After(h, threshold), q, p, threshold);
    }
  }

  lemma {:induction false} ConsistentBefore(h: seq<Packet>, p: Packet)
    requires Consistent(h + [p])
    ensures Consistent(h) && p.sequence < MODULUS
  {
    assert forall i :: 0 <= i < |h| ==> (h + [p])[i] == h[i];
    assert (h + [p])[|h|] == p;
  }

  lemma {:induction false} LatestIsHeld(h: seq<Packet>, q: Packet, stream: string, r: Record)
    requires Consistent(h) && Latest(h, q, stream) && Highest(h, stream, r)
    ensures r == RecordOf(q)
  {
    var i :| 0 <= i < |h| && h[i].stream == stream && RecordOf(h[i]) == r;
    var j :| 0 <= j < |h| && h[j] == q;
    assert h[i].number == h[j].number;
  }

  lemma {:induction false} VisitFollows(t: Tracker, q: Packet, p: Packet, threshold: real)
    requires p.sequence < MODULUS && p.number !in t.analyses && p.stream in t.streams
    requires t.streams[p.stream] == RecordOf(q)
    ensures var a := Visit(t, p, threshold).analyses[p.number];
            if q.number < p.number then Follows(a, q, p, threshold) else Unmarked(a, p)
  {
  }

  // ---- streams do not disturb each other, and repeats do not count

  function Only(h: seq<Packet>, stream: string): (r: seq<Packet>) {
    if h == [] then []
    else Only(h[..|h| - 1], stream) + if h[|h| - 1].stream == stream then [h[|h| - 1]] else []
  }

  lemma {:induction false} OnlyPicks(h: seq<Packet>, stream: string)
    ensures forall p :: p in Only(h, stream) <==> p in h && p.stream == stream
  {
    if h != [] {
      var h' := h[..|h| - 1];
      OnlyPicks(h', stream);
      assert h == h' + [h[|h| - 1]];
    }
  }

  lemma {:induction false} OnlyConsistent(h: seq<Packet>, stream: string)
    requires Consistent(h)
    ensures Consistent(Only(h, stream))
  {
    OnlyPicks(h, stream);
    var r := Only(h, stream);
    forall i | 0 <= i < |r| ensures exists k :: 0 <= k < |h| && h[k] == r[i] {
      assert r[i] in h;
    }
  }

  /** Two trackers that agree on one stream. */
  ghost predicate Agree(t: Tracker, u: Tracker, stream: string, h: seq<Packet>) {
    && (stream in t.streams <==> stream in u.streams)
    && (stream in t.streams ==> t.streams[stream] == u.streams[stream])
    && (forall i :: 0 <= i < |h| && h[i].stream == stream ==>
          h[i].number in t.analyses && h[i].number in u.analyses && t.analyses[h[i].number] == u.analyses[h[i].number])
  }

  lemma {:induction false} VisitedOnly(h: seq<Packet>, p: Packet)
    requires Consistent(h + [p])
    ensures Visited(h, p.number) <==> Visited(Only(h, p.stream), p.number)
  {
    OnlyPicks(h, p.stream);
    var r := Only(h, p.stream);
    if Visited(h, p.number) {
      var i :| 0 <= i < |h| && h[i].number == p.number;
      assert (h + [p])[i] == h[i] && (h + [p])[|h|] == p;
      assert h[i] in r;
    }
    if Visited(r, p.number) {
      var i :| 0 <= i < |r| && r[i].number == p.number;
      assert r[i] in h;
    }
  }

  /** In any history, whatever the order, each stream gets the analyses it would get if it were alone. */
  lemma {:induction false} StreamsAreIndependent(h: seq<Packet>, threshold: real, stream: string)
    requires Consistent(h)
    ensures Consistent(Only(h, stream))
    ensures Agree(After(h, threshold), After(Only(h, stream), threshold), stream, h)
  {
    OnlyConsistent(h, stream);
    if h != [] {
      var h', p := h[..|h| - 1], h[|h| - 1];
      StreamsAreIndependent(h', threshold, stream);
      assert h == h' + [p];
      AnalysedAreVisited(h', threshold, p.number);
      if p.stream == stream {
        VisitedOnly(h', p);
        AnalysedAreVisited(Only(h', stream), threshold, p.number);
        assert Only(h, stream)[..|Only(h, stream)| - 1] == Only(h', stream);
        SameStreamStep(After(h', threshold), After(Only(h', stream), threshold), h', p, threshold);
      } else {
        assert Only(h, stream) == Only(h', stream);
        OtherStreamStep(After(h', threshold), After(Only(h', stream), threshold), h', p, threshold, stream);
      }
    }
  }

  lemma {:induction false} SameStreamStep(t: Tracker, u: Tracker, h: seq<Packet>, p: Packet, threshold: real)
    requires Agree(t, u, p.stream, h) && Consistent(h + [p]) && p.sequence < MODULUS
    requires p.number in t.analyses <==> p.number in u.analyses
    requires p.number in t.analyses <==> Visited(h, p.number)
    ensures Agree(Visit(t, p, threshold), Visit(u, p, threshold), p.stream, h + [p])
  {
    var hp := h + [p];
    assert forall i :: 0 <= i < |h| ==> hp[i] == h[i];
    assert hp[|h|] == p;
    if Visited(h, p.number) {
      var i :| 0 <= i < |h| && h[i].number == p.number;
      assert hp[i] == hp[|h|];
    }
  }

  lemma {:induction false} OtherStreamStep(
    t: Tracker, u: Tracker, h: seq<Packet>, p: Packet, threshold: real, stream: string)
    requires Agree(t, u, stream, h) && Consistent(h + [p]) && p.sequence < MODULUS && p.stream != stream
    ensures Agree(Visit(t, p, threshold), u, stream, h + [p])
  {
    var hp := h + [p];
    assert forall i :: 0 <= i < |h| ==> hp[i] == h[i];
    assert hp[|h|] == p;
    forall i | 0 <= i < |h| && h[i].stream == stream ensures h[i].number != p.number {
      assert hp[i] != hp[|h|];
    }
  }

  /** The history without its repeats. */
  function FirstVisits(h: seq<Packet>): (r: seq<Packet>) {
    if h == [] then []
    else
      var r := FirstVisits(h[..|h| - 1]);
      if Visited(h[..|h| - 1], h[|h| - 1].number) then r else r + [h[|h| - 1]]
  }

  lemma {:induction false} FirstVisitsSane(h: seq<Packet>)
    requires Sane(h)
    ensures Sane(FirstVisits(h))
  {
    if h != [] {
      FirstVisitsSane(h[..|h| - 1]);
    }
  }

  lemma {:induction false} RepeatsDoNotCount(h: seq<Packet>, threshold: real)
    requires Sane(h)
    ensures Sane(FirstVisits(h)) && After(FirstVisits(h), threshold) == After(h, threshold)
  {
    FirstVisitsSane(h);
    if h != [] {
      var h', p := h[..|h| - 1], h[|h| - 1];
      RepeatsDoNotCount(h', threshold);
      AnalysedAreVisited(h', threshold, p.number);
      if !Visited(h', p.number) {
        assert FirstVisits(h)[..|FirstVisits(h)| - 1] == FirstVisits(h');
      }
    }
  }

  // ---------------------------------------------------------------- one agent's packets, in order

  predicate Ascending(ps: seq<Packet>, stream: string) {
    && Sane(ps)
    && (forall i :: 0 <= i < |ps| ==> ps[i].stream == stream)
    && (forall i, j :: 0 <= i < j < |ps| ==> ps[i].number < ps[j].number)
  }

  /** Each packet of a stream visited in order is compared with the one captured just before it. */
  function Expected(ps: seq<Packet>, i: nat, threshold: real): (a: Analysis)
    requires Sane(ps) && i < |ps|
  {
    if i == 0 then Alone(ps[0]) else Compare(RecordOf(ps[i - 1]), ps[i], threshold)
  }

  ghost predicate ComparesNeighbours(t: Tracker, ps: seq<Packet>, stream: string, threshold: real)
    requires Sane(ps)
  {
    && (stream in t.streams <==> ps != [])
    && (ps != [] ==> t.streams[stream] == RecordOf(ps[|ps| - 1]))
    && (forall i :: 0 <= i < |ps| ==>
          ps[i].number in t.analyses && t.analyses[ps[i].number] == Expected(ps, i, threshold))
  }

  lemma {:induction false} NextInOrder(t: Tracker, ps: seq<Packet>, p: Packet, stream: string, threshold: real)
    requires Ascending(ps + [p], stream) && Sane(ps) && p.sequence < MODULUS && p.number !in t.analyses
    requires ComparesNeighbours(t, ps, stream, threshold)
    ensures ComparesNeighbours(Visit(t, p, threshold), ps + [p], stream, threshold)
  {
    var all, t' := ps + [p], Visit(t, p, threshold);
    assert all[|ps|] == p && p.stream == stream;
    forall i | 0 <= i < |ps|
      ensures all[i].number in t'.analyses && t'.analyses[all[i].number] == Expected(all, i, threshold)
    {
      assert all[i] == ps[i] && all[i].number < all[|ps|].number;
      assert Expected(all, i, threshold) == Expected(ps, i, threshold);
    }
    if ps != [] {
      assert all[|ps| - 1].number < all[|ps|].number;
    }
  }

  lemma {:induction false} InOrderComparesNeighbours(ps: seq<Packet>, stream: string, threshold: real)
    requires Ascending(ps, stream)
    ensures ComparesNeighbours(After(ps, threshold), ps, stream, threshold)
  {
    if ps != [] {
      var ps', p := ps[..|ps| - 1], ps[|ps| - 1];
      InOrderComparesNeighbours(ps', stream, threshold);
      AnalysedAreVisited(ps', threshold, p.number);
      assert ps == ps' + [p];
      NextInOrder(After(ps', threshold), ps', p, stream, threshold);
    }
  }

  lemma {:induction false} FirstVisitsPick(h: seq<Packet>, p: Packet)
    requires p in FirstVisits(h)
    ensures p in h
  {
    if h != [] {
      var h' := h[..|h| - 1];
      if p in FirstVisits(h') {
        FirstVisitsPick(h', p);
      }
    }
  }

  lemma {:induction false} InOrderAnalysed(h: seq<Packet>, stream: string, threshold: real, ps: seq<Packet>, i: nat)
    requires Consistent(h) && ps == FirstVisits(Only(h, stream)) && i < |ps| && Ascending(ps, stream)
    ensures var t := After(h, threshold);
            ps[i].number in t.analyses && t.analyses[ps[i].number] == Expected(ps, i, threshold)
  {
    var only := Only(h, stream);
    StreamsAreIndependent(h, threshold, stream);
    RepeatsDoNotCount(only, threshold);
    InOrderComparesNeighbours(ps, stream, threshold);
    FirstVisitsPick(only, ps[i]);
    OnlyPicks(h, stream);
    var j :| 0 <= j < |h| && h[j] == ps[i];
  }

  /** In any visit history, amid any other streams and with any repeats: if a stream's packets were first visited in
      order, the first is compared with none, and each later one with the packet before it. */
  lemma {:induction false} NeighboursAreCompared(h: seq<Packet>, stream: string, threshold: real, i: nat)
    requires Consistent(h)
    requires var ps := FirstVisits(Only(h, stream)); i < |ps| && Ascending(ps, stream)
    ensures var ps := FirstVisits(Only(h, stream));
            var t := After(h, threshold);
            && ps[i].number in t.analyses
            && if i == 0 then Unmarked(t.analyses[ps[0].number], ps[0])
               else Follows(t.analyses[ps[i].number], ps[i - 1], ps[i], threshold)
  {
    var ps := FirstVisits(Only(h, stream));
    InOrderAnalysed(h, stream, threshold, ps, i);
  }

  // ---- across wraps of the sequence number

  /** The agent numbers its frames from zero, modulo 2^32; `index[i]` is the true number of the i-th captured frame. */
  predicate Captured(ps: seq<Packet>, index: seq<nat>) {
    && |index| == |ps|
    && (forall i :: 0 <= i < |ps| ==> ps[i].sequence == index[i] % MODULUS)
    && (forall i :: 0 <= i < |ps| - 1 ==> index[i] < index[i + 1])
  }

  /** The step from true number m to true number n shows: it is below 2^32, and the number sent did not wrap in it or
      wrapped inside both windows. */
  predicate Recoverable(m: nat, n: nat) {
    && m <= n < m + MODULUS
    && (m % MODULUS + (n - m) < MODULUS || (m % MODULUS >= MODULUS - WRAP_WINDOW && n % MODULUS < WRAP_WINDOW))
  }

  predicate AllRecoverable(index: seq<nat>) {
    forall i :: 0 <= i < |index| - 1 ==> Recoverable(index[i], index[i + 1])
  }

  lemma {:induction false} WrapCases(n: nat, d: nat)
    requires d < MODULUS
    ensures var p := n % MODULUS;
            (n + d) % MODULUS == if p + d < MODULUS then p + d else p + d - MODULUS
  {
    var q, p := n / MODULUS, n % MODULUS;
    if p + d < MODULUS {
      assert n + d == q * MODULUS + (p + d);
    } else {
      assert n + d == (q + 1) * MODULUS + (p + d - MODULUS);
    }
  }

  /** A true step of up to the wrap window is always recovered, across the wrap or not. */
  lemma {:induction false} SmallStepRecovered(n: nat, d: nat)
    requires d <= WRAP_WINDOW
    ensures Recoverable(n, n + d)
  {
    WrapCases(n, d);
  }

  /** A step of any size is recovered if and only if it shows, and what is reported never exceeds it. */
  lemma {:induction false} StepRecoveredExactly(n: nat, d: nat)
    ensures var r := ForwardDelta(n % MODULUS, (n + d) % MODULUS);
            && (r == Some(d) <==> Recoverable(n, n + d))
            && (r.Some? ==> r.value <= d)
  {
    if d < MODULUS {
      WrapCases(n, d);
    }
  }

  function MissingSum(ps: seq<Packet>, threshold: real): (n: nat)
    requires Sane(ps)
  {
    if ps == [] then 0 else MissingSum(ps[..|ps| - 1], threshold) + Expected(ps, |ps| - 1, threshold).missing
  }

  lemma {:induction false} StepIsGap(ps: seq<Packet>, index: seq<nat>, i: nat, threshold: real)
    requires Sane(ps) && Captured(ps, index) && 0 < i < |ps|
    ensures var a, d := Expected(ps, i, threshold), index[i] - index[i - 1];
            && d >= 1 && a.missing <= d - 1
            && (a.missing == d - 1 <==> Recoverable(index[i - 1], index[i]))
            && (Recoverable(index[i - 1], index[i]) ==> !a.regression && !a.duplicate)
  {
    var m := index[i - 1];
    assert m < index[i - 1 + 1];
    var d := index[i] - m;
    StepRecoveredExactly(m, d);
    if d == 1 {
      SmallStepRecovered(m, d);
    }
  }

  lemma {:induction false} GapsAddUp(ps: seq<Packet>, index: seq<nat>, threshold: real)
    requires Sane(ps) && Captured(ps, index) && ps != []
    ensures index[|ps| - 1] - index[0] >= |ps| - 1
    ensures MissingSum(ps, threshold) <= index[|ps| - 1] - index[0] - (|ps| - 1)
    ensures MissingSum(ps, threshold) == index[|ps| - 1] - index[0] - (|ps| - 1) <==> AllRecoverable(index)
  {
    var n := |ps| - 1;
    if n > 0 {
      var ps', index' := ps[..n], index[..n];
      assert Captured(ps', index');
      GapsAddUp(ps', index', threshold);
      StepIsGap(ps, index, n, threshold);
      RecoverableNext(index);
    } else {
      assert ps[..0] == [];
    }
  }

  lemma {:induction false} RecoverableNext(index: seq<nat>)
    requires |index| >= 2
    ensures var n := |index| - 1;
            AllRecoverable(index) <==> AllRecoverable(index[..n]) && Recoverable(index[n - 1], index[n])
  {
    var n := |index| - 1;
    assert forall i :: 0 <= i < n ==> index[..n][i] == index[i];
    assert Recoverable(index[n - 1], index[n]) ==> Recoverable(index[n - 1], index[n - 1 + 1]);
    if AllRecoverable(index) {
      assert Recoverable(index[n - 1], index[n - 1 + 1]);
    }
  }

  lemma {:induction false} NothingMarked(ps: seq<Packet>, index: seq<nat>, threshold: real)
    requires Sane(ps) && Captured(ps, index)
    ensures AllRecoverable(index) ==> forall i :: 0 <= i < |ps| ==>
              !Expected(ps, i, threshold).regression && !Expected(ps, i, threshold).duplicate
  {
    forall i | 0 < i < |ps|
      ensures AllRecoverable(index) ==>
                !Expected(ps, i, threshold).regression && !Expected(ps, i, threshold).duplicate
    {
      StepIsGap(ps, index, i, threshold);
      assert AllRecoverable(index) ==> Recoverable(index[i - 1], index[i - 1 + 1]);
    }
  }

  predicate AllAnalysed(analyses: map<nat, Analysis>, ps: seq<Packet>) {
    forall i :: 0 <= i < |ps| ==> ps[i].number in analyses
  }

  /** The packets reported missing, over all analyses of these packets. */
  function Reported(analyses: map<nat, Analysis>, ps: seq<Packet>): (n: nat)
    requires AllAnalysed(analyses, ps)
  {
    if ps == [] then 0 else Reported(analyses, ps[..|ps| - 1]) + analyses[ps[|ps| - 1].number].missing
  }

  ghost predicate AsExpected(analyses: map<nat, Analysis>, ps: seq<Packet>, threshold: real) {
    && Sane(ps) && AllAnalysed(analyses, ps)
    && forall i :: 0 <= i < |ps| ==> analyses[ps[i].number] == Expected(ps, i, threshold)
  }

  lemma {:induction false} AsExpectedBefore(
    analyses: map<nat, Analysis>, ps: seq<Packet>, before: seq<Packet>, threshold: real)
    requires ps != [] && AsExpected(analyses, ps, threshold) && before == ps[..|ps| - 1]
    ensures AsExpected(analyses, before, threshold)
  {
    forall i | 0 <= i < |before| ensures analyses[before[i].number] == Expected(before, i, threshold) {
      assert Expected(before, i, threshold) == Expected(ps, i, threshold);
    }
  }

  lemma {:induction false} ReportedIs(analyses: map<nat, Analysis>, ps: seq<Packet>, threshold: real)
    requires AsExpected(analyses, ps, threshold)
    ensures Reported(analyses, ps) == MissingSum(ps, threshold)
  {
    if ps != [] {
      AsExpectedBefore(analyses, ps, ps[..|ps| - 1], threshold);
      ReportedIs(analyses, ps[..|ps| - 1], threshold);
    }
  }

  lemma {:induction false} ExpectedAddUp(
    analyses: map<nat, Analysis>, ps: seq<Packet>, index: seq<nat>, threshold: real, uncaptured: int)
    requires AsExpected(analyses, ps, threshold) && ps != [] && Captured(ps, index)
    requires uncaptured == index[|ps| - 1] - index[0] - (|ps| - 1)
    ensures Reported(analyses, ps) <= uncaptured
    ensures Reported(analyses, ps) == uncaptured <==> AllRecoverable(index)
    ensures AllRecoverable(index) ==> forall i :: 0 <= i < |ps| ==>
              !analyses[ps[i].number].regression && !analyses[ps[i].number].duplicate
  {
    GapsAddUp(ps, index, threshold);
    ReportedIs(analyses, ps, threshold);
    NothingMarked(ps, index, threshold);
  }

  lemma {:induction false} AllInOrderAnalysed(h: seq<Packet>, stream: string, threshold: real, ps: seq<Packet>)
    requires Consistent(h) && ps == FirstVisits(Only(h, stream)) && Ascending(ps, stream)
    ensures AsExpected(After(h, threshold).analyses, ps, threshold)
  {
    var t := After(h, threshold);
    forall i | 0 <= i < |ps|
      ensures ps[i].number in t.analyses && t.analyses[ps[i].number] == Expected(ps, i, threshold)
    {
      InOrderAnalysed(h, stream, threshold, ps, i);
    }
  }

  /** In any visit history, mixed with any other streams and with any repeats: if the stream's packets were first
      visited in order, its missing counts never exceed the number of frames that the agent sent between the first
      and the last captured one and that were not captured, and they add up to exactly that number if and only if
      every step shows; then no packet is marked a regression or a duplicate. */
  lemma {:induction false} MissingCountsAreExact(h: seq<Packet>, stream: string, index: seq<nat>, threshold: real)
    requires Consistent(h)
    requires var ps := FirstVisits(Only(h, stream)); ps != [] && Ascending(ps, stream) && Captured(ps, index)
    ensures var ps := FirstVisits(Only(h, stream));
            var t, uncaptured := After(h, threshold), index[|ps| - 1] - index[0] - (|ps| - 1);
            && AllAnalysed(t.analyses, ps) && Reported(t.analyses, ps) <= uncaptured
            && (Reported(t.analyses, ps) == uncaptured <==> AllRecoverable(index))
            && (AllRecoverable(index) ==> forall i :: 0 <= i < |ps| ==>
                  !t.analyses[ps[i].number].regression && !t.analyses[ps[i].number].duplicate)
  {
    var ps, analyses := FirstVisits(Only(h, stream)), After(h, threshold).analyses;
    AllInOrderAnalysed(h, stream, threshold, ps);
    ExpectedAddUp(analyses, ps, index, threshold, index[|ps| - 1] - index[0] - (|ps| - 1));
  }

  /** True gaps of up to 65536 all show, across any number of wraps. */
  lemma {:induction false} SmallGapsShow(index: seq<nat>)
    requires forall i :: 0 <= i < |index| - 1 ==> index[i] <= index[i + 1] <= index[i] + WRAP_WINDOW
    ensures AllRecoverable(index)
  {
    forall i | 0 <= i < |index| - 1 ensures Recoverable(index[i], index[i + 1]) {
      SmallStepRecovered(index[i], index[i + 1] - index[i]);
    }
  }
}
