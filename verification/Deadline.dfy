/** The sampling schedule: absolute deadlines on the monotonic clock, moved on by whole intervals. */
module Deadline {
  import opened Options
  import opened Arith

  datatype Timespec = Timespec(sec: int, nsec: nat)

  predicate Normal(t: Timespec) {
    t.nsec < 1_000_000_000
  }

  /** The instant in nanoseconds. */
  function Nanos(t: Timespec): (n: int) {
    t.sec * 1_000_000_000 + t.nsec
  }

  function Compare(l: Timespec, r: Timespec): (c: int) {
    if l.sec < r.sec then -1 else if l.sec > r.sec then 1
    else if l.nsec < r.nsec then -1 else if l.nsec > r.nsec then 1 else 0
  }

  lemma {:induction false} CompareOrdersInstants(l: Timespec, r: Timespec)
    requires Normal(l) && Normal(r)
    ensures Compare(l, r) < 0 <==> Nanos(l) < Nanos(r)
    ensures Compare(l, r) == 0 <==> l == r
    ensures Compare(l, r) > 0 <==> Nanos(l) > Nanos(r)
  {
  }

  function Later(t: Timespec, seconds: nat): (r: Timespec)
    ensures Nanos(r) == Nanos(t) + seconds * 1_000_000_000 && (Normal(t) ==> Normal(r))
  {
    t.(sec := t.sec + seconds)
  }

  /** The cycle's work ran past the next deadline. */
  predicate Overrun(deadline: Timespec, interval: nat, now: Timespec) {
    Nanos(deadline) + interval * 1_000_000_000 <= Nanos(now)
  }

  function Next(deadline: Timespec, interval: nat, now: Timespec): (r: Timespec) {
    if Overrun(deadline, interval, now) then Later(now, interval) else Later(deadline, interval)
  }

  /** The deadline after a run of cycles, each with the clock reading at its end. */
  function After(start: Timespec, interval: nat, nows: seq<Timespec>): (r: Timespec) {
    if nows == [] then start else Next(After(start, interval, nows[..|nows| - 1]), interval, nows[|nows| - 1])
  }

  const EINTR := 4
  const EINVAL := 22

  /** The result of sleeping until the deadline: an interrupted sleep is repeated. */
  function Outcome(sleeps: seq<int>): (rc: int) {
    if sleeps == [] then 0 else if sleeps[0] != EINTR then sleeps[0] else Outcome(sleeps[1..])
  }

  /** That is the first result that is no interruption, or 0 when there is none. */
  lemma {:induction false} OutcomeIs(sleeps: seq<int>)
    ensures (forall i :: 0 <= i < |sleeps| ==> sleeps[i] == 4) ==> Outcome(sleeps) == 0
    ensures forall i :: 0 <= i < |sleeps| && sleeps[i] != 4 && (forall j :: 0 <= j < i ==> sleeps[j] == 4) ==>
              Outcome(sleeps) == sleeps[i]
  {
    if sleeps != [] {
      OutcomeIs(sleeps[1..]);
      assert forall i :: 1 <= i < |sleeps| ==> sleeps[i] == sleeps[1..][i - 1];
    }
  }

  class Scheduler {
    var deadline: Timespec

    constructor (now: Timespec)
      requires Normal(now)
      ensures deadline == now
    {
      deadline := now;
    }

    /** `reading` is the clock, None when it cannot be read; `sleeps` are the results of the sleeps that follow, up to
        the one after which the agent stops or reloads. Sleeping never moves the deadline. */
    method WaitForNextSample(interval: nat, reading: Option<Timespec>, sleeps: seq<int>) returns (rc: int)
      requires Normal(deadline) && (reading.Some? ==> Normal(reading.value)) && interval >= 1
      modifies this
      ensures Normal(deadline)
      ensures reading.None? ==> rc != 0 && deadline == Later(old(deadline), interval)
      ensures reading.Some? ==> deadline == Next(old(deadline), interval, reading.value) && rc == Outcome(sleeps)
    {
      deadline := Later(deadline, interval);
      if reading.None? {
        return EINVAL;
      }
      var now := reading.value;
      CompareOrdersInstants(deadline, now);
      if Compare(deadline, now) <= 0 {
        deadline := Later(now, interval);
      }
      for i := 0 to |sleeps|
        invariant Outcome(sleeps) == Outcome(sleeps[i..])
      {
        if sleeps[i] != EINTR {
          return sleeps[i];
        }
      }
      return 0;
    }
  }

  /** Every deadline lies ahead of the clock, and a full interval or more after the one before it. */
  lemma {:induction false} EveryDeadlineIsAhead(start: Timespec, interval: nat, nows: seq<Timespec>)
    requires interval >= 1 && nows != []
    ensures Nanos(After(start, interval, nows)) > Nanos(nows[|nows| - 1])
    ensures Nanos(After(start, interval, nows))
         >= Nanos(After(start, interval, nows[..|nows| - 1])) + interval * 1_000_000_000
  {
    assert interval * 1_000_000_000 > 0;
  }

  lemma {:induction false} OneMore(first: int, last: int, next: int, step: nat, m: nat)
    requires last >= first + m * step && next >= last + step
    ensures next >= first + (m + 1) * step
  {
  }

  /** No catch-up burst: any m successive deadlines spread over at least m intervals. */
  lemma {:induction false} DeadlinesSpreadOut(start: Timespec, interval: nat, nows: seq<Timespec>, k: nat)
    requires interval >= 1 && k <= |nows|
    ensures Nanos(After(start, interval, nows))
         >= Nanos(After(start, interval, nows[..k])) + (|nows| - k) * (interval * 1_000_000_000)
    decreases |nows|
  {
    if k == |nows| {
      assert nows[..k] == nows;
    } else {
      var before := nows[..|nows| - 1];
      DeadlinesSpreadOut(start, interval, before, k);
      assert before[..k] == nows[..k];
      EveryDeadlineIsAhead(start, interval, nows);
      OneMore(Nanos(After(start, interval, nows[..k])), Nanos(After(start, interval, before)),
              Nanos(After(start, interval, nows)), interval * 1_000_000_000, |before| - k);
    }
  }

  /** How many of the cycles overran. */
  function Overruns(start: Timespec, interval: nat, nows: seq<Timespec>): (n: nat)
    ensures n <= |nows|
  {
    if nows == [] then 0
    else
      var before := nows[..|nows| - 1];
      Overruns(start, interval, before) +
      if Overrun(After(start, interval, before), interval, nows[|nows| - 1]) then 1 else 0
  }

  /** Each overrun costs at least one interval. */
  lemma {:induction false} OverrunsDelay(start: Timespec, interval: nat, nows: seq<Timespec>)
    ensures Nanos(After(start, interval, nows))
         >= Nanos(start) + (|nows| + Overruns(start, interval, nows)) * (interval * 1_000_000_000)
  {
    if nows != [] {
      var n := |nows| - 1;
      var before := nows[..n];
      OverrunsDelay(start, interval, before);
      var m, step := n + Overruns(start, interval, before), interval * 1_000_000_000;
      var last := Nanos(After(start, interval, before));
      OneMore(Nanos(start), last, last + step, step, m);
      OneMore(Nanos(start), last + step, last + 2 * step, step, m + 1);
    }
  }

  lemma {:induction false} OneLater(start: Timespec, interval: nat, n: nat)
    ensures Later(Later(start, n * interval), interval) == Later(start, (n + 1) * interval)
  {
    assert (n + 1) * interval == n * interval + interval;
  }

  lemma {:induction false} ExactWithoutOverruns(start: Timespec, interval: nat, nows: seq<Timespec>)
    requires Overruns(start, interval, nows) == 0
    ensures After(start, interval, nows) == Later(start, |nows| * interval)
  {
    if nows != [] {
      var n := |nows| - 1;
      ExactWithoutOverruns(start, interval, nows[..n]);
      OneLater(start, interval, n);
    }
  }

  /** The schedule keeps to exact multiples of the interval if and only if no cycle overruns. */
  lemma {:induction false} NoDriftUnlessOverrun(start: Timespec, interval: nat, nows: seq<Timespec>)
    requires interval >= 1
    ensures After(start, interval, nows) == Later(start, |nows| * interval) <==> Overruns(start, interval, nows) == 0
  {
    var n, k, step := |nows|, Overruns(start, interval, nows), interval * 1_000_000_000;
    if k == 0 {
      ExactWithoutOverruns(start, interval, nows);
    } else {
      OverrunsDelay(start, interval, nows);
      MulMono(step, n + 1, n + k);
      MulSucc(step, n);
      assert n * step == n * interval * 1_000_000_000;
    }
  }

  /** Since the last overrun, or the start, the deadline has moved by whole intervals: m of them after the anchor. */
  predicate Anchored(start: Timespec, interval: nat, nows: seq<Timespec>, anchor: Timespec, m: nat) {
    && m <= |nows| && After(start, interval, nows) == Later(anchor, m * interval)
    && if Overruns(start, interval, nows) == 0 then anchor == start && m == |nows|
       else
         && m >= 1 && anchor == nows[|nows| - m]
         && Overrun(After(start, interval, nows[..|nows| - m]), interval, anchor)
  }

  lemma {:induction false} AnchorMoves(
    start: Timespec, interval: nat, before: seq<Timespec>, now: Timespec, anchor: Timespec, m: nat)
    requires Anchored(start, interval, before, anchor, m)
    requires !Overrun(After(start, interval, before), interval, now)
    ensures Anchored(start, interval, before + [now], anchor, m + 1)
  {
    var nows := before + [now];
    assert nows[..|before|] == before;
    assert nows[..|before| - m] == before[..|before| - m];
    MulSucc(interval, m);
  }

  /** An overrun resets the schedule to its clock reading, from which it proceeds without drift. */
  lemma {:induction false} AnchoredAtTheLastOverrun(start: Timespec, interval: nat, nows: seq<Timespec>)
    returns (anchor: Timespec, m: nat)
    ensures Anchored(start, interval, nows, anchor, m)
  {
    anchor, m := start, 0;
    if nows != [] {
      var n := |nows| - 1;
      anchor, m := AnchoredAtTheLastOverrun(start, interval, nows[..n]);
      if Overrun(After(start, interval, nows[..n]), interval, nows[n]) {
        anchor, m := nows[n], 1;
      } else {
        AnchorMoves(start, interval, nows[..n], nows[n], anchor, m);
        assert nows[..n] + [nows[n]] == nows;
        m := m + 1;
      }
    }
  }
}
