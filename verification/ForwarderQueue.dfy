/** Offering a body to the forwarder's bounded queue keeps the newest bodies, whatever the sender does meanwhile. */
module ForwarderQueue {
  import opened Forwarder
  import opened ForwarderRuns
  import opened ForwarderSteps

  /** How often the sender takes a body from the queue. */
  function Gets(steps: seq<Action>): (n: nat) {
    if steps == [] then 0 else (if steps[0].Get? then 1 else 0) + Gets(steps[1..])
  }

  /** No further body comes in. */
  predicate NoReceive(steps: seq<Action>) {
    steps == [] || (!steps[0].Receive? && NoReceive(steps[1..]))
  }

  /** How far an offer has come when the sender has taken k bodies and n have been evicted, `before` being the state in
      which the receiver began to put. */
  predicate Offered(before: State, s: State, k: nat, n: int) {
    FrontGone(before, s, k, n) && AtStage(QueueFull(before), s.receiver, k, n)
  }

  /** The queue and the body offered have lost exactly their k + n oldest; one is evicted only if the queue was full. */
  predicate FrontGone(before: State, s: State, k: nat, n: int) {
    && 0 <= n <= 1 && k + n <= |Pending(before)| && s.received == before.received && before.evicted <= s.evicted
    && s.capacity == before.capacity && |s.evicted| == |before.evicted| + n && Pending(s) == Pending(before)[k + n..]
    && (n == 1 ==> QueueFull(before) && s.evicted[|before.evicted|] in Pending(before)[..k + n])
  }

  /** What the receiver knows at each stage of an offer. */
  predicate AtStage(full: bool, receiver: Receiver, k: nat, n: int) {
    match receiver
    case FirstPut(_) => n == 0
    case Evicting(_) => n == 0 && full
    case SecondPut(_, evicted) => n == (if evicted then 1 else 0) && (n == 0 ==> k > 0)
    case CountingDrop => n == 1
    case _ => n == 0 && full ==> k > 0
  }

  lemma {:induction false} OfferEvicts(before: State, s: State, k: nat, n: int)
    requires Offered(before, s, k, n) && before.receiver.FirstPut? && s.receiver.Evicting? && s.queue != []
    ensures Offered(before, Step(s, EvictOldest), k, n + 1)
  {
    EvictMoves(s);
    var p := Pending(before);
    assert p[k..][1..] == p[k + 1..] && p[..k + 1][k] == p[k] == Pending(s)[0];
  }

  lemma {:induction false} OfferGets(before: State, s: State, k: nat, n: int)
    requires Offered(before, s, k, n) && Enabled(s, Get) && s.hand.None?
    ensures Offered(before, Step(s, Get), k + 1, n)
  {
    GetMoves(s);
    var p := Pending(before);
    assert p[k + n..][1..] == p[k + 1 + n..];
    assert p[..k + n] <= p[..k + 1 + n];
  }

  /** The queue has lost one body for each the sender took. */
  lemma {:induction false} OfferQueue(before: State, s: State, k: nat)
    requires FrontGone(before, s, k, 0) && before.receiver.FirstPut? && (s.receiver.FirstPut? || s.receiver.Evicting?)
    ensures |s.queue| == |before.queue| - k
  {
  }

  lemma {:induction false} StageEnds(before: State, s: State, k: nat, a: Action)
    requires Enabled(s, a) && (a.PutFirst? || (a.EvictOldest? && s.queue == [])) && s.capacity == before.capacity
    requires AtStage(QueueFull(before), s.receiver, k, 0) && |s.queue| == |before.queue| - k
    ensures AtStage(QueueFull(before), Step(s, a).receiver, k, 0)
  {
  }

  lemma {:induction false} StageStays(full: bool, s: State, k: nat, n: int, a: Action)
    requires Enabled(s, a) && AtStage(full, s.receiver, k, n) && Bounded(s)
    requires !a.Receive? && !a.PutFirst? && !a.EvictOldest?
    ensures AtStage(full, Step(s, a).receiver, k, n)
  {
  }

  lemma {:induction false} CapacityStays(s: State, a: Action)
    requires Enabled(s, a)
    ensures Step(s, a).capacity == s.capacity
  {
  }

  lemma {:induction false} FrontStays(before: State, s: State, s': State, k: nat, n: int)
    requires FrontGone(before, s, k, n) && Pending(s') == Pending(s)
    requires s'.received == s.received && s'.evicted == s.evicted && s'.capacity == s.capacity
    ensures FrontGone(before, s', k, n)
  {
  }

  lemma {:induction false} StepFrontStays(before: State, s: State, k: nat, n: int, a: Action)
    requires FrontGone(before, s, k, n) && Enabled(s, a) && (a.PutSecond? ==> !QueueFull(s))
    requires !a.Receive? && !a.Get? && !(a.EvictOldest? && s.queue != [])
    ensures FrontGone(before, Step(s, a), k, n)
  {
    SentUnchanged(s, a);
    CapacityStays(s, a);
    FrontStays(before, s, Step(s, a), k, n);
  }

  lemma {:induction false} StepAtStage(before: State, s: State, k: nat, n: int, a: Action)
    requires Offered(before, s, k, n) && before.receiver.FirstPut? && Bounded(s) && Enabled(s, a)
    requires !a.Receive? && !a.Get? && !(a.EvictOldest? && s.queue != [])
    ensures AtStage(QueueFull(before), Step(s, a).receiver, k, n)
  {
    if a.PutFirst? || a.EvictOldest? {
      OfferQueue(before, s, k);
      StageEnds(before, s, k, a);
    } else {
      StageStays(QueueFull(before), s, k, n, a);
    }
  }

  lemma {:induction false} OfferStep(before: State, s: State, k: nat, n: int, a: Action) returns (k': nat, n': int)
    requires Offered(before, s, k, n) && before.receiver.FirstPut? && Bounded(s) && HandFits(s)
    requires Enabled(s, a) && !a.Receive?
    ensures Offered(before, Step(s, a), k', n') && k' == k + if a.Get? then 1 else 0
    ensures Bounded(Step(s, a)) && HandFits(Step(s, a))
  {
    KeepsBounded(s, a);
    KeepsHandFits(s, a);
    k', n' := k, n;
    if a.Get? {
      OfferGets(before, s, k, n);
      k' := k + 1;
    } else if a.EvictOldest? && s.queue != [] {
      OfferEvicts(before, s, k, n);
      n' := n + 1;
    } else {
      StepFrontStays(before, s, k, n, a);
      StepAtStage(before, s, k, n, a);
    }
  }

  lemma {:induction false} OfferRun(before: State, s: State, k: nat, n: int, steps: seq<Action>) returns (m: int)
    requires Offered(before, s, k, n) && before.receiver.FirstPut? && Bounded(s) && HandFits(s)
    requires Runs(s, steps) && NoReceive(steps)
    ensures Offered(before, Run(s, steps), k + Gets(steps), m)
    decreases |steps|
  {
    m := n;
    if steps != [] {
      var k', n' := OfferStep(before, s, k, n, steps[0]);
      m := OfferRun(before, Step(s, steps[0]), k', n', steps[1..]);
      assert k' + Gets(steps[1..]) == k + Gets(steps);
    }
  }

  lemma {:induction false} OfferBegins(s: State)
    requires s.receiver.FirstPut?
    ensures Offered(s, s, 0, 0)
  {
    assert Pending(s)[0..] == Pending(s);
  }

  lemma {:induction false} OfferGoes(s: State, steps: seq<Action>) returns (n: int)
    requires Inv(s) && s.receiver.FirstPut? && Runs(s, steps) && NoReceive(steps)
    ensures var t := Run(s, steps);
            Offered(s, t, Gets(steps), n) && Contiguous(t) && InOrder(t) && DropsCounted(t)
  {
    OfferBegins(s);
    n := OfferRun(s, s, 0, 0, steps);
    RunKeepsInv(s, steps);
  }

  /** At most one body was evicted since `s`, and what is pending is exactly the newest bodies received. */
  ghost predicate NewestPending(s: State, t: State) {
    && t.received == s.received && s.evicted <= t.evicted && |t.evicted| <= |s.evicted| + 1
    && Contiguous(t) && (t.evicted != [] && Pending(t) != [] ==> t.evicted[|t.evicted| - 1] < Pending(t)[0])
  }

  lemma {:induction false} OfferEnds(s: State, t: State, k: nat, n: int)
    requires FrontGone(s, t, k, n) && Contiguous(t) && InOrder(t)
    ensures NewestPending(s, t)
  {
    var all, m := t.evicted + Pending(t), |t.evicted|;
    assert m > 0 && Pending(t) != [] ==> all[m - 1] == t.evicted[m - 1] && all[m] == Pending(t)[0];
  }

  /** Offering a body, with any steps of the sender in between, evicts at most one body, and what is then pending is
      exactly the newest bodies: the evicted one was older than all of them. */
  lemma {:induction false} OfferKeepsTheNewest(s: State, steps: seq<Action>)
    requires Inv(s) && s.receiver.FirstPut? && Runs(s, steps) && NoReceive(steps)
    ensures NewestPending(s, Run(s, steps))
  {
    var n := OfferGoes(s, steps);
    OfferEnds(s, Run(s, steps), Gets(steps), n);
  }

  /** The receiver is through with its offer. */
  predicate OfferOver(s: State) {
    ReceiverHand(s) == [] && !s.receiver.CountingDrop?
  }

  /** The account of an offer during which the sender took k bodies, n being evicted. Once the offer is over, the drop
      counter has gone up by n, and if the queue was full and the sender took none, one was evicted. */
  predicate Accounted(s: State, t: State, k: nat) {
    var n := |t.evicted| - |s.evicted|;
    && FrontGone(s, t, k, n)
    && (OfferOver(t) ==> t.stats.drops == s.stats.drops + n && (QueueFull(s) && k == 0 ==> n == 1))
  }

  lemma {:induction false} OfferCounts(s: State, t: State, k: nat, n: int)
    requires s.receiver.FirstPut? && DropsCounted(s) && DropsCounted(t) && |t.evicted| == |s.evicted| + n
    requires 0 <= n <= 1 && AtStage(QueueFull(s), t.receiver, k, n) && OfferOver(t)
    ensures t.stats.drops == s.stats.drops + n && (QueueFull(s) && k == 0 ==> n == 1)
  {
  }

  /** Whatever the sender does meanwhile, an offer has that account. */
  lemma {:induction false} KeepsTheNewest(s: State, steps: seq<Action>)
    requires Inv(s) && s.receiver.FirstPut? && Runs(s, steps) && NoReceive(steps)
    ensures Accounted(s, Run(s, steps), Gets(steps))
  {
    var n := OfferGoes(s, steps);
    if OfferOver(Run(s, steps)) {
      OfferCounts(s, Run(s, steps), Gets(steps), n);
    }
  }

  /** And such an offer does come to its end: on a full queue, in five steps of the receiver alone. */
  lemma {:induction false} OfferCompletes(s: State, body: string)
    requires Bounded(s) && s.receiver.Receiving? && QueueFull(s)
    ensures var steps := [Receive(body), PutFirst] + [EvictOldest, PutSecond, CountDrop];
            && Runs(s, steps)
            && Run(s, steps) == s.(received := s.received + [body], queue := s.queue[1..] + [|s.received|],
                                   evicted := s.evicted + [s.queue[0]], receiver := CheckingRun,
                                   stats := s.stats.(drops := s.stats.drops + 1))
  {
    RunTwo(s, Receive(body), PutFirst);
    var s2 := Run(s, [Receive(body), PutFirst]);
    RunThree(s2, EvictOldest, PutSecond, CountDrop);
    RunConcat(s, [Receive(body), PutFirst], [EvictOldest, PutSecond, CountDrop]);
  }
}
