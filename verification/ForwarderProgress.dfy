/** What the forwarder's sender gets done while its pushes succeed. */
module ForwarderProgress {
  import opened Options
  import opened Forwarder
  import opened ForwarderSteps
  import opened ForwarderRuns

  predicate BySender(a: Action) {
    !ByReceiver(a) && !a.Signal?
  }

  /** How many of the steps are the sender's. */
  function Turns(steps: seq<Action>): (n: nat)
    ensures n <= |steps|
  {
    if steps == [] then 0 else (if BySender(steps[0]) then 1 else 0) + Turns(steps[1..])
  }

  predicate AllSucceed(steps: seq<Action>) {
    Push(false) !in steps
  }

  // ---------------------------------------------------------------- how far a body is from being settled

  /** How many bodies in the queue are number x or older; the queue has no gaps. */
  function Ahead(queue: seq<nat>, x: nat): (n: nat)
    ensures n <= |queue|
  {
    if queue == [] || x < queue[0] then 0 else if x - queue[0] >= |queue| then |queue| else x - queue[0] + 1
  }

  predicate Held(s: State, x: nat) {
    s.hand.Some? && s.hand.value <= x
  }

  /** How many more turns until the body in hand has been pushed. */
  function TurnsToPush(sender: Sender): (n: nat)
    ensures 1 <= n <= 4
  {
    match sender
    case CountingFailure => 4
    case Sleeping => 3
    case CheckingLoop => 2
    case _ => 1
  }

  /** And until the first body of the queue has been pushed. */
  function TurnsToGetAndPush(sender: Sender): (n: nat)
    ensures 2 <= n <= 5
  {
    match sender
    case CheckingLoop => 4
    case CheckingQueue => 3
    case Getting => 2
    case _ => 5
  }

  /** How many more turns of the sender until no body up to x is in its hand or in the queue. */
  function Work(s: State, x: nat): (n: nat)
    ensures n == 0 <==> !Held(s, x) && Ahead(s.queue, x) == 0
    ensures n <= 5 * |s.queue| + 4
  {
    var f := Ahead(s.queue, x);
    if Held(s, x) then 5 * f + TurnsToPush(s.sender)
    else if f == 0 then 0
    else 5 * (f - 1) + TurnsToGetAndPush(s.sender)
  }

  lemma {:induction false} AheadDrops(queue: seq<nat>, x: nat)
    requires queue != [] && (|queue| > 1 ==> queue[1] == queue[0] + 1)
    ensures Ahead(queue[1..], x) == if Ahead(queue, x) == 0 then 0 else Ahead(queue, x) - 1
    ensures Ahead(queue, x) > 0 <==> queue[0] <= x
  {
  }

  lemma {:induction false} AheadKept(queue: seq<nat>, x: nat, item: nat)
    requires x < item && (queue != [] ==> queue[0] + |queue| == item)
    ensures Ahead(queue + [item], x) == Ahead(queue, x)
  {
  }

  /** The queue counts up by one, to the number of the body in the receiver's hand. */
  lemma {:induction false} QueueCountsUp(s: State)
    requires Contiguous(s) && s.queue != []
    ensures |s.queue| > 1 ==> s.queue[1] == s.queue[0] + 1
    ensures ReceiverHand(s) != [] ==> s.queue[0] + |s.queue| == ReceiverHand(s)[0]
    ensures s.queue[0] + |s.queue| <= |s.received|
  {
    assert forall i :: 0 <= i < |s.queue| ==> Pending(s)[i] == s.queue[i];
    assert ReceiverHand(s) != [] ==> Pending(s)[|s.queue|] == ReceiverHand(s)[0];
  }

  /** What the sender holds is older than the whole queue. */
  lemma {:induction false} HandIsOlder(s: State)
    requires InOrder(s) && s.hand.Some? && s.queue != []
    ensures s.hand.value < s.queue[0]
  {
    var n := |s.delivered|;
    assert Sent(s)[n] == s.hand.value && Sent(s)[n + 1] == s.queue[0];
  }

  ghost predicate Orderly(s: State) {
    Contiguous(s) && InOrder(s) && HandFits(s)
  }

  lemma {:induction false} GetWorks(s: State, x: nat)
    requires Orderly(s) && Enabled(s, Get)
    ensures Work(s, x) == 0 ==> Work(Step(s, Get), x) == 0
    ensures Work(s, x) > 0 ==> Work(Step(s, Get), x) < Work(s, x)
  {
    QueueCountsUp(s);
    AheadDrops(s.queue, x);
  }

  lemma {:induction false} PushWorks(s: State, x: nat)
    requires Orderly(s) && Enabled(s, Push(true))
    ensures Work(s, x) == 0 ==> Work(Step(s, Push(true)), x) == 0
    ensures Work(s, x) > 0 ==> Work(Step(s, Push(true)), x) < Work(s, x)
  {
    if s.queue != [] {
      HandIsOlder(s);
    }
  }

  lemma {:induction false} TurnWorks(s: State, a: Action, x: nat)
    requires Orderly(s) && Enabled(s, a) && BySender(a) && !a.Get? && !a.Push?
    ensures Work(s, x) == 0 ==> Work(Step(s, a), x) == 0
    ensures Work(s, x) > 0 ==> Work(Step(s, a), x) < Work(s, x)
  {
    assert Step(s, a).queue == s.queue && Step(s, a).hand == s.hand;
    if s.hand.Some? && s.queue != [] {
      HandIsOlder(s);
    }
  }

  /** Every turn of the sender in which no push fails brings every body nearer to being delivered. */
  lemma {:induction false} SenderWorks(s: State, a: Action, x: nat)
    requires Orderly(s) && Enabled(s, a) && BySender(a) && a != Push(false)
    ensures Work(s, x) == 0 ==> Work(Step(s, a), x) == 0
    ensures Work(s, x) > 0 ==> Work(Step(s, a), x) < Work(s, x)
  {
    if a.Get? {
      GetWorks(s, x);
    } else if a.Push? {
      PushWorks(s, x);
    } else {
      TurnWorks(s, a, x);
    }
  }

  /** Body x has been received and is past the receiver. */
  predicate Past(s: State, x: nat) {
    x < |s.received| && (ReceiverHand(s) != [] ==> x < ReceiverHand(s)[0])
  }

  lemma {:induction false} PutWorks(s: State, a: Action, x: nat)
    requires Orderly(s) && Past(s, x) && Enabled(s, a) && (a.PutFirst? || a.PutSecond?)
    ensures Past(Step(s, a), x) && Work(Step(s, a), x) == Work(s, x)
  {
    if s.queue != [] {
      QueueCountsUp(s);
    }
    AheadKept(s.queue, x, s.receiver.item);
    PutOnly(s, a);
    SameWork(s, Step(s, a), x);
  }

  lemma {:induction false} PutOnly(s: State, a: Action)
    requires Enabled(s, a) && (a.PutFirst? || a.PutSecond?)
    ensures var s' := Step(s, a);
            && (s'.queue == s.queue || s'.queue == s.queue + [s.receiver.item])
            && s'.hand == s.hand && s'.sender == s.sender && s'.received == s.received
            && (ReceiverHand(s') != [] ==> ReceiverHand(s') == ReceiverHand(s))
  {
  }

  lemma {:induction false} SameWork(s: State, s': State, x: nat)
    requires s'.hand == s.hand && s'.sender == s.sender && Ahead(s'.queue, x) == Ahead(s.queue, x)
    ensures Work(s', x) == Work(s, x)
  {
  }

  lemma {:induction false} EvictWorks(s: State, x: nat)
    requires Orderly(s) && Past(s, x) && s.receiver.Evicting?
    ensures Past(Step(s, EvictOldest), x) && Work(Step(s, EvictOldest), x) <= Work(s, x)
  {
    if s.queue != [] {
      QueueCountsUp(s);
      AheadDrops(s.queue, x);
    }
  }

  /** No step of the receiver sets a body back. */
  lemma {:induction false} OtherWorks(s: State, a: Action, x: nat)
    requires Orderly(s) && Past(s, x) && Enabled(s, a) && !BySender(a)
    ensures Past(Step(s, a), x) && Work(Step(s, a), x) <= Work(s, x)
  {
    if a.PutFirst? || a.PutSecond? {
      PutWorks(s, a, x);
    } else if a.EvictOldest? {
      EvictWorks(s, x);
    } else {
      assert Step(s, a).queue == s.queue && Step(s, a).hand == s.hand && Step(s, a).sender == s.sender;
    }
  }

  lemma {:induction false} SenderKeepsPast(s: State, a: Action, x: nat)
    requires Past(s, x) && Enabled(s, a) && BySender(a)
    ensures Past(Step(s, a), x)
  {
  }

  lemma {:induction false} RunWorks(s: State, steps: seq<Action>, x: nat)
    requires Inv(s) && Past(s, x) && Runs(s, steps) && AllSucceed(steps)
    ensures Past(Run(s, steps), x)
    ensures Work(Run(s, steps), x) == 0 || Work(Run(s, steps), x) + Turns(steps) <= Work(s, x)
    decreases |steps|
  {
    if steps != [] {
      StepWorks(s, steps[0], x);
      RunWorks(Step(s, steps[0]), steps[1..], x);
    }
  }

  lemma {:induction false} StepWorks(s: State, a: Action, x: nat)
    requires Inv(s) && Past(s, x) && Enabled(s, a) && a != Push(false)
    ensures Inv(Step(s, a)) && Past(Step(s, a), x)
    ensures Work(s, x) == 0 ==> Work(Step(s, a), x) == 0
    ensures Work(s, x) > 0 ==> Work(Step(s, a), x) + (if BySender(a) then 1 else 0) <= Work(s, x)
  {
    StepKeepsInv(s, a);
    if BySender(a) {
      SenderWorks(s, a, x);
      SenderKeepsPast(s, a, x);
    } else {
      OtherWorks(s, a, x);
    }
  }

  /** A body that no longer waits has been delivered or evicted. */
  lemma {:induction false} NoLongerWaits(s: State, x: nat)
    requires Inv(s) && Past(s, x) && Work(s, x) == 0
    ensures multiset(s.delivered)[x] + multiset(s.evicted)[x] == 1
  {
    PlacesOnce(s, x);
    NotQueued(s, x);
  }

  lemma {:induction false} NotQueued(s: State, x: nat)
    requires Contiguous(s) && Past(s, x) && Work(s, x) == 0
    ensures x !in SenderHand(s) && x !in s.queue && x !in ReceiverHand(s)
  {
    if s.queue != [] {
      QueueCountsUp(s);
      var first := |s.received| - |Pending(s)|;
      assert forall i :: 0 <= i < |s.queue| ==> s.queue[i] == Pending(s)[i];
      assert forall i :: 0 <= i < |Pending(s)| ==> Pending(s)[i] == first + i;
    }
  }

  /** No body waits for ever: in any interleaving, once the sender has had 5 turns for each body in the queue and 4
      more, and no push has failed, every body that had come past the receiver has been delivered or evicted. */
  lemma {:induction false} EveryBodyIsSettled(capacity: int, before: seq<Action>, after: seq<Action>, x: nat)
    requires Runs(Initial(capacity), before)
    requires var s := Run(Initial(capacity), before);
             Past(s, x) && Runs(s, after) && AllSucceed(after) && Turns(after) >= 5 * |s.queue| + 4
    ensures var t := Run(Run(Initial(capacity), before), after);
            multiset(t.delivered)[x] + multiset(t.evicted)[x] == 1
  {
    var s := Run(Initial(capacity), before);
    ReachesInv(capacity, before);
    RunWorks(s, after, x);
    RunKeepsInv(s, after);
    NoLongerWaits(Run(s, after), x);
  }

  // ---------------------------------------------------------------- the sender alone

  /** Only the sender moves, and all its pushes succeed. */
  predicate Undisturbed(steps: seq<Action>) {
    AllSucceed(steps) && Turns(steps) == |steps|
  }

  lemma {:induction false} TurnKeeps(s: State, a: Action, x: nat)
    requires Inv(s) && Enabled(s, a) && BySender(a) && a != Push(false)
    ensures Inv(Step(s, a)) && (Work(s, x) == 0 ==> Work(Step(s, a), x) == 0)
    ensures Work(s, x) > 0 ==> Work(Step(s, a), x) + 1 <= Work(s, x)
  {
    StepKeepsInv(s, a);
    SenderWorks(s, a, x);
  }

  lemma {:induction false} UndisturbedWorks(s: State, steps: seq<Action>, x: nat)
    requires Inv(s) && Runs(s, steps) && Undisturbed(steps)
    ensures Work(Run(s, steps), x) == 0 || Work(Run(s, steps), x) + |steps| <= Work(s, x)
    decreases |steps|
  {
    if steps != [] {
      TurnKeeps(s, steps[0], x);
      UndisturbedWorks(Step(s, steps[0]), steps[1..], x);
    }
  }

  /** What the sender's steps leave as it is; and it ends only on an empty queue. */
  predicate SenderOnly(s: State, t: State) {
    && Sent(t) == Sent(s) && t.receiver == s.receiver && t.received == s.received && t.evicted == s.evicted
    && (!s.sender.SenderDone? && t.sender.SenderDone? ==> t.queue == [])
  }

  lemma {:induction false} UndisturbedStep(s: State, a: Action)
    requires HandFits(s) && Enabled(s, a) && BySender(a)
    ensures SenderOnly(s, Step(s, a)) && !s.sender.SenderDone?
  {
    SentUnchanged(s, a);
  }

  lemma {:induction false} UndisturbedKeeps(s: State, steps: seq<Action>)
    requires HandFits(s) && Runs(s, steps) && Undisturbed(steps)
    ensures SenderOnly(s, Run(s, steps))
    decreases |steps|
  {
    if steps != [] {
      UndisturbedStep(s, steps[0]);
      KeepsHandFits(s, steps[0]);
      UndisturbedKeeps(Step(s, steps[0]), steps[1..]);
      DoneStays(Step(s, steps[0]), steps[1..]);
    }
  }

  lemma {:induction false} DoneStays(s: State, steps: seq<Action>)
    requires HandFits(s) && Runs(s, steps) && Undisturbed(steps)
    ensures s.sender.SenderDone? ==> Run(s, steps) == s
  {
    if steps != [] {
      UndisturbedStep(s, steps[0]);
    }
  }

  lemma {:induction false} NothingWaits(s: State)
    requires Inv(s) && (Work(s, |s.received|) == 0 || (s.sender.SenderDone? && s.queue == []))
    ensures s.hand.None? && s.queue == []
  {
    HandIsReceived(s);
    if s.queue != [] {
      QueueCountsUp(s);
    }
  }

  lemma {:induction false} HandIsReceived(s: State)
    requires Conserved(s)
    ensures s.hand.Some? ==> s.hand.value < |s.received|
  {
    PlacesBelow(s);
    if s.hand.Some? {
      var n := |s.delivered|;
      assert Sent(s)[n] == s.hand.value && Sent(s)[n] in Sent(s);
    }
  }

  lemma {:induction false} AllDelivered(s: State, t: State)
    requires SenderOnly(s, t) && t.hand.None? && t.queue == []
    ensures t.delivered == s.delivered + SenderHand(s) + s.queue
  {
    var sent, hand := s.delivered + SenderHand(s) + s.queue, ReceiverHand(s);
    assert Sent(t) == t.delivered + hand && Sent(s) == sent + hand;
    assert t.delivered == Sent(t)[..|Sent(t)| - |hand|] && sent == Sent(s)[..|Sent(s)| - |hand|];
  }

  /** Left to itself with pushes that succeed, the sender delivers what it holds and then the whole queue, in order: it
      is done after 5 turns for each body in the queue and 4 more, or when it ends. */
  lemma {:induction false} DrainsInOrder(capacity: int, before: seq<Action>, after: seq<Action>)
    requires Runs(Initial(capacity), before)
    requires var s := Run(Initial(capacity), before);
             && !s.sender.SenderDone? && Runs(s, after) && Undisturbed(after)
             && (|after| >= 5 * |s.queue| + 4 || Run(s, after).sender.SenderDone?)
    ensures var s := Run(Initial(capacity), before);
            var t := Run(s, after);
            && t.hand.None? && t.queue == [] && t.delivered == s.delivered + SenderHand(s) + s.queue
            && t.evicted == s.evicted && t.receiver == s.receiver
  {
    ReachesInv(capacity, before);
    Drains(Run(Initial(capacity), before), after);
  }

  lemma {:induction false} Drains(s: State, steps: seq<Action>)
    requires Inv(s) && !s.sender.SenderDone? && Runs(s, steps) && Undisturbed(steps)
    requires |steps| >= 5 * |s.queue| + 4 || Run(s, steps).sender.SenderDone?
    ensures var t := Run(s, steps);
            && t.hand.None? && t.queue == [] && t.delivered == s.delivered + SenderHand(s) + s.queue
            && t.evicted == s.evicted && t.receiver == s.receiver
  {
    var t := Run(s, steps);
    RunKeepsInv(s, steps);
    UndisturbedKeeps(s, steps);
    UndisturbedWorks(s, steps, |s.received|);
    NothingWaits(t);
    AllDelivered(s, t);
  }

  /** What the sender does next, if its push succeeds. */
  function NextTurn(s: State): (a: Action)
    requires HandFits(s) && !s.sender.SenderDone?
    ensures Enabled(s, a) && BySender(a) && a != Push(false)
  {
    match s.sender
    case CheckingLoop => CheckLoop
    case CheckingQueue => CheckQueue
    case Getting => if s.queue == [] then GetTimeout else Get
    case Pushing => Push(true)
    case CountingSuccess => CountSuccess
    case CountingFailure => CountFailure
    case Sleeping => Wake
  }

  /** The sender is never stuck: until it ends, it can always go on. */
  lemma {:induction false} SenderGoesOn(s: State, n: nat) returns (steps: seq<Action>)
    requires HandFits(s) && !s.sender.SenderDone?
    ensures Runs(s, steps) && Undisturbed(steps) && (|steps| == n || Run(s, steps).sender.SenderDone?)
    decreases n
  {
    steps := [];
    if n > 0 {
      var a := NextTurn(s);
      var s' := Step(s, a);
      KeepsHandFits(s, a);
      var more := [];
      if !s'.sender.SenderDone? {
        more := SenderGoesOn(s', n - 1);
      }
      steps := [a] + more;
      assert steps[1..] == more;
    }
  }

  /** So from every reachable state in which the sender has not ended, what it holds and the whole queue can be
      delivered, in order, without another body being lost. */
  lemma {:induction false} EverythingCanBeSent(capacity: int, before: seq<Action>) returns (after: seq<Action>)
    requires Runs(Initial(capacity), before) && !Run(Initial(capacity), before).sender.SenderDone?
    ensures var s := Run(Initial(capacity), before);
            && Runs(s, after) && Undisturbed(after)
            && var t := Run(s, after);
               && t.hand.None? && t.queue == [] && t.delivered == s.delivered + SenderHand(s) + s.queue
               && t.evicted == s.evicted && t.receiver == s.receiver
  {
    ReachesInv(capacity, before);
    var s := Run(Initial(capacity), before);
    after := SenderGoesOn(s, 5 * |s.queue| + 4);
    Drains(s, after);
  }
}
