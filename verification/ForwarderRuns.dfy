/** What holds in every interleaving of the forwarder's two threads. */
module ForwarderRuns {
  import opened Forwarder
  import opened ForwarderSteps

  lemma {:induction false} RunKeepsInv(s: State, steps: seq<Action>)
    requires Inv(s) && Runs(s, steps)
    ensures Inv(Run(s, steps))
    decreases |steps|
  {
    if steps != [] {
      StepKeepsInv(s, steps[0]);
      RunKeepsInv(Step(s, steps[0]), steps[1..]);
    }
  }

  function Places(s: State, i: nat): (n: nat) {
    multiset(s.delivered)[i] + multiset(SenderHand(s))[i] + multiset(s.queue)[i] + multiset(s.evicted)[i]
      + multiset(ReceiverHand(s))[i]
  }

  lemma {:induction false} RangeOnce(n: nat, i: nat)
    ensures multiset(Range(0, n))[i] == if i < n then 1 else 0
  {
    if n > 0 {
      RangeOnce(n - 1, i);
      assert Range(0, n) == Range(0, n - 1) + [n - 1];
    }
  }

  lemma {:induction false} PlacesOnce(s: State, i: nat)
    requires Conserved(s)
    ensures Places(s, i) == if i < |s.received| then 1 else 0
  {
    assert Places(s, i) == (multiset(Sent(s)) + multiset(s.evicted))[i];
    RangeOnce(|s.received|, i);
  }

  lemma {:induction false} PrefixIncreasing(x: seq<nat>, y: seq<nat>)
    requires Increasing(x + y)
    ensures Increasing(x)
  {
    assert forall i :: 0 <= i < |x| ==> x[i] == (x + y)[i];
  }

  /** In every interleaving of the two threads, whatever the queue size and the outcomes of the pushes:
      each received body is in exactly one place; deliveries keep the order of arrival without repeats; what is
      pending is the most recent stretch; the second put never finds the queue full; the counters agree with what
      happened, up to the one update not yet made; and after k failures in a row the delay is the documented one. */
  lemma {:induction false} EveryInterleaving(capacity: int, steps: seq<Action>, i: nat)
    requires Runs(Initial(capacity), steps)
    ensures var s := Run(Initial(capacity), steps);
            && Places(s, i) == (if i < |s.received| then 1 else 0)
            && Increasing(s.delivered) && Increasing(s.evicted) && Contiguous(s)
            && Bounded(s) && Counted(s) && Retried(s) && BacksOff(s)
  {
    ReachesInv(capacity, steps);
    InvReads(Run(Initial(capacity), steps), i);
  }

  lemma {:induction false} InitialInv(capacity: int)
    ensures Inv(Initial(capacity))
  {
    assert Range(0, 0) == [];
  }

  lemma {:induction false} ReachesInv(capacity: int, steps: seq<Action>)
    requires Runs(Initial(capacity), steps)
    ensures Inv(Run(Initial(capacity), steps))
  {
    InitialInv(capacity);
    RunKeepsInv(Initial(capacity), steps);
  }

  lemma {:induction false} InvReads(s: State, i: nat)
    requires Conserved(s) && InOrder(s)
    ensures Places(s, i) == if i < |s.received| then 1 else 0
    ensures Increasing(s.delivered) && Increasing(s.evicted)
  {
    PlacesOnce(s, i);
    assert Sent(s) == s.delivered + (SenderHand(s) + Pending(s));
    PrefixIncreasing(s.delivered, SenderHand(s) + Pending(s));
    PrefixIncreasing(s.evicted, Pending(s));
  }

  lemma {:induction false} DeliveredGrows(s: State, steps: seq<Action>)
    requires Runs(s, steps)
    ensures s.delivered <= Run(s, steps).delivered
    decreases |steps|
  {
    if steps != [] {
      assert s.delivered <= Step(s, steps[0]).delivered;
      DeliveredGrows(Step(s, steps[0]), steps[1..]);
    }
  }

  lemma {:induction false} HeldStep(s: State, a: Action)
    requires HandFits(s) && Enabled(s, a) && s.hand.Some?
    ensures var s' := Step(s, a);
            if a == Push(true) then s'.delivered == s.delivered + [s.hand.value]
            else s'.hand == s.hand && s'.delivered == s.delivered
  {
  }

  /** A body taken from the queue stays in the sender's hand until a push succeeds, and is the next one delivered:
      whatever the two threads do, nothing else is delivered before it. */
  lemma {:induction false} HeldUntilDelivered(s: State, steps: seq<Action>)
    requires HandFits(s) && Runs(s, steps) && s.hand.Some?
    ensures var t := Run(s, steps);
            if Push(true) in steps then s.delivered + [s.hand.value] <= t.delivered
            else t.hand == s.hand && t.delivered == s.delivered
    decreases |steps|
  {
    if steps != [] {
      HeldStep(s, steps[0]);
      assert steps == [steps[0]] + steps[1..];
      if steps[0] == Push(true) {
        DeliveredGrows(Step(s, steps[0]), steps[1..]);
      } else {
        KeepsHandFits(s, steps[0]);
        HeldUntilDelivered(Step(s, steps[0]), steps[1..]);
      }
    }
  }

  predicate Idle(s: State) {
    !s.running && s.hand.None? && s.queue == []
  }

  lemma {:induction false} QuitStep(s: State, a: Action)
    requires Stopping(s) && HandFits(s) && Enabled(s, a) && !s.sender.SenderDone? && Step(s, a).sender.SenderDone?
    ensures a == CheckQueue && Idle(s)
  {
  }

  lemma {:induction false} QuitRun(s: State, steps: seq<Action>) returns (n: nat)
    requires Stopping(s) && HandFits(s) && Runs(s, steps) && !s.sender.SenderDone? && Run(s, steps).sender.SenderDone?
    ensures n < |steps| && steps[n] == CheckQueue && Runs(s, steps[..n]) && Idle(Run(s, steps[..n]))
    decreases |steps|
  {
    var s' := Step(s, steps[0]);
    if s'.sender.SenderDone? {
      QuitStep(s, steps[0]);
      n := 0;
    } else {
      KeepsStopping(s, steps[0]);
      KeepsHandFits(s, steps[0]);
      var m := QuitRun(s', steps[1..]);
      n := m + 1;
      assert steps[..n][1..] == steps[1..][..m];
    }
  }

  /** In every run in which the sender ends, it does so at a moment when it has been told to stop, has nothing in hand
      and sees the queue empty. */
  lemma {:induction false} QuitsOnlyWhenIdle(capacity: int, steps: seq<Action>) returns (n: nat)
    requires Runs(Initial(capacity), steps) && Run(Initial(capacity), steps).sender.SenderDone?
    ensures n < |steps| && steps[n] == CheckQueue
    ensures Runs(Initial(capacity), steps[..n]) && Idle(Run(Initial(capacity), steps[..n]))
  {
    n := QuitRun(Initial(capacity), steps);
  }

  // ---------------------------------------------------------------- short runs

  lemma {:induction false} RunTwo(s: State, a: Action, b: Action)
    requires Enabled(s, a) && Enabled(Step(s, a), b)
    ensures Runs(s, [a, b]) && Run(s, [a, b]) == Step(Step(s, a), b)
  {
    assert [a, b][1..] == [b];
    RunOne(Step(s, a), b);
  }

  lemma {:induction false} RunOne(s: State, a: Action)
    requires Enabled(s, a)
    ensures Runs(s, [a]) && Run(s, [a]) == Step(s, a)
  {
    assert [a][0] == a && [a][1..] == [];
    assert Runs(Step(s, a), []) && Run(Step(s, a), []) == Step(s, a);
  }

  lemma {:induction false} RunThree(s: State, a: Action, b: Action, c: Action)
    requires Enabled(s, a) && Enabled(Step(s, a), b) && Enabled(Step(Step(s, a), b), c)
    ensures Runs(s, [a, b, c]) && Run(s, [a, b, c]) == Step(Step(Step(s, a), b), c)
  {
    assert [a, b, c][1..] == [b, c];
    RunTwo(Step(s, a), b, c);
  }

  lemma {:induction false} RunConcat(s: State, xs: seq<Action>, ys: seq<Action>)
    requires Runs(s, xs) && Runs(Run(s, xs), ys)
    ensures Runs(s, xs + ys) && Run(s, xs + ys) == Run(Run(s, xs), ys)
    decreases |xs|
  {
    if xs == [] {
      assert xs + ys == ys;
    } else {
      assert (xs + ys)[1..] == xs[1..] + ys;
      RunConcat(Step(s, xs[0]), xs[1..], ys);
    }
  }
}
