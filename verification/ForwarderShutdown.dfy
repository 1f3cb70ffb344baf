/** What the forwarder can lose when it is told to stop. */
module ForwarderShutdown {
  import opened Forwarder
  import opened ForwarderSteps
  import opened ForwarderRuns

  /** After the sender has ended, nothing is delivered or evicted any more, and whatever comes in stays pending. */
  predicate Frozen(s: State, t: State) {
    && t.sender.SenderDone? && t.delivered == s.delivered && t.evicted == s.evicted
    && |s.received| <= |t.received| <= |s.received| + 1 && t.received[..|s.received|] == s.received
    && Pending(t) == Pending(s) + Range(|s.received|, |t.received|)
  }

  predicate Ended(s: State) {
    s.sender.SenderDone? && LastOne(s) && Bounded(s) && Stopping(s)
  }

  lemma {:induction false} EndedReceive(s: State, body: string)
    requires s.receiver.Receiving? && s.sender.SenderDone?
    ensures Frozen(s, Step(s, Receive(body)))
  {
    ReceiveAppends(s, body);
    assert Range(|s.received|, |s.received| + 1) == [|s.received|];
    assert Pending(s) + [|s.received|] == s.queue + [|s.received|];
  }

  lemma {:induction false} EndedStays(s: State, a: Action)
    requires Ended(s) && Enabled(s, a) && !a.Receive?
    ensures var t := Step(s, a);
            && t.sender.SenderDone? && t.delivered == s.delivered && t.evicted == s.evicted && t.received == s.received
            && Pending(t) == Pending(s)
  {
  }

  lemma {:induction false} EndedStep(s: State, a: Action)
    requires Ended(s) && Enabled(s, a)
    ensures Ended(Step(s, a)) && Frozen(s, Step(s, a))
  {
    KeepsBounded(s, a);
    KeepsStopping(s, a);
    KeepsLastOne(s, a);
    if a.Receive? {
      EndedReceive(s, a.body);
    } else {
      EndedStays(s, a);
      assert Range(|s.received|, |s.received|) == [];
    }
  }

  lemma {:induction false} PendingIsBounded(s: State)
    requires LastOne(s) && s.sender.SenderDone?
    ensures |Pending(s)| <= 1
  {
  }

  lemma {:induction false} RangeJoins(a: nat, b: nat, c: nat)
    requires a <= b <= c
    ensures Range(a, b) + Range(b, c) == Range(a, c)
  {
  }

  lemma {:induction false} EndedRun(s: State, steps: seq<Action>)
    requires Ended(s) && Runs(s, steps)
    ensures Ended(Run(s, steps)) && Frozen(s, Run(s, steps))
    decreases |steps|
  {
    if steps == [] {
      assert Range(|s.received|, |s.received|) == [];
    } else {
      var u, t := Step(s, steps[0]), Run(s, steps);
      EndedStep(s, steps[0]);
      EndedRun(u, steps[1..]);
      FrozenChains(s, u, t);
      PendingIsBounded(t);
    }
  }

  lemma {:induction false} FrozenChains(s: State, u: State, t: State)
    requires Frozen(s, u) && Frozen(u, t)
    ensures t.delivered == s.delivered && t.evicted == s.evicted
    ensures |s.received| <= |t.received| && t.received[..|s.received|] == s.received
    ensures Pending(t) == Pending(s) + Range(|s.received|, |t.received|)
  {
    assert t.received[..|s.received|] == t.received[..|u.received|][..|s.received|];
    RangeJoins(|s.received|, |u.received|, |t.received|);
  }

  /** Shutdown loses at most one body: when both threads have ended, everything received has been delivered or evicted,
      except at most the last body, which is then alone in the queue. */
  lemma {:induction false} ShutdownStrandsAtMostOne(capacity: int, steps: seq<Action>, i: nat)
    requires Runs(Initial(capacity), steps)
    requires var s := Run(Initial(capacity), steps); s.sender.SenderDone? && s.receiver.ReceiverDone?
    ensures var s := Run(Initial(capacity), steps);
            && (s.queue == [] || s.queue == [|s.received| - 1])
            && (i < |s.received| && i !in s.queue ==> multiset(s.delivered)[i] + multiset(s.evicted)[i] == 1)
  {
    ReachesInv(capacity, steps);
    BothEnded(Run(Initial(capacity), steps), i);
  }

  lemma {:induction false} BothEnded(s: State, i: nat)
    requires Inv(s) && s.sender.SenderDone? && s.receiver.ReceiverDone?
    ensures s.queue == [] || s.queue == [|s.received| - 1]
    ensures i < |s.received| && i !in s.queue ==> multiset(s.delivered)[i] + multiset(s.evicted)[i] == 1
  {
    OneLeft(s);
    PlacesOnce(s, i);
  }

  lemma {:induction false} OneLeft(s: State)
    requires Contiguous(s) && LastOne(s) && s.sender.SenderDone? && s.receiver.ReceiverDone?
    ensures s.queue == [] || s.queue == [|s.received| - 1]
  {
    assert Pending(s) == s.queue && |s.queue| <= 1;
  }

  /** And exactly when: from any moment at which the sender has ended, the forwarder comes to a state with nothing
      pending if and only if nothing was pending at that moment and nothing is received after it. */
  lemma {:induction false} NothingStrandedIff(capacity: int, steps: seq<Action>, more: seq<Action>)
    requires Runs(Initial(capacity), steps)
    requires var s := Run(Initial(capacity), steps); s.sender.SenderDone? && Runs(s, more)
    ensures var s := Run(Initial(capacity), steps);
            var t := Run(s, more);
            Pending(t) == [] <==> Pending(s) == [] && t.received == s.received
  {
    var s := Run(Initial(capacity), steps);
    ReachesInv(capacity, steps);
    EndedRun(s, more);
    var t := Run(s, more);
    assert t.received == s.received <==> |t.received| == |s.received|;
  }

  /** A run that does lose one: a body offered after the sender's last look at the queue stays there for good. */
  lemma {:induction false} LateBodyIsStranded(body: string)
    ensures exists steps, s ::
              && Runs(Initial(1), steps) && s == Run(Initial(1), steps)
              && s.sender.SenderDone? && s.receiver.ReceiverDone? && s.queue == [0] && s.delivered == [] == s.evicted
  {
    var s0 := Initial(1);
    var s4 := s0.(running := false, received := [body], receiver := FirstPut(0));
    var s8 := s4.(queue := [0], receiver := ReceiverDone, sender := SenderDone);
    var xs, ys := [CheckRun, Receive(body), Signal], [CheckLoop, CheckQueue, PutFirst, CheckRun];
    RunThree(s0, CheckRun, Receive(body), Signal);
    assert Run(s0, xs) == s4;
    RunTwo(s4, CheckLoop, CheckQueue);
    var s6 := Run(s4, [CheckLoop, CheckQueue]);
    RunTwo(s6, PutFirst, CheckRun);
    RunConcat(s4, [CheckLoop, CheckQueue], [PutFirst, CheckRun]);
    assert ys == [CheckLoop, CheckQueue] + [PutFirst, CheckRun];
    assert Run(s4, ys) == s8;
    RunConcat(s0, xs, ys);
    assert Runs(s0, xs + ys) && s8 == Run(s0, xs + ys);
  }
}
