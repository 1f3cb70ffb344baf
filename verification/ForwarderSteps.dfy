/** Every step of either thread of the forwarder keeps the invariant. */
module ForwarderSteps {
  import opened Options
  import opened Forwarder

  lemma {:induction false} PutMoves(s: State, a: Action)
    requires Enabled(s, a) && (a.PutFirst? || (a.PutSecond? && !QueueFull(s)))
    ensures var s' := Step(s, a);
            && Pending(s') == Pending(s) && Sent(s') == Sent(s) && s'.evicted == s.evicted && s'.received == s.received
  {
    var s' := Step(s, a);
    assert SenderHand(s') == SenderHand(s) && s'.delivered == s.delivered;
    assert Pending(s') == Pending(s);
  }

  lemma {:induction false} GetMoves(s: State)
    requires Enabled(s, Get) && s.hand.None?
    ensures var s' := Step(s, Get);
            && Pending(s') == Pending(s)[1..] && Sent(s') == Sent(s) && s'.evicted == s.evicted
            && s'.received == s.received
  {
    assert s.queue == [s.queue[0]] + s.queue[1..];
  }

  lemma {:induction false} PushMoves(s: State, ok: bool)
    requires Enabled(s, Push(ok))
    ensures var s' := Step(s, Push(ok));
            && Pending(s') == Pending(s) && Sent(s') == Sent(s) && s'.evicted == s.evicted && s'.received == s.received
  {
    var s' := Step(s, Push(ok));
    assert s'.delivered + SenderHand(s') == s.delivered + SenderHand(s);
  }

  lemma {:induction false} NothingMoves(s: State, a: Action)
    requires Enabled(s, a) && !a.Receive? && !(a.EvictOldest? && s.queue != [])
    requires !a.PutFirst? && !a.PutSecond? && !a.Get? && !a.Push?
    ensures var s' := Step(s, a);
            && Pending(s') == Pending(s) && Sent(s') == Sent(s) && s'.evicted == s.evicted && s'.received == s.received
  {
    var s' := Step(s, a);
    assert s'.queue == s.queue && ReceiverHand(s') == ReceiverHand(s);
    assert s'.delivered == s.delivered && SenderHand(s') == SenderHand(s);
  }

  /** Every step but receiving and evicting leaves the sequence of unevicted bodies as it is. */
  lemma {:induction false} SentUnchanged(s: State, a: Action)
    requires Enabled(s, a) && !a.Receive? && !(a.EvictOldest? && s.queue != [])
    requires (a.PutSecond? ==> !QueueFull(s)) && (a.Get? ==> s.hand.None?)
    ensures Sent(Step(s, a)) == Sent(s) && Step(s, a).evicted == s.evicted && Step(s, a).received == s.received
    ensures Pending(Step(s, a)) == if a.Get? then Pending(s)[1..] else Pending(s)
  {
    if a.PutFirst? || a.PutSecond? {
      PutMoves(s, a);
    } else if a.Get? {
      GetMoves(s);
    } else if a.Push? {
      PushMoves(s, a.ok);
    } else {
      NothingMoves(s, a);
    }
  }

  lemma {:induction false} ReceiveAppends(s: State, body: string)
    requires s.receiver.Receiving?
    ensures Sent(Step(s, Receive(body))) == Sent(s) + [|s.received|]
    ensures Pending(Step(s, Receive(body))) == Pending(s) + [|s.received|]
  {
  }

  lemma {:induction false} EvictMoves(s: State)
    requires s.receiver.Evicting? && s.queue != []
    ensures var s' := Step(s, EvictOldest);
            Pending(s') == Pending(s)[1..] && s'.evicted == s.evicted + [Pending(s)[0]]
            && Sent(s') == s.delivered + SenderHand(s) + Pending(s)[1..]
  {
  }

  lemma {:induction false} ReceiveConserves(s: State, body: string)
    requires Conserved(s) && s.receiver.Receiving?
    ensures Conserved(Step(s, Receive(body)))
  {
    ReceiveAppends(s, body);
    ConservedByAppend(Sent(s), s.evicted, |s.received|);
    StaysConserved(Step(s, Receive(body)), Sent(s) + [|s.received|], s.evicted, |s.received| + 1);
  }

  lemma {:induction false} StaysConserved(s: State, sent: seq<nat>, evicted: seq<nat>, n: nat)
    requires Balanced(sent, evicted, n) && Sent(s) == sent && s.evicted == evicted && |s.received| == n
    ensures Conserved(s)
  {
  }

  lemma {:induction false} EvictConserves(s: State)
    requires Conserved(s) && s.receiver.Evicting? && s.queue != []
    ensures Conserved(Step(s, EvictOldest))
  {
    EvictMoves(s);
    var x, y := s.delivered + SenderHand(s), Pending(s);
    ConservedByEviction(x, y, s.evicted, |s.received|);
    StaysConserved(Step(s, EvictOldest), x + y[1..], s.evicted + [y[0]], |s.received|);
  }

  lemma {:induction false} KeepsConserved(s: State, a: Action)
    requires Conserved(s) && Enabled(s, a) && (a.PutSecond? ==> !QueueFull(s)) && (a.Get? ==> s.hand.None?)
    ensures Conserved(Step(s, a))
  {
    if a.Receive? {
      ReceiveConserves(s, a.body);
    } else if a.EvictOldest? && s.queue != [] {
      EvictConserves(s);
    } else {
      SentUnchanged(s, a);
    }
  }

  lemma {:induction false} ConservedByAppend(sent: seq<nat>, evicted: seq<nat>, n: nat)
    requires Balanced(sent, evicted, n)
    ensures Balanced(sent + [n], evicted, n + 1)
  {
    assert Range(0, n + 1) == Range(0, n) + [n];
  }

  lemma {:induction false} ConservedByEviction(x: seq<nat>, y: seq<nat>, evicted: seq<nat>, n: nat)
    requires y != [] && Balanced(x + y, evicted, n)
    ensures Balanced(x + y[1..], evicted + [y[0]], n)
  {
    assert y == [y[0]] + y[1..];
  }

  lemma {:induction false} KeepsContiguous(s: State, a: Action)
    requires Contiguous(s) && Enabled(s, a) && (a.PutSecond? ==> !QueueFull(s)) && (a.Get? ==> s.hand.None?)
    ensures Contiguous(Step(s, a))
  {
    var s' := Step(s, a);
    if a.Receive? {
      ReceiveAppends(s, a.body);
      Lengthened(Pending(s), |s.received|);
    } else if a.EvictOldest? && s.queue != [] {
      EvictMoves(s);
      Shortened(Pending(s), |s.received|);
    } else {
      SentUnchanged(s, a);
      if a.Get? {
        Shortened(Pending(s), |s.received|);
      }
    }
  }

  /** The newest stretch of n bodies, with one more body received. */
  lemma {:induction false} Lengthened(p: seq<nat>, n: nat)
    requires Newest(p, n)
    ensures Newest(p + [n], n + 1)
  {
  }

  /** The newest stretch without its oldest body. */
  lemma {:induction false} Shortened(p: seq<nat>, n: nat)
    requires Newest(p, n) && p != []
    ensures Newest(p[1..], n)
  {
  }

  lemma {:induction false} KeepsInOrder(s: State, a: Action)
    requires InOrder(s) && Conserved(s) && Enabled(s, a)
    requires (a.PutSecond? ==> !QueueFull(s)) && (a.Get? ==> s.hand.None?)
    ensures InOrder(Step(s, a))
  {
    if a.Receive? {
      ReceiveInOrder(s, a.body);
    } else if a.EvictOldest? && s.queue != [] {
      EvictInOrder(s);
    } else {
      SentUnchanged(s, a);
      if a.Get? {
        Without(s.evicted, Pending(s));
      }
    }
  }

  lemma {:induction false} ReceiveInOrder(s: State, body: string)
    requires InOrder(s) && Conserved(s) && s.receiver.Receiving?
    ensures InOrder(Step(s, Receive(body)))
  {
    ReceiveAppends(s, body);
    PlacesBelow(s);
    AppendToAll(s.delivered + SenderHand(s), s.evicted, Pending(s), |s.received|);
  }

  lemma {:induction false} EvictInOrder(s: State)
    requires InOrder(s) && s.receiver.Evicting? && s.queue != []
    ensures InOrder(Step(s, EvictOldest))
  {
    EvictMoves(s);
    Without(s.delivered + SenderHand(s), Pending(s));
    assert s.evicted + [Pending(s)[0]] + Pending(s)[1..] == s.evicted + Pending(s);
  }

  lemma {:induction false} AppendToAll(x: seq<nat>, y: seq<nat>, z: seq<nat>, n: nat)
    requires Increasing(x + z) && Increasing(y + z)
    requires forall e :: e in x + z || e in y ==> e < n
    ensures Increasing(x + z + [n]) && Increasing(y + (z + [n]))
  {
    assert forall i :: 0 <= i < |z| ==> z[i] == (x + z)[|x| + i];
    assert forall i :: 0 <= i < |x + z| ==> (x + z)[i] in x + z;
    assert forall i :: 0 <= i < |y + z| ==> (y + z)[i] in x + z || (y + z)[i] in y;
    Append(x + z, n);
    Append(y + z, n);
    assert y + (z + [n]) == y + z + [n];
  }

  lemma {:induction false} Append(x: seq<nat>, n: nat)
    requires Increasing(x) && forall i :: 0 <= i < |x| ==> x[i] < n
    ensures Increasing(x + [n])
  {
  }

  /** Dropping one element from the middle of an increasing sequence. */
  lemma {:induction false} Without(x: seq<nat>, y: seq<nat>)
    requires y != [] && Increasing(x + y)
    ensures Increasing(x + y[1..])
  {
    var z, w := x + y[1..], x + y;
    forall i, j | 0 <= i < j < |z| ensures z[i] < z[j] {
      assert z[i] == w[if i < |x| then i else i + 1] && z[j] == w[if j < |x| then j else j + 1];
    }
  }

  lemma {:induction false} PlacesBelow(s: State)
    requires Conserved(s)
    ensures forall x :: x in Sent(s) || x in s.evicted ==> x < |s.received|
  {
    var all := Range(0, |s.received|);
    forall x | x in Sent(s) || x in s.evicted ensures x < |s.received| {
      MultisetSplit(Sent(s), s.evicted, all, x);
    }
  }

  lemma {:induction false} MultisetSplit(xs: seq<nat>, ys: seq<nat>, all: seq<nat>, x: nat)
    requires multiset(xs) + multiset(ys) == multiset(all) && (x in xs || x in ys)
    ensures x in all
  {
    assert x in multiset(xs) + multiset(ys);
    assert x in multiset(all);
  }

  lemma {:induction false} KeepsBounded(s: State, a: Action)
    requires Bounded(s) && Enabled(s, a)
    ensures Bounded(Step(s, a))
  {
  }

  lemma {:induction false} PersistentNext(attempts: seq<Attempt>, a: Attempt)
    requires Persistent(attempts)
    requires attempts != [] && !attempts[|attempts| - 1].ok ==> attempts[|attempts| - 1].item == a.item
    ensures Persistent(attempts + [a])
    ensures Successes(attempts + [a]) == Successes(attempts) + if a.ok then [a.item] else []
  {
    assert (attempts + [a])[..|attempts|] == attempts;
  }

  lemma {:induction false} PushPersists(s: State, ok: bool)
    requires AttemptsPersist(s) && Enabled(s, Push(ok))
    ensures AttemptsPersist(Step(s, Push(ok)))
  {
    KeptNext(s.attempts, s.hand.value, ok, s.delivered);
  }

  lemma {:induction false} KeptNext(attempts: seq<Attempt>, x: nat, ok: bool, delivered: seq<nat>)
    requires Kept(attempts, Some(x), delivered)
    ensures Kept(attempts + [Attempt(x, ok)], if ok then None else Some(x), if ok then delivered + [x] else delivered)
  {
    PersistentNext(attempts, Attempt(x, ok));
  }

  lemma {:induction false} KeepsHandFits(s: State, a: Action)
    requires HandFits(s) && Enabled(s, a)
    ensures HandFits(Step(s, a))
  {
  }

  lemma {:induction false} KeepsRetried(s: State, a: Action)
    requires Retried(s) && Enabled(s, a)
    ensures Retried(Step(s, a))
  {
    KeepsHandFits(s, a);
    if a.Push? {
      PushPersists(s, a.ok);
    } else {
      OthersPersist(s, a);
    }
  }

  lemma {:induction false} OthersPersist(s: State, a: Action)
    requires AttemptsPersist(s) && HandFits(s) && Enabled(s, a) && !a.Push?
    ensures AttemptsPersist(Step(s, a))
  {
    assert Step(s, a).attempts == s.attempts && Step(s, a).delivered == s.delivered;
  }

  lemma {:induction false} KeepsCounted(s: State, a: Action)
    requires Counted(s) && Bounded(s) && Enabled(s, a)
    ensures Counted(Step(s, a))
  {
    KeepsDropsCounted(s, a);
    KeepsPushesCounted(s, a);
  }

  lemma {:induction false} KeepsDropsCounted(s: State, a: Action)
    requires DropsCounted(s) && Bounded(s) && Enabled(s, a)
    ensures DropsCounted(Step(s, a))
  {
  }

  lemma {:induction false} KeepsPushesCounted(s: State, a: Action)
    requires PushesCounted(s) && Enabled(s, a)
    ensures PushesCounted(Step(s, a))
  {
    if a.Push? {
      FailuresNext(s.attempts, Attempt(s.hand.value, a.ok));
    } else {
      assert Step(s, a).attempts == s.attempts && Step(s, a).delivered == s.delivered;
    }
  }

  lemma {:induction false} FailuresNext(attempts: seq<Attempt>, a: Attempt)
    ensures Failures(attempts + [a]) == Failures(attempts) + if a.ok then 0 else 1
  {
    assert (attempts + [a])[..|attempts|] == attempts;
  }

  lemma {:induction false} KeepsBacksOff(s: State, a: Action)
    requires BacksOff(s) && Enabled(s, a)
    ensures BacksOff(Step(s, a))
  {
    match a {
      case Push(ok) =>
        StreakNext(s.attempts, Attempt(s.hand.value, ok));
      case CountFailure =>
        DelayDoubles(Streak(s.attempts) - 1);
      case _ =>
        OthersBackOff(s, a);
    }
  }

  lemma {:induction false} StreakNext(attempts: seq<Attempt>, a: Attempt)
    ensures Streak(attempts + [a]) == if a.ok then 0 else 1 + Streak(attempts)
  {
    assert (attempts + [a])[..|attempts|] == attempts;
  }

  lemma {:induction false} OthersBackOff(s: State, a: Action)
    requires BacksOff(s) && Enabled(s, a) && !a.Push? && !a.CountFailure?
    ensures BacksOff(Step(s, a))
  {
    var s' := Step(s, a);
    assert s'.attempts == s.attempts && s'.backoff == s.backoff;
    assert s'.sender.CountingFailure? <==> s.sender.CountingFailure?;
  }

  lemma {:induction false} KeepsStopping(s: State, a: Action)
    requires Stopping(s) && Enabled(s, a)
    ensures Stopping(Step(s, a))
  {
  }

  lemma {:induction false} KeepsLastOne(s: State, a: Action)
    requires LastOne(s) && Stopping(s) && Bounded(s) && Enabled(s, a)
    ensures LastOne(Step(s, a))
  {
  }

  lemma {:induction false} StepKeepsInv(s: State, a: Action)
    requires Inv(s) && Enabled(s, a)
    ensures Inv(Step(s, a))
  {
    assert (a.PutSecond? ==> !QueueFull(s)) && (a.Get? ==> s.hand.None?);
    KeepsConserved(s, a);
    KeepsContiguous(s, a);
    KeepsInOrder(s, a);
    KeepsBounded(s, a);
    KeepsCounted(s, a);
    KeepsRetried(s, a);
    KeepsBacksOff(s, a);
    KeepsStopping(s, a);
    KeepsLastOne(s, a);
  }
}
