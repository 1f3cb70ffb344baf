/** The forwarder's receiver and sender threads around their bounded queue, as a step machine: every atomic
    queue operation, every counter update and every push is one step of one thread, in any interleaving.
    A received body is named by its place in the order of arrival. */
module Forwarder {
  import opened Options

  datatype Receiver =
    | CheckingRun
    | Receiving
    | FirstPut(item: nat)
    | Evicting(item: nat)
    | SecondPut(item: nat, evicted: bool)
    | CountingDrop
    | ReceiverRaised
    | ReceiverDone

  datatype Sender =
    | CheckingLoop
    | CheckingQueue
    | Getting
    | Pushing
    | CountingSuccess
    | CountingFailure
    | Sleeping
    | SenderDone

  datatype Attempt = Attempt(item: nat, ok: bool)
  datatype Stats = Stats(forwarded: nat, errors: nat, drops: nat, pushFailures: nat)

  datatype State = State(
    capacity: int,
    running: bool,
    received: seq<string>,
    queue: seq<nat>,
    receiver: Receiver,
    sender: Sender,
    hand: Option<nat>,
    backoff: real,
    stats: Stats,
    // history
    delivered: seq<nat>,
    evicted: seq<nat>,
    attempts: seq<Attempt>)

  datatype Action =
    | CheckRun | Receive(body: string) | Ignore | SocketClosed | PutFirst | EvictOldest | PutSecond | CountDrop
    | CheckLoop | CheckQueue | Get | GetTimeout | Push(ok: bool) | CountSuccess | CountFailure | Wake
    | Signal

  const MAX_BACKOFF: real := 30.0

  function Initial(capacity: int): (s: State) {
    State(capacity, true, [], [], CheckingRun, CheckingLoop, None, 0.0, Stats(0, 0, 0, 0), [], [], [])
  }

  /** A queue with a non-positive maximum size is never full. */
  predicate QueueFull(s: State) {
    s.capacity > 0 && |s.queue| >= s.capacity
  }

  predicate Enabled(s: State, a: Action) {
    match a
    case CheckRun => s.receiver.CheckingRun?
    case Receive(_) => s.receiver.Receiving?
    case Ignore => s.receiver.Receiving?
    case SocketClosed => s.receiver.Receiving?
    case PutFirst => s.receiver.FirstPut?
    case EvictOldest => s.receiver.Evicting?
    case PutSecond => s.receiver.SecondPut?
    case CountDrop => s.receiver.CountingDrop?
    case CheckLoop => s.sender.CheckingLoop?
    case CheckQueue => s.sender.CheckingQueue?
    case Get => s.sender.Getting? && s.queue != []
    case GetTimeout => s.sender.Getting? && s.queue == []
    case Push(_) => s.sender.Pushing? && s.hand.Some?
    case CountSuccess => s.sender.CountingSuccess?
    case CountFailure => s.sender.CountingFailure?
    case Wake => s.sender.Sleeping?
    case Signal => s.running
  }

  predicate ByReceiver(a: Action) {
    a.CheckRun? || a.Receive? || a.Ignore? || a.SocketClosed? || a.PutFirst? || a.EvictOldest? || a.PutSecond?
        || a.CountDrop?
  }

  function ReceiverStep(s: State, a: Action): (r: State)
    requires Enabled(s, a)
  {
    match a
    case CheckRun => s.(receiver := if s.running then Receiving else ReceiverDone)
    case Receive(body) => s.(received := s.received + [body], receiver := FirstPut(|s.received|))
    case Ignore => s.(receiver := CheckingRun)
    case SocketClosed => s.(receiver := ReceiverDone)
    case PutFirst =>
      if QueueFull(s) then s.(receiver := Evicting(s.receiver.item))
      else s.(queue := s.queue + [s.receiver.item], receiver := CheckingRun)
    case EvictOldest =>
      if s.queue == [] then s.(receiver := SecondPut(s.receiver.item, false))
      else s.(queue := s.queue[1..], evicted := s.evicted + [s.queue[0]], receiver := SecondPut(s.receiver.item, true))
    case PutSecond =>
      if QueueFull(s) then s.(receiver := ReceiverRaised)
      else
        s.(queue := s.queue + [s.receiver.item], receiver := if s.receiver.evicted then CountingDrop else CheckingRun)
    case CountDrop => s.(stats := s.stats.(drops := s.stats.drops + 1), receiver := CheckingRun)
    case _ => s
  }

  function Min(x: real, y: real): (r: real) {
    if x < y then x else y
  }

  /** The next delay: half a second at first, then twice as long, up to the maximum. */
  function Doubled(backoff: real): (r: real) {
    if backoff == 0.0 then 0.5 else Min(backoff * 2.0, MAX_BACKOFF)
  }

  function SenderStep(s: State, a: Action): (r: State)
    requires Enabled(s, a)
  {
    match a
    case CheckLoop =>
      s.(sender := if s.hand.Some? then Pushing else if s.running then Getting else CheckingQueue)
    case CheckQueue => s.(sender := if s.queue == [] then SenderDone else Getting)
    case Get => s.(hand := Some(s.queue[0]), queue := s.queue[1..], sender := Pushing)
    case GetTimeout => s.(sender := CheckingLoop)
    case Push(ok) =>
      var s' := s.(attempts := s.attempts + [Attempt(s.hand.value, ok)]);
      if ok then
        s'.(hand := None, backoff := 0.0, delivered := s.delivered + [s.hand.value], sender := CountingSuccess)
      else s'.(sender := CountingFailure)
    case CountSuccess => s.(stats := s.stats.(forwarded := s.stats.forwarded + 1), sender := CheckingLoop)
    case CountFailure =>
      s.(stats := s.stats.(errors := s.stats.errors + 1, pushFailures := s.stats.pushFailures + 1),
         backoff := Doubled(s.backoff), sender := Sleeping)
    case Wake => s.(sender := CheckingLoop)
    case _ => s
  }

  function Step(s: State, a: Action): (r: State)
    requires Enabled(s, a)
  {
    if a.Signal? then s.(running := false)
    else if ByReceiver(a) then ReceiverStep(s, a)
    else SenderStep(s, a)
  }

  predicate Runs(s: State, steps: seq<Action>)
    decreases |steps|
  {
    steps == [] || (Enabled(s, steps[0]) && Runs(Step(s, steps[0]), steps[1..]))
  }

  function Run(s: State, steps: seq<Action>): (r: State)
    requires Runs(s, steps)
    decreases |steps|
  {
    if steps == [] then s else Run(Step(s, steps[0]), steps[1..])
  }

  // ---------------------------------------------------------------- the five places a body can be

  function SenderHand(s: State): (r: seq<nat>) {
    if s.hand.Some? then [s.hand.value] else []
  }

  function ReceiverHand(s: State): (r: seq<nat>) {
    match s.receiver
    case FirstPut(x) => [x]
    case Evicting(x) => [x]
    case SecondPut(x, _) => [x]
    case _ => []
  }

  function Range(lo: nat, hi: nat): (r: seq<nat>)
    requires lo <= hi
    ensures |r| == hi - lo && forall i :: 0 <= i < |r| ==> r[i] == lo + i
  {
    seq(hi - lo, i => lo + i)
  }

  predicate Increasing(s: seq<nat>) {
    forall i, j :: 0 <= i < j < |s| ==> s[i] < s[j]
  }

  /** What is still on its way, oldest first. */
  function Pending(s: State): (r: seq<nat>) {
    s.queue + ReceiverHand(s)
  }

  /** Everything not evicted, in the order in which it has been or would be sent. */
  function Sent(s: State): (r: seq<nat>) {
    s.delivered + SenderHand(s) + Pending(s)
  }

  /** Each body received so far is in exactly one of the five places, exactly once. */
  ghost predicate Conserved(s: State) {
    Balanced(Sent(s), s.evicted, |s.received|)
  }

  ghost predicate Balanced(sent: seq<nat>, evicted: seq<nat>, n: nat) {
    multiset(sent) + multiset(evicted) == multiset(Range(0, n))
  }

  /** These are the last of n bodies, with no gap. */
  predicate Newest(p: seq<nat>, n: nat) {
    |p| <= n && p == Range(n - |p|, n)
  }

  predicate Contiguous(s: State) {
    Newest(Pending(s), |s.received|)
  }

  /** Deliveries, and evictions, follow the order of arrival, and everything pending is newer. */
  predicate InOrder(s: State) {
    Increasing(Sent(s)) && Increasing(s.evicted + Pending(s))
  }

  predicate Bounded(s: State) {
    && !s.receiver.ReceiverRaised?
    && (s.capacity > 0 ==> |s.queue| <= s.capacity)
    && (s.receiver.SecondPut? ==> !QueueFull(s))
  }

  predicate DropsCounted(s: State) {
    s.stats.drops + (if s.receiver.CountingDrop? || (s.receiver.SecondPut? && s.receiver.evicted) then 1 else 0)
      == |s.evicted|
  }

  predicate PushesCounted(s: State) {
    && s.stats.forwarded + (if s.sender.CountingSuccess? then 1 else 0) == |s.delivered|
    && s.stats.errors + (if s.sender.CountingFailure? then 1 else 0) == Failures(s.attempts)
    && s.stats.pushFailures == s.stats.errors
  }

  predicate Counted(s: State) {
    DropsCounted(s) && PushesCounted(s)
  }

  // ---------------------------------------------------------------- retries

  function Failures(ats: seq<Attempt>): (n: nat) {
    if ats == [] then 0 else Failures(ats[..|ats| - 1]) + if ats[|ats| - 1].ok then 0 else 1
  }

  function Successes(ats: seq<Attempt>): (r: seq<nat>) {
    if ats == [] then []
    else Successes(ats[..|ats| - 1]) + if ats[|ats| - 1].ok then [ats[|ats| - 1].item] else []
  }

  /** How many attempts have failed since the last success. */
  function Streak(ats: seq<Attempt>): (n: nat) {
    if ats == [] || ats[|ats| - 1].ok then 0 else 1 + Streak(ats[..|ats| - 1])
  }

  /** What follows a failed attempt is another attempt with the same body. */
  predicate Persistent(attempts: seq<Attempt>) {
    forall i :: 0 <= i < |attempts| - 1 && !attempts[i].ok ==> attempts[i + 1].item == attempts[i].item
  }

  /** A failed body is pushed again before any other is touched, until it succeeds. */
  predicate Retried(s: State) {
    AttemptsPersist(s) && HandFits(s)
  }

  predicate AttemptsPersist(s: State) {
    Kept(s.attempts, s.hand, s.delivered)
  }

  /** After a failed attempt its body is still in hand, and the successful ones are what has been delivered. */
  predicate Kept(attempts: seq<Attempt>, hand: Option<nat>, delivered: seq<nat>) {
    && Persistent(attempts) && Successes(attempts) == delivered
    && (attempts != [] && !attempts[|attempts| - 1].ok ==> hand == Some(attempts[|attempts| - 1].item))
  }

  /** The sender holds a body exactly where it is to push one. */
  predicate HandFits(s: State) {
    && (s.sender.Pushing? || s.sender.CountingFailure? || s.sender.Sleeping? ==> s.hand.Some?)
    && (s.sender.Getting? || s.sender.CheckingQueue? || s.sender.CountingSuccess? || s.sender.SenderDone? ==>
          s.hand.None?)
  }

  function Doublings(k: nat): (r: real)
    ensures r >= 1.0
  {
    if k == 0 then 1.0 else 2.0 * Doublings(k - 1)
  }

  /** The documented delay after k consecutive failures: half a second doubled k - 1 times, but never over 30. */
  function Delay(k: nat): (r: real)
    ensures r <= 30.0
  {
    if k == 0 then 0.0 else if 0.5 * Doublings(k - 1) <= 30.0 then 0.5 * Doublings(k - 1) else 30.0
  }

  predicate BacksOff(s: State) {
    if s.sender.CountingFailure? then Streak(s.attempts) > 0 && s.backoff == Delay(Streak(s.attempts) - 1)
    else s.backoff == Delay(Streak(s.attempts))
  }

  /** The sender does not prepare to end while the forwarder is running. */
  predicate Stopping(s: State) {
    s.sender.CheckingQueue? || s.sender.SenderDone? ==> !s.running
  }

  /** Once the sender has ended, at most one body can still be, or come to be, on its way. */
  predicate LastOne(s: State) {
    s.sender.SenderDone? ==> |s.queue| + (if s.receiver.Receiving? || ReceiverHand(s) != [] then 1 else 0) <= 1
  }

  ghost predicate Inv(s: State) {
    && Conserved(s) && Contiguous(s) && InOrder(s) && Bounded(s) && Counted(s) && Retried(s) && BacksOff(s)
    && Stopping(s) && LastOne(s)
  }

  /** Doubling with a cap, from half a second, follows the closed form. */
  lemma {:induction false} DelayDoubles(k: nat)
    ensures Delay(k + 1) == Doubled(Delay(k))
  {
    if k > 0 {
      assert Doublings(k) == 2.0 * Doublings(k - 1);
    }
  }
}
