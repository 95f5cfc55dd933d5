/**
 * The goroutines around one `Service.Watch` channel (leaf/agent/notify/notify.go): the dispatch
 * goroutine of the NATS subscription, which runs the callback for one message at a time, the
 * consumer, whoever cancels the context, and the closer. Every step below is atomic in the source;
 * they interleave freely. Unsubscribing does not stop dispatch, as the source's comment warns.
 */
module Watch {

  type Message = string

  const CAPACITY := 16

  /** How `subscribeForWatch` ended: with a subscription, with none, or with a live subscription and
      an error because the flush failed. */
  datatype Subscribing = Subscribed | NoSubscription | FlushFailed

  datatype Callback =
    | Idle
    | WantsLock(m: Message)
    | Checking(m: Message)
    | Selecting(m: Message)
    | Leaving

  datatype Closer =
    | Waiting | Unsubscribing | WantsClose | Locked | Flagged | Unlocking | Finished  // the goroutine
    | ClosingOnError                                                                  // Watch itself
    | Absent

  datatype State = State(
    live: bool,
    buffer: seq<Message>,
    chanClosed: bool,
    closed: bool,
    cancelled: bool,
    callback: Callback,
    closer: Closer,
    // history
    dispatched: seq<Message>,
    received: seq<Message>,
    closes: nat,
    panicked: bool)

  datatype Step =
    | Dispatch(m: Message) | CallbackLock | CallbackCheck | CallbackSend | CallbackSeesDone | CallbackUnlock
    | Receive | Cancel
    | CloserWake | CloserUnsubscribe | CloserLock | CloserFlag | CloserClose | CloserUnlock
    | ErrorClose

  function Begin(sub: Subscribing): State
  {
    State(sub != NoSubscription, [], false, false, false, Idle,
          if sub == Subscribed then Waiting else ClosingOnError, [], [], 0, false)
  }

  predicate LockFree(s: State)
  {
    && (s.callback.Idle? || s.callback.WantsLock?)
    && !s.closer.Locked? && !s.closer.Flagged? && !s.closer.Unlocking?
  }

  predicate Enabled(s: State, st: Step)
  {
    !s.panicked &&
    match st
    case Dispatch(_) => s.live && s.callback.Idle?
    case CallbackLock => s.callback.WantsLock? && LockFree(s)
    case CallbackCheck => s.callback.Checking?
    case CallbackSend => s.callback.Selecting? && (s.chanClosed || |s.buffer| < CAPACITY)
    case CallbackSeesDone => s.callback.Selecting? && s.cancelled
    case CallbackUnlock => s.callback.Leaving?
    case Receive => s.buffer != []
    case Cancel => true
    case CloserWake => s.closer.Waiting? && s.cancelled
    case CloserUnsubscribe => s.closer.Unsubscribing?
    case CloserLock => s.closer.WantsClose? && LockFree(s)
    case CloserFlag => s.closer.Locked?
    case CloserClose => s.closer.Flagged?
    case CloserUnlock => s.closer.Unlocking?
    case ErrorClose => s.closer.ClosingOnError?
  }

  /** `close(ch)`: closing a closed channel panics. */
  function Closed(s: State, next: Closer): State
  {
    if s.chanClosed then s.(panicked := true)
    else s.(chanClosed := true, closes := s.closes + 1, closer := next)
  }

  function Next(s: State, st: Step): State
    requires Enabled(s, st)
  {
    match st
    case Dispatch(m) => s.(callback := WantsLock(m), dispatched := s.dispatched + [m])
    case CallbackLock => s.(callback := Checking(s.callback.m))
    case CallbackCheck => s.(callback := if s.closed then Leaving else Selecting(s.callback.m))
    case CallbackSend =>
      if s.chanClosed then s.(panicked := true)     // send on a closed channel
      else s.(buffer := s.buffer + [s.callback.m], callback := Leaving)
    case CallbackSeesDone => s.(callback := Leaving)
    case CallbackUnlock => s.(callback := Idle)
    case Receive => s.(buffer := s.buffer[1..], received := s.received + [s.buffer[0]])
    case Cancel => s.(cancelled := true)
    case CloserWake => s.(closer := Unsubscribing)
    case CloserUnsubscribe => s.(closer := WantsClose)
    case CloserLock => s.(closer := Locked)
    case CloserFlag => s.(closer := Flagged, closed := true)
    case CloserClose => Closed(s, Unlocking)
    case CloserUnlock => s.(closer := Finished)
    case ErrorClose => Closed(s, Absent)
  }

  predicate Runnable(s: State, steps: seq<Step>)
    decreases |steps|
  {
    steps == [] || (Enabled(s, steps[0]) && Runnable(Next(s, steps[0]), steps[1..]))
  }

  function Run(s: State, steps: seq<Step>): State
    requires Runnable(s, steps)
    decreases |steps|
  {
    if steps == [] then s else Run(Next(s, steps[0]), steps[1..])
  }

  // ---------- invariant ----------

  ghost predicate Subsequence(a: seq<Message>, b: seq<Message>)
    decreases |b|
  {
    || a == []
    || (b != [] && Subsequence(a, b[..|b| - 1]))
    || (b != [] && a[|a| - 1] == b[|b| - 1] && Subsequence(a[..|a| - 1], b[..|b| - 1]))
  }

  /** What went into the channel, whether or not the consumer has it yet. */
  function Accepted(s: State): seq<Message>
  {
    s.received + s.buffer
  }

  /** The message the callback is still deciding about is the last one dispatched. */
  predicate Undecided(s: State)
  {
    s.callback.WantsLock? || s.callback.Checking? || s.callback.Selecting?
  }

  function Decided(s: State): seq<Message>
  {
    if Undecided(s) && s.dispatched != [] then s.dispatched[..|s.dispatched| - 1] else s.dispatched
  }

  ghost predicate DeliveryInv(s: State)
  {
    && |s.buffer| <= CAPACITY
    && (Undecided(s) ==> s.dispatched != [] && s.dispatched[|s.dispatched| - 1] == s.callback.m)
    && Subsequence(Accepted(s), Decided(s))
    && (!s.cancelled ==> Accepted(s) == Decided(s))
  }

  /** The gate of the successful path: the flag is set before the channel closes, both happen under
      the lock, and a callback past its check holds the lock. */
  ghost predicate GateInv(s: State)
  {
    && !s.panicked
    && !s.closer.Absent? && !s.closer.ClosingOnError?
    && (s.closed <==> s.closer.Flagged? || s.closer.Unlocking? || s.closer.Finished?)
    && (s.chanClosed <==> s.closer.Unlocking? || s.closer.Finished?)
    && s.closes == (if s.chanClosed then 1 else 0)
    && (!s.closer.Waiting? ==> s.cancelled)
    && (s.callback.Selecting? ==> !s.closed)
    && !(HoldsLock(s.callback) && (s.closer.Locked? || s.closer.Flagged? || s.closer.Unlocking?))
  }

  predicate HoldsLock(c: Callback)
  {
    c.Checking? || c.Selecting? || c.Leaving?
  }

  lemma SubsequenceGrows(a: seq<Message>, b: seq<Message>, m: Message)
    requires Subsequence(a, b)
    ensures Subsequence(a, b + [m]) && Subsequence(a + [m], b + [m])
  {
    assert (b + [m])[..|b|] == b && (a + [m])[..|a|] == a;
  }

  lemma SendKeepsDelivery(s: State)
    requires DeliveryInv(s) && Enabled(s, CallbackSend) && !s.chanClosed
    ensures DeliveryInv(Next(s, CallbackSend))
  {
    var t := Next(s, CallbackSend);
    assert Accepted(t) == Accepted(s) + [s.callback.m];
    assert Decided(t) == Decided(s) + [s.callback.m];
    SubsequenceGrows(Accepted(s), Decided(s), s.callback.m);
  }

  /** A callback that gives up has lost its message to the cancellation. */
  lemma GivingUpKeepsDelivery(s: State, t: State)
    requires DeliveryInv(s) && Undecided(s) && s.cancelled
    requires t == s.(callback := t.callback) && !Undecided(t)
    ensures DeliveryInv(t)
  {
    assert Accepted(t) == Accepted(s);
    assert Decided(t) == Decided(s) + [s.callback.m];
    SubsequenceGrows(Accepted(s), Decided(s), s.callback.m);
  }

  /** Steps that touch neither the messages nor what the callback is deciding about. */
  lemma OtherStepKeepsDelivery(s: State, t: State)
    requires DeliveryInv(s)
    requires t.buffer == s.buffer && t.received == s.received && t.dispatched == s.dispatched
    requires Undecided(t) == Undecided(s) && (Undecided(t) ==> t.callback.m == s.callback.m)
    requires s.cancelled ==> t.cancelled
    ensures DeliveryInv(t)
  {
    assert Accepted(t) == Accepted(s) && Decided(t) == Decided(s);
  }

  lemma DispatchKeepsDelivery(s: State, m: Message)
    requires DeliveryInv(s) && Enabled(s, Dispatch(m))
    ensures DeliveryInv(Next(s, Dispatch(m)))
  {
    var t := Next(s, Dispatch(m));
    assert Accepted(t) == Accepted(s);
    assert t.dispatched[..|s.dispatched|] == s.dispatched;
    assert Decided(t) == s.dispatched == Decided(s);
  }

  lemma HandOver(received: seq<Message>, buffer: seq<Message>)
    requires buffer != []
    ensures (received + [buffer[0]]) + buffer[1..] == received + buffer
  {
  }

  lemma ReceiveKeepsDelivery(s: State)
    requires DeliveryInv(s) && Enabled(s, Receive)
    ensures DeliveryInv(Next(s, Receive))
  {
    var t := Next(s, Receive);
    HandOver(s.received, s.buffer);
    assert Accepted(t) == Accepted(s) && Decided(t) == Decided(s) && |t.buffer| < |s.buffer|;
  }

  lemma StepKeepsDelivery(s: State, st: Step)
    requires DeliveryInv(s) && GateInv(s) && Enabled(s, st)
    ensures DeliveryInv(Next(s, st))
  {
    var t := Next(s, st);
    match st
    case Dispatch(m) => DispatchKeepsDelivery(s, m);
    case CallbackCheck =>
      if s.closed {
        GivingUpKeepsDelivery(s, t);
      } else {
        OtherStepKeepsDelivery(s, t);
      }
    case CallbackSend => SendKeepsDelivery(s);
    case CallbackSeesDone => GivingUpKeepsDelivery(s, t);
    case Receive => ReceiveKeepsDelivery(s);
    case ErrorClose =>
    case _ => OtherStepKeepsDelivery(s, t);
  }

  lemma StepKeepsGate(s: State, st: Step)
    requires GateInv(s) && Enabled(s, st)
    ensures GateInv(Next(s, st))
  {
  }

  lemma {:induction false} RunKeeps(s: State, steps: seq<Step>)
    requires GateInv(s) && DeliveryInv(s) && Runnable(s, steps)
    ensures GateInv(Run(s, steps)) && DeliveryInv(Run(s, steps))
    decreases |steps|
  {
    if steps != [] {
      StepKeepsGate(s, steps[0]);
      StepKeepsDelivery(s, steps[0]);
      RunKeeps(Next(s, steps[0]), steps[1..]);
    }
  }

  // ---------- the subscribed path ----------

  /** No interleaving sends on, or closes, a closed channel; the channel is closed at most once, and
      exactly once when the closer is done. */
  lemma TeardownIsSafe(steps: seq<Step>)
    requires Runnable(Begin(Subscribed), steps)
    ensures var t := Run(Begin(Subscribed), steps);
      && !t.panicked
      && t.closes <= 1
      && (t.closer.Finished? ==> t.chanClosed && t.closes == 1)
  {
    RunKeeps(Begin(Subscribed), steps);
  }

  /** What the consumer gets is an in-order subsequence of what was dispatched, and until the context
      is cancelled nothing whose callback has returned is missing. */
  lemma DeliveryIsInOrder(steps: seq<Step>)
    requires Runnable(Begin(Subscribed), steps)
    ensures var t := Run(Begin(Subscribed), steps);
      && Subsequence(t.received + t.buffer, t.dispatched)
      && (!t.cancelled && t.callback.Idle? ==> t.received + t.buffer == t.dispatched)
  {
    RunKeeps(Begin(Subscribed), steps);
  }

  lemma Prepend(s: State, st: Step, steps: seq<Step>)
    requires Enabled(s, st) && Runnable(Next(s, st), steps)
    ensures Runnable(s, [st] + steps) && Run(s, [st] + steps) == Run(Next(s, st), steps)
  {
    assert ([st] + steps)[1..] == steps;
  }

  lemma {:induction false} RunSplit(s: State, a: seq<Step>, b: seq<Step>)
    requires Runnable(s, a) && Runnable(Run(s, a), b)
    ensures Runnable(s, a + b) && Run(s, a + b) == Run(Run(s, a), b)
    decreases |a|
  {
    if a == [] {
      assert a + b == b;
    } else {
      RunSplit(Next(s, a[0]), a[1..], b);
      assert (a + b)[1..] == a[1..] + b;
    }
  }

  /** A consumer that reads empties the buffer, in order. */
  lemma {:induction false} ConsumerDrains(s: State) returns (steps: seq<Step>)
    requires !s.panicked
    ensures Runnable(s, steps) && |steps| == |s.buffer|
    ensures Run(s, steps) == s.(buffer := [], received := s.received + s.buffer)
    decreases |s.buffer|
  {
    if s.buffer == [] {
      steps := [];
      assert s.received + s.buffer == s.received;
    } else {
      var rest := ConsumerDrains(Next(s, Receive));
      Prepend(s, Receive, rest);
      steps := [Receive] + rest;
      HandOver(s.received, s.buffer);
    }
  }

  /** With the buffer empty the callback's message goes through in at most four steps. */
  lemma CallbackGetsThrough(s: State) returns (steps: seq<Step>)
    requires GateInv(s) && DeliveryInv(s) && !s.cancelled && Undecided(s) && s.buffer == []
    ensures Runnable(s, steps) && |steps| <= 4
    ensures Run(s, steps).received == s.received + [s.callback.m]
  {
    steps := [];
    var s1, s2 := s, s;
    if s.callback.WantsLock? {
      s1 := Next(s, CallbackLock);
    }
    s2 := s1;
    if s1.callback.Checking? {
      s2 := Next(s1, CallbackCheck);
    }
    var s3 := Next(s2, CallbackSend);
    Prepend(s3, Receive, []);
    Prepend(s2, CallbackSend, [Receive]);
    steps := [CallbackSend] + [Receive];
    if s1.callback.Checking? {
      Prepend(s1, CallbackCheck, steps);
      steps := [CallbackCheck] + steps;
    }
    if s.callback.WantsLock? {
      Prepend(s, CallbackLock, steps);
      steps := [CallbackLock] + steps;
    }
  }

  /** Before cancellation, with the consumer reading, the message a callback is at reaches the consumer,
      after what was buffered, in at most twenty steps of the two. */
  lemma MessageGetsThrough(s: State) returns (steps: seq<Step>)
    requires GateInv(s) && DeliveryInv(s) && !s.cancelled && Undecided(s)
    ensures Runnable(s, steps) && |steps| <= 20
    ensures Run(s, steps).received == s.received + s.buffer + [s.callback.m]
  {
    var drain := ConsumerDrains(s);
    RunKeeps(s, drain);
    var t := Run(s, drain);
    var send := CallbackGetsThrough(t);
    RunSplit(s, drain, send);
    steps := drain + send;
  }

  /** And so a message that the subscription dispatches. */
  lemma DispatchedGetsThrough(s: State, m: Message) returns (steps: seq<Step>)
    requires GateInv(s) && DeliveryInv(s) && !s.cancelled && s.live && s.callback.Idle?
    ensures Runnable(s, steps) && 1 <= |steps| <= 21 && steps[0] == Dispatch(m)
    ensures Run(s, steps).received == s.received + s.buffer + [m]
  {
    var t := Next(s, Dispatch(m));
    StepKeepsGate(s, Dispatch(m));
    StepKeepsDelivery(s, Dispatch(m));
    var rest := MessageGetsThrough(t);
    Prepend(s, Dispatch(m), rest);
    steps := [Dispatch(m)] + rest;
  }

  /** Steps left for the closer and for a callback that holds the lock. */
  function Remaining(s: State): nat
  {
    (match s.closer
     case Waiting => 6 case Unsubscribing => 5 case WantsClose => 4
     case Locked => 3 case Flagged => 2 case Unlocking => 1 case _ => 0)
    + (match s.callback case Checking(_) => 3 case Selecting(_) => 2 case Leaving => 1 case _ => 0)
  }

  /** A step of the closer, or of the callback inside its lock. */
  predicate IsProgress(st: Step)
  {
    match st
    case CallbackCheck => true
    case CallbackSend => true
    case CallbackSeesDone => true
    case CallbackUnlock => true
    case CloserWake => true
    case CloserUnsubscribe => true
    case CloserLock => true
    case CloserFlag => true
    case CloserClose => true
    case CloserUnlock => true
    case _ => false
  }

  lemma ProgressShrinks(s: State, st: Step)
    requires GateInv(s) && Enabled(s, st) && IsProgress(st)
    ensures Remaining(Next(s, st)) < Remaining(s)
  {
  }

  /** After cancellation nothing can block: while the closer is not done, it or the callback that
      holds the lock has a step to take, whatever the consumer does. */
  lemma AlwaysEnabled(s: State) returns (st: Step)
    requires GateInv(s) && s.cancelled && !s.closer.Finished?
    ensures IsProgress(st) && Enabled(s, st)
  {
    st := match s.callback
      case Checking(_) => CallbackCheck
      case Selecting(_) => CallbackSeesDone
      case Leaving => CallbackUnlock
      case _ =>
        match s.closer
        case Waiting => CloserWake
        case Unsubscribing => CloserUnsubscribe
        case WantsClose => CloserLock
        case Locked => CloserFlag
        case Flagged => CloserClose
        case _ => CloserUnlock;
  }

  /** So from any point after cancellation such steps alone finish the teardown, and at most nine of
      them can be taken before it is finished or a new callback gets the lock. */
  lemma {:induction false} AfterCancelItFinishes(s: State) returns (steps: seq<Step>)
    requires GateInv(s) && s.cancelled
    ensures Runnable(s, steps) && Run(s, steps).closer.Finished? && |steps| <= Remaining(s) <= 9
    decreases Remaining(s)
  {
    if s.closer.Finished? {
      steps := [];
    } else {
      var st := AlwaysEnabled(s);
      ProgressShrinks(s, st);
      StepKeepsGate(s, st);
      var rest := AfterCancelItFinishes(Next(s, st));
      steps := [st] + rest;
    }
  }

  lemma {:induction false} ProgressIsBounded(s: State, steps: seq<Step>)
    requires GateInv(s) && Runnable(s, steps) && forall i :: 0 <= i < |steps| ==> IsProgress(steps[i])
    ensures |steps| <= Remaining(s)
    decreases |steps|
  {
    if steps != [] {
      ProgressShrinks(s, steps[0]);
      StepKeepsGate(s, steps[0]);
      ProgressIsBounded(Next(s, steps[0]), steps[1..]);
    }
  }

  // ---------- when subscribing failed ----------

  ghost predicate CanPanic(sub: Subscribing)
  {
    exists steps :: Runnable(Begin(sub), steps) && Run(Begin(sub), steps).panicked
  }

  ghost predicate DeadInv(s: State)
  {
    && !s.panicked && !s.live && s.callback.Idle?
    && ((s.closer.ClosingOnError? && !s.chanClosed) || s.closer.Absent?)
  }

  lemma {:induction false} NoSubscriptionIsSafe(s: State, steps: seq<Step>)
    requires DeadInv(s) && Runnable(s, steps)
    ensures DeadInv(Run(s, steps))
    decreases |steps|
  {
    if steps != [] {
      assert DeadInv(Next(s, steps[0]));
      NoSubscriptionIsSafe(Next(s, steps[0]), steps[1..]);
    }
  }

  /** The channel is closed on a live subscription, so the next message is sent on it. */
  lemma FlushFailurePanics()
    ensures CanPanic(FlushFailed)
  {
    var s0 := Begin(FlushFailed);
    var s1 := Next(s0, ErrorClose);
    var s2 := Next(s1, Dispatch("m"));
    var s3 := Next(s2, CallbackLock);
    var s4 := Next(s3, CallbackCheck);
    var s5 := Next(s4, CallbackSend);
    Prepend(s4, CallbackSend, []);
    Prepend(s3, CallbackCheck, [CallbackSend]);
    Prepend(s2, CallbackLock, [CallbackCheck] + [CallbackSend]);
    Prepend(s1, Dispatch("m"), [CallbackLock] + ([CallbackCheck] + [CallbackSend]));
    Prepend(s0, ErrorClose, [Dispatch("m")] + ([CallbackLock] + ([CallbackCheck] + [CallbackSend])));
    assert s5.panicked;
  }

  /** A panic is possible after exactly one way of subscribing: the flush failed. */
  lemma PanicExactly(sub: Subscribing)
    ensures CanPanic(sub) <==> sub == FlushFailed
  {
    if sub == FlushFailed {
      FlushFailurePanics();
    } else {
      forall steps | Runnable(Begin(sub), steps) ensures !Run(Begin(sub), steps).panicked {
        if sub == Subscribed {
          TeardownIsSafe(steps);
        } else {
          NoSubscriptionIsSafe(Begin(sub), steps);
        }
      }
    }
  }
}
