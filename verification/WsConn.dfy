/**
 * A browser WebSocket as a byte stream (leaf/wsdialer/conn.go): messages wait in a channel of 256
 * slots, the newest is dropped when it is full, and `Read` hands them out in pieces.
 * A `Read` that has to wait is two steps, so callbacks can come in between.
 */
module WsConn {
  type Byte = b: int | 0 <= b < 256

  const SLOTS := 256

  /** What the channel holds: a message, or the nil that the close callback puts there. */
  datatype Item = Message(bytes: seq<Byte>) | Nil

  datatype Reading = Idle | Waiting(n: nat)

  datatype Answer = Bytes(bytes: seq<Byte>) | EOF | ErrClosed | Blocks

  datatype State = State(
    queue: seq<Item>, leftover: seq<Byte>, closed: bool, reading: Reading,
    // history: what arrived, what was put in the channel, what reads returned, and whether the close
    // callback has run
    sent: seq<seq<Byte>>, accepted: seq<seq<Byte>>, returned: seq<Byte>, closeEvent: bool)

  const OPEN := State([], [], false, Idle, [], [], [], false)

  datatype Step = OnMessage(bytes: seq<Byte>) | OnClose | Close | ReadBegin(n: nat) | ReadTake

  predicate Enabled(s: State, st: Step)
  {
    match st
    case ReadBegin(_) => s.reading.Idle?
    case ReadTake => s.reading.Waiting? && s.queue != []
    case _ => true
  }

  function Put(queue: seq<Item>, x: Item): seq<Item>
  {
    if |queue| < SLOTS then queue + [x] else queue
  }

  /** `bytes.Reader.Read` into a buffer of `n` bytes: an exhausted reader is at EOF. */
  function Drained(s: State, n: nat): (State, Answer)
  {
    if s.leftover == [] then (s, EOF)
    else
      var k := if n < |s.leftover| then n else |s.leftover|;
      (s.(leftover := s.leftover[k..], returned := s.returned + s.leftover[..k]), Bytes(s.leftover[..k]))
  }

  /** The part of `Read` before it receives from the channel. */
  function Begun(s: State, n: nat): (State, Answer)
  {
    if s.leftover != [] then Drained(s, n)
    else if s.closed then (s, ErrClosed)
    else (s.(reading := Waiting(n)), Blocks)
  }

  /** The rest of `Read`, once something is in the channel. */
  function Taken(s: State): (State, Answer)
    requires Enabled(s, ReadTake)
  {
    var t := s.(queue := s.queue[1..], reading := Idle);
    match s.queue[0]
    case Nil => (t, ErrClosed)
    case Message(m) => Drained(t.(leftover := m), s.reading.n)
  }

  function Next(s: State, st: Step): State
    requires Enabled(s, st)
  {
    match st
    case OnMessage(m) =>
      s.(queue := Put(s.queue, Message(m)), sent := s.sent + [m],
         accepted := if |s.queue| < SLOTS then s.accepted + [m] else s.accepted)
    case OnClose => s.(closed := true, queue := Put(s.queue, Nil), closeEvent := true)
    case Close => s.(closed := true)
    case ReadBegin(n) => Begun(s, n).0
    case ReadTake => Taken(s).0
  }

  /** The bytes a read can draw on: what is left of the last message, or else, on an open connection,
      the message at the head of the channel. */
  function Held(reader: seq<Byte>, closed: bool, msgCh: seq<Item>): seq<Byte>
  {
    if reader != [] then reader
    else if !closed && msgCh != [] && msgCh[0].Message? then msgCh[0].bytes
    else []
  }

  /** What `Read` answers, and what it leaves in the reader and the channel. */
  ghost predicate ReadExactly(
      reader: seq<Byte>, closed: bool, msgCh: seq<Item>, n: nat, a: Answer, reader': seq<Byte>, msgCh': seq<Item>)
  {
    var held := Held(reader, closed, msgCh);
    && (a.Bytes? <==> held != [])
    && (a.Bytes? ==> a.bytes + reader' == held && |a.bytes| == if n < |held| then n else |held|)
    && (a.ErrClosed? <==> reader == [] && (closed || (msgCh != [] && msgCh[0].Nil?)))
    && (a.EOF? <==> reader == [] && !closed && msgCh != [] && msgCh[0] == Message([]))
    && (a.Blocks? <==> reader == [] && !closed && msgCh == [])
    && (!a.Bytes? ==> reader' == [])
    && msgCh' == if reader == [] && !closed && msgCh != [] then msgCh[1..] else msgCh
  }

  class Conn {
    var msgCh: seq<Item>
    var reader: seq<Byte>
    var closed: bool
    ghost var history: State

    ghost function Sees(): (s: State)
      reads this
    {
      history.(queue := msgCh, leftover := reader, closed := closed, reading := Idle)
    }

    constructor ()
      ensures Sees() == OPEN
    {
      msgCh, reader, closed, history := [], [], false, OPEN;
    }

    method OnMessage(buf: seq<Byte>)
      modifies this
      ensures Sees() == Next(old(Sees()), Step.OnMessage(buf))
      ensures msgCh == old(msgCh) + (if old(|msgCh|) < 256 then [Message(buf)] else [])
      ensures reader == old(reader) && closed == old(closed)
    {
      history := Next(Sees(), Step.OnMessage(buf));
      if |msgCh| < SLOTS {
        msgCh := msgCh + [Message(buf)];
      }
    }

    method OnClose()
      modifies this
      ensures Sees() == Next(old(Sees()), Step.OnClose)
      ensures closed && reader == old(reader)
      ensures msgCh == old(msgCh) + (if old(|msgCh|) < 256 then [Nil] else [])
    {
      history := Next(Sees(), Step.OnClose);
      closed := true;
      if |msgCh| < SLOTS {
        msgCh := msgCh + [Nil];
      }
    }

    method Close()
      modifies this
      ensures Sees() == Next(old(Sees()), Step.Close)
      ensures closed && msgCh == old(msgCh) && reader == old(reader)
    {
      if closed {
        return;
      }
      closed := true;
    }

    method ReaderRead(n: nat) returns (a: Answer)
      modifies this
      ensures (Sees(), a) == Drained(old(Sees()), n)
    {
      if reader == [] {
        return EOF;
      }
      history := Drained(Sees(), n).0;
      var k := if n < |reader| then n else |reader|;
      a := Bytes(reader[..k]);
      reader := reader[k..];
    }

    /** With no callback in between; `Blocks` when it would still be waiting. */
    method Read(n: nat) returns (a: Answer)
      modifies this
      ensures var (s, b) := Begun(old(Sees()), n);
        if b.Blocks? && s.queue != [] then (Sees(), a) == Taken(s)
        else (Sees(), a) == (s.(reading := Idle), b)
      ensures ReadExactly(old(reader), old(closed), old(msgCh), n, a, reader, msgCh) && closed == old(closed)
    {
      if |reader| > 0 {
        a := ReaderRead(n);
        return;
      }
      if closed {
        return ErrClosed;
      }
      if msgCh == [] {
        return Blocks;
      }
      var msg := msgCh[0];
      msgCh := msgCh[1..];
      if msg.Nil? {
        return ErrClosed;
      }
      reader := msg.bytes;
      a := ReaderRead(n);
    }
  }

  // ---------- runs ----------

  function Flatten(ms: seq<seq<Byte>>): seq<Byte>
  {
    if ms == [] then [] else Flatten(ms[..|ms| - 1]) + ms[|ms| - 1]
  }

  function ItemBytes(x: Item): seq<Byte>
  {
    match x case Nil => [] case Message(m) => m
  }

  function QueuedBytes(q: seq<Item>): seq<Byte>
  {
    if q == [] then [] else QueuedBytes(q[..|q| - 1]) + ItemBytes(q[|q| - 1])
  }

  lemma {:induction false} QueuedHead(q: seq<Item>)
    requires q != []
    ensures QueuedBytes(q) == ItemBytes(q[0]) + QueuedBytes(q[1..])
    decreases |q|
  {
    var init, last := q[..|q| - 1], q[|q| - 1];
    if init == [] {
      assert q == [last] && q[1..] == [];
      assert QueuedBytes(q) == [] + ItemBytes(last) == ItemBytes(last) + [];
    } else {
      QueuedHead(init);
      QueuedSnoc(init, last);
      QueuedSnoc(init[1..], last);
      assert q == init + [last] && q[1..] == init[1..] + [last];
      Regroup(ItemBytes(q[0]), QueuedBytes(init[1..]), ItemBytes(last));
    }
  }

  lemma QueuedSnoc(q: seq<Item>, x: Item)
    ensures QueuedBytes(q + [x]) == QueuedBytes(q) + ItemBytes(x)
  {
    assert (q + [x])[..|q|] == q;
  }

  lemma Regroup(a: seq<Byte>, b: seq<Byte>, c: seq<Byte>)
    ensures (a + b) + c == a + (b + c)
  {
  }

  /** Every accepted byte has been returned, is left over, or is queued, in that order. */
  ghost predicate Inv(s: State)
  {
    && |s.queue| <= SLOTS
    && Flatten(s.accepted) == s.returned + s.leftover + QueuedBytes(s.queue)
    && (s.reading.Waiting? ==> s.leftover == [])
    && (s.closeEvent ==> s.closed)
    && (s.reading.Waiting? && s.closeEvent ==> s.queue != [])
    && |s.accepted| <= |s.sent|
    && (|s.accepted| == |s.sent| ==> s.accepted == s.sent)
  }

  lemma DrainKeeps(s: State, n: nat)
    ensures var t := Drained(s, n).0;
      t.returned + t.leftover == s.returned + s.leftover && t == s.(returned := t.returned, leftover := t.leftover)
  {
    var t := Drained(s, n).0;
    if s.leftover != [] {
      var k := if n < |s.leftover| then n else |s.leftover|;
      assert s.leftover == s.leftover[..k] + s.leftover[k..];
    }
  }

  lemma ArrivalKeeps(s: State, x: Item)
    ensures QueuedBytes(Put(s.queue, x)) ==
      if |s.queue| < SLOTS && x.Message? then QueuedBytes(s.queue) + x.bytes else QueuedBytes(s.queue)
    ensures forall m :: Flatten(s.accepted + [m]) == Flatten(s.accepted) + m
  {
    if |s.queue| < SLOTS {
      assert (s.queue + [x])[..|s.queue|] == s.queue;
    }
    forall m ensures Flatten(s.accepted + [m]) == Flatten(s.accepted) + m {
      assert (s.accepted + [m])[..|s.accepted|] == s.accepted;
    }
  }

  lemma MessageKeeps(s: State, m: seq<Byte>)
    requires Inv(s)
    ensures Inv(Next(s, OnMessage(m)))
  {
    ArrivalKeeps(s, Message(m));
    if |s.queue| < SLOTS {
      Regroup(s.returned + s.leftover, QueuedBytes(s.queue), m);
    }
  }

  lemma ReadBeginKeeps(s: State, n: nat)
    requires Inv(s) && Enabled(s, ReadBegin(n))
    ensures Inv(Next(s, ReadBegin(n)))
  {
    DrainKeeps(s, n);
  }

  lemma TakeKeeps(s: State)
    requires Inv(s) && Enabled(s, ReadTake)
    ensures Inv(Next(s, ReadTake))
  {
    QueuedHead(s.queue);
    var head, tail := ItemBytes(s.queue[0]), QueuedBytes(s.queue[1..]);
    assert s.returned + s.leftover == s.returned;
    Regroup(s.returned, head, tail);
    if s.queue[0].Message? {
      DrainKeeps(s.(queue := s.queue[1..], reading := Idle, leftover := head), s.reading.n);
    }
  }

  lemma StepKeeps(s: State, st: Step)
    requires Inv(s) && Enabled(s, st)
    ensures Inv(Next(s, st))
  {
    match st
    case OnMessage(m) => MessageKeeps(s, m);
    case OnClose => ArrivalKeeps(s, Nil);
    case Close =>
    case ReadBegin(n) => ReadBeginKeeps(s, n);
    case ReadTake => TakeKeeps(s);
  }

  predicate Runnable(s: State, steps: seq<Step>)
    decreases |steps|
  {
    steps == [] || (Enabled(s, steps[0]) && Runnable(Next(s, steps[0]), steps[1..]))
  }

  function Run(s: State, steps: seq<Step>): State
    requires Runnable(s, steps)
    decreases |steps|
  {
    if steps == [] then s else Run(Next(s, steps[0]), steps[1..])
  }

  lemma {:induction false} RunKeeps(s: State, steps: seq<Step>)
    requires Inv(s) && Runnable(s, steps)
    ensures Inv(Run(s, steps))
    decreases |steps|
  {
    if steps != [] {
      StepKeeps(s, steps[0]);
      RunKeeps(Next(s, steps[0]), steps[1..]);
    }
  }

  function Given(a: Answer): seq<Byte>
  {
    if a.Bytes? then a.bytes else []
  }

  /** The bytes that a step answers a caller of `Read` with. */
  function AnswerOf(s: State, st: Step): seq<Byte>
    requires Enabled(s, st)
  {
    match st
    case ReadBegin(n) => Given(Begun(s, n).1)
    case ReadTake => Given(Taken(s).1)
    case _ => []
  }

  /** What the reads of a run have answered, put together. */
  function Answered(s: State, steps: seq<Step>): seq<Byte>
    requires Runnable(s, steps)
    decreases |steps|
  {
    if steps == [] then [] else AnswerOf(s, steps[0]) + Answered(Next(s, steps[0]), steps[1..])
  }

  lemma StepReturnsAnswer(s: State, st: Step)
    requires Enabled(s, st)
    ensures Next(s, st).returned == s.returned + AnswerOf(s, st)
  {
  }

  lemma {:induction false} AnsweredIsReturned(s: State, steps: seq<Step>)
    requires Runnable(s, steps)
    ensures Run(s, steps).returned == s.returned + Answered(s, steps)
    decreases |steps|
  {
    if steps == [] {
      assert s.returned + [] == s.returned;
    } else {
      StepReturnsAnswer(s, steps[0]);
      var t := Next(s, steps[0]);
      AnsweredIsReturned(t, steps[1..]);
      Regroup(s.returned, AnswerOf(s, steps[0]), Answered(t, steps[1..]));
    }
  }

  /**
   * After any steps, with reads of any sizes: what the reads have answered, put together, is a prefix of
   * the accepted messages' bytes, and what is missing is exactly what is still held, in order. When
   * nothing was dropped that is a prefix of everything sent.
   */
  lemma ReadsReturnAPrefix(steps: seq<Step>)
    requires Runnable(OPEN, steps)
    ensures var t, answered := Run(OPEN, steps), Answered(OPEN, steps);
      && answered <= Flatten(t.accepted)
      && Flatten(t.accepted) == answered + t.leftover + QueuedBytes(t.queue)
      && (|t.accepted| == |t.sent| ==> answered <= Flatten(t.sent))
  {
    RunKeeps(OPEN, steps);
    AnsweredIsReturned(OPEN, steps);
    assert OPEN.returned + Answered(OPEN, steps) == Answered(OPEN, steps);
  }

  /** Exactly the messages that arrive at a full queue are dropped. */
  lemma {:induction false} NothingDropped(s: State, steps: seq<Step>)
    requires Runnable(s, steps) && |s.accepted| == |s.sent|
    ensures |Run(s, steps).accepted| == |Run(s, steps).sent| <==> NeverOverflows(s, steps)
    decreases |steps|
  {
    if steps != [] {
      var t := Next(s, steps[0]);
      if |t.accepted| == |t.sent| {
        NothingDropped(t, steps[1..]);
      } else {
        GapStays(t, steps[1..]);
      }
    }
  }

  ghost predicate NeverOverflows(s: State, steps: seq<Step>)
    requires Runnable(s, steps)
    decreases |steps|
  {
    steps != [] ==>
      (steps[0].OnMessage? ==> |s.queue| < SLOTS) && NeverOverflows(Next(s, steps[0]), steps[1..])
  }

  lemma {:induction false} GapStays(s: State, steps: seq<Step>)
    requires Runnable(s, steps) && |s.accepted| < |s.sent|
    ensures |Run(s, steps).accepted| < |Run(s, steps).sent|
    decreases |steps|
  {
    if steps != [] {
      GapStays(Next(s, steps[0]), steps[1..]);
    }
  }

  /** A read that waits is never left waiting once the close callback has run. */
  lemma WaitingReadWakes(steps: seq<Step>)
    requires Runnable(OPEN, steps) && Run(OPEN, steps).reading.Waiting? && Run(OPEN, steps).closeEvent
    ensures Enabled(Run(OPEN, steps), ReadTake)
  {
    RunKeeps(OPEN, steps);
  }
}
