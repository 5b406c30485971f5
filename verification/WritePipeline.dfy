/** The outgoing side of a connection at the granularity of its write lock: the send queue, the write
  * flag, the batch in flight, and the threads and transport completions that act on them.
  *
  * Senders, `write_frame` calls and write completions may interleave in any order.  Each transition
  * below is one critical section, or one step that a thread takes between two of them. */
module WritePipeline {
  import opened Bytes

  datatype FrameKind = Data | Ping | Pong | Close

  datatype Message = Message(kind: FrameKind, header: seq<byte>, payload: seq<byte>, terminal: bool)

  /** Where the threads and completions that touch the pipeline stand.
    *   intents    - threads that saw `needs_writing` and have yet to dispatch `write_frame`
    *   dispatched - `write_frame` calls handed to the transport and not yet run
    *   building   - `write_frame` calls that own a batch and have yet to start the transport write
    *   writing    - transport writes outstanding
    *   releasing  - successful completions that have yet to release the write flag
    *   stopped    - completions that terminated the connection and so never release the flag */
  datatype Threads = Threads(intents: nat, dispatched: nat, building: nat, writing: nat, releasing: nat, stopped: nat)

  /** The history of a run: every message pushed, every message and every byte given to the transport. */
  datatype History = History(pushed: seq<Message>, sent: seq<Message>, wire: seq<byte>)

  datatype Pipeline = Pipeline(queue: seq<Message>, bufferSize: int, writeFlag: bool, current: seq<Message>,
                               buffers: seq<seq<byte>>, threads: Threads, history: History)

  const IDLE := Pipeline([], 0, false, [], [], Threads(0, 0, 0, 0, 0, 0), History([], [], []))

  function PayloadSum(ms: seq<Message>): nat {
    if ms == [] then 0 else |ms[0].payload| + PayloadSum(ms[1..])
  }

  /** The transport buffers of a batch: a header and a payload for each message. */
  function Buffers(ms: seq<Message>): seq<seq<byte>> {
    if ms == [] then [] else [ms[0].header, ms[0].payload] + Buffers(ms[1..])
  }

  /** The bytes a list of messages puts on the wire. */
  function Wire(ms: seq<Message>): seq<byte> {
    if ms == [] then [] else ms[0].header + ms[0].payload + Wire(ms[1..])
  }

  /** How many messages one `write_frame` takes: all of them, or up to the first terminal one. */
  function BatchLength(queue: seq<Message>): (n: nat)
    ensures n <= |queue|
    ensures n == 0 <==> queue == []
    ensures forall i :: 0 <= i < n - 1 ==> !queue[i].terminal
    ensures n < |queue| ==> queue[n - 1].terminal
  {
    if queue == [] then 0 else if queue[0].terminal then 1 else 1 + BatchLength(queue[1..])
  }

  // ---------------------------------------------------------------- transitions

  /** `write_push` and the `needs_writing` test, under the write lock. */
  function Push(p: Pipeline, m: Message): Pipeline {
    p.(queue := p.queue + [m],
       bufferSize := p.bufferSize + |m.payload|,
       threads := if p.writeFlag then p.threads else p.threads.(intents := p.threads.intents + 1),
       history := p.history.(pushed := p.history.pushed + [m]))
  }

  /** A thread that saw `needs_writing` hands `write_frame` to the transport. */
  function Dispatch(p: Pipeline): Pipeline
    requires p.threads.intents > 0
  {
    p.(threads := p.threads.(intents := p.threads.intents - 1, dispatched := p.threads.dispatched + 1))
  }

  /** The critical section of `write_frame`. */
  function TakeBatch(p: Pipeline): Pipeline
    requires p.threads.dispatched > 0
  {
    var t := p.threads.(dispatched := p.threads.dispatched - 1);
    var n := BatchLength(p.queue);
    if p.writeFlag || (p.current == [] && n == 0) then
      p.(threads := t)
    else
      p.(queue := p.queue[n..],
         bufferSize := p.bufferSize - PayloadSum(p.queue[..n]),
         current := p.current + p.queue[..n],
         writeFlag := true,
         threads := t.(building := t.building + 1))
  }

  /** The rest of `write_frame`: collect the buffers and start the transport write. */
  function StartWrite(p: Pipeline): Pipeline
    requires p.threads.building > 0
  {
    var buffers := p.buffers + Buffers(p.current);
    p.(buffers := buffers,
       threads := p.threads.(building := p.threads.building - 1, writing := p.threads.writing + 1),
       history := p.history.(sent := p.history.sent + p.current, wire := p.history.wire + Concat(buffers)))
  }

  /** `handle_write_frame` up to the point where it terminates the connection or goes on.  The source
    * reads `m_current_msgs.back()` here, so the batch has to be non-empty. */
  function Complete(p: Pipeline, failed: bool): Pipeline
    requires p.threads.writing > 0 && p.current != []
  {
    var t := p.threads.(writing := p.threads.writing - 1);
    p.(current := [], buffers := [],
       threads := if failed || p.current[|p.current| - 1].terminal
                  then t.(stopped := t.stopped + 1)
                  else t.(releasing := t.releasing + 1))
  }

  /** The critical section at the end of `handle_write_frame`. */
  function Release(p: Pipeline): Pipeline
    requires p.threads.releasing > 0
  {
    var t := p.threads.(releasing := p.threads.releasing - 1);
    p.(writeFlag := false, threads := if p.queue == [] then t else t.(intents := t.intents + 1))
  }

  // ---------------------------------------------------------------- runs

  datatype Step = PushStep(m: Message) | DispatchStep | TakeStep | StartStep | CompleteStep(failed: bool) | ReleaseStep

  predicate Enabled(p: Pipeline, s: Step) {
    match s
    case PushStep(_) => true
    case DispatchStep => p.threads.intents > 0
    case TakeStep => p.threads.dispatched > 0
    case StartStep => p.threads.building > 0
    case CompleteStep(_) => p.threads.writing > 0
    case ReleaseStep => p.threads.releasing > 0
  }

  /** The flag is held by exactly one thread, completion or terminated write, which alone owns the batch
    * and the buffers; and nobody is left asleep with work in the queue. */
  ghost predicate Exclusive(p: Pipeline) {
    var t := p.threads;
    && t.building + t.writing + t.releasing + t.stopped == (if p.writeFlag then 1 else 0)
    && (p.current != [] <==> t.building + t.writing > 0)
    && p.buffers == (if t.writing > 0 then Buffers(p.current) else [])
    && (p.queue != [] && !p.writeFlag ==> t.intents + t.dispatched > 0)
  }

  /** Nothing is lost, repeated or reordered. */
  ghost predicate Conserved(p: Pipeline) {
    && p.history.pushed == p.history.sent + (if p.threads.building > 0 then p.current else []) + p.queue
    && p.history.wire == Wire(p.history.sent)
    && p.bufferSize == PayloadSum(p.queue)
  }

  /** Only the very last message given to the transport can be terminal, and then its write is still
    * outstanding or was the end. */
  ghost predicate TerminalsEnd(p: Pipeline) {
    && TerminalOnlyLast(p.history.sent)
    && TerminalOnlyLast(p.current)
    && (p.threads.writing > 0 ==> (EndsTerminal(p.history.sent) <==> EndsTerminal(p.current)))
    && (EndsTerminal(p.history.sent) ==> p.threads.writing + p.threads.stopped > 0)
  }

  /** What every reachable pipeline satisfies. */
  ghost predicate Valid(p: Pipeline) {
    Exclusive(p) && Conserved(p) && TerminalsEnd(p)
  }

  predicate TerminalOnlyLast(ms: seq<Message>) {
    forall i :: 0 <= i < |ms| - 1 ==> !ms[i].terminal
  }

  predicate EndsTerminal(ms: seq<Message>) {
    ms != [] && ms[|ms| - 1].terminal
  }

  /** `handle_write_frame` is undefined on an empty batch; everything else is always defined. */
  predicate Defined(p: Pipeline, s: Step) {
    s.CompleteStep? ==> p.current != []
  }

  function Next(p: Pipeline, s: Step): Pipeline
    requires Enabled(p, s) && Defined(p, s)
  {
    match s
    case PushStep(m) => Push(p, m)
    case DispatchStep => Dispatch(p)
    case TakeStep => TakeBatch(p)
    case StartStep => StartWrite(p)
    case CompleteStep(failed) => Complete(p, failed)
    case ReleaseStep => Release(p)
  }

  // ---------------------------------------------------------------- algebra of the projections

  lemma {:induction false} PayloadSumAppend(a: seq<Message>, b: seq<Message>)
    ensures PayloadSum(a + b) == PayloadSum(a) + PayloadSum(b)
  {
    if a == [] {
      assert a + b == b;
    } else {
      assert (a + b)[1..] == a[1..] + b;
      PayloadSumAppend(a[1..], b);
    }
  }

  lemma {:induction false} WireAppend(a: seq<Message>, b: seq<Message>)
    ensures Wire(a + b) == Wire(a) + Wire(b)
  {
    if a == [] {
      assert a + b == b;
    } else {
      assert (a + b)[1..] == a[1..] + b;
      WireAppend(a[1..], b);
    }
  }

  /** The buffers are a header and a payload for each message, in order. */
  lemma {:induction false} BuffersAt(ms: seq<Message>, i: nat)
    requires i < |ms|
    ensures |Buffers(ms)| == 2 * |ms|
    ensures Buffers(ms)[2 * i] == ms[i].header && Buffers(ms)[2 * i + 1] == ms[i].payload
  {
    if |ms| > 1 {
      BuffersAt(ms[1..], if i > 0 then i - 1 else 0);
    }
  }

  /** Header and payload buffers, concatenated, are the frames of the batch. */
  lemma {:induction false} BuffersAreWire(ms: seq<Message>)
    ensures Concat(Buffers(ms)) == Wire(ms)
  {
    if ms != [] {
      BuffersAreWire(ms[1..]);
      ConcatAppend([ms[0].header, ms[0].payload], Buffers(ms[1..]));
      ConcatSnoc([ms[0].header], ms[0].payload);
      ConcatSnoc<byte>([], ms[0].header);
      assert [ms[0].header] + [ms[0].payload] == [ms[0].header, ms[0].payload];
    }
  }

  // ---------------------------------------------------------------- every step keeps validity

  lemma PushCounts(p: Pipeline, m: Message)
    requires p.bufferSize == PayloadSum(p.queue)
    ensures Push(p, m).bufferSize == PayloadSum(Push(p, m).queue)
  {
    PayloadSumAppend(p.queue, [m]);
    assert PayloadSum([m]) == |m.payload| + PayloadSum([m][1..]);
  }

  lemma PushValid(p: Pipeline, m: Message)
    requires Valid(p)
    ensures Valid(Push(p, m))
  {
    PushCounts(p, m);
    hide PayloadSum, Wire, Buffers;
    var q := Push(p, m);
    assert q.history.pushed == q.history.sent + (if q.threads.building > 0 then q.current else []) + q.queue;
  }

  lemma PayloadSumSplit(queue: seq<Message>, n: nat)
    requires n <= |queue|
    ensures PayloadSum(queue) == PayloadSum(queue[..n]) + PayloadSum(queue[n..])
  {
    hide PayloadSum;
    assert queue == queue[..n] + queue[n..];
    PayloadSumAppend(queue[..n], queue[n..]);
  }

  lemma TakeBatchConserves(p: Pipeline)
    requires Conserved(p) && Exclusive(p) && p.threads.dispatched > 0
    ensures Conserved(TakeBatch(p))
  {
    hide PayloadSum, Wire, Buffers, BatchLength;
    var q, n := TakeBatch(p), BatchLength(p.queue);
    PayloadSumSplit(p.queue, n);
    if p.writeFlag || n == 0 {
      assert q == p.(threads := q.threads);
    } else {
      assert p.current == [] && p.threads.building == 0;
      BatchJoins(p.history.sent, p.queue, n);
    }
  }

  lemma BatchJoins(sent: seq<Message>, queue: seq<Message>, n: nat)
    requires n <= |queue|
    ensures sent + [] + queue == sent + ([] + queue[..n]) + queue[n..]
  {
  }

  lemma TakeBatchValid(p: Pipeline)
    requires Valid(p) && p.threads.dispatched > 0
    ensures Valid(TakeBatch(p))
  {
    TakeBatchConserves(p);
    hide Conserved, PayloadSum, Wire, Buffers, BatchLength;
    var q, n := TakeBatch(p), BatchLength(p.queue);
    assert !p.writeFlag ==> p.current + p.queue[..n] == p.queue[..n];
  }

  lemma StartWriteConserves(p: Pipeline)
    requires Conserved(p) && Exclusive(p) && p.threads.building > 0
    ensures Conserved(StartWrite(p))
  {
    hide PayloadSum, Wire, Buffers;
    BuffersAreWire(p.current);
    WireAppend(p.history.sent, p.current);
    assert p.buffers + Buffers(p.current) == Buffers(p.current);
  }

  lemma StartWriteValid(p: Pipeline)
    requires Valid(p) && p.threads.building > 0
    ensures Valid(StartWrite(p))
  {
    StartWriteConserves(p);
    hide Conserved, PayloadSum, Wire, Buffers;
    var q := StartWrite(p);
    assert p.buffers + Buffers(p.current) == Buffers(p.current);
    assert q.history.sent[|q.history.sent| - 1] == q.current[|q.current| - 1];
    SentBefore(p);
  }

  /** While a batch is being built, nothing sent so far was terminal. */
  lemma SentBefore(p: Pipeline)
    requires Exclusive(p) && TerminalsEnd(p) && p.threads.building > 0
    ensures forall i :: 0 <= i < |p.history.sent| ==> !p.history.sent[i].terminal
  {
    hide Buffers;
  }

  lemma CompleteValid(p: Pipeline, failed: bool)
    requires Valid(p) && p.threads.writing > 0
    ensures p.current != [] && Valid(Complete(p, failed))
  {
    hide PayloadSum, Wire, Buffers;
  }

  lemma NextValid(p: Pipeline, s: Step)
    requires Valid(p) && Enabled(p, s)
    ensures Defined(p, s) && Valid(Next(p, s))
  {
    match s
    case PushStep(m) => PushValid(p, m);
    case DispatchStep =>
    case TakeStep => TakeBatchValid(p);
    case StartStep => StartWriteValid(p);
    case CompleteStep(failed) => CompleteValid(p, failed);
    case ReleaseStep =>
  }

  // ---------------------------------------------------------------- whole runs

  /** A run under any interleaving.  After a step that is not defined anything may follow. */
  ghost predicate Run(trace: seq<Pipeline>, steps: seq<Step>) {
    && |trace| == |steps| + 1
    && forall i {:trigger steps[i]} :: 0 <= i < |steps| ==>
         && Enabled(trace[i], steps[i])
         && (Defined(trace[i], steps[i]) ==> trace[i + 1] == Next(trace[i], steps[i]))
  }

  /** Every state of every run that starts idle is valid, and every step of it is defined.  So at most
    * one transport write is outstanding, no wakeup is lost, and what the transport was given, what the
    * owner of the flag holds and what is queued are together the push history, in order. */
  lemma {:induction false} RunValid(trace: seq<Pipeline>, steps: seq<Step>, i: nat)
    requires Run(trace, steps) && Valid(trace[0]) && i < |trace|
    ensures Valid(trace[i])
    ensures i < |steps| ==> Defined(trace[i], steps[i])
  {
    hide Valid, Enabled, Defined, Next;
    if i > 0 {
      RunValid(trace, steps, i - 1);
      NextValid(trace[i - 1], steps[i - 1]);
    }
    if i < |steps| {
      NextValid(trace[i], steps[i]);
    }
  }

  /** Nothing has been done, and nobody is about to do anything. */
  predicate Idle(p: Pipeline) {
    && p.queue == [] && p.current == [] && p.buffers == [] && !p.writeFlag && p.bufferSize == 0
    && p.threads == Threads(0, 0, 0, 0, 0, 0)
    && p.history.pushed == [] && p.history.sent == [] && p.history.wire == []
  }

  lemma IdleValid(p: Pipeline)
    requires Idle(p)
    ensures Valid(p)
  {
  }

  lemma StoppedStays(p: Pipeline, s: Step)
    requires Valid(p) && Enabled(p, s) && Defined(p, s) && p.threads.stopped > 0
    ensures var q := Next(p, s);
      && p.writeFlag && q.writeFlag && q.threads.stopped > 0
      && q.history.sent == p.history.sent && q.history.wire == p.history.wire
  {
    hide Conserved, TerminalsEnd, BatchLength, PayloadSum, Buffers;
  }

  /** Once a terminal or failed write has completed, nothing is ever given to the transport again. */
  lemma {:induction false} StoppedForever(trace: seq<Pipeline>, steps: seq<Step>, i: nat, j: nat)
    requires Run(trace, steps) && Valid(trace[0]) && i <= j < |trace|
    requires trace[i].threads.stopped > 0
    ensures trace[j].threads.stopped > 0
    ensures i < j ==> trace[j].writeFlag
    ensures trace[j].history.sent == trace[i].history.sent && trace[j].history.wire == trace[i].history.wire
    decreases j
  {
    hide Valid, Next, Enabled, Defined;
    RunValid(trace, steps, j);
    if i < j {
      StoppedForever(trace, steps, i, j - 1);
      RunValid(trace, steps, j - 1);
      StoppedStays(trace[j - 1], steps[j - 1]);
    }
  }

  /** Nothing follows a terminal message on the wire: the transport is given a prefix of what was
    * pushed, and no message before the last of that prefix is terminal. */
  lemma SentIsPrefix(trace: seq<Pipeline>, steps: seq<Step>, i: nat)
    requires Run(trace, steps) && Valid(trace[0]) && i < |trace|
    ensures var h := trace[i].history;
      && h.sent <= h.pushed
      && h.wire == Wire(h.sent)
      && TerminalOnlyLast(h.sent)
      && trace[i].bufferSize == PayloadSum(trace[i].queue)
  {
    RunValid(trace, steps, i);
  }

  // ---------------------------------------------------------------- delivery

  /** The work the pipeline still owes, counting nothing that senders may add. */
  function Debt(p: Pipeline): nat {
    var t := p.threads;
    6 * |p.queue| + 2 * t.intents + t.dispatched + 5 * t.building + 4 * t.writing + 3 * t.releasing
  }

  /** Every step other than a push pays some of the debt. */
  lemma StepPaysDebt(p: Pipeline, s: Step)
    requires Valid(p) && Enabled(p, s) && !s.PushStep?
    ensures Defined(p, s) && Debt(Next(p, s)) < Debt(p)
  {
    NextValid(p, s);
    hide Conserved, TerminalsEnd, PayloadSum, Buffers;
  }

  /** Left to itself the pipeline always comes to rest, however its own steps are scheduled: a run
    * without pushes is no longer than the debt it starts with. */
  lemma {:induction false} RunsDry(trace: seq<Pipeline>, steps: seq<Step>, i: nat)
    requires Run(trace, steps) && Valid(trace[0]) && i <= |steps|
    requires forall k :: 0 <= k < i ==> !steps[k].PushStep?
    ensures i + Debt(trace[i]) <= Debt(trace[0])
  {
    hide Valid, Debt, Enabled, Defined, Next;
    if i > 0 {
      RunsDry(trace, steps, i - 1);
      RunValid(trace, steps, i - 1);
      StepPaysDebt(trace[i - 1], steps[i - 1]);
    }
  }

  /** And when no step is left, either a terminal or failed write ended the connection or every message
    * ever pushed is on the wire. */
  lemma RestMeansDelivered(p: Pipeline)
    requires Valid(p)
    requires forall s :: Enabled(p, s) ==> s.PushStep?
    ensures p.threads.stopped > 0 || (!p.writeFlag && p.queue == [] && p.history.sent == p.history.pushed)
  {
    var steps := [DispatchStep, TakeStep, StartStep, CompleteStep(false), ReleaseStep];
    assert forall k :: 0 <= k < |steps| ==> !Enabled(p, steps[k]);
    assert !Enabled(p, steps[0]) && !Enabled(p, steps[1]) && !Enabled(p, steps[2]);
    assert !Enabled(p, steps[3]) && !Enabled(p, steps[4]);
  }

  /** The messages that senders pushed in the course of some steps. */
  function PushedIn(steps: seq<Step>): seq<Message> {
    if steps == [] then []
    else
      var last := steps[|steps| - 1];
      PushedIn(steps[..|steps| - 1]) + (if last.PushStep? then [last.m] else [])
  }

  lemma {:induction false} AllPushed(trace: seq<Pipeline>, steps: seq<Step>, i: nat)
    requires Run(trace, steps) && Valid(trace[0]) && i < |trace|
    ensures trace[i].history.pushed == trace[0].history.pushed + PushedIn(steps[..i])
  {
    hide Valid, Next, Enabled, Defined;
    if i > 0 {
      AllPushed(trace, steps, i - 1);
      RunValid(trace, steps, i - 1);
      NextPushed(trace[i - 1], steps[i - 1]);
      assert steps[..i][..i - 1] == steps[..i - 1] && steps[..i][i - 1] == steps[i - 1];
    }
  }

  lemma NextPushed(p: Pipeline, s: Step)
    requires Enabled(p, s) && Defined(p, s)
    ensures Next(p, s).history.pushed == p.history.pushed + (if s.PushStep? then [s.m] else [])
  {
    hide Buffers, PayloadSum, BatchLength;
  }

  /** From the idle state on, and however the threads interleave: when the pipeline has come to rest, either a
    * failed or terminal write ended the connection, or what is on the wire is exactly the frames that senders
    * pushed, in the order in which they pushed them. */
  lemma EverythingWritten(trace: seq<Pipeline>, steps: seq<Step>, i: nat)
    requires Run(trace, steps) && Idle(trace[0]) && i < |trace|
    requires forall s :: Enabled(trace[i], s) ==> s.PushStep?
    ensures trace[i].threads.stopped > 0 || trace[i].history.wire == Wire(PushedIn(steps[..i]))
  {
    IdleValid(trace[0]);
    hide Valid, Wire, PushedIn, Enabled, Next, Defined;
    AllPushed(trace, steps, i);
    RunValid(trace, steps, i);
    RestMeansDelivered(trace[i]);
    WireIs(trace[i]);
    assert [] + PushedIn(steps[..i]) == PushedIn(steps[..i]);
  }

  lemma WireIs(p: Pipeline)
    requires Valid(p)
    ensures p.history.wire == Wire(p.history.sent)
  {
  }

  // ---------------------------------------------------------------- undisturbed calls

  /** No thread stands between two critical sections. */
  ghost predicate AtRest(p: Pipeline) {
    p.threads.intents == 0 && p.threads.building == 0 && p.threads.releasing == 0
  }

  /** A sender pushes and, if it saw that writing is needed, dispatches. */
  function PushNow(p: Pipeline, m: Message): Pipeline {
    var q := Push(p, m);
    if q.threads.intents > 0 then Dispatch(q) else q
  }

  /** `write_frame` from start to end. */
  function WriteNow(p: Pipeline): Pipeline
    requires p.threads.dispatched > 0
  {
    var q := TakeBatch(p);
    if q.threads.building > 0 then StartWrite(q) else q
  }

  /** `handle_write_frame` from start to end, less the termination it may call for. */
  function FinishNow(p: Pipeline, failed: bool): Pipeline
    requires p.threads.writing > 0 && p.current != []
  {
    var q := Complete(p, failed);
    if q.threads.releasing == 0 then q
    else
      var r := Release(q);
      if r.threads.intents > 0 then Dispatch(r) else r
  }

  lemma PushNowEffect(p: Pipeline, m: Message)
    requires Valid(p) && AtRest(p)
    ensures var q := PushNow(p, m);
      && Valid(q) && AtRest(q) && q.threads.stopped == p.threads.stopped
      && q.current == p.current && q.queue == p.queue + [m] && q.history.pushed == p.history.pushed + [m]
  {
    PushValid(p, m);
  }

  function Taken(p: Pipeline): nat {
    if p.writeFlag then 0 else BatchLength(p.queue)
  }

  lemma TakeBatchEffect(p: Pipeline)
    requires Valid(p) && AtRest(p) && p.threads.dispatched > 0
    ensures var q, n := TakeBatch(p), Taken(p);
      && Valid(q)
      && q.threads.intents == 0 && q.threads.releasing == 0 && q.threads.building <= 1
      && q.threads.stopped == p.threads.stopped && q.history.pushed == p.history.pushed
      && n <= |p.queue| && q.queue == p.queue[n..] && q.current == p.current + p.queue[..n]
  {
    TakeBatchValid(p);
    hide PayloadSum, Buffers, Wire;
  }

  lemma StartWriteEffect(p: Pipeline)
    requires Valid(p) && p.threads.building == 1
    ensures var q := StartWrite(p);
      && Valid(q)
      && q.threads == p.threads.(building := 0, writing := p.threads.writing + 1)
      && q.history.pushed == p.history.pushed && q.queue == p.queue && q.current == p.current
  {
    StartWriteValid(p);
    hide Valid;
  }

  lemma WriteNowEffect(p: Pipeline)
    requires Valid(p) && AtRest(p) && p.threads.dispatched > 0
    ensures var q, n := WriteNow(p), Taken(p);
      && Valid(q) && AtRest(q)
      && q.threads.stopped == p.threads.stopped && q.history.pushed == p.history.pushed
      && n <= |p.queue| && q.queue == p.queue[n..] && q.current == p.current + p.queue[..n]
  {
    hide Valid, TakeBatch, StartWrite, Taken;
    TakeBatchEffect(p);
    if TakeBatch(p).threads.building > 0 {
      StartWriteEffect(TakeBatch(p));
    }
  }

  /** A batch is everything queued, or everything up to the first terminal message. */
  lemma {:induction false} BatchIs(queue: seq<Message>, n: nat)
    requires n <= |queue| && forall i :: 0 <= i < n - 1 ==> !queue[i].terminal
    requires n < |queue| ==> n > 0 && queue[n - 1].terminal
    ensures BatchLength(queue) == n
    decreases |queue|
  {
    if n > 1 {
      BatchIs(queue[1..], n - 1);
    }
  }

  /** What an undisturbed `write_frame` gives to the transport. */
  lemma WriteNowSends(p: Pipeline)
    requires Valid(p) && AtRest(p) && p.threads.dispatched > 0
    ensures var q, n := WriteNow(p), BatchLength(p.queue);
      && q.threads.dispatched == p.threads.dispatched - 1
      && (if p.writeFlag || n == 0
          then q.queue == p.queue && q.threads.writing == p.threads.writing && q.history == p.history
          else q.queue == p.queue[n..] && q.threads.writing == 1 && q.writeFlag
               && q.history.sent == p.history.sent + p.queue[..n]
               && q.history.wire == p.history.wire + Wire(p.queue[..n]))
  {
    if !p.writeFlag && p.queue != [] {
      TakeBatchValid(p);
      BuffersAreWire(p.queue[..BatchLength(p.queue)]);
      assert p.current == [] && p.buffers == [];
      assert [] + p.queue[..BatchLength(p.queue)] == p.queue[..BatchLength(p.queue)];
      assert [] + Buffers(p.queue[..BatchLength(p.queue)]) == Buffers(p.queue[..BatchLength(p.queue)]);
    }
    hide PayloadSum, Wire, Buffers, Conserved, TerminalsEnd;
  }

  /** What an undisturbed completion leaves. */
  lemma FinishNowDoes(p: Pipeline, failed: bool)
    requires Valid(p) && AtRest(p) && p.threads.writing > 0
    ensures p.current != []
    ensures var q := FinishNow(p, failed);
      && q.queue == p.queue && q.current == [] && q.history == p.history && q.threads.writing == 0
      && (if failed || EndsTerminal(p.current)
          then q.writeFlag && q.threads.dispatched == p.threads.dispatched
          else !q.writeFlag && q.threads.dispatched == p.threads.dispatched + (if p.queue == [] then 0 else 1))
  {
    hide PayloadSum, Wire, Buffers, Conserved, TerminalsEnd;
  }

  lemma CompleteEffect(p: Pipeline, failed: bool)
    requires Valid(p) && AtRest(p) && p.threads.writing > 0
    ensures p.current != []
    ensures var q := Complete(p, failed);
      && Valid(q) && q.threads.intents == 0 && q.threads.building == 0
      && q.threads.stopped == (if failed || EndsTerminal(p.current) then 1 else 0)
      && q.threads.releasing == (if failed || EndsTerminal(p.current) then 0 else 1)
      && q.queue == p.queue && q.current == [] && q.history.pushed == p.history.pushed
  {
    CompleteValid(p, failed);
    hide Buffers, Wire, PayloadSum;
  }

  lemma ReleaseEffect(p: Pipeline)
    requires Valid(p) && p.threads.releasing == 1 && p.threads.intents == 0 && p.threads.building == 0
    ensures var r := Release(p);
      && (var q := if r.threads.intents > 0 then Dispatch(r) else r;
          Valid(q) && AtRest(q) && q.threads.stopped == 0
          && q.queue == p.queue && q.current == p.current && q.history.pushed == p.history.pushed)
  {
    hide Buffers, Wire, PayloadSum;
  }

  lemma FinishNowEffect(p: Pipeline, failed: bool)
    requires Valid(p) && AtRest(p) && p.threads.writing > 0
    ensures p.current != []
    ensures var q := FinishNow(p, failed);
      && Valid(q) && AtRest(q)
      && q.threads.stopped == (if failed || EndsTerminal(p.current) then 1 else 0)
      && q.queue == p.queue && q.current == [] && q.history.pushed == p.history.pushed
  {
    hide Valid, Complete, Release, EndsTerminal;
    CompleteEffect(p, failed);
    if Complete(p, failed).threads.releasing > 0 {
      ReleaseEffect(Complete(p, failed));
    }
  }

  /** An undisturbed `write_frame`, and an undisturbed completion, pay some of the debt too. */
  lemma UndisturbedCallsPayDebt(p: Pipeline, failed: bool)
    requires Valid(p) && AtRest(p)
    ensures p.threads.dispatched > 0 ==> Debt(WriteNow(p)) < Debt(p)
    ensures p.threads.writing > 0 ==> p.current != [] && Debt(FinishNow(p, failed)) < Debt(p)
  {
    if p.threads.dispatched > 0 {
      WriteNowPays(p);
    }
    if p.threads.writing > 0 {
      CompleteEffect(p, failed);
      FinishNowPays(p, failed);
    }
    hide Valid, Debt, WriteNow, FinishNow;
  }

  lemma WriteNowPays(p: Pipeline)
    requires Valid(p) && AtRest(p) && p.threads.dispatched > 0
    ensures Debt(WriteNow(p)) < Debt(p)
  {
    hide Valid, Debt, TakeBatch, StartWrite;
    StepPaysDebt(p, TakeStep);
    NextValid(p, TakeStep);
    if TakeBatch(p).threads.building > 0 {
      StepPaysDebt(TakeBatch(p), StartStep);
    }
  }

  lemma FinishNowPays(p: Pipeline, failed: bool)
    requires Valid(p) && AtRest(p) && p.threads.writing > 0 && p.current != []
    ensures Debt(FinishNow(p, failed)) < Debt(p)
  {
    hide Valid, Debt, Complete, Release, Dispatch;
    StepPaysDebt(p, CompleteStep(failed));
    NextValid(p, CompleteStep(failed));
    var q := Complete(p, failed);
    if q.threads.releasing > 0 {
      StepPaysDebt(q, ReleaseStep);
      NextValid(q, ReleaseStep);
      if Release(q).threads.intents > 0 {
        StepPaysDebt(Release(q), DispatchStep);
      }
    }
  }

  /** Some run of critical sections leads from one state to the other. */
  ghost predicate Reaches(p: Pipeline, q: Pipeline) {
    exists trace: seq<Pipeline>, steps: seq<Step> :: Run(trace, steps) && trace[0] == p && trace[|steps|] == q
  }

  lemma StepsReach(p: Pipeline, s: Step)
    requires Enabled(p, s) && Defined(p, s)
    ensures Reaches(p, Next(p, s))
  {
    assert Run([p, Next(p, s)], [s]);
  }

  lemma ReachesFurther(p: Pipeline, q: Pipeline, s: Step)
    requires Reaches(p, q) && Enabled(q, s) && Defined(q, s)
    ensures Reaches(p, Next(q, s))
  {
    hide Next, Enabled, Defined;
    var trace, steps :| Run(trace, steps) && trace[0] == p && trace[|steps|] == q;
    RunsGrow(trace, steps, s);
    assert (trace + [Next(q, s)])[0] == p && (trace + [Next(q, s)])[|steps + [s]|] == Next(q, s);
  }

  lemma RunsGrow(trace: seq<Pipeline>, steps: seq<Step>, s: Step)
    requires Run(trace, steps) && Enabled(trace[|steps|], s) && Defined(trace[|steps|], s)
    ensures Run(trace + [Next(trace[|steps|], s)], steps + [s])
  {
    hide Next, Enabled, Defined;
    var longer, more := trace + [Next(trace[|steps|], s)], steps + [s];
    forall i | 0 <= i < |more|
      ensures Enabled(longer[i], more[i]) && (Defined(longer[i], more[i]) ==> longer[i + 1] == Next(longer[i], more[i]))
    {
      if i < |steps| {
        assert longer[i] == trace[i] && longer[i + 1] == trace[i + 1] && more[i] == steps[i];
      }
    }
  }

  /** An undisturbed call is one of the interleavings: what holds of every run holds of it. */
  lemma UndisturbedCallsAreRuns(p: Pipeline, m: Message, failed: bool)
    requires Valid(p) && AtRest(p)
    ensures Reaches(p, PushNow(p, m))
    ensures p.threads.dispatched > 0 ==> Reaches(p, WriteNow(p))
    ensures p.threads.writing > 0 ==> p.current != [] && Reaches(p, FinishNow(p, failed))
  {
    PushNowReaches(p, m);
    if p.threads.dispatched > 0 {
      WriteNowReaches(p);
    }
    if p.threads.writing > 0 {
      CompleteEffect(p, failed);
      FinishNowReaches(p, failed);
    }
  }

  lemma PushNowReaches(p: Pipeline, m: Message)
    ensures Reaches(p, PushNow(p, m))
  {
    hide Reaches, Push, Dispatch;
    StepsReach(p, PushStep(m));
    if Push(p, m).threads.intents > 0 {
      ReachesFurther(p, Push(p, m), DispatchStep);
    }
  }

  lemma WriteNowReaches(p: Pipeline)
    requires p.threads.dispatched > 0
    ensures Reaches(p, WriteNow(p))
  {
    hide Reaches, TakeBatch, StartWrite;
    StepsReach(p, TakeStep);
    if TakeBatch(p).threads.building > 0 {
      ReachesFurther(p, TakeBatch(p), StartStep);
    }
  }

  lemma FinishNowReaches(p: Pipeline, failed: bool)
    requires p.threads.writing > 0 && p.current != []
    ensures Reaches(p, FinishNow(p, failed))
  {
    hide Reaches, Complete, Release, Dispatch;
    StepsReach(p, CompleteStep(failed));
    var q := Complete(p, failed);
    if q.threads.releasing > 0 {
      ReachesFurther(p, q, ReleaseStep);
      if Release(q).threads.intents > 0 {
        ReachesFurther(p, Release(q), DispatchStep);
      }
    }
  }
}
