/** The connection class itself: the fields of the source, and methods that assign them step by step.
  * Every method is proved to do what its function in `Lifecycle` says. */
module ConnectionObject {
  import opened Bytes
  import opened CloseCodes
  import opened Effects
  import opened Lifecycle
  import opened LifecycleSafety
  import P = WritePipeline

  class Connection {
    const config: Config
    var state: SessionState
    var internal: InternalState
    var hasProcessor: bool
    var readFlag: bool
    var timer: Option<nat>
    var status: nat
    var isHttp: bool
    var httpState: HttpState
    var ec: Ec
    var wasClean: bool
    var localCode: Code
    var remoteCode: Code
    /** The outgoing side, and the transport's: what it owes, what it was given, which handlers ran. */
    var pipe: P.Pipeline
    var world: World

    ghost function View(): Con
      reads this
    {
      Con(config, state, internal, hasProcessor, readFlag, timer, status, isHttp, httpState, ec, wasClean,
          localCode, remoteCode, pipe, world)
    }

    ghost predicate AtRest()
      reads this
    {
      P.AtRest(pipe)
    }

    constructor (config: Config)
      ensures View() == Initial(config) && AtRest()
    {
      this.config := config;
      state, internal, hasProcessor := Connecting, UserInit, false;
      readFlag, timer, status := true, None, UNINITIALIZED;
      isHttp, httpState, ec, wasClean := false, HttpInit, Success, false;
      localCode, remoteCode := ABNORMAL_CLOSE, ABNORMAL_CLOSE;
      pipe := P.IDLE;
      world := World(multiset{}, [], 0, [Connecting], Calls(0, 0, 0, 0, 0, 0, []));
    }

    // -------------------------------------------------------------- the transport

    method Await(e: Event)
      modifies this`world
      ensures world == old(world).(events := old(world).events + multiset{e})
    {
      world := world.(events := world.events + multiset{e});
    }

    method Assign(s: SessionState)
      modifies this`state, this`world
      ensures state == s && world == old(world).(trail := old(world).trail + [s])
    {
      state := s;
      world := world.(trail := world.trail + [s]);
    }

    method CancelHandshakeTimer()
      modifies this`timer, this`world
      ensures timer == None && world == old(world).(timers := CancelIn(old(world).timers, old(timer)))
    {
      if timer.Some? {
        world := world.(timers := CancelIn(world.timers, timer));
        timer := None;
      }
    }

    method SetHandshakeTimer(kind: TimerKind, duration: int)
      modifies this`timer, this`world
      ensures duration <= 0 ==> timer == old(timer) && world == old(world)
      ensures duration > 0 && !config.hasTimers ==> timer == None && world == old(world)
      ensures duration > 0 && config.hasTimers ==>
        && timer == Some(|old(world).timers|)
        && world == old(world).(timers := old(world).timers + [Timer(kind, Armed)])
    {
      if duration > 0 {
        if config.hasTimers {
          timer := Some(|world.timers|);
          world := world.(timers := world.timers + [Timer(kind, Armed)]);
        } else {
          timer := None;
        }
      }
    }

    // -------------------------------------------------------------- termination

    method RecordFailure(error: Ec)
      modifies this`ec, this`localCode, this`httpState
      ensures ec == (if error == Success then old(ec) else error)
      ensures localCode == (if error == Success then old(localCode) else ABNORMAL_CLOSE)
      ensures httpState == (if isHttp then HttpClosed else old(httpState))
    {
      if error != Success {
        ec := error;
        localCode := ABNORMAL_CLOSE;
      }
      if isHttp {
        httpState := HttpClosed;
      }
    }

    method CloseTransport()
      modifies this`state, this`world
      ensures state == Closed && world == Shutdown(old(world), old(state))
      ensures world.shutdowns == old(world).shutdowns + (if old(state) == Closed then 0 else 1)
    {
      var tstat: TerminateStatus;
      if state == Connecting {
        Assign(Closed);
        tstat := Failed;
      } else if state != Closed {
        Assign(Closed);
        tstat := WasOpen;
      } else {
        return;
      }
      world := world.(shutdowns := world.shutdowns + 1);
      Await(ShutdownDone(tstat));
    }

    method TerminateWith(error: Ec)
      modifies this`state, this`timer, this`ec, this`localCode, this`httpState, this`world
      ensures View() == Terminate(old(View()), error)
      ensures state == Closed
      ensures world.shutdowns == old(world).shutdowns + (if old(state) == Closed then 0 else 1)
    {
      hide CancelIn, Shutdown;
      CancelHandshakeTimer();
      RecordFailure(error);
      CloseTransport();
    }

    method OnTerminated(tstat: TerminateStatus, script: seq<Api>)
      requires AtRest()
      modifies this
      ensures View() == HandleTerminate(old(View()), tstat, script) && AtRest()
    {
      var calls := world.calls;
      if tstat == Failed {
        if ec != HttpConnectionEnded {
          calls := calls.(fails := calls.fails + 1);
        } else {
          calls := calls.(httpEnds := calls.httpEnds + 1);
        }
      } else {
        calls := calls.(closes := calls.closes + 1);
      }
      world := world.(calls := calls.(terminations := calls.terminations + 1));
      assert View() == Terminated(old(View()), tstat);
      hide Terminated;
      RunScript(script);
    }

    method OnTimer(id: nat)
      requires id < |world.timers|
      modifies this`state, this`timer, this`ec, this`localCode, this`httpState, this`world
      ensures View() == HandleTimer(old(View()), id)
    {
      var t := world.timers[id];
      world := world.(timers := world.timers[id := t.(phase := Done)]);
      if t.phase == Expired {
        if t.kind == OpenTimer {
          TerminateWith(OpenHandshakeTimeout);
        } else {
          TerminateWith(CloseHandshakeTimeout);
        }
      }
    }

    // -------------------------------------------------------------- outgoing messages

    method WritePush(m: P.Message)
      modifies this`pipe
      ensures pipe == old(pipe).(bufferSize := old(pipe).bufferSize + |m.payload|, queue := old(pipe).queue + [m],
                                 history := old(pipe).history.(pushed := old(pipe).history.pushed + [m]))
    {
      pipe := pipe.(bufferSize := pipe.bufferSize + |m.payload|);
      pipe := pipe.(queue := pipe.queue + [m], history := pipe.history.(pushed := pipe.history.pushed + [m]));
    }

    method WritePop() returns (m: Option<P.Message>)
      modifies this`pipe
      ensures old(pipe).queue == [] ==> m == None && pipe == old(pipe)
      ensures old(pipe).queue != [] ==>
        && m == Some(old(pipe).queue[0])
        && pipe == old(pipe).(queue := old(pipe).queue[1..],
                              bufferSize := old(pipe).bufferSize - |old(pipe).queue[0].payload|)
    {
      if pipe.queue == [] {
        return None;
      }
      m := Some(pipe.queue[0]);
      pipe := pipe.(bufferSize := pipe.bufferSize - |pipe.queue[0].payload|);
      pipe := pipe.(queue := pipe.queue[1..]);
    }

    method DispatchWriteFrame()
      modifies this`pipe
      ensures pipe == old(pipe).(threads := old(pipe).threads.(dispatched := old(pipe).threads.dispatched + 1))
    {
      pipe := pipe.(threads := pipe.threads.(dispatched := pipe.threads.dispatched + 1));
    }

    method PushAndDispatch(m: P.Message)
      requires AtRest()
      modifies this`pipe
      ensures pipe == P.PushNow(old(pipe), m) && AtRest()
    {
      WritePush(m);
      var needsWriting := !pipe.writeFlag && pipe.queue != [];
      if needsWriting {
        DispatchWriteFrame();
      }
    }

    method Send(kind: P.FrameKind, prepared: Prepared) returns (error: Ec)
      requires AtRest()
      modifies this
      ensures View() == SendFrame(old(View()), kind, prepared) && AtRest()
      ensures error == Success <==> old(state) == Open && prepared.Frame?
      ensures error != Success ==> View() == old(View())
      ensures error == Success ==>
        var m := P.Message(kind, prepared.header, prepared.payload, false);
        && pipe.queue == old(pipe).queue + [m]
        && pipe.history.pushed == old(pipe).history.pushed + [m]
        && (!pipe.writeFlag ==> pipe.threads.dispatched > 0)
    {
      if state != Open {
        return InvalidState;
      }
      match prepared
      case NoBuffer => return NoOutgoingBuffers;
      case Refused(n) => return ProcessorFailure(n);
      case Frame(header, payload) =>
        PushAndDispatch(P.Message(kind, header, payload, false));
        return Success;
    }

    method ChooseLocalCode(code: Code, ack: bool)
      modifies this`localCode
      ensures localCode == LocalCode(old(View()), code, ack)
    {
      if config.silentClose {
        localCode := NO_STATUS;
      } else if code != BLANK {
        localCode := code;
      } else if !ack {
        localCode := NO_STATUS;
      } else if remoteCode == NO_STATUS {
        localCode := NORMAL;
      } else {
        localCode := remoteCode;
      }
    }

    method BeginClosing(ack: bool)
      modifies this`state, this`wasClean, this`timer, this`world
      ensures View() == SetTimer(old(View()).(state := Closing, wasClean := old(wasClean) || ack,
                                              world := old(world).(trail := old(world).trail + [Closing])),
                                 CloseTimer, config.closeTimeout)
    {
      Assign(Closing);
      if ack {
        wasClean := true;
      }
      SetHandshakeTimer(CloseTimer, config.closeTimeout);
    }

    method SendClose(code: Code, ack: bool, terminal: bool, prepared: Prepared) returns (error: Ec)
      requires AtRest()
      modifies this
      ensures (View(), error) == SendCloseFrame(old(View()), code, ack, terminal, prepared) && AtRest()
    {
      hide SetTimer, LocalCode, P.PushNow, P.AtRest;
      ChooseLocalCode(code, ack);
      match prepared
      case NoBuffer => return NoOutgoingBuffers;
      case Refused(n) => return ProcessorFailure(n);
      case Frame(header, payload) =>
        SetTimerPipe(old(View()).(localCode := localCode, state := Closing, wasClean := wasClean || ack,
                                  world := world.(trail := world.trail + [Closing])));
        BeginClosing(ack);
        PushAndDispatch(P.Message(P.Close, header, payload, terminal));
        return Success;
    }

    lemma SetTimerPipe(c: Con)
      ensures SetTimer(c, CloseTimer, c.config.closeTimeout).pipe == c.pipe
    {
    }

    method SendAck(code: Code, prepared: Prepared) returns (error: Ec)
      requires AtRest()
      modifies this
      ensures View() == SendCloseAck(old(View()), code, prepared) && AtRest()
    {
      error := SendClose(code, true, config.isServer, prepared);
    }

    method CloseSession(code: Code, prepared: Prepared) returns (error: Ec)
      requires AtRest()
      modifies this
      ensures (View(), error) == CloseCall(old(View()), code, prepared) && AtRest()
    {
      if state != Open {
        return InvalidState;
      }
      error := SendClose(code, false, Terminal(code), prepared);
    }

    // -------------------------------------------------------------- writing

    /** `write_frame`: take messages until the queue is empty or one is terminal, and start the write. */
    method WriteFrames()
      requires pipe.threads.dispatched > 0 && AtRest()
      modifies this`pipe
      ensures pipe == P.WriteNow(old(pipe)) && AtRest()
    {
      ghost var p := pipe;
      pipe := pipe.(threads := pipe.threads.(dispatched := pipe.threads.dispatched - 1));
      if pipe.writeFlag {
        return;
      }
      TakeMessages();
      if pipe.current == [] {
        return;
      }
      pipe := pipe.(writeFlag := true);
      pipe := pipe.(threads := pipe.threads.(building := pipe.threads.building + 1));
      assert pipe == P.TakeBatch(p);
      CollectBuffers();
      pipe := pipe.(threads := pipe.threads.(building := pipe.threads.building - 1,
          writing := pipe.threads.writing + 1),
                    history := pipe.history.(sent := pipe.history.sent + pipe.current,
                                             wire := pipe.history.wire + Concat(pipe.buffers)));
    }

    /** `n` messages are popped from the queue of `p`, and the first `k` of them are in the batch. */
    static ghost predicate Taking(p: P.Pipeline, q: P.Pipeline, n: nat, k: nat) {
      && k <= n <= |p.queue|
      && q == p.(queue := p.queue[n..], bufferSize := p.bufferSize - P.PayloadSum(p.queue[..n]),
                 current := p.current + p.queue[..k])
    }

    static lemma PopTakes(p: P.Pipeline, q: P.Pipeline, k: nat)
      requires Taking(p, q, k, k)
      ensures q.queue == p.queue[k..]
      ensures k < |p.queue| ==>
        && q.queue[0] == p.queue[k]
        && Taking(p, q.(queue := q.queue[1..], bufferSize := q.bufferSize - |q.queue[0].payload|), k + 1, k)
    {
      hide P.BatchLength;
      if k < |p.queue| {
        hide P.PayloadSum;
        BatchStep(p.queue, k);
      }
    }

    static lemma AppendTakes(p: P.Pipeline, q: P.Pipeline, k: nat)
      requires Taking(p, q, k + 1, k)
      ensures Taking(p, q.(current := q.current + [p.queue[k]]), k + 1, k + 1)
    {
      assert p.current + p.queue[..k + 1] == (p.current + p.queue[..k]) + [p.queue[k]];
    }

    /** Put a message that was popped into the batch and, unless it is terminal, pop the next one. */
    method AppendMessage(m: P.Message, ghost p: P.Pipeline, ghost k: nat) returns (next: Option<P.Message>)
      requires Taking(p, pipe, k + 1, k) && m == p.queue[k]
      modifies this`pipe
      ensures Taking(p, pipe, if next.Some? then k + 2 else k + 1, k + 1)
      ensures next.Some? <==> k + 1 < |p.queue| && !m.terminal
      ensures next.Some? ==> next.value == p.queue[k + 1]
    {
      AppendTakes(p, pipe, k);
      pipe := pipe.(current := pipe.current + [m]);
      if !m.terminal {
        PopTakes(p, pipe, k + 1);
        hide Taking;
        next := WritePop();
      } else {
        next := None;
      }
    }

    /** `k` messages are in the batch, and it goes on with the next one or is complete. */
    static ghost predicate Batched(queue: seq<P.Message>, k: nat, more: bool) {
      && (if more then k < |queue| else k <= |queue|)
      && P.BatchLength(queue) == k + (if more then P.BatchLength(queue[k..]) else 0)
    }

    static lemma BatchGoesOn(queue: seq<P.Message>, k: nat)
      requires Batched(queue, k, true)
      ensures Batched(queue, k + 1, k + 1 < |queue| && !queue[k].terminal)
    {
      BatchStep(queue, k);
      BatchStep(queue, k + 1);
    }

    method TakeFirst() returns (next: Option<P.Message>)
      modifies this`pipe
      ensures Taking(old(pipe), pipe, if next.Some? then 1 else 0, 0)
      ensures Batched(old(pipe).queue, 0, next.Some?)
      ensures next.Some? ==> old(pipe).queue != [] && next.value == old(pipe).queue[0]
    {
      BatchStarts(pipe);
      hide *;
      next := WritePop();
    }

    static lemma BatchStarts(p: P.Pipeline)
      ensures Taking(p, p, 0, 0)
      ensures Batched(p.queue, 0, p.queue != [])
      ensures p.queue != [] ==>
        Taking(p, p.(queue := p.queue[1..], bufferSize := p.bufferSize - |p.queue[0].payload|), 1, 0)
    {
      BatchStep(p.queue, 0);
      assert p.current + p.queue[..0] == p.current;
      PopTakes(p, p, 0);
      hide P.BatchLength, P.PayloadSum;
    }

    method TakeMessages()
      modifies this`pipe
      ensures var n := P.BatchLength(old(pipe).queue); Taking(old(pipe), pipe, n, n)
    {
      hide *;
      ghost var p, k := pipe, 0;
      var next := TakeFirst();
      while next.Some?
        invariant Batched(p.queue, k, next.Some?)
        invariant next.Some? ==> k < |p.queue| && next.value == p.queue[k]
        invariant Taking(p, pipe, if next.Some? then k + 1 else k, k)
        decreases |p.queue| - k, next.Some?
      {
        BatchGoesOn(p.queue, k);
        next := AppendMessage(next.value, p, k);
        k := k + 1;
      }
      BatchDone(p.queue, k);
    }

    static lemma BatchDone(queue: seq<P.Message>, k: nat)
      requires Batched(queue, k, false)
      ensures P.BatchLength(queue) == k
    {
    }

    method CollectBuffers()
      modifies this`pipe
      ensures pipe == old(pipe).(buffers := old(pipe).buffers + P.Buffers(old(pipe).current))
    {
      var i := 0;
      while i < |pipe.current|
        invariant 0 <= i <= |pipe.current|
        invariant pipe == old(pipe).(buffers := pipe.buffers)
        invariant pipe.buffers + P.Buffers(pipe.current[i..]) == old(pipe).buffers + P.Buffers(old(pipe).current)
      {
        pipe := pipe.(buffers := pipe.buffers + [pipe.current[i].header]);
        pipe := pipe.(buffers := pipe.buffers + [pipe.current[i].payload]);
        assert pipe.current[i..][1..] == pipe.current[i + 1..];
        i := i + 1;
      }
      assert pipe.current[i..] == [];
    }

    static lemma BatchStep(queue: seq<P.Message>, k: nat)
      requires k <= |queue|
      ensures k < |queue| ==>
        && queue[k..][0] == queue[k] && queue[k..][1..] == queue[k + 1..]
        && P.BatchLength(queue[k..]) == (if queue[k].terminal then 1 else 1 + P.BatchLength(queue[k + 1..]))
        && queue[..k + 1] == queue[..k] + [queue[k]]
        && P.PayloadSum(queue[..k + 1]) == P.PayloadSum(queue[..k]) + |queue[k].payload|
      ensures k == |queue| ==> P.BatchLength(queue[k..]) == 0 && queue[..k] == queue && queue[k..] == []
      ensures k == 0 ==> queue[..k] == [] && queue[k..] == queue && P.PayloadSum(queue[..k]) == 0
    {
      if k < |queue| {
        P.PayloadSumAppend(queue[..k], [queue[k]]);
        assert P.PayloadSum([queue[k]]) == |queue[k].payload| + P.PayloadSum([queue[k]][1..]);
        assert queue[..k + 1] == queue[..k] + [queue[k]];
      }
    }

    method EndWrite(stops: bool)
      requires pipe.threads.writing > 0
      modifies this`pipe
      ensures var t := old(pipe).threads.(writing := old(pipe).threads.writing - 1);
        pipe == old(pipe).(buffers := [], current := [], threads := if stops then t.(stopped := t.stopped + 1) else t)
    {
      pipe := pipe.(buffers := [], current := []);
      pipe := pipe.(threads := pipe.threads.(writing := pipe.threads.writing - 1));
      if stops {
        pipe := pipe.(threads := pipe.threads.(stopped := pipe.threads.stopped + 1));
      }
    }

    method ReleaseFlag()
      modifies this`pipe
      ensures var t := old(pipe).threads;
        pipe == old(pipe).(writeFlag := false,
                           threads := if old(pipe).queue != [] then t.(dispatched := t.dispatched + 1) else t)
    {
      pipe := pipe.(writeFlag := false);
      var needsWriting := pipe.queue != [];
      if needsWriting {
        DispatchWriteFrame();
      }
    }

    method OnFramesWritten(error: Ec)
      requires pipe.threads.writing > 0 && pipe.current != [] && AtRest()
      modifies this
      ensures View() == HandleWriteFrame(old(View()), error) && AtRest()
    {
      hide Terminate;
      var terminal := pipe.current[|pipe.current| - 1].terminal;
      EndWrite(error != Success || terminal);
      if error != Success {
        TerminateWith(error);
        return;
      }
      if terminal {
        TerminateWith(Success);
        return;
      }
      ReleaseFlag();
    }

    // -------------------------------------------------------------- calls the application may make

    method WriteResponse(error: Ec)
      modifies this`status, this`ec, this`world
      ensures View() == WriteHttpResponse(old(View()), error)
    {
      if error == HttpConnectionEnded {
        return;
      }
      ec := error;
      if status == UNINITIALIZED {
        status := INTERNAL_SERVER_ERROR;
        ec := General;
      }
      Await(HttpResponseWritten);
    }

    method SendResponse()
      modifies this`httpState, this`status, this`ec, this`world
      ensures View() == Call(old(View()), SendHttpResponse)
    {
      if httpState != HttpDeferred {
        return;
      }
      httpState := HttpBodyWritten;
      WriteResponse(Success);
    }

    method ApiCall(a: Api)
      requires AtRest()
      modifies this
      ensures View() == Call(old(View()), a) && AtRest()
    {
      hide SendFrame, CloseCall, WriteHttpResponse, Terminate, P.AtRest;
      match a
      case SendCall(prepared) => var _ := Send(P.Data, prepared);
      case PingCall(prepared) => var _ := Send(P.Ping, prepared);
      case PongCall(prepared) => var _ := Send(P.Pong, prepared);
      case Close(code, prepared) => var _ := CloseSession(code, prepared);
      case PauseReading => Await(PauseDispatched);
      case ResumeReading => Await(ResumeDispatched);
      case SetStatus(s) =>
        if internal == ProcessHttpRequest {
          status := s;
        }
      case SendHttpResponse => SendResponse();
      case TerminateCall(error) => TerminateWith(error);
    }

    method RunScript(script: seq<Api>)
      requires AtRest()
      modifies this
      ensures View() == Run(old(View()), script) && AtRest()
    {
      hide Call, P.AtRest;
      var i := 0;
      while i < |script|
        invariant 0 <= i <= |script| && AtRest()
        invariant Run(View(), script[i..]) == Run(old(View()), script)
      {
        assert script[i..][1..] == script[i + 1..];
        ApiCall(script[i]);
        i := i + 1;
      }
    }

    // -------------------------------------------------------------- incoming frames

    method ReadMore()
      modifies this`world
      ensures View() == ReadFrame(old(View()))
    {
      if !readFlag {
        return;
      }
      Await(FrameRead);
    }

    method RejectPayload(error: CloseCodes.Error, ack: Prepared)
      requires AtRest()
      modifies this
      ensures View() == RejectClose(old(View()), error, ack) && AtRest()
    {
      hide Terminate, SendCloseAck, P.AtRest;
      if config.dropOnProtocolError {
        TerminateWith(BadClosePayload(error));
      } else {
        var _ := SendAck(PROTOCOL_ERROR, ack);
      }
    }

    method OnCloseFrame(payload: seq<byte>, ack: Prepared)
      requires AtRest()
      modifies this
      ensures View() == ProcessClose(old(View()), payload, ack) && AtRest()
    {
      hide Terminate, SendCloseAck, RejectClose, CodeOf, ReasonOf, P.AtRest;
      var codeError, reasonError;
      remoteCode, codeError := ExtractCode(payload);
      if codeError != NoError {
        RejectPayload(codeError, ack);
        return;
      }
      var _, error := ExtractReason(payload);
      reasonError := error;
      if reasonError != NoError {
        RejectPayload(reasonError, ack);
        return;
      }
      if state == Open {
        var _ := SendAck(BLANK, ack);
      } else if state == Closing && !wasClean {
        wasClean := true;
        if config.isServer {
          TerminateWith(Success);
        }
      }
    }

    method OnControlFrame(f: Incoming)
      requires IsControl(f) && AtRest()
      modifies this
      ensures View() == ProcessControlFrame(old(View()), f) && AtRest()
    {
      hide Run, SendFrame, ProcessClose, P.AtRest;
      if state == Closed {
        return;
      }
      if !f.CloseFrame? && state != Open {
        return;
      }
      match f
      case PingFrame(script, reply, pong) =>
        RunScript(script);
        if reply {
          var _ := Send(P.Pong, pong);
        }
      case PongFrame(script) => RunScript(script);
      case CloseFrame(payload, ack) => OnCloseFrame(payload, ack);
      case UnknownControl =>
    }

    method OnMessage(message: seq<byte>, script: seq<Api>)
      requires AtRest()
      modifies this
      ensures View() == DeliverMessage(old(View()), message, script) && AtRest()
      ensures world.calls.messagesIn ==
        old(world).calls.messagesIn + (if old(state) == Open then [Delivery(Open, message)] else [])
    {
      if state == Open {
        RunCalls(Given(View(), message), script);
      }
      hide Run, P.AtRest;
      if state != Open {
        return;
      }
      world := world.(calls := world.calls.(messagesIn := world.calls.messagesIn + [Delivery(state, message)]));
      RunScript(script);
    }

    method OnConsumeFailure(f: Incoming)
      requires f.ConsumeFailed? && AtRest()
      modifies this
      ensures View() == FailConsume(old(View()), f) && AtRest()
    {
      hide CloseCall, Terminate, P.AtRest;
      if config.dropOnProtocolError {
        TerminateWith(ProcessorFailure(f.failure));
      } else {
        var closeError := CloseSession(f.closeCode, f.close);
        if closeError != Success {
          TerminateWith(closeError);
        }
      }
    }

    method OnIncoming(f: Incoming)
      requires !f.ConsumeFailed? && AtRest()
      modifies this
      ensures View() == ProcessOne(old(View()), f) && AtRest()
    {
      hide DeliverMessage, ProcessControlFrame, P.AtRest;
      if f.DataMessage? {
        OnMessage(f.message, f.script);
      } else if IsControl(f) {
        OnControlFrame(f);
      }
    }

    method ConsumeAll(incoming: seq<Incoming>)
      requires AtRest()
      modifies this
      ensures View() == ProcessIncoming(old(View()), incoming) && AtRest()
    {
      hide ProcessOne, FailConsume, ReadFrame, P.AtRest;
      var i := 0;
      while i < |incoming|
        invariant 0 <= i <= |incoming| && AtRest()
        invariant ProcessIncoming(View(), incoming[i..]) == ProcessIncoming(old(View()), incoming)
      {
        if incoming[i].ConsumeFailed? {
          OnConsumeFailure(incoming[i]);
          return;
        }
        assert incoming[i..][1..] == incoming[i + 1..];
        OnIncoming(incoming[i]);
        i := i + 1;
      }
      ReadMore();
    }

    method OnFramesRead(error: Ec, incoming: seq<Incoming>)
      requires AtRest()
      modifies this
      ensures View() == HandleReadFrame(old(View()), error, incoming) && AtRest()
    {
      hide ProcessIncoming, Terminate, P.AtRest;
      var ecm := error;
      if ecm == Success && internal != ProcessConnection {
        ecm := InvalidState;
      }
      if ecm != Success {
        if ecm == Eof {
          if state == Closed {
            return;
          } else if state == Closing && !config.isServer {
            TerminateWith(Success);
            return;
          }
        } else if ecm == InvalidState {
          if state == Closed {
            return;
          }
        }
        TerminateWith(ecm);
        return;
      }
      ConsumeAll(incoming);
    }

    // -------------------------------------------------------------- the opening handshake

    /** How every handshake handler starts. */
    method Admit(error: Ec, expected: InternalState) returns (g: Guard)
      ensures g == Check(View(), error, expected)
      ensures g.Proceed? <==> error == Success && state == Connecting && internal == expected
      ensures g.Ignore? <==> (error == Success || error == Eof) && state == Closed
      ensures g.Fail? ==> g.ec == if error != Success then error else InvalidState
    {
      var ecm := error;
      if ecm == Success {
        if state == Connecting {
          if internal != expected {
            ecm := InvalidState;
          }
        } else if state == Closed {
          return Ignore;
        } else {
          ecm := InvalidState;
        }
      }
      if ecm != Success {
        if ecm == Eof && state == Closed {
          return Ignore;
        }
        return Fail(ecm);
      }
      return Proceed;
    }

    method Begin()
      modifies this
      ensures View() == Start(old(View())) && (old(AtRest()) ==> AtRest())
    {
      hide Terminate;
      if internal != UserInit {
        TerminateWith(InvalidState);
        return;
      }
      internal := TransportInit;
      Await(TransportReady);
    }

    method OnTransportReady(error: Ec, processor: bool, request: bool)
      modifies this`internal, this`hasProcessor, this`state, this`timer, this`ec, this`localCode, this`httpState,
          this`world
      ensures View() == HandleTransportInit(old(View()), error, processor, request)
    {
      hide Terminate, SetTimer;
      if internal != TransportInit {
        TerminateWith(InvalidState);
        return;
      }
      if error != Success {
        TerminateWith(error);
        return;
      }
      if config.isServer {
        internal := ReadHttpRequest;
        ReadHandshake();
      } else {
        internal := WriteHttpRequest;
        hasProcessor := processor;
        SendRequest(request);
      }
    }

    method ReadHandshake()
      modifies this`timer, this`world
      ensures View() == Expect(SetTimer(old(View()), OpenTimer, config.openTimeout), HandshakeRead)
    {
      SetHandshakeTimer(OpenTimer, config.openTimeout);
      Await(HandshakeRead);
    }

    method SendRequest(request: bool)
      modifies this`timer, this`world
      ensures View() == if hasProcessor && request
        then Expect(SetTimer(old(View()), OpenTimer, config.openTimeout), HttpRequestWritten) else old(View())
    {
      if !hasProcessor || !request {
        return;
      }
      SetHandshakeTimer(OpenTimer, config.openTimeout);
      Await(HttpRequestWritten);
    }

    method DeferHttp()
      modifies this`timer, this`httpState, this`world
      ensures View() == DeferResponse(old(View()))
    {
      CancelHandshakeTimer();
      httpState := HttpDeferred;
    }

    method RunHttpScript(script: seq<HttpApi>)
      requires AtRest()
      modifies this
      ensures View() == RunHttp(old(View()), script) && AtRest()
    {
      hide Call, DeferResponse, P.AtRest;
      var i := 0;
      while i < |script|
        invariant 0 <= i <= |script| && AtRest()
        invariant RunHttp(View(), script[i..]) == RunHttp(old(View()), script)
      {
        assert script[i..][1..] == script[i + 1..];
        if script[i].Defer? {
          DeferHttp();
        } else {
          ApiCall(script[i].call);
        }
        i := i + 1;
      }
    }

    method AnswerHttp(a: Answers) returns (error: Ec)
      requires AtRest()
      modifies this
      ensures (View(), error) == ProcessHttp(old(View()), a) && AtRest()
    {
      hide RunHttp, P.AtRest;
      if !a.uriValid {
        status := BAD_REQUEST;
        return InvalidUri;
      }
      if config.hasHttpHandler {
        isHttp := true;
        world := world.(calls := world.calls.(httpRequests := world.calls.httpRequests + 1));
        RunHttpScript(a.httpScript);
        if state == Closed {
          return HttpConnectionEnded;
        }
        return Success;
      }
      status := UPGRADE_REQUIRED;
      return UpgradeRequired;
    }

    method AnswerHandshake(a: Answers) returns (error: Ec)
      requires AtRest()
      modifies this
      ensures (View(), error) == ProcessHandshake(old(View()), a) && AtRest()
    {
      hide Run, P.AtRest;
      if !a.validates {
        status := BAD_REQUEST;
        return ProcessorFailure(0);
      }
      if !a.extensionsParse {
        status := BAD_REQUEST;
        return ProcessorFailure(1);
      }
      if !a.uriValid {
        status := BAD_REQUEST;
        return InvalidUri;
      }
      RunScript(a.validateScript);
      if !a.accepts {
        if status == UNINITIALIZED {
          status := BAD_REQUEST;
        }
        return Rejected;
      }
      if !a.processes {
        status := INTERNAL_SERVER_ERROR;
        return ProcessorFailure(2);
      }
      status := SWITCHING_PROTOCOLS;
      return Success;
    }

    method WriteResponseError(error: Ec)
      modifies this
      ensures View() == WriteHttpResponseError(old(View()), error) && (old(AtRest()) ==> AtRest())
    {
      hide Terminate, WriteHttpResponse;
      if internal != ReadHttpRequest {
        TerminateWith(InvalidState);
        return;
      }
      internal := ProcessHttpRequest;
      WriteResponse(error);
    }

    method OnRequest(processor: ProcessorInit, a: Answers)
      requires AtRest()
      modifies this
      ensures View() == HandleRequest(old(View()), processor, a) && AtRest()
    {
      hide WriteHttpResponseError, ProcessHttp, ProcessHandshake, WriteHttpResponse, P.AtRest;
      var handshakeError;
      match processor {
        case UnknownVersion =>
          status := BAD_REQUEST;
          WriteResponseError(InvalidVersion);
          return;
        case NoProcessor =>
          hasProcessor := false;
          status := BAD_REQUEST;
          WriteResponseError(UnsupportedVersion);
          return;
        case NotWebsocket =>
          internal := ProcessHttpRequest;
          handshakeError := AnswerHttp(a);
        case Supported(hybi00, key3) =>
          hasProcessor := true;
          if hybi00 && !key3 {
            status := INTERNAL_SERVER_ERROR;
            WriteResponseError(ShortKey3);
            return;
          }
          internal := ProcessHttpRequest;
          handshakeError := AnswerHandshake(a);
      }
      if !isHttp || httpState == HttpInit {
        WriteResponse(handshakeError);
      }
    }

    method OnHandshakeRead(error: Ec, bytes: HandshakeBytes)
      requires AtRest()
      modifies this
      ensures View() == HandleReadHandshake(old(View()), error, bytes) && AtRest()
    {
      hide Check, Terminate, WriteHttpResponseError, HandleRequest, P.AtRest;
      var g := Admit(error, ReadHttpRequest);
      match g {
        case Ignore => return;
        case Fail(e) =>
          TerminateWith(e);
          return;
        case Proceed =>
      }
      match bytes
      case TooLong => TerminateWith(General);
      case ParseFailed(s) =>
        status := s;
        WriteResponseError(HttpParseError);
      case Overrun => TerminateWith(General);
      case NeedMore => Await(HandshakeRead);
      case Request(processor, answers) => OnRequest(processor, answers);
    }

    method BecomeOpen(script: seq<Api>)
      requires AtRest()
      modifies this
      ensures View() == Opened(old(View()), script) && AtRest()
    {
      hide Run, P.AtRest;
      internal := ProcessConnection;
      Assign(Open);
      world := world.(calls := world.calls.(opens := world.calls.opens + 1));
      RunScript(script);
    }

    method OpenAndRead(script: seq<Api>, incoming: seq<Incoming>)
      requires AtRest()
      modifies this
      ensures View() == HandleReadFrame(Opened(old(View()), script), Success, incoming) && AtRest()
    {
      hide Opened, HandleReadFrame, P.AtRest;
      BecomeOpen(script);
      OnFramesRead(Success, incoming);
    }

    method EndHttp()
      modifies this`state, this`timer, this`ec, this`localCode, this`httpState, this`world
      ensures View() == var c := if isHttp then old(View()).(ec := HttpConnectionEnded) else old(View());
        Terminate(c, c.ec)
    {
      hide Terminate;
      if isHttp {
        ec := HttpConnectionEnded;
      }
      TerminateWith(ec);
    }

    method OnHttpResponseWritten(error: Ec, script: seq<Api>, incoming: seq<Incoming>)
      requires AtRest()
      modifies this
      ensures View() == HandleWriteHttpResponse(old(View()), error, script, incoming) && AtRest()
    {
      hide Check, Terminate, Opened, HandleReadFrame, CancelIn, P.AtRest;
      var g := Admit(error, ProcessHttpRequest);
      match g {
        case Ignore => return;
        case Fail(e) =>
          TerminateWith(e);
          return;
        case Proceed =>
      }
      CancelHandshakeTimer();
      if status != SWITCHING_PROTOCOLS {
        EndHttp();
        return;
      }
      OpenAndRead(script, incoming);
    }

    method OnHttpRequestWritten(error: Ec)
      modifies this
      ensures View() == HandleSendHttpRequest(old(View()), error) && (old(AtRest()) ==> AtRest())
    {
      hide Check, Terminate;
      var g := Admit(error, WriteHttpRequest);
      match g {
        case Ignore => return;
        case Fail(e) =>
          TerminateWith(e);
          return;
        case Proceed =>
      }
      internal := ReadHttpResponse;
      Await(HttpResponseRead);
    }

    method OnHttpResponseRead(error: Ec, bytes: ResponseBytes)
      requires AtRest()
      modifies this
      ensures View() == HandleReadHttpResponse(old(View()), error, bytes) && AtRest()
    {
      hide Check, Terminate, Opened, HandleReadFrame, CancelIn, P.AtRest;
      var g := Admit(error, ReadHttpResponse);
      match g {
        case Ignore => return;
        case Fail(e) =>
          TerminateWith(e);
          return;
        case Proceed =>
      }
      match bytes
      case BadResponse => TerminateWith(General);
      case MoreResponse => Await(HttpResponseRead);
      case Response(validates, negotiates, script, incoming) => OnResponse(validates, negotiates, script, incoming);
    }

    method OnResponse(validates: bool, negotiates: bool, script: seq<Api>, incoming: seq<Incoming>)
      requires AtRest()
      modifies this
      ensures AtRest()
      ensures View() == var c := CancelTimer(old(View()));
        if !validates then Terminate(c, ProcessorFailure(3))
        else HandleReadFrame(Opened(if negotiates then c else Terminate(c, ExtensionNegotiationFailed), script),
                             Success, incoming)
    {
      hide Terminate, Opened, HandleReadFrame, CancelIn, P.AtRest;
      CancelHandshakeTimer();
      if !validates {
        TerminateWith(ProcessorFailure(3));
        return;
      }
      if !negotiates {
        TerminateWith(ExtensionNegotiationFailed);
      }
      OpenAndRead(script, incoming);
    }

    // -------------------------------------------------------------- steps

    method Receive(e: Event)
      modifies this`world
      ensures View() == Received(old(View()), e)
    {
      world := world.(events := world.events - multiset{e});
    }

    method HandshakeStep(s: Step)
      requires
        || s.TransportReadyStep? || s.HandshakeReadStep? || s.HttpResponseWrittenStep?
        || s.HttpRequestWrittenStep? || s.HttpResponseReadStep?
      requires Enabled(View(), s) && AtRest()
      modifies this
      ensures View() == Next(old(View()), s) && AtRest()
    {
      hide Received, P.AtRest, HandleTransportInit, HandleReadHandshake, HandleWriteHttpResponse, HandleSendHttpRequest,
           HandleReadHttpResponse;
      match s
      case TransportReadyStep(error, processor, request) =>
        Receive(TransportReady);
        OnTransportReady(error, processor, request);
      case HandshakeReadStep(error, handshake) =>
        Receive(HandshakeRead);
        OnHandshakeRead(error, handshake);
      case HttpResponseWrittenStep(error, script, incoming) =>
        Receive(HttpResponseWritten);
        OnHttpResponseWritten(error, script, incoming);
      case HttpRequestWrittenStep(error) =>
        Receive(HttpRequestWritten);
        OnHttpRequestWritten(error);
      case HttpResponseReadStep(error, response) =>
        Receive(HttpResponseRead);
        OnHttpResponseRead(error, response);
    }

    method ReadingStep(s: Step)
      requires s.FrameReadStep? || s.PauseStep? || s.ResumeStep?
      requires Enabled(View(), s) && AtRest()
      modifies this
      ensures View() == Next(old(View()), s) && AtRest()
    {
      hide P.AtRest, HandleReadFrame, ReadFrame;
      match s
      case FrameReadStep(error, incoming) =>
        Receive(FrameRead);
        OnFramesRead(error, incoming);
      case PauseStep =>
        Receive(PauseDispatched);
        readFlag := false;
      case ResumeStep =>
        Receive(ResumeDispatched);
        readFlag := true;
        ReadMore();
    }

    method OutgoingStep(s: Step)
      requires s.WriteFrameStep? || s.WriteDoneStep? || s.ExpireStep? || s.TimerStep?
      requires Enabled(View(), s) && Defined(View(), s) && AtRest()
      modifies this
      ensures View() == Next(old(View()), s) && AtRest()
    {
      hide P.AtRest, P.WriteNow, HandleWriteFrame, HandleTimer;
      match s
      case WriteFrameStep => WriteFrames();
      case WriteDoneStep(error) => OnFramesWritten(error);
      case ExpireStep(id) => Expire(id);
      case TimerStep(id) => OnTimer(id);
    }

    method Expire(id: nat)
      requires id < |world.timers|
      modifies this`world
      ensures world == old(world).(timers := old(world).timers[id := old(world).timers[id].(phase := Expired)])
    {
      world := world.(timers := world.timers[id := world.timers[id].(phase := Expired)]);
    }

    method SessionStep(s: Step)
      requires s.CallStep? || s.StartStep? || s.ShutdownStep?
      requires Enabled(View(), s) && AtRest()
      modifies this
      ensures View() == Next(old(View()), s) && AtRest()
    {
      hide P.AtRest, Call, Start, Terminate, Received, HandleTerminate;
      match s
      case CallStep(call) => ApiCall(call);
      case StartStep => Begin();
      case ShutdownStep(tstat, script) =>
        Receive(ShutdownDone(tstat));
        OnTerminated(tstat, script);
    }

    /** Any step of the machine, taken by the object.  A valid object stays valid through every step but
      * the one by which a client opens a session it has just terminated. */
    method Deliver(s: Step)
      requires Valid(View()) && Enabled(View(), s)
      modifies this
      ensures View() == Next(old(View()), s)
      ensures Valid(View()) <==> !Reopens(old(View()), s)
    {
      NextValid(View(), s);
      assert AtRest();
      hide *;
      if s.CallStep? || s.StartStep? || s.ShutdownStep? {
        SessionStep(s);
      } else if s.FrameReadStep? || s.PauseStep? || s.ResumeStep? {
        ReadingStep(s);
      } else if s.WriteFrameStep? || s.WriteDoneStep? || s.ExpireStep? || s.TimerStep? {
        OutgoingStep(s);
      } else {
        HandshakeStep(s);
      }
    }
  }
}
