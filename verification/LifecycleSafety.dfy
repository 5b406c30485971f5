/** What holds in every reachable state of a connection, and what its runs can and cannot do. */
module LifecycleSafety {
  import opened Bytes
  import opened CloseCodes
  import opened Lifecycle
  import P = WritePipeline

  /** No state is entered again once it has been left, and none but closing is entered twice. */
  predicate Ordered(trail: seq<SessionState>) {
    forall i, j :: 0 <= i < j < |trail| ==> Rank(trail[i]) < Rank(trail[j]) || trail[i] == trail[j] == Closing
  }

  /** The session state only ever moves forward, the transport is shut down once, and every handler that
    * marks a stage of the session runs at most once, each for its own reason. */
  ghost predicate Session(c: Con) {
    var w, calls := c.world, c.world.calls;
    var failed, wasOpen := w.events[ShutdownDone(Failed)], w.events[ShutdownDone(WasOpen)];
    && |w.trail| > 0 && w.trail[|w.trail| - 1] == c.state && Ordered(w.trail)
    && w.shutdowns == (if c.state == Closed then 1 else 0)
    && (c.state == Connecting ==> calls.opens == 0)
    && (c.state == Open || c.state == Closing ==> calls.opens == 1)
    && calls.opens <= 1
    && failed + wasOpen + calls.terminations == w.shutdowns
    && (failed > 0 ==> calls.opens == 0)
    && (wasOpen > 0 ==> calls.opens == 1)
    && calls.fails + calls.closes + calls.httpEnds == calls.terminations
    && (calls.closes > 0 ==> calls.opens == 1)
    && (calls.fails + calls.httpEnds > 0 ==> calls.opens == 0)
    && (c.isHttp <==> calls.httpRequests > 0) && (c.isHttp ==> calls.opens == 0)
    && (calls.httpEnds > 0 || c.ec == HttpConnectionEnded ==> c.isHttp)
    && forall i :: 0 <= i < |calls.messagesIn| ==> calls.messagesIn[i].state == Open
  }

  /** A session that is open or closing has finished the handshake and has a processor, and so has any
    * connection that is about to reach that point. */
  ghost predicate Handshaken(c: Con) {
    var events := c.world.events;
    && (c.internal == ProcessConnection ==> c.state != Connecting && c.hasProcessor)
    && (c.state == Open || c.state == Closing ==> c.internal == ProcessConnection)
    && (c.internal == ReadHttpResponse ==> c.hasProcessor)
    && (HttpRequestWritten in events || HttpResponseRead in events ==>
          c.hasProcessor && !c.config.isServer && c.internal != UserInit && c.internal != TransportInit)
    && (c.status == SWITCHING_PROTOCOLS ==>
          c.hasProcessor && (c.internal == ProcessHttpRequest || c.internal == ProcessConnection))
    && (c.internal == ReadHttpRequest || c.internal == ProcessHttpRequest ==> c.config.isServer)
    && (c.internal == WriteHttpRequest || c.internal == ReadHttpResponse ==> !c.config.isServer)
    && (c.isHttp ==> c.internal == ProcessHttpRequest && c.status != SWITCHING_PROTOCOLS)
  }

  /** Everything pushed is a run of data, ping and pong frames followed by close frames only. */
  predicate CloseFramesLast(pushed: seq<P.Message>) {
    forall i, j :: 0 <= i < j < |pushed| && pushed[i].kind == P.Close ==> pushed[j].kind == P.Close
  }

  predicate HasTerminal(ms: seq<P.Message>) {
    exists i :: 0 <= i < |ms| && ms[i].terminal
  }

  ghost predicate Writing(c: Con) {
    var pushed := c.pipe.history.pushed;
    && P.Valid(c.pipe) && P.AtRest(c.pipe)
    && (c.pipe.threads.stopped > 0 ==> c.state == Closed)
    && CloseFramesLast(pushed)
    && (c.state == Connecting ==> pushed == [])
    && (c.state == Open ==> forall i :: 0 <= i < |pushed| ==> pushed[i].kind != P.Close)
    && (c.wasClean && c.config.isServer ==>
          c.state == Closed || (c.state == Closing && (HasTerminal(c.pipe.current) || HasTerminal(c.pipe.queue))))
  }

  predicate LiveCloseTimer(c: Con) {
    && c.timer.Some? && c.timer.value < |c.world.timers|
    && c.world.timers[c.timer.value].kind == CloseTimer
    && c.world.timers[c.timer.value].phase in {Armed, Expired}
  }

  ghost predicate Timed(c: Con) {
    && (c.timer.Some? ==> c.timer.value < |c.world.timers|)
    && (c.state == Closing && c.config.closeTimeout > 0 && c.config.hasTimers ==> LiveCloseTimer(c))
  }

  ghost predicate Valid(c: Con) {
    Session(c) && Handshaken(c) && Writing(c) && Timed(c)
  }

  lemma InitialValid(config: Config)
    ensures Valid(Initial(config))
  {
    hide P.Valid, Valid;
    FreshValid(Initial(config));
  }

  /** A connection to which nothing has happened is valid. */
  lemma FreshValid(c: Con)
    requires P.Idle(c.pipe) && c.world == World(multiset{}, [], 0, [Connecting], Calls(0, 0, 0, 0, 0, 0, []))
    requires c.state == Connecting && c.internal == UserInit && !c.isHttp && c.timer == None
    requires c.status == UNINITIALIZED && c.ec == Success && !c.wasClean
    ensures Valid(c)
  {
    P.IdleValid(c.pipe);
    hide P.Valid;
  }

  // ---------------------------------------------------------------- the small pieces keep validity

  lemma CancelTimerKeeps(c: Con)
    requires Valid(c) && c.state != Closing
    ensures Valid(CancelTimer(c))
  {
  }

  lemma TerminateSession(c: Con, ec: Ec)
    requires Session(c) && (ec == HttpConnectionEnded ==> c.isHttp)
    ensures Session(Terminate(c, ec)) && Terminate(c, ec).state == Closed
  {
  }

  lemma TerminateHandshaken(c: Con, ec: Ec)
    requires Handshaken(c)
    ensures Handshaken(Terminate(c, ec))
  {
  }

  lemma TerminateTimed(c: Con, ec: Ec)
    ensures Timed(Terminate(c, ec))
  {
  }

  lemma TerminateWriting(c: Con, ec: Ec)
    requires P.Valid(c.pipe) && P.AtRest(c.pipe) && CloseFramesLast(c.pipe.history.pushed)
    ensures Writing(Terminate(c, ec))
  {
  }

  lemma TerminateKeeps(c: Con, ec: Ec)
    requires Valid(c) && (ec == HttpConnectionEnded ==> c.isHttp)
    ensures Valid(Terminate(c, ec)) && Terminate(c, ec).state == Closed
  {
    TerminateSession(c, ec);
    TerminateHandshaken(c, ec);
    TerminateTimed(c, ec);
    TerminateWriting(c, ec);
    hide Session, Handshaken, Writing, Timed;
  }

  lemma SendFrameKeeps(c: Con, kind: P.FrameKind, prepared: Prepared)
    requires Valid(c) && kind != P.Close
    ensures Valid(SendFrame(c, kind, prepared)) && SendFrame(c, kind, prepared).state == c.state
  {
    if c.state == Open && prepared.Frame? {
      DataFramePushed(c, P.Message(kind, prepared.header, prepared.payload, false));
    }
    hide Valid, PushMessage;
  }

  lemma DataFramePushed(c: Con, m: P.Message)
    requires Valid(c) && c.state == Open && m.kind != P.Close
    ensures Valid(PushMessage(c, m)) && PushMessage(c, m).state == Open
  {
    P.PushNowEffect(c.pipe, m);
    var d := PushMessage(c, m);
    hide P.Valid, P.AtRest, P.PushNow;
    assert Session(d) && Handshaken(d) && Timed(d);
    assert Writing(d);
  }

  lemma TerminalStays(ms: seq<P.Message>, m: P.Message)
    ensures HasTerminal(ms) || m.terminal ==> HasTerminal(ms + [m])
  {
    if HasTerminal(ms) {
      var i :| 0 <= i < |ms| && ms[i].terminal;
      assert (ms + [m])[i].terminal;
    }
    assert (ms + [m])[|ms|] == m;
  }

  /** A close frame goes out: the session is closing, and the close timer, if any, runs. */
  lemma SendCloseFrameKeeps(c: Con, code: Code, ack: bool, terminal: bool, prepared: Prepared)
    requires Valid(c) && (c.state == Open || c.state == Closing)
    requires ack && c.config.isServer ==> terminal
    ensures Valid(SendCloseFrame(c, code, ack, terminal, prepared).0)
    ensures SendCloseFrame(c, code, ack, terminal, prepared).1 != HttpConnectionEnded
  {
    SendCloseFrameSession(c, code, ack, terminal, prepared);
    SendCloseFrameWriting(c, code, ack, terminal, prepared);
    hide Session, Handshaken, Writing, Timed;
  }

  lemma SendCloseFrameSession(c: Con, code: Code, ack: bool, terminal: bool, prepared: Prepared)
    requires Session(c) && Handshaken(c) && Timed(c) && (c.state == Open || c.state == Closing)
    ensures var d := SendCloseFrame(c, code, ack, terminal, prepared).0; Session(d) && Handshaken(d) && Timed(d)
  {
    hide P.PushNow;
  }

  lemma SendCloseFrameWriting(c: Con, code: Code, ack: bool, terminal: bool, prepared: Prepared)
    requires Writing(c) && (c.state == Open || c.state == Closing)
    requires ack && c.config.isServer ==> terminal
    ensures Writing(SendCloseFrame(c, code, ack, terminal, prepared).0)
  {
    var d := SendCloseFrame(c, code, ack, terminal, prepared).0;
    if prepared.Frame? {
      var m := P.Message(P.Close, prepared.header, prepared.payload, terminal);
      hide P.PushNow, Writing;
      assert d.pipe == PushMessage(c, m).pipe;
      CloseFramePushed(c, d, m);
    }
  }

  lemma CloseFramePushed(c: Con, d: Con, m: P.Message)
    requires Writing(c) && (c.state == Open || c.state == Closing)
    requires m.kind == P.Close && d.pipe == PushMessage(c, m).pipe && d.state == Closing && d.config == c.config
    requires d.wasClean ==> c.wasClean || (d.config.isServer ==> m.terminal)
    ensures Writing(d)
  {
    hide P.Valid, P.AtRest, P.PushNow;
    P.PushNowEffect(c.pipe, m);
    TerminalStays(c.pipe.queue, m);
    CloseLast(c.pipe.history.pushed, m);
    hide CloseFramesLast, HasTerminal;
  }

  lemma CloseLast(pushed: seq<P.Message>, m: P.Message)
    requires CloseFramesLast(pushed) && m.kind == P.Close
    ensures CloseFramesLast(pushed + [m])
  {
  }

  /** Completions that presuppose nothing about the connection. */
  predicate Plain(e: Event) {
    || e.TransportReady? || e.HandshakeRead? || e.HttpResponseWritten?
    || e.FrameRead? || e.PauseDispatched? || e.ResumeDispatched?
  }

  lemma ExpectKeeps(c: Con, e: Event)
    requires Valid(c) && Plain(e)
    ensures Valid(Expect(c, e))
  {
    hide P.Valid;
  }

  lemma ReceivedKeeps(c: Con, e: Event)
    requires Valid(c) && !e.ShutdownDone?
    ensures Valid(Received(c, e))
  {
    hide P.Valid;
  }

  lemma RespondWithKeeps(c: Con, status: nat, ec: Ec)
    requires Valid(c) && ec != HttpConnectionEnded && (status == c.status || status != SWITCHING_PROTOCOLS)
    ensures Valid(RespondWith(c, status, ec)) && RespondWith(c, status, ec).state == c.state
  {
    hide P.Valid;
  }

  lemma WriteHttpResponseKeeps(c: Con, ec: Ec)
    requires Valid(c)
    ensures Valid(WriteHttpResponse(c, ec)) && WriteHttpResponse(c, ec).state == c.state
  {
    if ec != HttpConnectionEnded {
      RespondWithKeeps(c, if c.status == UNINITIALIZED then INTERNAL_SERVER_ERROR else c.status,
                       if c.status == UNINITIALIZED then General else ec);
    }
    hide Valid, RespondWith;
  }

  /** No call touches the internal state. */
  lemma CallFrame(c: Con, a: Api)
    ensures Call(c, a).internal == c.internal && Call(c, a).hasProcessor == c.hasProcessor
    ensures Call(c, a).isHttp == c.isHttp && Call(c, a).config == c.config
  {
    if a.Close? {
      SendCloseFrameFrame(c, a.code, false, Terminal(a.code), a.prepared);
    }
    hide SendCloseFrame, Shutdown, P.PushNow, CancelIn;
  }

  /** None but a close or a termination touches the session state. */
  lemma CallState(c: Con, a: Api)
    ensures c.state != Open ==> Call(c, a).state == c.state || Call(c, a).state == Closed
  {
    hide P.PushNow, CancelIn;
  }

  /** None switches protocols. */
  lemma CallStatus(c: Con, a: Api)
    requires c.status != SWITCHING_PROTOCOLS
    ensures Call(c, a).status != SWITCHING_PROTOCOLS
  {
    if a.Close? {
      SendCloseFrameFrame(c, a.code, false, Terminal(a.code), a.prepared);
    }
    hide SendCloseFrame, Shutdown, P.PushNow, CancelIn;
  }

  predicate NotOpen(c: Con) {
    c.state == Connecting || c.state == Closed
  }

  lemma CallKeeps(c: Con, a: Api)
    requires Valid(c)
    ensures Valid(Call(c, a)) && Call(c, a).internal == c.internal && Call(c, a).hasProcessor == c.hasProcessor
    ensures Call(c, a).isHttp == c.isHttp && (NotOpen(c) ==> NotOpen(Call(c, a)))
  {
    CallFrame(c, a);
    CallState(c, a);
    match a {
      case SendCall(prepared) => SendFrameKeeps(c, P.Data, prepared);
      case PingCall(prepared) => SendFrameKeeps(c, P.Ping, prepared);
      case PongCall(prepared) => SendFrameKeeps(c, P.Pong, prepared);
      case Close(code, prepared) =>
        if c.state == Open {
          SendCloseFrameKeeps(c, code, false, Terminal(code), prepared);
        }
      case PauseReading => ExpectKeeps(c, PauseDispatched);
      case ResumeReading => ExpectKeeps(c, ResumeDispatched);
      case SetStatus(status) => SetStatusKeeps(c, status);
      case SendHttpResponse => SendHttpResponseKeeps(c);
      case TerminateCall(ec) => TerminateKeeps(c, ec);
    }
    hide Valid, SendFrame, SendCloseFrame, WriteHttpResponse, Terminate;
  }

  lemma SetStatusKeeps(c: Con, status: HttpStatus)
    requires Valid(c)
    ensures Valid(Call(c, SetStatus(status)))
  {
    hide P.Valid;
  }

  lemma SendHttpResponseKeeps(c: Con)
    requires Valid(c)
    ensures Valid(Call(c, SendHttpResponse)) && Call(c, SendHttpResponse).state == c.state
  {
    hide Valid, WriteHttpResponse;
    HttpStateKeeps(c, HttpBodyWritten);
    WriteHttpResponseKeeps(c.(httpState := HttpBodyWritten), Success);
  }

  lemma HttpStateKeeps(c: Con, httpState: HttpState)
    requires Valid(c)
    ensures Valid(c.(httpState := httpState))
  {
    hide P.Valid;
  }

  lemma {:induction false} RunKeeps(c: Con, script: seq<Api>)
    requires Valid(c)
    ensures Valid(Run(c, script)) && Run(c, script).internal == c.internal
    ensures Run(c, script).hasProcessor == c.hasProcessor
    ensures Run(c, script).isHttp == c.isHttp && (NotOpen(c) ==> NotOpen(Run(c, script)))
    decreases |script|
  {
    hide Valid, Call;
    if script != [] {
      CallKeeps(c, script[0]);
      RunKeeps(Call(c, script[0]), script[1..]);
    }
  }

  // ---------------------------------------------------------------- incoming frames keep validity

  /** Frames are only looked at while the connection processes frames. */
  ghost predicate Serving(c: Con) {
    Valid(c) && c.internal == ProcessConnection
  }

  lemma RejectCloseKeeps(c: Con, error: CloseCodes.Error, ack: Prepared)
    requires Serving(c) && (c.state == Open || c.state == Closing)
    ensures Serving(RejectClose(c, error, ack))
  {
    hide Valid, SendCloseFrame;
    TerminateKeeps(c, BadClosePayload(error));
    SendCloseFrameKeeps(c, PROTOCOL_ERROR, true, c.config.isServer, ack);
    SendCloseFrameFrame(c, PROTOCOL_ERROR, true, c.config.isServer, ack);
  }

  lemma SendCloseFrameFrame(c: Con, code: Code, ack: bool, terminal: bool, prepared: Prepared)
    ensures var d := SendCloseFrame(c, code, ack, terminal, prepared).0;
      && d.internal == c.internal && d.hasProcessor == c.hasProcessor && d.isHttp == c.isHttp
      && d.status == c.status && d.config == c.config
  {
    hide P.PushNow, LocalCode;
  }

  /** The acknowledgement of this side's own close: a server is done, a client waits for the server. */
  lemma AcknowledgedKeeps(c: Con)
    requires Serving(c) && c.state == Closing
    ensures var d := c.(wasClean := true); Serving(if c.config.isServer then Terminate(d, Success) else d)
  {
    var d := c.(wasClean := true);
    if c.config.isServer {
      TerminateSession(d, Success);
      TerminateHandshaken(d, Success);
      TerminateTimed(d, Success);
      TerminateWriting(d, Success);
      hide Session, Handshaken, Writing, Timed;
    } else {
      hide P.Valid;
    }
  }

  lemma ProcessCloseKeeps(c: Con, payload: seq<byte>, ack: Prepared)
    requires Serving(c) && c.state != Closed
    ensures Serving(ProcessClose(c, payload, ack))
  {
    hide Valid, SendCloseFrame, Terminate, RejectClose, CodeOf, ReasonOf;
    var d := c.(remoteCode := CodeOf(payload).0);
    RemoteCodeKeeps(c, CodeOf(payload).0);
    RejectCloseKeeps(d, CodeOf(payload).1, ack);
    RejectCloseKeeps(d, ReasonOf(payload).1, ack);
    SendCloseFrameKeeps(d, BLANK, true, d.config.isServer, ack);
    SendCloseFrameFrame(d, BLANK, true, d.config.isServer, ack);
    if d.state == Closing {
      AcknowledgedKeeps(d);
    }
  }

  lemma RemoteCodeKeeps(c: Con, code: Code)
    requires Serving(c)
    ensures Serving(c.(remoteCode := code)) && c.state != Connecting
  {
    hide P.Valid;
  }

  lemma ProcessControlFrameKeeps(c: Con, f: Incoming)
    requires Serving(c) && IsControl(f)
    ensures Serving(ProcessControlFrame(c, f))
  {
    match f {
      case PingFrame(script, reply, pong) =>
        RunKeeps(c, script);
        SendFrameKeeps(Run(c, script), P.Pong, pong);
      case PongFrame(script) => RunKeeps(c, script);
      case CloseFrame(payload, ack) =>
        if c.state != Closed {
          ProcessCloseKeeps(c, payload, ack);
        }
      case UnknownControl =>
    }
    hide Valid, ProcessClose, PushMessage;
  }

  lemma DeliverMessageKeeps(c: Con, message: seq<byte>, script: seq<Api>)
    requires Serving(c)
    ensures Serving(DeliverMessage(c, message, script))
  {
    if c.state == Open {
      var calls := c.world.calls.(messagesIn := c.world.calls.messagesIn + [Delivery(c.state, message)]);
      DeliveryKeeps(c, message);
      RunKeeps(c.(world := c.world.(calls := calls)), script);
    }
    hide Valid;
  }

  lemma DeliveryKeeps(c: Con, message: seq<byte>)
    requires Valid(c) && c.state == Open
    ensures var calls := c.world.calls.(messagesIn := c.world.calls.messagesIn + [Delivery(c.state, message)]);
      Valid(c.(world := c.world.(calls := calls)))
  {
    hide P.Valid;
  }

  lemma ProcessOneKeeps(c: Con, f: Incoming)
    requires Serving(c) && !f.ConsumeFailed?
    ensures Serving(ProcessOne(c, f))
  {
    if f.DataMessage? {
      DeliverMessageKeeps(c, f.message, f.script);
    } else if IsControl(f) {
      ProcessControlFrameKeeps(c, f);
    }
    hide Serving, DeliverMessage, ProcessControlFrame;
  }

  lemma FailConsumeKeeps(c: Con, f: Incoming)
    requires Serving(c) && f.ConsumeFailed?
    ensures Valid(FailConsume(c, f))
  {
    hide Valid, SendCloseFrame, Terminate;
    TerminateKeeps(c, ProcessorFailure(f.failure));
    if c.state == Open {
      SendCloseFrameKeeps(c, f.closeCode, false, Terminal(f.closeCode), f.close);
    }
    var (d, ec) := CloseCall(c, f.closeCode, f.close);
    if ec != Success {
      TerminateKeeps(d, ec);
    }
  }

  lemma ReadFrameKeeps(c: Con)
    requires Valid(c)
    ensures Valid(ReadFrame(c))
  {
    ExpectKeeps(c, FrameRead);
    hide Valid, Expect;
  }

  lemma {:induction false} ProcessIncomingKeeps(c: Con, incoming: seq<Incoming>)
    requires Serving(c)
    ensures Valid(ProcessIncoming(c, incoming))
    decreases |incoming|
  {
    hide Valid, ProcessOne, FailConsume, ReadFrame;
    if incoming == [] {
      ReadFrameKeeps(c);
    } else if incoming[0].ConsumeFailed? {
      FailConsumeKeeps(c, incoming[0]);
    } else {
      ProcessOneKeeps(c, incoming[0]);
      ProcessIncomingKeeps(ProcessOne(c, incoming[0]), incoming[1..]);
    }
  }

  lemma HandleReadFrameKeeps(c: Con, ec: OuterEc, incoming: seq<Incoming>)
    requires Valid(c)
    ensures Valid(HandleReadFrame(c, ec, incoming))
  {
    hide Valid, ProcessIncoming, Terminate;
    if c.internal == ProcessConnection {
      ProcessIncomingKeeps(c, incoming);
    }
    TerminateKeeps(c, Success);
    TerminateKeeps(c, InvalidState);
    TerminateKeeps(c, ec);
  }

  // ---------------------------------------------------------------- the handshake keeps validity

  /** The moves of the internal state before the session opens, with the processor they settle on. */
  predicate Advances(c: Con, next: InternalState, processor: bool) {
    || (c.internal == UserInit && next == TransportInit && processor == c.hasProcessor)
    || (c.internal == TransportInit && next == ReadHttpRequest && c.config.isServer && processor == c.hasProcessor)
    || (c.internal == TransportInit && next == WriteHttpRequest && !c.config.isServer)
    || (c.internal == ReadHttpRequest && (next == ReadHttpRequest || next == ProcessHttpRequest))
    || (c.internal == WriteHttpRequest && next == ReadHttpResponse && processor && c.hasProcessor)
  }

  lemma AdvanceKeeps(c: Con, next: InternalState, processor: bool)
    requires Valid(c) && Advances(c, next, processor)
    ensures Valid(c.(internal := next, hasProcessor := processor))
  {
    hide P.Valid;
  }

  lemma StatusKeeps(c: Con, status: HttpStatus)
    requires Valid(c)
    ensures Valid(c.(status := status))
  {
    hide P.Valid;
  }

  lemma StartKeeps(c: Con)
    requires Valid(c)
    ensures Valid(Start(c))
  {
    hide Valid, Terminate, Expect;
    TerminateKeeps(c, InvalidState);
    if c.internal == UserInit {
      AdvanceKeeps(c, TransportInit, c.hasProcessor);
      ExpectKeeps(c.(internal := TransportInit), TransportReady);
    }
  }

  lemma SetTimerKeeps(c: Con, kind: TimerKind, duration: int)
    requires Valid(c) && c.state != Closing
    ensures Valid(SetTimer(c, kind, duration))
  {
    hide P.Valid;
  }

  lemma ServerReadyKeeps(c: Con)
    requires Valid(c) && c.internal == TransportInit && c.config.isServer
    ensures Valid(HandleTransportInit(c, Success, false, false))
  {
    var d := c.(internal := ReadHttpRequest);
    AdvanceKeeps(c, ReadHttpRequest, c.hasProcessor);
    NotYetOpen(d);
    hide Valid, Expect, SetTimer;
    SetTimerKeeps(d, OpenTimer, c.config.openTimeout);
    ExpectKeeps(SetTimer(d, OpenTimer, c.config.openTimeout), HandshakeRead);
  }

  lemma NotYetOpen(c: Con)
    requires Valid(c) && c.internal != ProcessConnection
    ensures c.state == Connecting || c.state == Closed
  {
  }

  lemma ClientReadyKeeps(c: Con, processor: bool, request: bool)
    requires Valid(c) && c.internal == TransportInit && !c.config.isServer
    ensures Valid(HandleTransportInit(c, Success, processor, request))
  {
    var d := c.(internal := WriteHttpRequest, hasProcessor := processor);
    AdvanceKeeps(c, WriteHttpRequest, processor);
    NotYetOpen(d);
    hide Valid;
    SetTimerKeeps(d, OpenTimer, c.config.openTimeout);
    if processor {
      RequestSentKeeps(SetTimer(d, OpenTimer, c.config.openTimeout), HttpRequestWritten);
    }
    hide Expect;
  }

  lemma HandleTransportInitKeeps(c: Con, ec: OuterEc, processor: bool, request: bool)
    requires Valid(c)
    ensures Valid(HandleTransportInit(c, ec, processor, request))
  {
    hide Valid, Terminate, Expect, SetTimer;
    TerminateKeeps(c, InvalidState);
    TerminateKeeps(c, ec);
    if c.internal == TransportInit && c.config.isServer {
      ServerReadyKeeps(c);
    } else if c.internal == TransportInit {
      ClientReadyKeeps(c, processor, request);
    }
  }

  /** Completions of a client's handshake. */
  lemma RequestSentKeeps(c: Con, e: Event)
    requires Valid(c) && (e == HttpRequestWritten || e == HttpResponseRead)
    requires c.hasProcessor && !c.config.isServer && c.internal != UserInit && c.internal != TransportInit
    ensures Valid(Expect(c, e))
  {
    hide P.Valid;
  }

  lemma DeferKeeps(c: Con)
    requires Valid(c) && NotOpen(c)
    ensures Valid(DeferResponse(c))
  {
    hide Valid, CancelTimer;
    CancelTimerKeeps(c);
    HttpStateKeeps(CancelTimer(c), HttpDeferred);
  }

  lemma {:induction false} RunHttpKeeps(c: Con, script: seq<HttpApi>)
    requires Valid(c) && NotOpen(c)
    ensures Valid(RunHttp(c, script)) && NotOpen(RunHttp(c, script))
    ensures RunHttp(c, script).internal == c.internal
    decreases |script|
  {
    hide Valid, Call, DeferResponse;
    if script != [] {
      if script[0].Defer? {
        DeferKeeps(c);
        DeferFrame(c);
        RunHttpKeeps(DeferResponse(c), script[1..]);
      } else {
        CallKeeps(c, script[0].call);
        RunHttpKeeps(Call(c, script[0].call), script[1..]);
      }
    }
  }

  lemma DeferFrame(c: Con)
    ensures DeferResponse(c).state == c.state && DeferResponse(c).internal == c.internal
  {
  }

  lemma HttpRequestedKeeps(c: Con)
    requires Valid(c) && c.state == Connecting && c.internal == ProcessHttpRequest && c.status != SWITCHING_PROTOCOLS
    ensures Valid(HttpRequested(c)) && HttpRequested(c).state == c.state
  {
    hide P.Valid;
  }

  lemma ProcessHttpKeeps(c: Con, a: Answers)
    requires Valid(c) && c.state == Connecting && c.internal == ProcessHttpRequest && c.status != SWITCHING_PROTOCOLS
    ensures Valid(ProcessHttp(c, a).0)
  {
    hide Valid, HttpRequested, RunHttp;
    StatusKeeps(c, BAD_REQUEST);
    StatusKeeps(c, UPGRADE_REQUIRED);
    HttpRequestedKeeps(c);
    RunHttpKeeps(HttpRequested(c), a.httpScript);
  }

  lemma SwitchKeeps(c: Con)
    requires Valid(c) && c.hasProcessor && c.internal == ProcessHttpRequest && !c.isHttp
    ensures Valid(c.(status := SWITCHING_PROTOCOLS))
  {
    hide P.Valid;
  }

  lemma ProcessHandshakeKeeps(c: Con, a: Answers)
    requires Valid(c) && c.hasProcessor && c.internal == ProcessHttpRequest && !c.isHttp
    ensures Valid(ProcessHandshake(c, a).0)
  {
    hide Valid, Run;
    StatusKeeps(c, BAD_REQUEST);
    RunKeeps(c, a.validateScript);
    var d := Run(c, a.validateScript);
    StatusKeeps(d, BAD_REQUEST);
    StatusKeeps(d, INTERNAL_SERVER_ERROR);
    SwitchKeeps(d);
  }

  lemma {:induction false} RunKeepsStatus(c: Con, script: seq<Api>)
    requires c.status != SWITCHING_PROTOCOLS
    ensures Run(c, script).status != SWITCHING_PROTOCOLS
    decreases |script|
  {
    hide Call;
    if script != [] {
      CallStatus(c, script[0]);
      RunKeepsStatus(Call(c, script[0]), script[1..]);
    }
  }

  /** A request is switched to WebSocket exactly when it validates, its extensions and its URI parse, the
    * application accepts it and the processor can answer it, and exactly then there is no error. */
  lemma SwitchesIff(c: Con, a: Answers)
    requires c.status != SWITCHING_PROTOCOLS
    ensures ProcessHandshake(c, a).0.status == SWITCHING_PROTOCOLS <==> ProcessHandshake(c, a).1 == Success
    ensures ProcessHandshake(c, a).1 == Success <==>
      a.validates && a.extensionsParse && a.uriValid && a.accepts && a.processes
  {
    hide Run;
    RunKeepsStatus(c, a.validateScript);
  }

  lemma RespondToErrorKeeps(c: Con, processor: bool, status: HttpStatus, ec: Ec)
    requires Valid(c) && c.internal == ReadHttpRequest
    ensures Valid(WriteHttpResponseError(c.(hasProcessor := processor, status := status), ec))
  {
    hide Valid, WriteHttpResponse, Terminate;
    var d := c.(hasProcessor := processor);
    AdvanceKeeps(c, ReadHttpRequest, processor);
    StatusKeeps(d, status);
    AdvanceKeeps(d.(status := status), ProcessHttpRequest, processor);
    WriteHttpResponseKeeps(d.(status := status, internal := ProcessHttpRequest), ec);
  }

  lemma NotYetSwitched(c: Con)
    requires Valid(c) && c.internal == ReadHttpRequest
    ensures c.status != SWITCHING_PROTOCOLS && !c.isHttp && c.ec != HttpConnectionEnded
  {
  }

  lemma HandleRequestKeeps(c: Con, processor: ProcessorInit, a: Answers)
    requires Valid(c) && c.internal == ReadHttpRequest && c.state == Connecting
    ensures Valid(HandleRequest(c, processor, a))
  {
    hide Valid, WriteHttpResponseError, WriteHttpResponse, ProcessHttp, ProcessHandshake;
    match processor
    case UnknownVersion => RespondToErrorKeeps(c, c.hasProcessor, BAD_REQUEST, InvalidVersion);
    case NoProcessor => RespondToErrorKeeps(c, false, BAD_REQUEST, UnsupportedVersion);
    case NotWebsocket =>
      var d := c.(internal := ProcessHttpRequest);
      NotYetSwitched(c);
      AdvanceKeeps(c, ProcessHttpRequest, c.hasProcessor);
      ProcessHttpKeeps(d, a);
      WriteHttpResponseKeeps(ProcessHttp(d, a).0, ProcessHttp(d, a).1);
    case Supported(hybi00, key3) =>
      NotYetSwitched(c);
      RespondToErrorKeeps(c, true, INTERNAL_SERVER_ERROR, ShortKey3);
      var d := c.(hasProcessor := true, internal := ProcessHttpRequest);
      AdvanceKeeps(c, ProcessHttpRequest, true);
      ProcessHandshakeKeeps(d, a);
      WriteHttpResponseKeeps(ProcessHandshake(d, a).0, ProcessHandshake(d, a).1);
  }

  lemma HandleReadHandshakeKeeps(c: Con, ec: OuterEc, bytes: HandshakeBytes)
    requires Valid(c)
    ensures Valid(HandleReadHandshake(c, ec, bytes))
  {
    hide Valid, Terminate, Expect, HandleRequest, WriteHttpResponseError;
    TerminateKeeps(c, InvalidState);
    TerminateKeeps(c, General);
    TerminateKeeps(c, ec);
    if Check(c, ec, ReadHttpRequest).Proceed? {
      match bytes
      case ParseFailed(status) => RespondToErrorKeeps(c, c.hasProcessor, status, HttpParseError);
      case NeedMore => ExpectKeeps(c, HandshakeRead);
      case Request(processor, answers) => HandleRequestKeeps(c, processor, answers);
      case _ =>
    }
  }

  /** The session opens. */
  lemma OpenSessionKeeps(c: Con)
    requires Valid(c) && c.state == Connecting && c.hasProcessor && !c.isHttp
    ensures Valid(OpenSession(c))
  {
    hide P.Valid;
  }

  lemma OpenedKeeps(c: Con, script: seq<Api>)
    requires Valid(c) && c.state == Connecting && c.hasProcessor && !c.isHttp
    ensures Valid(Opened(c, script))
  {
    hide Valid, Run, OpenSession;
    OpenSessionKeeps(c);
    RunKeeps(OpenSession(c), script);
  }

  lemma HttpEndKeeps(c: Con)
    requires Valid(c) && c.isHttp
    ensures Valid(c.(ec := HttpConnectionEnded))
  {
    hide P.Valid;
  }

  lemma ProcessorPresent(c: Con)
    requires Valid(c)
    ensures c.status == SWITCHING_PROTOCOLS || c.internal == ProcessConnection || c.internal == ReadHttpResponse ==>
        c.hasProcessor && !c.isHttp
    ensures c.ec == HttpConnectionEnded ==> c.isHttp
  {
  }

  lemma CancelTimerFrame(c: Con)
    ensures var d := CancelTimer(c);
      d.state == c.state && d.status == c.status && d.hasProcessor == c.hasProcessor && d.isHttp == c.isHttp
          && d.ec == c.ec
  {
  }

  lemma HandleWriteHttpResponseKeeps(c: Con, ec: OuterEc, script: seq<Api>, incoming: seq<Incoming>)
    requires Valid(c)
    ensures Valid(HandleWriteHttpResponse(c, ec, script, incoming))
  {
    hide Valid, Terminate, CancelTimer, Opened, HandleReadFrame;
    ProcessorPresent(c);
    TerminateKeeps(c, InvalidState);
    TerminateKeeps(c, ec);
    if Check(c, ec, ProcessHttpRequest).Proceed? {
      var d := CancelTimer(c);
      CancelTimerKeeps(c);
      CancelTimerFrame(c);
      if d.status != SWITCHING_PROTOCOLS {
        if d.isHttp {
          HttpEndKeeps(d);
          TerminateKeeps(d.(ec := HttpConnectionEnded), HttpConnectionEnded);
        } else {
          TerminateKeeps(d, d.ec);
        }
      } else {
        OpenedKeeps(d, script);
        HandleReadFrameKeeps(Opened(d, script), Success, incoming);
      }
    }
  }

  lemma HandleSendHttpRequestKeeps(c: Con, ec: OuterEc)
    requires Valid(c) && c.hasProcessor && !c.config.isServer
    ensures Valid(HandleSendHttpRequest(c, ec))
  {
    hide Valid, Terminate, Expect;
    TerminateKeeps(c, InvalidState);
    TerminateKeeps(c, ec);
    if Check(c, ec, WriteHttpRequest).Proceed? {
      AdvanceKeeps(c, ReadHttpResponse, true);
      RequestSentKeeps(c.(internal := ReadHttpResponse), HttpResponseRead);
    }
  }

  /** The response that makes a client terminate the connection and then open it all the same. */
  predicate NegotiationFails(c: Con, ec: Ec, bytes: ResponseBytes) {
    && Check(c, ec, ReadHttpResponse).Proceed?
    && bytes.Response? && bytes.validates && !bytes.negotiates
  }

  lemma HandleReadHttpResponseKeeps(c: Con, ec: OuterEc, bytes: ResponseBytes)
    requires Valid(c) && c.hasProcessor && !c.config.isServer && !NegotiationFails(c, ec, bytes)
    ensures Valid(HandleReadHttpResponse(c, ec, bytes))
  {
    hide Valid, Terminate, Expect, CancelTimer, Opened, HandleReadFrame;
    TerminateKeeps(c, InvalidState);
    TerminateKeeps(c, General);
    TerminateKeeps(c, ec);
    if Check(c, ec, ReadHttpResponse).Proceed? {
      match bytes
      case BadResponse =>
      case MoreResponse => RequestSentKeeps(c, HttpResponseRead);
      case Response(validates, negotiates, script, incoming) =>
        var d := CancelTimer(c);
        ProcessorPresent(c);
        CancelTimerKeeps(c);
        CancelTimerFrame(c);
        TerminateKeeps(d, ProcessorFailure(3));
        if validates {
          OpenedKeeps(d, script);
          HandleReadFrameKeeps(Opened(d, script), Success, incoming);
        }
    }
  }

  // ---------------------------------------------------------------- writes, timers and termination

  /** A change of the pipeline alone keeps the rest. */
  lemma PipeKeeps(c: Con, p: P.Pipeline)
    requires Valid(c) && P.Valid(p) && P.AtRest(p)
    requires p.history.pushed == c.pipe.history.pushed && p.threads.stopped <= c.pipe.threads.stopped
    requires HasTerminal(c.pipe.current) || HasTerminal(c.pipe.queue) ==> HasTerminal(p.current) || HasTerminal(p.queue)
    ensures Valid(c.(pipe := p))
  {
    hide P.Valid, P.AtRest, HasTerminal, CloseFramesLast;
  }

  lemma WriteFrameKeeps(c: Con)
    requires Valid(c) && c.pipe.threads.dispatched > 0
    ensures Valid(WriteFrame(c))
  {
    P.WriteNowEffect(c.pipe);
    TerminalMoves(c.pipe.current, c.pipe.queue, P.Taken(c.pipe));
    hide Valid, P.Valid, P.AtRest, P.WriteNow, P.Taken, HasTerminal;
    PipeKeeps(c, P.WriteNow(c.pipe));
  }

  lemma TerminalMoves(current: seq<P.Message>, queue: seq<P.Message>, n: nat)
    requires n <= |queue|
    ensures HasTerminal(current) || HasTerminal(queue) ==> HasTerminal(current + queue[..n]) || HasTerminal(queue[n..])
  {
    if i :| 0 <= i < |current| && current[i].terminal {
      assert (current + queue[..n])[i].terminal;
    }
    if i :| 0 <= i < |queue| && queue[i].terminal {
      assert i < n ==> (current + queue[..n])[|current| + i].terminal;
      assert i >= n ==> queue[n..][i - n].terminal;
    }
  }

  /** A completed write either goes on or, failed or terminal, ends the connection. */
  lemma HandleWriteFrameKeeps(c: Con, ec: OuterEc)
    requires Valid(c) && c.pipe.threads.writing > 0
    ensures c.pipe.current != [] && Valid(HandleWriteFrame(c, ec))
  {
    P.FinishNowEffect(c.pipe, ec != Success);
    var q := P.FinishNow(c.pipe, ec != Success);
    if ec != Success || P.EndsTerminal(c.pipe.current) {
      TerminateWithPipe(c, q, ec);
    } else {
      OnlyLastTerminal(c.pipe.current);
      PipeKeeps(c, q);
    }
    hide Valid, P.Valid, P.AtRest, P.FinishNow, Terminate;
  }

  lemma TerminateWithPipe(c: Con, p: P.Pipeline, ec: OuterEc)
    requires Valid(c) && P.Valid(p) && P.AtRest(p) && p.history.pushed == c.pipe.history.pushed
    ensures Valid(Terminate(c.(pipe := p), ec))
  {
    var d := c.(pipe := p);
    assert Session(d) && Handshaken(d);
    TerminateSession(d, ec);
    TerminateHandshaken(d, ec);
    TerminateTimed(d, ec);
    TerminateWriting(d, ec);
    hide Session, Handshaken, Writing, Timed, Terminate;
  }

  lemma OnlyLastTerminal(ms: seq<P.Message>)
    requires P.TerminalOnlyLast(ms) && !P.EndsTerminal(ms)
    ensures !HasTerminal(ms)
  {
  }

  lemma ExpireKeeps(c: Con, id: nat)
    requires Valid(c) && Enabled(c, ExpireStep(id))
    ensures Valid(Next(c, ExpireStep(id)))
  {
    hide P.Valid;
  }

  /** A timer reports, and its report may well be the last thing a closing session was waiting for. */
  lemma HandleTimerKeeps(c: Con, id: nat)
    requires Valid(c) && Enabled(c, TimerStep(id))
    ensures Valid(HandleTimer(c, id))
  {
    var t := c.world.timers[id];
    var d := c.(world := c.world.(timers := c.world.timers[id := t.(phase := Done)]));
    TimersReplaced(c, d);
    if t.phase == Expired {
      hide Session, Handshaken, Timed, Valid;
      var ec := if t.kind == OpenTimer then OpenHandshakeTimeout else CloseHandshakeTimeout;
      TerminateParts(d, ec);
      hide Terminate;
    } else {
      hide P.Valid;
    }
  }

  lemma TerminateParts(c: Con, ec: OuterEc)
    requires Session(c) && Handshaken(c) && Writing(c)
    ensures Valid(Terminate(c, ec))
  {
    TerminateSession(c, ec);
    TerminateHandshaken(c, ec);
    TerminateTimed(c, ec);
    TerminateWriting(c, ec);
    hide Session, Handshaken, Writing, Timed;
  }

  lemma TimersReplaced(c: Con, d: Con)
    requires Valid(c) && d == c.(world := c.world.(timers := d.world.timers))
    ensures Session(d) && Handshaken(d) && Writing(d)
  {
    hide P.Valid;
  }

  lemma HandleTerminateKeeps(c: Con, status: TerminateStatus, script: seq<Api>)
    requires Valid(c) && ShutdownDone(status) in c.world.events
    ensures Valid(HandleTerminate(Received(c, ShutdownDone(status)), status, script))
  {
    TerminatedKeeps(c, status);
    hide Valid, Run, Terminated;
    RunKeeps(Terminated(Received(c, ShutdownDone(status)), status), script);
  }

  lemma TerminatedKeeps(c: Con, status: TerminateStatus)
    requires Valid(c) && ShutdownDone(status) in c.world.events
    ensures Valid(Terminated(Received(c, ShutdownDone(status)), status))
  {
    hide P.Valid;
  }

  // ---------------------------------------------------------------- the history only grows

  /** The history of session states is extended; the configuration, and whether to read, are the same. */
  ghost predicate Grows(c: Con, d: Con) {
    c.world.trail <= d.world.trail && c.config == d.config && c.readFlag == d.readFlag
  }

  predicate SameHistory(c: Con, d: Con) {
    c.world.trail == d.world.trail && c.config == d.config && c.readFlag == d.readFlag
  }

  lemma GrowsFrom(c: Con, d: Con, e: Con)
    requires SameHistory(c, d)
    ensures Grows(c, d) && (Grows(d, e) ==> Grows(c, e))
  {
  }

  lemma GrowsFurther(c: Con, d: Con, e: Con)
    requires Grows(c, d)
    ensures SameHistory(d, e) || Grows(d, e) ==> Grows(c, e)
  {
  }

  lemma TerminateGrows(c: Con, ec: Ec)
    ensures Grows(c, Terminate(c, ec))
  {
    hide CancelIn;
  }

  lemma CallGrows(c: Con, a: Api)
    ensures Grows(c, Call(c, a))
  {
    match a {
      case Close(code, prepared) => SendCloseFrameGrows(c, code, false, Terminal(code), prepared);
      case TerminateCall(ec) => TerminateGrows(c, ec);
      case SendHttpResponse => WriteHttpResponseFrame(c.(httpState := HttpBodyWritten), Success);
      case _ =>
    }
    hide SendCloseFrame, Terminate, WriteHttpResponse, P.PushNow;
  }

  lemma {:induction false} RunGrows(c: Con, script: seq<Api>)
    ensures Grows(c, Run(c, script))
    decreases |script|
  {
    hide Call;
    if script != [] {
      CallGrows(c, script[0]);
      RunGrows(Call(c, script[0]), script[1..]);
    }
  }

  lemma SendCloseFrameGrows(c: Con, code: Code, ack: bool, terminal: bool, prepared: Prepared)
    ensures Grows(c, SendCloseFrame(c, code, ack, terminal, prepared).0)
  {
    hide P.PushNow;
  }

  lemma ProcessCloseGrows(c: Con, payload: seq<byte>, ack: Prepared)
    ensures Grows(c, ProcessClose(c, payload, ack))
  {
    var d := c.(remoteCode := CodeOf(payload).0);
    SendCloseFrameGrows(d, BLANK, true, d.config.isServer, ack);
    SendCloseFrameGrows(d, PROTOCOL_ERROR, true, d.config.isServer, ack);
    hide SendCloseFrame, CodeOf, ReasonOf, CancelIn;
  }

  lemma ProcessOneGrows(c: Con, f: Incoming)
    requires !f.ConsumeFailed?
    ensures Grows(c, ProcessOne(c, f))
  {
    match f {
      case DataMessage(message, script) =>
        var calls := c.world.calls.(messagesIn := c.world.calls.messagesIn + [Delivery(c.state, message)]);
        RunGrows(c.(world := c.world.(calls := calls)), script);
      case PingFrame(script, reply, pong) =>
        RunGrows(c, script);
        CallGrows(Run(c, script), PongCall(pong));
      case PongFrame(script) => RunGrows(c, script);
      case CloseFrame(payload, ack) => ProcessCloseGrows(c, payload, ack);
      case _ =>
    }
    hide ProcessClose, Run, P.PushNow;
  }

  lemma FailConsumeGrows(c: Con, f: Incoming)
    requires f.ConsumeFailed?
    ensures Grows(c, FailConsume(c, f))
  {
    SendCloseFrameGrows(c, f.closeCode, false, Terminal(f.closeCode), f.close);
    hide SendCloseFrame, CancelIn;
  }

  lemma {:induction false} ProcessIncomingGrows(c: Con, incoming: seq<Incoming>)
    ensures Grows(c, ProcessIncoming(c, incoming))
    decreases |incoming|
  {
    hide ProcessOne, FailConsume;
    if incoming != [] {
      if incoming[0].ConsumeFailed? {
        FailConsumeGrows(c, incoming[0]);
      } else {
        ProcessOneGrows(c, incoming[0]);
        ProcessIncomingGrows(ProcessOne(c, incoming[0]), incoming[1..]);
      }
    }
  }

  lemma HandleReadFrameGrows(c: Con, ec: Ec, incoming: seq<Incoming>)
    ensures Grows(c, HandleReadFrame(c, ec, incoming))
  {
    hide ProcessIncoming, Terminate, Grows;
    ProcessIncomingGrows(c, incoming);
    TerminateGrows(c, Success);
    TerminateGrows(c, InvalidState);
    TerminateGrows(c, ec);
    GrowsFrom(c, c, c);
  }

  lemma WriteHttpResponseFrame(c: Con, ec: Ec)
    ensures var d := WriteHttpResponse(c, ec); SameHistory(c, d) && d.pipe == c.pipe && d.state == c.state
  {
    RespondWithFrame(c, INTERNAL_SERVER_ERROR, General);
    RespondWithFrame(c, c.status, ec);
    hide RespondWith;
  }

  lemma RespondWithFrame(c: Con, status: nat, ec: Ec)
    ensures var d := RespondWith(c, status, ec); SameHistory(c, d) && d.pipe == c.pipe && d.state == c.state
  {
  }

  lemma {:induction false} RunHttpGrows(c: Con, script: seq<HttpApi>)
    ensures Grows(c, RunHttp(c, script))
    decreases |script|
  {
    hide Call, CancelIn, Grows;
    if script == [] {
      GrowsFrom(c, c, c);
    } else {
      var d := if script[0].Defer? then DeferResponse(c) else Call(c, script[0].call);
      if script[0].Defer? {
        GrowsFrom(c, d, d);
      } else {
        CallGrows(c, script[0].call);
      }
      RunHttpGrows(d, script[1..]);
      GrowsFurther(c, d, RunHttp(d, script[1..]));
    }
  }

  lemma WriteHttpResponseErrorGrows(c: Con, status: nat, processor: bool, ec: Ec)
    ensures Grows(c, WriteHttpResponseError(c.(status := status, hasProcessor := processor), ec))
  {
    var d := c.(status := status, hasProcessor := processor);
    TerminateGrows(d, InvalidState);
    var e := d.(internal := ProcessHttpRequest);
    WriteHttpResponseFrame(e, ec);
    hide Terminate, WriteHttpResponse, Grows;
    GrowsFrom(c, WriteHttpResponse(e, ec), e);
    GrowsFrom(c, d, Terminate(d, InvalidState));
  }

  lemma ProcessHttpGrows(c: Con, a: Answers)
    ensures Grows(c, ProcessHttp(c, a).0)
  {
    var d := HttpRequested(c);
    RunHttpGrows(d, a.httpScript);
    hide RunHttp, Grows;
    GrowsFrom(c, d, RunHttp(d, a.httpScript));
    GrowsFrom(c, c.(status := BAD_REQUEST), c);
    GrowsFrom(c, c.(status := UPGRADE_REQUIRED), c);
  }

  lemma ProcessHandshakeGrows(c: Con, a: Answers)
    ensures Grows(c, ProcessHandshake(c, a).0)
  {
    var d := Run(c, a.validateScript);
    RunGrows(c, a.validateScript);
    hide Run, Grows;
    GrowsFrom(c, c.(status := BAD_REQUEST), c);
    GrowsFurther(c, d, ProcessHandshake(c, a).0);
  }

  lemma HandleRequestGrows(c: Con, processor: ProcessorInit, a: Answers)
    ensures Grows(c, HandleRequest(c, processor, a))
  {
    hide WriteHttpResponseError, ProcessHttp, ProcessHandshake, WriteHttpResponse, Grows;
    match processor
    case UnknownVersion => WriteHttpResponseErrorGrows(c, BAD_REQUEST, c.hasProcessor, InvalidVersion);
    case NoProcessor => WriteHttpResponseErrorGrows(c, BAD_REQUEST, false, UnsupportedVersion);
    case NotWebsocket =>
      var d := c.(internal := ProcessHttpRequest);
      var (e, ec) := ProcessHttp(d, a);
      ProcessHttpGrows(d, a);
      GrowsFrom(c, d, e);
      WriteHttpResponseFrame(e, ec);
      GrowsFurther(c, e, WriteHttpResponse(e, ec));
    case Supported(hybi00, key3) =>
      WriteHttpResponseErrorGrows(c, INTERNAL_SERVER_ERROR, true, ShortKey3);
      var d := c.(hasProcessor := true, internal := ProcessHttpRequest);
      var (e, ec) := ProcessHandshake(d, a);
      ProcessHandshakeGrows(d, a);
      GrowsFrom(c, d, e);
      WriteHttpResponseFrame(e, ec);
      GrowsFurther(c, e, WriteHttpResponse(e, ec));
  }

  lemma HandleReadHandshakeGrows(c: Con, ec: Ec, bytes: HandshakeBytes)
    ensures Grows(c, HandleReadHandshake(c, ec, bytes))
  {
    hide Terminate, HandleRequest, WriteHttpResponseError, Grows;
    TerminateGrows(c, InvalidState);
    TerminateGrows(c, General);
    TerminateGrows(c, ec);
    GrowsFrom(c, c, c);
    GrowsFrom(c, Expect(c, HandshakeRead), c);
    match bytes
    case ParseFailed(status) => WriteHttpResponseErrorGrows(c, status, c.hasProcessor, HttpParseError);
    case Request(processor, answers) => HandleRequestGrows(c, processor, answers);
    case _ =>
  }

  lemma OpenedGrows(c: Con, script: seq<Api>, incoming: seq<Incoming>)
    ensures Grows(c, HandleReadFrame(Opened(c, script), Success, incoming))
  {
    RunGrows(OpenSession(c), script);
    HandleReadFrameGrows(Opened(c, script), Success, incoming);
    hide Run, HandleReadFrame;
  }

  lemma HandleWriteHttpResponseGrows(c: Con, ec: Ec, script: seq<Api>, incoming: seq<Incoming>)
    ensures Grows(c, HandleWriteHttpResponse(c, ec, script, incoming))
  {
    hide Terminate, Opened, HandleReadFrame, CancelIn, Grows;
    var d := CancelTimer(c);
    var e := d.(ec := HttpConnectionEnded);
    TerminateGrows(c, InvalidState);
    TerminateGrows(c, ec);
    TerminateGrows(d, d.ec);
    TerminateGrows(e, HttpConnectionEnded);
    OpenedGrows(d, script, incoming);
    GrowsFrom(c, d, HandleReadFrame(Opened(d, script), Success, incoming));
    GrowsFrom(c, d, Terminate(d, d.ec));
    GrowsFrom(c, e, Terminate(e, HttpConnectionEnded));
    GrowsFrom(c, c, c);
  }

  lemma ResponseGrows(c: Con, negotiates: bool, script: seq<Api>, incoming: seq<Incoming>)
    ensures var d := if negotiates then c else Terminate(c, ExtensionNegotiationFailed);
      Grows(c, HandleReadFrame(Opened(d, script), Success, incoming))
  {
    hide Terminate, Opened, HandleReadFrame, Grows;
    var d := if negotiates then c else Terminate(c, ExtensionNegotiationFailed);
    TerminateGrows(c, ExtensionNegotiationFailed);
    OpenedGrows(d, script, incoming);
    GrowsFrom(c, c, c);
    GrowsFurther(c, d, HandleReadFrame(Opened(d, script), Success, incoming));
  }

  lemma HandleReadHttpResponseGrows(c: Con, ec: Ec, bytes: ResponseBytes)
    ensures Grows(c, HandleReadHttpResponse(c, ec, bytes))
  {
    hide Terminate, Opened, HandleReadFrame, CancelIn, Grows;
    var d := CancelTimer(c);
    TerminateGrows(c, InvalidState);
    TerminateGrows(c, General);
    TerminateGrows(c, ec);
    TerminateGrows(d, ProcessorFailure(3));
    GrowsFrom(c, c, c);
    GrowsFrom(c, Expect(c, HttpResponseRead), c);
    GrowsFrom(c, d, Terminate(d, ProcessorFailure(3)));
    if bytes.Response? {
      ResponseGrows(d, bytes.negotiates, bytes.script, bytes.incoming);
      GrowsFrom(c, d, HandleReadHttpResponse(c, ec, bytes));
    }
  }

  lemma HandshakeStepGrows(c: Con, s: Step)
    requires Enabled(c, s)
    requires s.HandshakeReadStep? || s.HttpResponseWrittenStep? || s.HttpRequestWrittenStep? || s.HttpResponseReadStep?
    ensures Grows(c, Next(c, s))
  {
    hide Terminate, HandleReadHandshake, HandleWriteHttpResponse, HandleReadHttpResponse;
    match s
    case HandshakeReadStep(ec, handshake) => HandleReadHandshakeGrows(Received(c, HandshakeRead), ec, handshake);
    case HttpResponseWrittenStep(ec, script, incoming) =>
      HandleWriteHttpResponseGrows(Received(c, HttpResponseWritten), ec, script, incoming);
    case HttpRequestWrittenStep(ec) =>
      TerminateGrows(Received(c, HttpRequestWritten), ec);
      TerminateGrows(Received(c, HttpRequestWritten), InvalidState);
    case HttpResponseReadStep(ec, response) =>
      HandleReadHttpResponseGrows(Received(c, HttpResponseRead), ec, response);
  }

  lemma HandleTransportInitGrows(c: Con, ec: Ec, processor: bool, request: bool)
    ensures Grows(c, HandleTransportInit(c, ec, processor, request))
  {
    TerminateGrows(c, InvalidState);
    TerminateGrows(c, ec);
    hide Terminate;
  }

  lemma HandleTimerGrows(c: Con, id: nat)
    requires id < |c.world.timers|
    ensures Grows(c, HandleTimer(c, id))
  {
    var d := c.(world := c.world.(timers := c.world.timers[id := c.world.timers[id].(phase := Done)]));
    TerminateGrows(d, OpenHandshakeTimeout);
    TerminateGrows(d, CloseHandshakeTimeout);
    hide Terminate;
  }

  lemma HandleWriteFrameGrows(c: Con, ec: Ec)
    requires c.pipe.threads.writing > 0 && c.pipe.current != []
    ensures Grows(c, HandleWriteFrame(c, ec))
  {
    TerminateGrows(c.(pipe := P.FinishNow(c.pipe, ec != Success)), ec);
    hide Terminate, P.FinishNow;
  }

  /** No step rewrites the history of the session, or its configuration. */
  lemma NextGrows(c: Con, s: Step)
    requires Enabled(c, s) && Defined(c, s)
    ensures var d := Next(c, s);
      && c.world.trail <= d.world.trail && d.config == c.config
      && d.readFlag == (if s.PauseStep? then false else if s.ResumeStep? then true else c.readFlag)
  {
    if !s.PauseStep? && !s.ResumeStep? {
      OtherStepGrows(c, s);
      hide Next;
    }
  }

  lemma OtherStepGrows(c: Con, s: Step)
    requires Enabled(c, s) && Defined(c, s) && !s.PauseStep? && !s.ResumeStep?
    ensures Grows(c, Next(c, s))
  {
    hide Call, Terminate, Run, HandleTransportInit, HandleReadFrame, HandleWriteFrame, HandleTimer, P.WriteNow, Grows,
        HandleReadHandshake, HandleWriteHttpResponse, HandleReadHttpResponse, HandleSendHttpRequest;
    match s {
      case CallStep(call) => CallGrows(c, call);
      case StartStep =>
        TerminateGrows(c, InvalidState);
        GrowsFrom(c, Expect(c.(internal := TransportInit), TransportReady), c);
      case TransportReadyStep(ec, processor, request) =>
        HandleTransportInitGrows(Received(c, TransportReady), ec, processor, request);
        GrowsFrom(c, Received(c, TransportReady), Next(c, s));
      case FrameReadStep(ec, incoming) =>
        HandleReadFrameGrows(Received(c, FrameRead), ec, incoming);
        GrowsFrom(c, Received(c, FrameRead), Next(c, s));
      case ShutdownStep(status, script) =>
        var d := Terminated(Received(c, ShutdownDone(status)), status);
        RunGrows(d, script);
        GrowsFrom(c, d, Next(c, s));
      case WriteDoneStep(ec) => HandleWriteFrameGrows(c, ec);
      case TimerStep(id) => HandleTimerGrows(c, id);
      case WriteFrameStep => GrowsFrom(c, Next(c, s), c);
      case ExpireStep(_) => GrowsFrom(c, Next(c, s), c);
      case _ => HandshakeStepGrows(c, s);
    }
  }

  /** After a failed negotiation the session has gone from closed back to open, for good. */
  lemma NegotiationFailureReopens(c: Con, ec: OuterEc, bytes: ResponseBytes)
    requires NegotiationFails(c, ec, bytes)
    ensures !Ordered(HandleReadHttpResponse(c, ec, bytes).world.trail)
  {
    var d := Terminate(CancelTimer(c), ExtensionNegotiationFailed);
    var o := OpenSession(d);
    var n := |c.world.trail|;
    assert o.world.trail[n] == Closed && o.world.trail[n + 1] == Open;
    var p := Opened(d, bytes.script);
    RunGrows(o, bytes.script);
    HandleReadFrameGrows(p, Success, bytes.incoming);
    var q := HandleReadFrame(p, Success, bytes.incoming);
    assert q.world.trail[n] == Closed && q.world.trail[n + 1] == Open;
    assert HandleReadHttpResponse(c, ec, bytes) == q by {
      hide Terminate, CancelTimer, Opened, HandleReadFrame;
    }
    hide *;
    assert Rank(Closed) == 3 && Rank(Open) == 1;
  }

  // ---------------------------------------------------------------- every step, every run

  /** The one kind of step that breaks the life cycle: a client reads a response that validates and whose
    * extensions cannot be negotiated. */
  predicate Reopens(c: Con, s: Step) {
    s.HttpResponseReadStep? && NegotiationFails(c, s.ec, s.response)
  }

  lemma HandshakeStepKeeps(c: Con, s: Step)
    requires Valid(c) && Enabled(c, s) && !Reopens(c, s)
    requires s.HandshakeReadStep? || s.HttpResponseWrittenStep? || s.HttpRequestWrittenStep? || s.HttpResponseReadStep?
    ensures Valid(Next(c, s))
  {
    PendingHandshake(c);
    hide Valid, Check, Received, HandleReadHandshake, HandleWriteHttpResponse, HandleSendHttpRequest,
        HandleReadHttpResponse;
    match s {
      case HandshakeReadStep(ec, handshake) =>
        ReceivedKeeps(c, HandshakeRead);
        HandleReadHandshakeKeeps(Received(c, HandshakeRead), ec, handshake);
      case HttpResponseWrittenStep(ec, script, incoming) =>
        ReceivedKeeps(c, HttpResponseWritten);
        HandleWriteHttpResponseKeeps(Received(c, HttpResponseWritten), ec, script, incoming);
      case HttpRequestWrittenStep(ec) =>
        ReceivedKeeps(c, HttpRequestWritten);
        ReceivedFrame(c, HttpRequestWritten);
        HandleSendHttpRequestKeeps(Received(c, HttpRequestWritten), ec);
      case HttpResponseReadStep(ec, response) =>
        ReceivedKeeps(c, HttpResponseRead);
        ReceivedFrame(c, HttpResponseRead);
        HandleReadHttpResponseKeeps(Received(c, HttpResponseRead), ec, response);
    }
  }

  lemma ReceivedFrame(c: Con, e: Event)
    ensures Received(c, e).hasProcessor == c.hasProcessor && Received(c, e).config == c.config
    ensures forall ec, expected :: Check(Received(c, e), ec, expected) == Check(c, ec, expected)
  {
  }

  lemma PendingHandshake(c: Con)
    requires Valid(c)
    ensures HttpRequestWritten in c.world.events || HttpResponseRead in c.world.events ==>
      c.hasProcessor && !c.config.isServer
  {
  }

  lemma ReadFlagKeeps(c: Con, flag: bool)
    requires Valid(c)
    ensures Valid(c.(readFlag := flag))
  {
    hide P.Valid;
  }

  lemma TransportStepKeeps(c: Con, s: Step)
    requires Valid(c) && Enabled(c, s)
    requires s.TransportReadyStep? || s.FrameReadStep? || s.PauseStep? || s.ResumeStep?
    ensures Valid(Next(c, s))
  {
    hide Valid, HandleTransportInit, HandleReadFrame, ReadFrame, Received;
    match s {
      case TransportReadyStep(ec, processor, request) =>
        ReceivedKeeps(c, TransportReady);
        HandleTransportInitKeeps(Received(c, TransportReady), ec, processor, request);
      case FrameReadStep(ec, incoming) =>
        ReceivedKeeps(c, FrameRead);
        HandleReadFrameKeeps(Received(c, FrameRead), ec, incoming);
      case PauseStep =>
        ReceivedKeeps(c, PauseDispatched);
        ReadFlagKeeps(Received(c, PauseDispatched), false);
      case ResumeStep =>
        ReceivedKeeps(c, ResumeDispatched);
        ReadFlagKeeps(Received(c, ResumeDispatched), true);
        ReadFrameKeeps(Received(c, ResumeDispatched).(readFlag := true));
    }
  }

  lemma OtherStepKeeps(c: Con, s: Step)
    requires Valid(c) && Enabled(c, s) && Defined(c, s)
    requires s.CallStep? || s.StartStep? || s.ShutdownStep? || s.WriteFrameStep?
          || s.WriteDoneStep? || s.ExpireStep? || s.TimerStep?
    ensures Valid(Next(c, s))
  {
    hide Valid, Call, Start, Terminate, HandleTerminate, WriteFrame, HandleWriteFrame, HandleTimer, Received;
    match s {
      case CallStep(call) => CallKeeps(c, call);
      case StartStep => StartKeeps(c);
      case ShutdownStep(status, script) => HandleTerminateKeeps(c, status, script);
      case WriteFrameStep => WriteFrameKeeps(c);
      case WriteDoneStep(ec) => HandleWriteFrameKeeps(c, ec);
      case ExpireStep(id) => ExpireKeeps(c, id);
      case TimerStep(id) => HandleTimerKeeps(c, id);
    }
  }

  /** From a valid state every step is defined, and it leads to a valid state exactly when it is not a
    * failed extension negotiation. */
  lemma NextValid(c: Con, s: Step)
    requires Valid(c) && Enabled(c, s)
    ensures Defined(c, s)
    ensures Valid(Next(c, s)) <==> !Reopens(c, s)
    ensures Reopens(c, s) ==> !Ordered(Next(c, s).world.trail)
  {
    if s.WriteDoneStep? {
      HandleWriteFrameKeeps(c, s.ec);
    }
    if Reopens(c, s) {
      NegotiationFailureReopens(Received(c, HttpResponseRead), s.ec, s.response);
      InvalidUnlessOrdered(Next(c, s));
    } else if s.HandshakeReadStep? || s.HttpResponseWrittenStep?
              || s.HttpRequestWrittenStep? || s.HttpResponseReadStep? {
      HandshakeStepKeeps(c, s);
    } else if s.TransportReadyStep? || s.FrameReadStep? || s.PauseStep? || s.ResumeStep? {
      TransportStepKeeps(c, s);
    } else {
      OtherStepKeeps(c, s);
    }
    hide Valid, HandleReadHttpResponse, Ordered;
  }

  lemma InvalidUnlessOrdered(c: Con)
    requires !Ordered(c.world.trail)
    ensures !Valid(c)
  {
  }

  /** A run of a connection.  After a step that is not defined anything may follow. */
  ghost predicate RunOf(trace: seq<Con>, steps: seq<Step>) {
    && |trace| == |steps| + 1
    && forall i {:trigger steps[i]} :: 0 <= i < |steps| ==>
         && Enabled(trace[i], steps[i])
         && (Defined(trace[i], steps[i]) ==> trace[i + 1] == Next(trace[i], steps[i]))
  }

  lemma {:induction false} RunsValid(trace: seq<Con>, steps: seq<Step>, i: nat)
    requires RunOf(trace, steps) && Valid(trace[0]) && i < |trace|
    requires forall k :: 0 <= k < i ==> !Reopens(trace[k], steps[k])
    ensures Valid(trace[i])
  {
    hide Valid, Next, Enabled, Defined, Reopens;
    if i > 0 {
      RunsValid(trace, steps, i - 1);
      NextValid(trace[i - 1], steps[i - 1]);
    }
  }

  /** Over whole runs: every state of a run is valid exactly when no step of it is a failed extension
    * negotiation.  A server never takes such a step. */
  lemma RunsSafe(trace: seq<Con>, steps: seq<Step>)
    requires RunOf(trace, steps) && Valid(trace[0])
    ensures (forall i :: 0 <= i < |trace| ==> Valid(trace[i]))
       <==> (forall k :: 0 <= k < |steps| ==> !Reopens(trace[k], steps[k]))
  {
    hide Valid, Next, Enabled, Defined, Reopens;
    if forall k :: 0 <= k < |steps| ==> !Reopens(trace[k], steps[k]) {
      forall i | 0 <= i < |trace| ensures Valid(trace[i]) {
        RunsValid(trace, steps, i);
      }
    } else if forall i :: 0 <= i < |trace| ==> Valid(trace[i]) {
      var k :| 0 <= k < |steps| && Reopens(trace[k], steps[k]);
      NextValid(trace[k], steps[k]);
      assert Valid(trace[k + 1]);
    }
  }

  /** A server is safe without further conditions: every state of every run of it is valid, and the
    * history of its session is only ever extended. */
  lemma {:induction false} ServerRunsSafe(trace: seq<Con>, steps: seq<Step>, i: nat)
    requires RunOf(trace, steps) && Valid(trace[0]) && trace[0].config.isServer && i < |trace|
    ensures Valid(trace[i])
    ensures trace[0].world.trail <= trace[i].world.trail && trace[i].config == trace[0].config
    ensures i < |steps| ==> Defined(trace[i], steps[i])
  {
    hide Valid, Next, Enabled, Defined, Reopens;
    if i > 0 {
      ServerRunsSafe(trace, steps, i - 1);
      ServersNeverReopen(trace[i - 1], steps[i - 1]);
      NextValid(trace[i - 1], steps[i - 1]);
      NextGrows(trace[i - 1], steps[i - 1]);
    }
    if i < |steps| {
      NextValid(trace[i], steps[i]);
    }
  }

  lemma ServersNeverReopen(c: Con, s: Step)
    requires Valid(c) && Enabled(c, s) && c.config.isServer
    ensures !Reopens(c, s)
  {
  }

  // ---------------------------------------------------------------- what validity amounts to

  /** When the termination handler has run, exactly one of the open, the fail and the plain HTTP outcome
    * has happened, for an attempt at WebSocket one of the first two; the close handler has run exactly if
    * the open handler has; and nothing is pending that could call any of them again.  What becomes of a
    * plain HTTP request is the subject of `PlainHttp`. */
  lemma ExactlyOnce(c: Con)
    requires Valid(c) && c.world.calls.terminations > 0
    ensures c.state == Closed && c.world.shutdowns == 1 && c.world.calls.terminations == 1
    ensures c.world.calls.opens + c.world.calls.fails + c.world.calls.httpEnds == 1
    ensures c.world.calls.closes == c.world.calls.opens
    ensures c.world.calls.httpRequests == 0 ==> c.world.calls.opens + c.world.calls.fails == 1
    ensures c.world.calls.httpRequests > 0 ==> c.world.calls.opens == 0
    ensures forall status :: ShutdownDone(status) !in c.world.events
  {
    var w := c.world;
    assert w.events[ShutdownDone(Failed)] == 0 && w.events[ShutdownDone(WasOpen)] == 0;
    forall status ensures ShutdownDone(status) !in w.events {
      assert status == Failed || status == WasOpen;
    }
  }

  /** A closing session is never stuck: its close timer can expire, and that closes it. */
  lemma ClosingHasExit(c: Con) returns (id: nat)
    requires Valid(c) && c.state == Closing && c.config.closeTimeout > 0 && c.config.hasTimers
    ensures id < |c.world.timers|
    ensures c.world.timers[id].phase == Armed ==>
      Enabled(c, ExpireStep(id)) && Enabled(Next(c, ExpireStep(id)), TimerStep(id))
      && Next(Next(c, ExpireStep(id)), TimerStep(id)).state == Closed
    ensures c.world.timers[id].phase != Armed ==>
      Enabled(c, TimerStep(id)) && Next(c, TimerStep(id)).state == Closed
  {
    hide Valid, Next;
    CloseTimerLives(c);
    id := c.timer.value;
    if c.world.timers[id].phase == Armed {
      ExpireEffect(c, id);
      TimerCloses(Next(c, ExpireStep(id)), id);
    } else {
      TimerCloses(c, id);
    }
  }

  lemma ExpireEffect(c: Con, id: nat)
    requires id < |c.world.timers| && c.world.timers[id].phase == Armed
    ensures Enabled(c, ExpireStep(id))
    ensures var d := Next(c, ExpireStep(id)); id < |d.world.timers| && d.world.timers[id].phase == Expired
  {
  }

  lemma TimerCloses(c: Con, id: nat)
    requires id < |c.world.timers| && c.world.timers[id].phase == Expired
    ensures Enabled(c, TimerStep(id)) && Next(c, TimerStep(id)).state == Closed
  {
    hide CancelIn, Shutdown;
  }

  lemma CloseTimerLives(c: Con)
    requires Valid(c) && c.state == Closing && c.config.closeTimeout > 0 && c.config.hasTimers
    ensures LiveCloseTimer(c)
  {
    hide P.Valid;
  }

  /** A server that has seen a clean close is closed, or the frame whose write will close it is on its
    * way: in flight, or queued behind a write or a dispatched `write_frame`. */
  lemma CleanServerCloses(c: Con)
    requires Valid(c) && c.config.isServer && c.wasClean && c.state != Closed
    ensures HasTerminal(c.pipe.current) || HasTerminal(c.pipe.queue)
    ensures c.pipe.threads.writing + c.pipe.threads.dispatched > 0
  {
    var p := c.pipe;
    if HasTerminal(p.current) {
      assert p.current != [];
    } else {
      assert p.queue != [];
    }
  }

  predicate IsWrite(s: Step) {
    s.WriteFrameStep? || s.WriteDoneStep?
  }

  lemma WritesPay(c: Con, s: Step)
    requires Valid(c) && Enabled(c, s) && IsWrite(s)
    ensures Defined(c, s) && P.Debt(Next(c, s).pipe) < P.Debt(c.pipe)
    ensures Next(c, s).config == c.config && Next(c, s).wasClean == c.wasClean
  {
    hide Valid, Next, P.Valid, P.AtRest, P.Debt, P.WriteNow, P.FinishNow;
    PipeSound(c);
    P.UndisturbedCallsPayDebt(c.pipe, s.WriteDoneStep? && s.ec != Success);
    WriteStepPipe(c, s);
  }

  lemma PipeSound(c: Con)
    requires Valid(c)
    ensures P.Valid(c.pipe) && P.AtRest(c.pipe)
  {
  }

  lemma WriteStepPipe(c: Con, s: Step)
    requires Enabled(c, s) && Defined(c, s) && IsWrite(s)
    ensures Next(c, s).pipe == (if s.WriteFrameStep? then P.WriteNow(c.pipe) else P.FinishNow(c.pipe, s.ec != Success))
    ensures Next(c, s).config == c.config && Next(c, s).wasClean == c.wasClean
  {
    hide P.WriteNow, P.FinishNow, Shutdown, CancelIn;
  }

  /** And it does close, whatever becomes of its writes and however they are scheduled: until it has closed
    * there is a `write_frame` or a completion to go on with, and there are no more of them than the
    * pipeline owed at the start. */
  lemma {:induction false} CleanServerTerminates(trace: seq<Con>, steps: seq<Step>, n: nat)
    requires RunOf(trace, steps) && n <= |steps|
    requires Valid(trace[0]) && trace[0].config.isServer && trace[0].wasClean
    requires forall k :: 0 <= k < n ==> IsWrite(steps[k])
    ensures Valid(trace[n]) && trace[n].config.isServer && trace[n].wasClean
    ensures n + P.Debt(trace[n].pipe) <= P.Debt(trace[0].pipe)
    ensures trace[n].state == Closed || Enabled(trace[n], WriteFrameStep) || Enabled(trace[n], WriteDoneStep(Success))
  {
    hide Valid, Next, Defined, P.Debt;
    if n > 0 {
      CleanServerTerminates(trace, steps, n - 1);
      WritesPay(trace[n - 1], steps[n - 1]);
      NextValid(trace[n - 1], steps[n - 1]);
    }
    if trace[n].state != Closed {
      CleanServerCloses(trace[n]);
    }
  }

  /** The way a client gets there: the negotiation fails, the connection is shut down and then opens; both
    * the open and the fail handler run, and the session that has failed is open. */
  lemma ClientReopens(config: Config) returns (trace: seq<Con>, steps: seq<Step>)
    requires !config.isServer
    ensures RunOf(trace, steps) && trace[0] == Initial(config)
    ensures trace[|steps|].state == Open
    ensures trace[|steps|].world.calls.opens == 1 && trace[|steps|].world.calls.fails == 1
  {
    hide Next, RunOf;
    trace, steps := ClientAwaits(config);
    ReopenEffect(trace[3]);
    trace, steps := ExtendRun(trace, steps, HttpResponseReadStep(Success, Response(true, false, [], [])));
    FailEffect(trace[4]);
    trace, steps := ExtendRun(trace, steps, ShutdownStep(Failed, []));
  }

  // ---------------------------------------------------------------- how runs begin

  lemma SingletonRun(trace: seq<Con>)
    requires |trace| == 1
    ensures RunOf(trace, [])
  {
  }

  lemma ExtendRun(trace: seq<Con>, steps: seq<Step>, s: Step) returns (trace': seq<Con>, steps': seq<Step>)
    requires RunOf(trace, steps) && |trace| == |steps| + 1
    requires Enabled(trace[|steps|], s) && Defined(trace[|steps|], s)
    ensures RunOf(trace', steps') && |steps'| == |steps| + 1 && |trace'| == |trace| + 1
    ensures trace <= trace' && trace'[|steps'|] == Next(trace[|steps|], s)
    ensures steps <= steps' && steps'[|steps|] == s
  {
    trace', steps' := trace + [Next(trace[|steps|], s)], steps + [s];
    hide Next, Enabled, Defined;
  }

  predicate AtStage(c: Con, internal: InternalState, e: Event) {
    && !c.config.isServer && c.state == Connecting && c.internal == internal && e in c.world.events
    && c.world.calls == Calls(0, 0, 0, 0, 0, 0, [])
  }

  /** A client has sent its request and waits for the response. */
  lemma ClientAwaits(config: Config) returns (trace: seq<Con>, steps: seq<Step>)
    requires !config.isServer
    ensures RunOf(trace, steps) && |trace| == |steps| + 1 == 4 && trace[0] == Initial(config)
    ensures AtStage(trace[3], ReadHttpResponse, HttpResponseRead) && trace[3].config == config
  {
    hide Next, RunOf;
    trace, steps := [Initial(config)], [];
    SingletonRun(trace);
    ClientStarts(config);
    trace, steps := ExtendRun(trace, steps, StartStep);
    ClientReady(trace[1]);
    trace, steps := ExtendRun(trace, steps, TransportReadyStep(Success, true, true));
    RequestWritten(trace[2]);
    trace, steps := ExtendRun(trace, steps, HttpRequestWrittenStep(Success));
  }

  lemma ClientStarts(config: Config)
    requires !config.isServer
    ensures AtStage(Next(Initial(config), StartStep), TransportInit, TransportReady)
    ensures Next(Initial(config), StartStep).config == config
  {
  }

  lemma ClientReady(c: Con)
    requires AtStage(c, TransportInit, TransportReady)
    ensures AtStage(Next(c, TransportReadyStep(Success, true, true)), WriteHttpRequest, HttpRequestWritten)
    ensures Next(c, TransportReadyStep(Success, true, true)).config == c.config
  {
  }

  lemma RequestWritten(c: Con)
    requires AtStage(c, WriteHttpRequest, HttpRequestWritten)
    ensures AtStage(Next(c, HttpRequestWrittenStep(Success)), ReadHttpResponse, HttpResponseRead)
    ensures Next(c, HttpRequestWrittenStep(Success)).config == c.config
  {
  }

  /** A server waits for a request; nothing has happened to the connection yet. */
  predicate Listens(c: Con) {
    && c.config.isServer && c.state == Connecting && c.internal == ReadHttpRequest && HandshakeRead in c.world.events
    && c.status == UNINITIALIZED && !c.isHttp && c.httpState == HttpInit && c.ec == Success
    && c.world.calls == Calls(0, 0, 0, 0, 0, 0, [])
    && (c.config.openTimeout > 0 && c.config.hasTimers ==>
          c.timer == Some(0) && c.world.timers == [Timer(OpenTimer, Armed)])
  }

  lemma ServerListens(config: Config) returns (trace: seq<Con>, steps: seq<Step>)
    requires config.isServer
    ensures RunOf(trace, steps) && |trace| == |steps| + 1 == 3 && trace[0] == Initial(config) && Listens(trace[2])
    ensures trace[2].config == config
  {
    hide RunOf, Next, Listens;
    trace, steps := [Initial(config)], [];
    SingletonRun(trace);
    Starts(config);
    trace, steps := ExtendRun(trace, steps, StartStep);
    Ready(trace[1]);
    trace, steps := ExtendRun(trace, steps, TransportReadyStep(Success, false, false));
  }

  lemma Starts(config: Config)
    ensures Next(Initial(config), StartStep) == Expect(Initial(config).(internal := TransportInit), TransportReady)
  {
  }

  lemma Ready(c: Con)
    requires c == Expect(Initial(c.config).(internal := TransportInit), TransportReady) && c.config.isServer
    ensures Enabled(c, TransportReadyStep(Success, false, false))
    ensures var d := Next(c, TransportReadyStep(Success, false, false)); Listens(d) && d.config == c.config
  {
  }

  lemma FailEffect(c: Con)
    requires ShutdownDone(Failed) in c.world.events && c.ec == ExtensionNegotiationFailed
    ensures Next(c, ShutdownStep(Failed, [])).state == c.state
    ensures Next(c, ShutdownStep(Failed, [])).world.calls.opens == c.world.calls.opens
    ensures Next(c, ShutdownStep(Failed, [])).world.calls.fails == c.world.calls.fails + 1
  {
  }

  lemma ReopenEffect(c: Con)
    requires c.state == Connecting && c.internal == ReadHttpResponse && HttpResponseRead in c.world.events
    ensures var d := Next(c, HttpResponseReadStep(Success, Response(true, false, [], [])));
      && d.state == Open && d.ec == ExtensionNegotiationFailed && ShutdownDone(Failed) in d.world.events
      && d.world.calls == c.world.calls.(opens := c.world.calls.opens + 1)
  {
    var r := Received(c, HttpResponseRead);
    var t := Terminate(CancelTimer(r), ExtensionNegotiationFailed);
    assert t.world.calls == c.world.calls && t.ec == ExtensionNegotiationFailed
        && ShutdownDone(Failed) in t.world.events;
    var o := Opened(t, []);
    assert o == OpenSession(t);
    assert HandleReadFrame(o, Success, []) == ReadFrame(o);
    hide Terminate;
  }
}
