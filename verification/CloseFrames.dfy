/** How many close frames a connection sends: one, and one more for each bad close frame that it receives
  * while it is closing and acknowledges all the same. */
module CloseFrames {
  import opened Bytes
  import opened CloseCodes
  import opened Lifecycle
  import opened LifecycleSafety
  import P = WritePipeline
  import Utf8

  function CloseCount(ms: seq<P.Message>): nat {
    if ms == [] then 0
    else CloseCount(ms[..|ms| - 1]) + (if ms[|ms| - 1].kind == P.Close then 1 else 0)
  }

  /** The close frames among everything pushed. */
  function Sent(c: Con): nat {
    CloseCount(c.pipe.history.pushed)
  }

  /** The close frames after the first. */
  function Extra(c: Con): nat {
    if Sent(c) == 0 then 0 else Sent(c) - 1
  }

  /** A bad close frame is acknowledged by a connection that is closing already. */
  predicate Repeats(c: Con, f: Incoming) {
    && c.state == Closing && f.CloseFrame? && !Acceptable(f.payload)
    && !c.config.dropOnProtocolError && f.ack.Frame?
  }

  /** How often that happens while a list of frames is processed. */
  function RepeatsIn(c: Con, incoming: seq<Incoming>): nat
    decreases |incoming|
  {
    if incoming == [] || incoming[0].ConsumeFailed? then 0
    else (if Repeats(c, incoming[0]) then 1 else 0) + RepeatsIn(ProcessOne(c, incoming[0]), incoming[1..])
  }

  /** A client that cannot negotiate terminates the connection, and opens it all the same. */
  function Negotiated(c: Con, negotiates: bool): Con {
    if negotiates then c else Terminate(c, ExtensionNegotiationFailed)
  }

  /** How often it happens during one step: frames are processed when they are read, and those that came
    * along with the handshake right after the session has opened. */
  function RepeatsAt(c: Con, s: Step): nat {
    match s
    case FrameReadStep(ec, incoming) =>
      if ec == Success && c.internal == ProcessConnection then RepeatsIn(Received(c, FrameRead), incoming) else 0
    case HttpResponseWrittenStep(ec, script, incoming) =>
      if Check(c, ec, ProcessHttpRequest).Proceed? && c.status == SWITCHING_PROTOCOLS
      then RepeatsIn(Opened(CancelTimer(Received(c, HttpResponseWritten)), script), incoming) else 0
    case HttpResponseReadStep(ec, response) =>
      if Check(c, ec, ReadHttpResponse).Proceed? && response.Response? && response.validates
      then
        var d := CancelTimer(Received(c, HttpResponseRead));
        RepeatsIn(Opened(Negotiated(d, response.negotiates), response.script), response.incoming)
      else 0
    case _ => 0
  }

  /** No close frame goes out before the session is closing, and a closing session has sent one. */
  ghost predicate Counted(c: Con) {
    && P.Valid(c.pipe) && P.AtRest(c.pipe)
    && (c.state == Connecting || c.state == Open ==> Sent(c) == 0)
    && (c.state == Closing ==> Sent(c) > 0)
  }

  /** The number of extra close frames grows by `n`. */
  ghost predicate Adds(c: Con, d: Con, n: nat) {
    Counted(d) && Extra(d) == Extra(c) + n
  }

  lemma CountSnoc(ms: seq<P.Message>, m: P.Message)
    ensures CloseCount(ms + [m]) == CloseCount(ms) + (if m.kind == P.Close then 1 else 0)
  {
    assert (ms + [m])[..|ms + [m]| - 1] == ms;
  }

  /** What does not touch the pipeline adds nothing, unless it reopens a session or starts to close it. */
  lemma SamePipe(c: Con, d: Con)
    requires Counted(c) && d.pipe == c.pipe
    requires d.state == c.state || d.state == Closed || (d.state == Open && c.state == Connecting)
    ensures Adds(c, d, 0)
  {
    hide P.Valid, P.AtRest, CloseCount;
  }

  lemma AddsFurther(c: Con, d: Con, e: Con, n: nat, m: nat)
    requires Adds(c, d, n) && Adds(d, e, m)
    ensures Adds(c, e, n + m)
  {
    hide Counted, Extra;
  }

  lemma Pushed(c: Con, d: Con, m: P.Message)
    requires Counted(c) && d.pipe == P.PushNow(c.pipe, m)
    ensures P.Valid(d.pipe) && P.AtRest(d.pipe)
    ensures Sent(d) == Sent(c) + (if m.kind == P.Close then 1 else 0)
  {
    P.PushNowEffect(c.pipe, m);
    CountSnoc(c.pipe.history.pushed, m);
    hide P.Valid, P.AtRest, P.PushNow, CloseCount;
  }

  // ---------------------------------------------------------------- calls

  lemma SendFrameAdds(c: Con, kind: P.FrameKind, prepared: Prepared)
    requires Counted(c) && kind != P.Close
    ensures Adds(c, SendFrame(c, kind, prepared), 0)
  {
    if c.state == Open && prepared.Frame? {
      Pushed(c, SendFrame(c, kind, prepared), P.Message(kind, prepared.header, prepared.payload, false));
    }
    hide P.Valid, P.AtRest, P.PushNow, CloseCount;
  }

  /** A close frame that a session sends while it is closing is an extra one. */
  lemma SendCloseFrameAdds(c: Con, code: Code, ack: bool, terminal: bool, prepared: Prepared)
    requires Counted(c) && c.state != Closed
    ensures Adds(c, SendCloseFrame(c, code, ack, terminal, prepared).0,
                 if c.state == Closing && prepared.Frame? then 1 else 0)
  {
    var d := SendCloseFrame(c, code, ack, terminal, prepared).0;
    hide P.Valid, P.AtRest, P.PushNow, CloseCount, LocalCode;
    if prepared.Frame? {
      Pushed(c, d, P.Message(P.Close, prepared.header, prepared.payload, terminal));
    }
  }

  lemma TerminateAdds(c: Con, ec: Ec)
    requires Counted(c)
    ensures Adds(c, Terminate(c, ec), 0)
  {
    SamePipe(c, Terminate(c, ec));
    hide Counted, Adds, CancelIn;
  }

  lemma CloseCallAdds(c: Con, code: Code, prepared: Prepared)
    requires Counted(c)
    ensures Adds(c, CloseCall(c, code, prepared).0, 0)
  {
    if c.state == Open {
      SendCloseFrameAdds(c, code, false, Terminal(code), prepared);
    } else {
      SamePipe(c, c);
    }
    hide Counted, Adds, SendCloseFrame;
  }

  lemma CallAdds(c: Con, a: Api)
    requires Counted(c)
    ensures Adds(c, Call(c, a), 0)
  {
    match a {
      case SendCall(prepared) => SendFrameAdds(c, P.Data, prepared);
      case PingCall(prepared) => SendFrameAdds(c, P.Ping, prepared);
      case PongCall(prepared) => SendFrameAdds(c, P.Pong, prepared);
      case Close(code, prepared) => CloseCallAdds(c, code, prepared);
      case TerminateCall(ec) => TerminateAdds(c, ec);
      case _ => SamePipe(c, Call(c, a));
    }
    hide Counted, Adds, SendFrame, CloseCall, Terminate;
  }

  lemma {:induction false} RunAdds(c: Con, script: seq<Api>)
    requires Counted(c)
    ensures Adds(c, Run(c, script), 0)
    decreases |script|
  {
    if script == [] {
      SamePipe(c, c);
    } else {
      CallAdds(c, script[0]);
      RunAdds(Call(c, script[0]), script[1..]);
      AddsFurther(c, Call(c, script[0]), Run(c, script), 0, 0);
    }
    hide Counted, Extra, Call;
  }

  // ---------------------------------------------------------------- incoming frames

  lemma RejectCloseAdds(c: Con, error: CloseCodes.Error, ack: Prepared)
    requires Counted(c) && c.state != Closed
    ensures Adds(c, RejectClose(c, error, ack),
                 if c.state == Closing && !c.config.dropOnProtocolError && ack.Frame? then 1 else 0)
  {
    TerminateAdds(c, BadClosePayload(error));
    SendCloseFrameAdds(c, PROTOCOL_ERROR, true, c.config.isServer, ack);
    hide Counted, Adds, Terminate, SendCloseFrame;
  }

  lemma AcceptCloseAdds(c: Con, payload: seq<byte>, ack: Prepared)
    requires Counted(c) && c.state != Closed && Acceptable(payload)
    ensures Adds(c, ProcessClose(c, payload, ack), 0)
  {
    hide Counted, Extra, Terminate, SendCloseFrame, CodeOf, ReasonOf;
    var d := c.(remoteCode := CodeOf(payload).0);
    SamePipe(c, d);
    if c.state == Open {
      SendCloseFrameAdds(d, BLANK, true, d.config.isServer, ack);
      AddsFurther(c, d, SendCloseAck(d, BLANK, ack), 0, 0);
    } else {
      var e := d.(wasClean := true);
      SamePipe(c, e);
      ThenTerminates(c, e, Success);
    }
  }

  lemma ProcessCloseAdds(c: Con, payload: seq<byte>, ack: Prepared)
    requires Counted(c) && c.state != Closed
    ensures Adds(c, ProcessClose(c, payload, ack), if Repeats(c, CloseFrame(payload, ack)) then 1 else 0)
  {
    if Acceptable(payload) {
      AcceptCloseAdds(c, payload, ack);
    } else {
      var error := if CodeOf(payload).1 != NoError then CodeOf(payload).1 else ReasonOf(payload).1;
      BadCloseAdds(c, CodeOf(payload).0, error, ack);
    }
    hide Counted, Adds, RejectClose, SendCloseFrame, Terminate, CodeOf, ReasonOf;
  }

  lemma BadCloseAdds(c: Con, code: Code, error: CloseCodes.Error, ack: Prepared)
    requires Counted(c) && c.state != Closed
    ensures Adds(c, RejectClose(c.(remoteCode := code), error, ack),
                 if c.state == Closing && !c.config.dropOnProtocolError && ack.Frame? then 1 else 0)
  {
    hide Counted, Extra, RejectClose;
    var d := c.(remoteCode := code);
    SamePipe(c, d);
    RejectCloseAdds(d, error, ack);
    AddsFurther(c, d, RejectClose(d, error, ack), 0,
                if c.state == Closing && !c.config.dropOnProtocolError && ack.Frame? then 1 else 0);
  }

  lemma PingAdds(c: Con, script: seq<Api>, pong: Prepared)
    requires Counted(c)
    ensures Adds(c, Run(c, script), 0) && Adds(c, SendFrame(Run(c, script), P.Pong, pong), 0)
  {
    RunAdds(c, script);
    SendFrameAdds(Run(c, script), P.Pong, pong);
    AddsFurther(c, Run(c, script), SendFrame(Run(c, script), P.Pong, pong), 0, 0);
    hide Counted, Extra, Run, SendFrame;
  }

  lemma DeliverMessageAdds(c: Con, message: seq<byte>, script: seq<Api>)
    requires Counted(c)
    ensures Adds(c, DeliverMessage(c, message, script), 0)
  {
    SamePipe(c, c);
    if c.state == Open {
      var calls := c.world.calls.(messagesIn := c.world.calls.messagesIn + [Delivery(c.state, message)]);
      var d := c.(world := c.world.(calls := calls));
      SamePipe(c, d);
      RunAdds(d, script);
      AddsFurther(c, d, Run(d, script), 0, 0);
    }
    hide Counted, Extra, Run;
  }

  /** One frame adds exactly the close frame with which a bad one is acknowledged while closing. */
  lemma ProcessOneAdds(c: Con, f: Incoming)
    requires Counted(c) && !f.ConsumeFailed?
    ensures Adds(c, ProcessOne(c, f), if Repeats(c, f) then 1 else 0)
  {
    SamePipe(c, c);
    match f {
      case DataMessage(message, script) => DeliverMessageAdds(c, message, script);
      case PingFrame(script, reply, pong) => PingAdds(c, script, pong);
      case PongFrame(script) => RunAdds(c, script);
      case CloseFrame(payload, ack) =>
        if c.state != Closed {
          ProcessCloseAdds(c, payload, ack);
        }
      case _ =>
    }
    hide Counted, Adds, DeliverMessage, ProcessClose, Run, SendFrame;
  }

  lemma ThenTerminates(c: Con, d: Con, ec: Ec)
    requires Adds(c, d, 0)
    ensures Adds(c, Terminate(d, ec), 0)
  {
    TerminateAdds(d, ec);
    AddsFurther(c, d, Terminate(d, ec), 0, 0);
    hide Counted, Extra, Terminate;
  }

  lemma FailConsumeAdds(c: Con, f: Incoming)
    requires Counted(c) && f.ConsumeFailed?
    ensures Adds(c, FailConsume(c, f), 0)
  {
    TerminateAdds(c, ProcessorFailure(f.failure));
    CloseCallAdds(c, f.closeCode, f.close);
    var (d, ec) := CloseCall(c, f.closeCode, f.close);
    ThenTerminates(c, d, ec);
    hide Counted, Adds, CloseCall, Terminate;
  }

  lemma {:induction false} ProcessIncomingAdds(c: Con, incoming: seq<Incoming>)
    requires Counted(c)
    ensures Adds(c, ProcessIncoming(c, incoming), RepeatsIn(c, incoming))
    decreases |incoming|
  {
    if incoming == [] {
      SamePipe(c, ReadFrame(c));
    } else if incoming[0].ConsumeFailed? {
      FailConsumeAdds(c, incoming[0]);
    } else {
      var d, n := ProcessOne(c, incoming[0]), if Repeats(c, incoming[0]) then 1 else 0;
      ProcessOneAdds(c, incoming[0]);
      ProcessIncomingAdds(d, incoming[1..]);
      AddsFurther(c, d, ProcessIncoming(d, incoming[1..]), n, RepeatsIn(d, incoming[1..]));
    }
    hide Counted, Extra, Repeats, ProcessOne, FailConsume;
  }

  lemma HandleReadFrameAdds(c: Con, ec: Ec, incoming: seq<Incoming>)
    requires Counted(c)
    ensures Adds(c, HandleReadFrame(c, ec, incoming),
                 if ec == Success && c.internal == ProcessConnection then RepeatsIn(c, incoming) else 0)
  {
    SamePipe(c, c);
    TerminateAdds(c, Success);
    TerminateAdds(c, InvalidState);
    TerminateAdds(c, ec);
    ProcessIncomingAdds(c, incoming);
    hide Counted, Adds, RepeatsIn, ProcessIncoming, Terminate;
  }

  // ---------------------------------------------------------------- the handshake

  lemma {:induction false} RunHttpAdds(c: Con, script: seq<HttpApi>)
    requires Counted(c)
    ensures Adds(c, RunHttp(c, script), 0)
    decreases |script|
  {
    if script == [] {
      SamePipe(c, c);
    } else {
      var d := if script[0].Defer? then DeferResponse(c) else Call(c, script[0].call);
      if script[0].Defer? {
        SamePipe(c, d);
      } else {
        CallAdds(c, script[0].call);
      }
      RunHttpAdds(d, script[1..]);
      AddsFurther(c, d, RunHttp(c, script), 0, 0);
    }
    hide Counted, Extra, Call, CancelIn;
  }

  lemma WriteHttpResponseErrorAdds(c: Con, d: Con, ec: Ec)
    requires Counted(c) && d.pipe == c.pipe && d.state == c.state
    ensures Adds(c, WriteHttpResponseError(d, ec), 0)
  {
    var e := WriteHttpResponseError(d, ec);
    WriteHttpResponseFrame(d.(internal := ProcessHttpRequest), ec);
    hide Counted, Adds, WriteHttpResponse, CancelIn;
    SamePipe(c, e);
  }

  lemma ProcessHttpAdds(c: Con, d: Con, a: Answers)
    requires Counted(c) && d.pipe == c.pipe && d.state == c.state
    ensures Adds(c, ProcessHttp(d, a).0, 0)
  {
    var e := HttpRequested(d);
    SamePipe(c, e);
    SamePipe(c, d.(status := BAD_REQUEST));
    SamePipe(c, d.(status := UPGRADE_REQUIRED));
    RunHttpAdds(e, a.httpScript);
    AddsFurther(c, e, RunHttp(e, a.httpScript), 0, 0);
    hide Counted, Extra, RunHttp;
  }

  lemma ProcessHandshakeAdds(c: Con, d: Con, a: Answers)
    requires Counted(c) && d.pipe == c.pipe && d.state == c.state
    ensures Adds(c, ProcessHandshake(d, a).0, 0)
  {
    SamePipe(c, d);
    SamePipe(c, d.(status := BAD_REQUEST));
    if a.validates && a.extensionsParse && a.uriValid {
      var e := Run(d, a.validateScript);
      RunAdds(d, a.validateScript);
      SamePipe(e, ProcessHandshake(d, a).0);
      AddsFurther(c, d, e, 0, 0);
      AddsFurther(c, e, ProcessHandshake(d, a).0, 0, 0);
    }
    hide Adds, Counted, Run;
  }

  lemma HandleRequestAdds(c: Con, processor: ProcessorInit, a: Answers)
    requires Counted(c)
    ensures Adds(c, HandleRequest(c, processor, a), 0)
  {
    hide Counted, Extra, WriteHttpResponseError, ProcessHttp, ProcessHandshake, WriteHttpResponse;
    match processor
    case UnknownVersion => WriteHttpResponseErrorAdds(c, c.(status := BAD_REQUEST), InvalidVersion);
    case NoProcessor =>
      WriteHttpResponseErrorAdds(c, c.(hasProcessor := false, status := BAD_REQUEST), UnsupportedVersion);
    case NotWebsocket =>
      var d := c.(internal := ProcessHttpRequest);
      ProcessHttpAdds(c, d, a);
      ThenResponds(c, ProcessHttp(d, a).0, ProcessHttp(d, a).1);
    case Supported(hybi00, key3) =>
      WriteHttpResponseErrorAdds(c, c.(hasProcessor := true, status := INTERNAL_SERVER_ERROR), ShortKey3);
      var d := c.(hasProcessor := true, internal := ProcessHttpRequest);
      ProcessHandshakeAdds(c, d, a);
      ThenResponds(c, ProcessHandshake(d, a).0, ProcessHandshake(d, a).1);
  }

  lemma ThenResponds(c: Con, d: Con, ec: Ec)
    requires Adds(c, d, 0)
    ensures Adds(c, WriteHttpResponse(d, ec), 0)
  {
    WriteHttpResponseFrame(d, ec);
    SamePipe(d, WriteHttpResponse(d, ec));
    AddsFurther(c, d, WriteHttpResponse(d, ec), 0, 0);
    hide Extra, P.Valid, P.AtRest, WriteHttpResponse;
  }

  lemma HandleReadHandshakeAdds(c: Con, ec: Ec, bytes: HandshakeBytes)
    requires Counted(c)
    ensures Adds(c, HandleReadHandshake(c, ec, bytes), 0)
  {
    hide Counted, Adds, Terminate, HandleRequest, WriteHttpResponseError;
    SamePipe(c, c);
    SamePipe(c, Expect(c, HandshakeRead));
    TerminateAdds(c, InvalidState);
    TerminateAdds(c, General);
    TerminateAdds(c, ec);
    match bytes
    case ParseFailed(status) => WriteHttpResponseErrorAdds(c, c.(status := status), HttpParseError);
    case Request(processor, answers) => HandleRequestAdds(c, processor, answers);
    case _ =>
  }

  /** A session that opens has sent no close frame, even if it was terminated while connecting. */
  lemma OpenedAdds(c: Con, script: seq<Api>, incoming: seq<Incoming>)
    requires Counted(c) && Sent(c) == 0
    ensures Adds(c, HandleReadFrame(Opened(c, script), Success, incoming), RepeatsIn(Opened(c, script), incoming))
  {
    var d, e := OpenSession(c), Opened(c, script);
    assert Adds(c, d, 0) by {
      hide P.Valid, P.AtRest, CloseCount;
    }
    RunAdds(d, script);
    RunInternal(d, script);
    HandleReadFrameAdds(e, Success, incoming);
    hide Extra, Counted, Run, HandleReadFrame, RepeatsIn;
    AddsFurther(c, d, e, 0, 0);
    AddsFurther(c, e, HandleReadFrame(e, Success, incoming), 0, RepeatsIn(e, incoming));
  }

  lemma {:induction false} RunInternal(c: Con, script: seq<Api>)
    ensures Run(c, script).internal == c.internal
    decreases |script|
  {
    hide Call;
    if script != [] {
      CallFrame(c, script[0]);
      RunInternal(Call(c, script[0]), script[1..]);
    }
  }

  lemma HandleWriteHttpResponseAdds(c: Con, ec: Ec, script: seq<Api>, incoming: seq<Incoming>)
    requires Counted(c)
    ensures Adds(c, HandleWriteHttpResponse(c, ec, script, incoming),
                 if Check(c, ec, ProcessHttpRequest).Proceed? && c.status == SWITCHING_PROTOCOLS
                 then RepeatsIn(Opened(CancelTimer(c), script), incoming) else 0)
  {
    var d := CancelTimer(c);
    SamePipe(c, c);
    SamePipe(c, d);
    TerminateAdds(c, InvalidState);
    TerminateAdds(c, ec);
    if Check(c, ec, ProcessHttpRequest).Proceed? {
      var e := if d.isHttp then d.(ec := HttpConnectionEnded) else d;
      SamePipe(c, Terminate(e, e.ec));
      OpenedAdds(d, script, incoming);
      AddsFurther(c, d, HandleReadFrame(Opened(d, script), Success, incoming), 0,
                  RepeatsIn(Opened(d, script), incoming));
    }
    hide Extra, P.Valid, P.AtRest, Sent, Terminate, Opened, HandleReadFrame, RepeatsIn, CancelIn;
  }

  lemma HandleReadHttpResponseAdds(c: Con, ec: Ec, bytes: ResponseBytes)
    requires Counted(c)
    ensures Adds(c, HandleReadHttpResponse(c, ec, bytes),
                 if Check(c, ec, ReadHttpResponse).Proceed? && bytes.Response? && bytes.validates
                 then RepeatsIn(Opened(Negotiated(CancelTimer(c), bytes.negotiates), bytes.script), bytes.incoming)
                 else 0)
  {
    SamePipe(c, c);
    SamePipe(c, Expect(c, HttpResponseRead));
    TerminateAdds(c, InvalidState);
    TerminateAdds(c, General);
    TerminateAdds(c, ec);
    if Check(c, ec, ReadHttpResponse).Proceed? && bytes.Response? {
      var d := CancelTimer(c);
      SamePipe(c, d);
      ThenTerminates(c, d, ProcessorFailure(3));
      ResponseAdds(c, d, bytes.negotiates, bytes.script, bytes.incoming);
    }
    hide Counted, Adds, Terminate, Opened, HandleReadFrame, RepeatsIn, CancelIn;
  }

  lemma ResponseAdds(c: Con, d: Con, negotiates: bool, script: seq<Api>, incoming: seq<Incoming>)
    requires Counted(c) && c.state == Connecting && d.pipe == c.pipe && d.state == c.state
    ensures var e := Opened(Negotiated(d, negotiates), script);
      Adds(c, HandleReadFrame(e, Success, incoming), RepeatsIn(e, incoming))
  {
    var e := Negotiated(d, negotiates);
    SamePipe(c, e);
    OpenedAdds(e, script, incoming);
    AddsFurther(c, e, HandleReadFrame(Opened(e, script), Success, incoming), 0,
                RepeatsIn(Opened(e, script), incoming));
    hide Extra, P.Valid, P.AtRest, Opened, HandleReadFrame, RepeatsIn, CancelIn, CloseCount;
  }

  // ---------------------------------------------------------------- every step

  lemma HandshakeStepAdds(c: Con, s: Step)
    requires Counted(c) && Enabled(c, s)
    requires s.HandshakeReadStep? || s.HttpResponseWrittenStep? || s.HttpRequestWrittenStep? || s.HttpResponseReadStep?
    ensures Adds(c, Next(c, s), RepeatsAt(c, s))
  {
    hide Counted, Extra, Terminate, Opened, CancelTimer, RepeatsIn, HandleReadHandshake, HandleWriteHttpResponse,
        HandleReadHttpResponse;
    match s
    case HandshakeReadStep(ec, handshake) =>
      var d := Received(c, HandshakeRead);
      SamePipe(c, d);
      HandleReadHandshakeAdds(d, ec, handshake);
      AddsFurther(c, d, Next(c, s), 0, 0);
    case HttpResponseWrittenStep(ec, script, incoming) =>
      var d := Received(c, HttpResponseWritten);
      SamePipe(c, d);
      HandleWriteHttpResponseAdds(d, ec, script, incoming);
      AddsFurther(c, d, Next(c, s), 0, RepeatsAt(c, s));
    case HttpRequestWrittenStep(ec) =>
      var d := Received(c, HttpRequestWritten);
      SamePipe(c, d);
      ThenTerminates(c, d, ec);
      ThenTerminates(c, d, InvalidState);
      SamePipe(c, Expect(d.(internal := ReadHttpResponse), HttpResponseRead));
    case HttpResponseReadStep(ec, response) =>
      var d := Received(c, HttpResponseRead);
      SamePipe(c, d);
      HandleReadHttpResponseAdds(d, ec, response);
      AddsFurther(c, d, Next(c, s), 0, RepeatsAt(c, s));
  }

  lemma HandleTransportInitAdds(c: Con, ec: Ec, processor: bool, request: bool)
    requires Counted(c)
    ensures Adds(c, HandleTransportInit(c, ec, processor, request), 0)
  {
    TerminateAdds(c, InvalidState);
    TerminateAdds(c, ec);
    if c.internal == TransportInit && ec == Success {
      SamePipe(c, HandleTransportInit(c, ec, processor, request));
    }
    hide Counted, Adds, Terminate;
  }

  lemma WriteFrameAdds(c: Con)
    requires Counted(c) && c.pipe.threads.dispatched > 0
    ensures Adds(c, WriteFrame(c), 0)
  {
    P.WriteNowEffect(c.pipe);
    hide P.Valid, P.AtRest, P.WriteNow, CloseCount;
  }

  lemma HandleWriteFrameAdds(c: Con, ec: Ec)
    requires Counted(c) && c.pipe.threads.writing > 0
    ensures c.pipe.current != [] && Adds(c, HandleWriteFrame(c, ec), 0)
  {
    P.FinishNowEffect(c.pipe, ec != Success);
    var d := c.(pipe := P.FinishNow(c.pipe, ec != Success));
    assert Adds(c, d, 0) by {
      hide P.Valid, P.AtRest, P.FinishNow, CloseCount;
    }
    ThenTerminates(c, d, ec);
    hide Counted, Adds, P.FinishNow, Terminate;
  }

  lemma HandleTimerAdds(c: Con, id: nat)
    requires Counted(c) && id < |c.world.timers|
    ensures Adds(c, HandleTimer(c, id), 0)
  {
    var t := c.world.timers[id];
    var d := c.(world := c.world.(timers := c.world.timers[id := t.(phase := Done)]));
    SamePipe(c, d);
    ThenTerminates(c, d, OpenHandshakeTimeout);
    ThenTerminates(c, d, CloseHandshakeTimeout);
    hide Counted, Adds, Terminate;
  }

  lemma HandleTerminateAdds(c: Con, d: Con, status: TerminateStatus, script: seq<Api>)
    requires Counted(c) && d.pipe == c.pipe && d.state == c.state
    ensures Adds(c, HandleTerminate(d, status, script), 0)
  {
    var e := Terminated(d, status);
    SamePipe(c, e);
    RunAdds(e, script);
    AddsFurther(c, e, Run(e, script), 0, 0);
    hide Counted, Extra, Run;
  }

  lemma SessionStepAdds(c: Con, s: Step)
    requires Counted(c) && Enabled(c, s)
    requires s.CallStep? || s.StartStep? || s.TransportReadyStep? || s.FrameReadStep? || s.ShutdownStep?
    ensures Adds(c, Next(c, s), RepeatsAt(c, s))
  {
    hide Counted, Extra, Call, Terminate, HandleTransportInit, HandleReadFrame, HandleTerminate, RepeatsIn;
    match s
    case CallStep(call) => CallAdds(c, call);
    case StartStep =>
      TerminateAdds(c, InvalidState);
      SamePipe(c, Expect(c.(internal := TransportInit), TransportReady));
    case TransportReadyStep(ec, processor, request) =>
      var d := Received(c, TransportReady);
      SamePipe(c, d);
      HandleTransportInitAdds(d, ec, processor, request);
      AddsFurther(c, d, HandleTransportInit(d, ec, processor, request), 0, 0);
    case FrameReadStep(ec, incoming) =>
      var d := Received(c, FrameRead);
      SamePipe(c, d);
      HandleReadFrameAdds(d, ec, incoming);
      AddsFurther(c, d, HandleReadFrame(d, ec, incoming), 0, RepeatsAt(c, s));
    case ShutdownStep(status, script) =>
      HandleTerminateAdds(c, Received(c, ShutdownDone(status)), status, script);
  }

  /** One step, whichever it is, adds exactly its acknowledgements of bad close frames received while
    * closing, and a write completion is defined. */
  lemma StepAdds(c: Con, s: Step)
    requires Counted(c) && Enabled(c, s)
    ensures Defined(c, s) && Adds(c, Next(c, s), RepeatsAt(c, s))
  {
    if s.CallStep? || s.StartStep? || s.TransportReadyStep? || s.FrameReadStep? || s.ShutdownStep? {
      SessionStepAdds(c, s);
    } else if s.HandshakeReadStep? || s.HttpResponseWrittenStep?
              || s.HttpRequestWrittenStep? || s.HttpResponseReadStep? {
      HandshakeStepAdds(c, s);
    } else if s.WriteFrameStep? {
      WriteFrameAdds(c);
    } else if s.WriteDoneStep? {
      HandleWriteFrameAdds(c, s.ec);
    } else if s.TimerStep? {
      HandleTimerAdds(c, s.id);
    } else {
      SamePipe(c, Next(c, s));
    }
    hide Counted, Adds, WriteFrame, HandleWriteFrame, HandleTimer;
  }

  // ---------------------------------------------------------------- whole runs

  /** How often the first `n` steps of a run acknowledge a bad close frame received while closing. */
  function RepeatsUpTo(trace: seq<Con>, steps: seq<Step>, n: nat): nat
    requires n <= |steps| && |trace| == |steps| + 1
  {
    if n == 0 then 0 else RepeatsUpTo(trace, steps, n - 1) + RepeatsAt(trace[n - 1], steps[n - 1])
  }

  lemma {:induction false} RunAddsUp(trace: seq<Con>, steps: seq<Step>, n: nat)
    requires RunOf(trace, steps) && n <= |steps| && Counted(trace[0])
    ensures Counted(trace[n]) && Extra(trace[n]) == Extra(trace[0]) + RepeatsUpTo(trace, steps, n)
    ensures trace[n].config == trace[0].config
  {
    hide Counted, Extra, Next, Enabled, Defined, RepeatsAt;
    if n > 0 {
      RunAddsUp(trace, steps, n - 1);
      StepAdds(trace[n - 1], steps[n - 1]);
      NextGrows(trace[n - 1], steps[n - 1]);
    }
  }

  lemma NothingSent(c: Con)
    requires Valid(c) && c.state == Connecting
    ensures Counted(c) && Extra(c) == 0
  {
    hide P.Valid, P.AtRest;
  }

  /** No step of a run answers a bad close frame received while closing. */
  predicate NeverRepeats(trace: seq<Con>, steps: seq<Step>, n: nat)
    requires n <= |steps| && |trace| == |steps| + 1
  {
    forall k :: 0 <= k < n ==> RepeatsAt(trace[k], steps[k]) == 0
  }

  /** Over all runs, of clients and servers alike: every close frame after the first answers a bad close
    * frame received while closing.  So there is at most one exactly if no such frame is ever answered. */
  lemma OneCloseFrameIff(trace: seq<Con>, steps: seq<Step>, config: Config, n: nat)
    requires RunOf(trace, steps) && trace[0] == Initial(config) && n <= |steps|
    ensures Sent(trace[n]) > 0 ==> Sent(trace[n]) == 1 + RepeatsUpTo(trace, steps, n)
    ensures Sent(trace[n]) <= 1 <==> NeverRepeats(trace, steps, n)
  {
    hide Valid, Next, Enabled, Defined, Counted, Extra, Sent, RepeatsUpTo, NeverRepeats;
    InitialValid(config);
    NothingSent(Initial(config));
    RunAddsUp(trace, steps, n);
    NoneRepeats(trace, steps, n);
    ExtraMeans(trace[n]);
  }

  lemma ExtraMeans(c: Con)
    ensures Sent(c) > 0 ==> Sent(c) == 1 + Extra(c)
    ensures Sent(c) == 0 ==> Extra(c) == 0
  {
  }

  lemma {:induction false} NoneRepeats(trace: seq<Con>, steps: seq<Step>, n: nat)
    requires n <= |steps| && |trace| == |steps| + 1
    ensures RepeatsUpTo(trace, steps, n) == 0 <==> NeverRepeats(trace, steps, n)
  {
    hide RepeatsAt;
    if n > 0 {
      NoneRepeats(trace, steps, n - 1);
    }
  }

  // ---------------------------------------------------------------- the second close frame

  /** A connection that is closing pushes a frame in answer to a close frame exactly if that is bad, the
    * connection is not to be dropped for it, and there is a frame to answer with. */
  lemma AnswersAgainIff(c: Con, payload: seq<byte>, ack: Prepared)
    requires c.state == Closing
    ensures var before, after := c.pipe.history.pushed, ProcessClose(c, payload, ack).pipe.history.pushed;
      && (after != before <==> !Acceptable(payload) && !c.config.dropOnProtocolError && ack.Frame?)
      && (after != before ==> after == before + [P.Message(P.Close, ack.header, ack.payload, c.config.isServer)])
  {
    SendCloseFramePushes(c.(remoteCode := CodeOf(payload).0), PROTOCOL_ERROR, true, c.config.isServer, ack);
    hide SendCloseFrame, CodeOf, ReasonOf, Shutdown, CancelIn;
  }

  lemma SendCloseFramePushes(c: Con, code: Code, ack: bool, terminal: bool, prepared: Prepared)
    ensures SendCloseFrame(c, code, ack, terminal, prepared).0.pipe.history.pushed == c.pipe.history.pushed
      + (if prepared.Frame? then [P.Message(P.Close, prepared.header, prepared.payload, terminal)] else [])
  {
    hide LocalCode;
  }

  const CLOSE_CALL := Close(NORMAL, Frame([], []))
  const BAD_CLOSE := CloseFrame([0], Frame([], []))

  /** The application closes the session as soon as it opens, and then a bad close frame comes in. */
  lemma ClosesTwice(c: Con)
    requires Counted(c) && c.state == Connecting && !c.config.dropOnProtocolError
    ensures Sent(HandleReadFrame(Opened(c, [CLOSE_CALL]), Success, [BAD_CLOSE])) == 2
  {
    var d, e := OpenSession(c), Opened(c, [CLOSE_CALL]);
    OpenedAdds(c, [CLOSE_CALL], [BAD_CLOSE]);
    assert e == Call(d, CLOSE_CALL) by {
      hide Call, Counted;
      assert Run(Call(d, CLOSE_CALL), [CLOSE_CALL][1..]) == Call(d, CLOSE_CALL);
    }
    Closes(d);
    RepeatsOnce(e);
    hide Counted, Sent, Call, Opened, HandleReadFrame, RepeatsIn;
  }

  lemma RepeatsOnce(c: Con)
    requires c.state == Closing && !c.config.dropOnProtocolError
    ensures RepeatsIn(c, [BAD_CLOSE]) == 1
  {
    hide ProcessOne;
    assert Repeats(c, BAD_CLOSE);
    assert RepeatsIn(ProcessOne(c, BAD_CLOSE), [BAD_CLOSE][1..]) == 0;
  }

  lemma Closes(c: Con)
    requires c.state == Open
    ensures Call(c, CLOSE_CALL).state == Closing && Call(c, CLOSE_CALL).config == c.config
  {
  }

  /** A WebSocket handshake that everyone accepts. */
  const UPGRADE := HandshakeReadStep(Success,
      Request(Supported(false, false), Answers(true, [], true, true, [], true, true)))

  const SERVER_OPENS := HttpResponseWrittenStep(Success, [CLOSE_CALL], [BAD_CLOSE])
  const CLIENT_OPENS := HttpResponseReadStep(Success, Response(true, true, [CLOSE_CALL], [BAD_CLOSE]))

  lemma Upgraded(c: Con)
    requires Listens(c)
    ensures Enabled(c, UPGRADE)
    ensures var d := Next(c, UPGRADE);
      && d.config == c.config && d.state == Connecting && d.internal == ProcessHttpRequest
      && d.status == SWITCHING_PROTOCOLS && HttpResponseWritten in d.world.events
  {
    assert forall d :: Run(d, []) == d;
    hide Run;
  }

  lemma ServerCloses(c: Con)
    requires Counted(c) && !c.config.dropOnProtocolError && c.state == Connecting && c.internal == ProcessHttpRequest
    requires c.status == SWITCHING_PROTOCOLS && HttpResponseWritten in c.world.events
    ensures Enabled(c, SERVER_OPENS) && Sent(Next(c, SERVER_OPENS)) == 2
  {
    var d := CancelTimer(Received(c, HttpResponseWritten));
    SamePipe(c, d);
    ClosesTwice(d);
    hide Counted, Opened, HandleReadFrame, Sent, CancelIn;
  }

  lemma ClientCloses(c: Con)
    requires Counted(c) && !c.config.dropOnProtocolError && AtStage(c, ReadHttpResponse, HttpResponseRead)
    ensures Enabled(c, CLIENT_OPENS) && Sent(Next(c, CLIENT_OPENS)) == 2
  {
    var d := CancelTimer(Received(c, HttpResponseRead));
    SamePipe(c, d);
    ClosesTwice(d);
    hide Counted, Opened, HandleReadFrame, Sent, CancelIn;
  }

  /** Every client and every server that does not drop the connection for such a frame has a run in which
    * it sends two close frames. */
  lemma TwoCloseFrames(config: Config) returns (trace: seq<Con>, steps: seq<Step>)
    requires !config.dropOnProtocolError
    ensures RunOf(trace, steps) && trace[0] == Initial(config) && Sent(trace[|steps|]) == 2
  {
    hide Valid, RunOf, Next, Enabled, Counted, Sent, Listens, AtStage;
    InitialValid(config);
    NothingSent(Initial(config));
    if config.isServer {
      trace, steps := ServerListens(config);
      Upgraded(trace[2]);
      trace, steps := ExtendRun(trace, steps, UPGRADE);
      RunAddsUp(trace, steps, 3);
      ServerCloses(trace[3]);
      trace, steps := ExtendRun(trace, steps, SERVER_OPENS);
    } else {
      trace, steps := ClientAwaits(config);
      RunAddsUp(trace, steps, 3);
      ClientCloses(trace[3]);
      trace, steps := ExtendRun(trace, steps, CLIENT_OPENS);
    }
  }

  lemma {:induction false} DroppingNeverRepeats(c: Con, incoming: seq<Incoming>)
    requires c.config.dropOnProtocolError
    ensures RepeatsIn(c, incoming) == 0
    decreases |incoming|
  {
    hide ProcessOne;
    if incoming != [] && !incoming[0].ConsumeFailed? {
      ProcessOneGrows(c, incoming[0]);
      DroppingNeverRepeats(ProcessOne(c, incoming[0]), incoming[1..]);
    }
  }

  lemma OpenedConfig(c: Con, script: seq<Api>)
    ensures Opened(c, script).config == c.config
  {
    RunGrows(OpenSession(c), script);
    hide Run;
  }

  lemma DroppingStep(c: Con, s: Step)
    requires c.config.dropOnProtocolError
    ensures RepeatsAt(c, s) == 0
  {
    hide RepeatsIn, Opened, CancelIn, Check;
    match s
    case FrameReadStep(ec, incoming) => DroppingNeverRepeats(Received(c, FrameRead), incoming);
    case HttpResponseWrittenStep(ec, script, incoming) =>
      var d := CancelTimer(Received(c, HttpResponseWritten));
      OpenedConfig(d, script);
      DroppingNeverRepeats(Opened(d, script), incoming);
    case HttpResponseReadStep(ec, response) =>
      if response.Response? {
        var d := Negotiated(CancelTimer(Received(c, HttpResponseRead)), response.negotiates);
        OpenedConfig(d, response.script);
        DroppingNeverRepeats(Opened(d, response.script), response.incoming);
      }
    case _ =>
  }

  /** A connection can send two close frames exactly if it does not drop the connection for a bad one. */
  lemma CanCloseTwiceIff(config: Config)
    ensures !config.dropOnProtocolError <==>
      exists trace: seq<Con>, steps: seq<Step> ::
        RunOf(trace, steps) && trace[0] == Initial(config) && Sent(trace[|steps|]) > 1
  {
    if config.dropOnProtocolError {
      forall trace, steps | RunOf(trace, steps) && trace[0] == Initial(config) ensures Sent(trace[|steps|]) <= 1 {
        DroppingClosesOnce(trace, steps, config);
      }
    } else {
      var trace, steps := TwoCloseFrames(config);
    }
    hide Sent;
  }

  lemma DroppingClosesOnce(trace: seq<Con>, steps: seq<Step>, config: Config)
    requires RunOf(trace, steps) && trace[0] == Initial(config) && config.dropOnProtocolError
    ensures Sent(trace[|steps|]) <= 1
  {
    hide Valid, Next, Enabled, Defined, Counted, Extra, Sent, RepeatsAt;
    InitialValid(config);
    NothingSent(Initial(config));
    forall k | 0 <= k < |steps| ensures RepeatsAt(trace[k], steps[k]) == 0 {
      RunAddsUp(trace, steps, k);
      DroppingStep(trace[k], steps[k]);
    }
    OneCloseFrameIff(trace, steps, config, |steps|);
  }

  // ---------------------------------------------------------------- the code of the answer

  /** The code with which an open session answers a close frame, for every payload: none when it closes
    * silently; otherwise the code that came, a normal close for a payload without one, and a protocol error
    * for a bad payload, unless the connection is dropped for it.  What is answered may go on the wire. */
  lemma AnswerCode(c: Con, payload: seq<byte>, ack: Prepared)
    requires c.state == Open
    ensures var code := ProcessClose(c, payload, ack).localCode;
      && (!Acceptable(payload) && c.config.dropOnProtocolError ==> code == 1006)
      && (Acceptable(payload) || !c.config.dropOnProtocolError ==>
            && (c.config.silentClose <==> code == 1005)
            && (!c.config.silentClose ==>
                  && OnTheWire(code)
                  && code == (if !Acceptable(payload) then 1002
                              else if payload == [] then 1000 else CodeOf(payload).0)))
  {
    AcceptedCode(payload);
    SendCloseFrameCode(c.(remoteCode := CodeOf(payload).0), PROTOCOL_ERROR, c.config.isServer, ack);
    SendCloseFrameCode(c.(remoteCode := CodeOf(payload).0), BLANK, c.config.isServer, ack);
    hide SendCloseFrame, CodeOf, ReasonOf, Shutdown, CancelIn;
  }

  lemma SendCloseFrameCode(c: Con, code: Code, terminal: bool, prepared: Prepared)
    ensures SendCloseFrame(c, code, true, terminal, prepared).0.localCode == LocalCode(c, code, true)
  {
    hide P.PushNow, LocalCode;
  }

  lemma AcceptedCode(payload: seq<byte>)
    ensures payload == [] ==> CodeOf(payload).0 == NO_STATUS
    ensures Acceptable(payload) && payload != [] ==> OnTheWire(CodeOf(payload).0)
  {
    if Acceptable(payload) && payload != [] {
      AcceptedIsClosePayload(payload);
      var code: Code, text: seq<nat> :|
        OnTheWire(code) && Utf8.AreScalars(text) && payload == Payload(code, Utf8.EncodeAll(text));
      PayloadFields(code, Utf8.EncodeAll(text));
    }
    hide ReasonOf;
  }

  /** Any code that may go on the wire comes back. */
  lemma EchoesCode(c: Con, code: Code, text: seq<nat>, ack: Prepared)
    requires c.state == Open && !c.config.silentClose && OnTheWire(code) && Utf8.AreScalars(text)
    ensures ProcessClose(c, Payload(code, Utf8.EncodeAll(text)), ack).localCode == code
  {
    hide ProcessClose, Acceptable, CodeOf, ReasonOf;
    ClosePayloadAccepted(code, text);
    PayloadFields(code, Utf8.EncodeAll(text));
    AnswerCode(c, Payload(code, Utf8.EncodeAll(text)), ack);
  }
}
