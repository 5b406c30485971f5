/** Which messages the message handler is given over a whole run. */
module MessageDelivery {
  import opened Bytes
  import opened CloseCodes
  import opened Effects
  import opened Lifecycle
  import opened LifecycleSafety
  import CloseFrames
  import P = WritePipeline

  /** The messages among some frames that are looked at while the session is open. */
  function Met(c: Con, incoming: seq<Incoming>): seq<seq<byte>>
    decreases |incoming|
  {
    if incoming == [] || incoming[0].ConsumeFailed? then []
    else
      (if incoming[0].DataMessage? && c.state == Open then [incoming[0].message] else [])
      + Met(ProcessOne(c, incoming[0]), incoming[1..])
  }

  function Delivered(c: Con): seq<Delivery> {
    c.world.calls.messagesIn
  }

  function Deliveries(messages: seq<seq<byte>>): (r: seq<Delivery>)
    ensures |r| == |messages|
  {
    seq(|messages|, i requires 0 <= i < |messages| => Delivery(Open, messages[i]))
  }

  lemma DeliveriesAppend(a: seq<seq<byte>>, b: seq<seq<byte>>)
    ensures Deliveries(a + b) == Deliveries(a) + Deliveries(b)
  {
  }

  lemma ProcessOneDelivers(c: Con, f: Incoming)
    requires !f.ConsumeFailed?
    ensures Delivered(ProcessOne(c, f)) ==
      Delivered(c) + Deliveries(if f.DataMessage? && c.state == Open then [f.message] else [])
  {
    match f {
      case DataMessage(message, script) =>
        RunCalls(Given(c, message), script);
        assert Deliveries([message]) == [Delivery(Open, message)];
      case PingFrame(script, _, _) => RunCalls(c, script);
      case PongFrame(script) => RunCalls(c, script);
      case CloseFrame(payload, ack) => ProcessCloseCalls(c, payload, ack);
      case _ =>
    }
    hide Run, ProcessClose, P.PushNow;
  }

  lemma ProcessCloseCalls(c: Con, payload: seq<byte>, ack: Prepared)
    ensures ProcessClose(c, payload, ack).world.calls == c.world.calls
  {
    CloseFrameCases(c, payload, ack);
    hide ProcessClose, Acceptable, CancelIn, P.PushNow, CodeOf, ReasonOf, CodeIn, LocalCode;
  }

  lemma FailConsumeCalls(c: Con, f: Incoming)
    requires f.ConsumeFailed?
    ensures FailConsume(c, f).world.calls == c.world.calls
  {
    CallCalls(c, Close(f.closeCode, f.close));
    hide CancelIn, P.PushNow, LocalCode;
  }

  lemma {:induction false} ProcessIncomingDelivers(c: Con, incoming: seq<Incoming>)
    ensures Delivered(ProcessIncoming(c, incoming)) == Delivered(c) + Deliveries(Met(c, incoming))
    decreases |incoming|
  {
    hide ProcessOne, FailConsume, Deliveries;
    if incoming == [] {
      DeliveriesAppend([], []);
    } else if incoming[0].ConsumeFailed? {
      FailConsumeCalls(c, incoming[0]);
      DeliveriesAppend([], []);
    } else {
      var f, d := incoming[0], ProcessOne(c, incoming[0]);
      ProcessOneDelivers(c, f);
      ProcessIncomingDelivers(d, incoming[1..]);
      DeliveriesAppend(if f.DataMessage? && c.state == Open then [f.message] else [], Met(d, incoming[1..]));
    }
  }

  /** The messages met during one step. */
  function MetAt(c: Con, s: Step): seq<seq<byte>> {
    match s
    case FrameReadStep(ec, incoming) =>
      if ec == Success && c.internal == ProcessConnection then Met(Received(c, FrameRead), incoming) else []
    case HttpResponseWrittenStep(ec, script, incoming) =>
      if ec == Success && c.state == Connecting && c.internal == ProcessHttpRequest && c.status == 101
      then Met(Run(JustOpened(Reported(c, s)), script), incoming) else []
    case HttpResponseReadStep(ec, Response(true, negotiates, script, incoming)) =>
      if ec == Success && c.state == Connecting && c.internal == ReadHttpResponse
      then
        var r := Reported(c, s);
        Met(Run(JustOpened(if negotiates then r else Terminate(r, ExtensionNegotiationFailed)), script), incoming)
      else []
    case _ => []
  }

  lemma {:induction false} RunHttpCalls(c: Con, script: seq<HttpApi>)
    ensures RunHttp(c, script).world.calls == c.world.calls
    decreases |script|
  {
    hide Call, CancelIn;
    if script != [] {
      if script[0].Plain? {
        CallCalls(c, script[0].call);
      }
      RunHttpCalls(if script[0].Defer? then DeferResponse(c) else Call(c, script[0].call), script[1..]);
    }
  }

  lemma TerminateCalls(c: Con, ec: Ec)
    ensures Terminate(c, ec).world.calls == c.world.calls
  {
    hide CancelIn;
  }

  lemma WriteHttpResponseCalls(c: Con, ec: Ec)
    ensures WriteHttpResponse(c, ec).world.calls == c.world.calls
  {
    hide RespondWith;
    RespondWithCalls(c, 500, General);
    RespondWithCalls(c, c.status, ec);
  }

  lemma RespondWithCalls(c: Con, status: nat, ec: Ec)
    ensures RespondWith(c, status, ec).world.calls == c.world.calls
  {
  }

  lemma WriteHttpResponseErrorCalls(c: Con, ec: Ec)
    ensures WriteHttpResponseError(c, ec).world.calls == c.world.calls
  {
    hide WriteHttpResponse, Terminate;
    TerminateCalls(c, InvalidState);
    WriteHttpResponseCalls(c.(internal := ProcessHttpRequest), ec);
  }

  lemma PlainDelivers(c: Con, a: Answers)
    ensures Delivered(HandleRequest(c, NotWebsocket, a)) == Delivered(c)
  {
    hide WriteHttpResponse, RunHttp;
    var d := c.(internal := ProcessHttpRequest);
    RunHttpCalls(HttpRequested(d), a.httpScript);
    WriteHttpResponseCalls(ProcessHttp(d, a).0, ProcessHttp(d, a).1);
  }

  lemma HandshakeDelivers(c: Con, hybi00: bool, key3: bool, a: Answers)
    ensures Delivered(HandleRequest(c, Supported(hybi00, key3), a)) == Delivered(c)
  {
    hide WriteHttpResponse, WriteHttpResponseError, Run;
    WriteHttpResponseErrorCalls(c.(hasProcessor := true, status := INTERNAL_SERVER_ERROR), ShortKey3);
    var d := c.(hasProcessor := true, internal := ProcessHttpRequest);
    RunCalls(d, a.validateScript);
    WriteHttpResponseCalls(ProcessHandshake(d, a).0, ProcessHandshake(d, a).1);
  }

  /** A handshake completion that is not handled delivers nothing. */
  lemma UnhandledDelivers(c: Con, s: Step)
    requires Enabled(c, s) && IsHandshake(s)
    requires s.ec != Success || c.state != Connecting || c.internal != Awaited(s)
    ensures Delivered(Next(c, s)) == Delivered(c)
  {
    hide Next, Enabled;
    if c.state == Closed {
      ClosedIgnores(c, s);
    } else {
      HandshakeErrorEnds(c, s);
    }
  }

  lemma HandshakeReadDelivers(c: Con, ec: OuterEc, bytes: HandshakeBytes)
    requires HandshakeRead in c.world.events
    ensures Delivered(Next(c, HandshakeReadStep(ec, bytes))) == Delivered(c)
  {
    hide Next;
    if ec != Success || c.state != Connecting || c.internal != ReadHttpRequest {
      UnhandledDelivers(c, HandshakeReadStep(ec, bytes));
      hide Received, HandleReadHandshake;
    } else {
      ReadsHandshake(c, bytes);
      BytesDeliver(Received(c, HandshakeRead), bytes);
      hide HandleReadHandshake;
    }
  }

  lemma BytesDeliver(c: Con, bytes: HandshakeBytes)
    requires c.state == Connecting && c.internal == ReadHttpRequest
    ensures Delivered(HandleReadHandshake(c, Success, bytes)) == Delivered(c)
  {
    hide HandleRequest, Terminate, WriteHttpResponseError;
    TerminateCalls(c, General);
    match bytes
    case ParseFailed(status) => WriteHttpResponseErrorCalls(c.(status := status), HttpParseError);
    case Request(processor, a) => RequestDelivers(c, processor, a);
    case _ =>
  }

  lemma RequestDelivers(c: Con, processor: ProcessorInit, a: Answers)
    ensures Delivered(HandleRequest(c, processor, a)) == Delivered(c)
  {
    hide HandleRequest;
    match processor
    case NotWebsocket => PlainDelivers(c, a);
    case Supported(hybi00, key3) => HandshakeDelivers(c, hybi00, key3, a);
    case _ => VersionDelivers(c, processor, a);
  }

  lemma VersionDelivers(c: Con, processor: ProcessorInit, a: Answers)
    requires processor == UnknownVersion || processor == NoProcessor
    ensures Delivered(HandleRequest(c, processor, a)) == Delivered(c)
  {
    hide WriteHttpResponseError;
    WriteHttpResponseErrorCalls(c.(status := BAD_REQUEST), InvalidVersion);
    WriteHttpResponseErrorCalls(c.(hasProcessor := false, status := BAD_REQUEST), UnsupportedVersion);
  }

  lemma OpenedDelivers(c: Con, script: seq<Api>, incoming: seq<Incoming>)
    ensures var d := Run(JustOpened(c), script);
      && d == Opened(CancelTimer(c), script)
      && Delivered(HandleReadFrame(d, Success, incoming)) == Delivered(c) + Deliveries(Met(d, incoming))
  {
    hide Run, ProcessIncoming, Met, CancelIn;
    var d := Run(JustOpened(c), script);
    OpenedIs(c, script);
    RunCalls(JustOpened(c), script);
    RunFrame(JustOpened(c), script);
    ProcessIncomingDelivers(d, incoming);
  }

  lemma ResponseWrittenDelivers(c: Con, s: Step)
    requires Enabled(c, s) && s.HttpResponseWrittenStep?
    ensures Delivered(Next(c, s)) == Delivered(c) + Deliveries(MetAt(c, s))
  {
    hide Next, Met, ReadsOn, Run, HandleReadFrame, JustOpened;
    if s.ec != Success || c.state != Connecting || c.internal != ProcessHttpRequest {
      UnhandledDelivers(c, s);
      assert Deliveries([]) == [];
    } else {
      var r := Reported(c, s);
      ResponseWrittenEffect(c, s.script, s.incoming);
      ReadAtOnce(Run(JustOpened(r), s.script), s.incoming);
      OpenedDelivers(r, s.script, s.incoming);
    }
  }

  lemma ResponseReadDelivers(c: Con, s: Step)
    requires Enabled(c, s) && s.HttpResponseReadStep?
    ensures Delivered(Next(c, s)) == Delivered(c) + Deliveries(MetAt(c, s))
  {
    hide Next, Met;
    if s.ec != Success || c.state != Connecting || c.internal != ReadHttpResponse {
      UnhandledDelivers(c, s);
    } else if s.response.Response? && s.response.validates {
      SessionDelivers(c, s);
    } else {
      NoResponseEffect(c, s.response);
    }
  }

  lemma SessionDelivers(c: Con, s: Step)
    requires s.HttpResponseReadStep? && s.ec == Success && s.response.Response? && s.response.validates
    requires c.state == Connecting && c.internal == ReadHttpResponse && HttpResponseRead in c.world.events
    ensures Delivered(Next(c, s)) == Delivered(c) + Deliveries(MetAt(c, s))
  {
    hide Next, Terminate, Opened, HandleReadFrame, Run, Met, CancelTimer, JustOpened, Deliveries;
    var r := Received(c, HttpResponseRead);
    var t := Terminate(r, ExtensionNegotiationFailed);
    ReadsResponse(c, s.response);
    TerminateCalls(r, ExtensionNegotiationFailed);
    TerminatedTwice(r, ExtensionNegotiationFailed);
    OpenedDelivers(if s.response.negotiates then r else t, s.response.script, s.response.incoming);
  }

  /** A termination has no timer left to cancel, whether or not it was cancelled before. */
  lemma TerminatedTwice(c: Con, ec: Ec)
    ensures CancelTimer(Terminate(c, ec)) == Terminate(CancelTimer(c), ec) == Terminate(c, ec)
  {
  }

  lemma StepDelivers(c: Con, s: Step)
    requires Enabled(c, s) && Defined(c, s)
    ensures Delivered(Next(c, s)) == Delivered(c) + Deliveries(MetAt(c, s))
  {
    match s {
      case HandshakeReadStep(ec, handshake) =>
        HandshakeReadDelivers(c, ec, handshake);
        hide Next;
      case HttpResponseWrittenStep(_, _, _) => ResponseWrittenDelivers(c, s);
      case HttpResponseReadStep(_, _) => ResponseReadDelivers(c, s);
      case FrameReadStep(ec, incoming) => FrameReadDelivers(c, ec, incoming);
      case HttpRequestWrittenStep(ec) => RequestWrittenDelivers(c, ec);
      case _ => OthersDeliver(c, s);
    }
    hide MetAt;
  }

  lemma RequestWrittenDelivers(c: Con, ec: OuterEc)
    requires HttpRequestWritten in c.world.events
    ensures Delivered(Next(c, HttpRequestWrittenStep(ec))) == Delivered(c)
  {
    hide Terminate;
    TerminateCalls(Received(c, HttpRequestWritten), InvalidState);
    TerminateCalls(Received(c, HttpRequestWritten), ec);
  }

  lemma OthersDeliver(c: Con, s: Step)
    requires Enabled(c, s) && Defined(c, s) && !IsHandshake(s) && !s.FrameReadStep?
    ensures Delivered(Next(c, s)) == Delivered(c)
  {
    hide Call, Terminate, Run, P.WriteNow, P.FinishNow;
    match s
    case CallStep(call) => CallCalls(c, call);
    case StartStep => TerminateCalls(c, InvalidState);
    case TransportReadyStep(ec, _, _) =>
      TerminateCalls(Received(c, TransportReady), InvalidState);
      TerminateCalls(Received(c, TransportReady), ec);
    case ShutdownStep(status, script) => RunCalls(Terminated(Received(c, ShutdownDone(status)), status), script);
    case WriteDoneStep(ec) => TerminateCalls(c.(pipe := P.FinishNow(c.pipe, ec != Success)), ec);
    case TimerStep(id) =>
      var d := c.(world := c.world.(timers := c.world.timers[id := c.world.timers[id].(phase := Done)]));
      TerminateCalls(d, OpenHandshakeTimeout);
      TerminateCalls(d, CloseHandshakeTimeout);
    case _ =>
  }

  lemma FrameReadDelivers(c: Con, ec: OuterEc, incoming: seq<Incoming>)
    requires FrameRead in c.world.events
    ensures var s := FrameReadStep(ec, incoming); Delivered(Next(c, s)) == Delivered(c) + Deliveries(MetAt(c, s))
  {
    hide Terminate, ProcessIncoming, Met;
    var r := Received(c, FrameRead);
    TerminateCalls(r, Success);
    TerminateCalls(r, InvalidState);
    TerminateCalls(r, ec);
    ProcessIncomingDelivers(r, incoming);
  }

  /** The last that was done about reading, in the course of some steps, was to pause it. */
  predicate Paused(steps: seq<Step>) {
    if steps == [] then false
    else
      var last := steps[|steps| - 1];
      last.PauseStep? || (!last.ResumeStep? && Paused(steps[..|steps| - 1]))
  }

  /** Over all runs: a connection reads on unless it was paused and not resumed since. */
  lemma {:induction false} ReadsUnlessPaused(trace: seq<Con>, steps: seq<Step>, config: Config, n: nat)
    requires RunOf(trace, steps) && trace[0] == Initial(config) && n <= |steps|
    ensures trace[n].readFlag <==> !Paused(steps[..n])
  {
    hide Valid, Next, Enabled, Defined, CloseFrames.Counted, CloseFrames.Extra;
    if n > 0 {
      ReadsUnlessPaused(trace, steps, config, n - 1);
      InitialValid(config);
      CloseFrames.NothingSent(Initial(config));
      CloseFrames.RunAddsUp(trace, steps, n - 1);
      CloseFrames.StepAdds(trace[n - 1], steps[n - 1]);
      NextGrows(trace[n - 1], steps[n - 1]);
      assert steps[..n][..n - 1] == steps[..n - 1] && steps[..n][n - 1] == steps[n - 1];
    }
  }

  function MetUpTo(trace: seq<Con>, steps: seq<Step>, n: nat): seq<seq<byte>>
    requires n <= |steps| && |trace| == |steps| + 1
  {
    if n == 0 then [] else MetUpTo(trace, steps, n - 1) + MetAt(trace[n - 1], steps[n - 1])
  }

  /** Over all runs: the message handler has been given exactly the messages that were looked at while the
    * session was open, each once, in order, and while it was open. */
  lemma {:induction false} AllDelivered(trace: seq<Con>, steps: seq<Step>, config: Config, n: nat)
    requires RunOf(trace, steps) && trace[0] == Initial(config) && n <= |steps|
    ensures Delivered(trace[n]) == Deliveries(MetUpTo(trace, steps, n))
  {
    hide Valid, Next, Enabled, Defined, MetAt, Deliveries, CloseFrames.Counted, CloseFrames.Extra;
    if n == 0 {
      DeliveriesAppend([], []);
    } else {
      AllDelivered(trace, steps, config, n - 1);
      InitialValid(config);
      CloseFrames.NothingSent(Initial(config));
      CloseFrames.RunAddsUp(trace, steps, n - 1);
      CloseFrames.StepAdds(trace[n - 1], steps[n - 1]);
      StepDelivers(trace[n - 1], steps[n - 1]);
      DeliveriesAppend(MetUpTo(trace, steps, n - 1), MetAt(trace[n - 1], steps[n - 1]));
    }
  }
}
