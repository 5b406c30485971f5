/** What the calls and steps of a connection do, each said in terms of the fields and of what the outside
  * sees: frames pushed, messages delivered, writes and completions pending, the end of the connection. */
module Effects {
  import opened Bytes
  import opened CloseCodes
  import opened Lifecycle
  import opened LifecycleSafety
  import P = WritePipeline

  // ---------------------------------------------------------------- the end of the connection

  /** A cancelled timer; an expiry that is on its way stays on its way. */
  function Stopped(t: Timer): Timer {
    if t.phase == Armed then t.(phase := Cancelled) else t
  }

  /** `d` is what a termination makes of `c`.  The first one shuts the transport down, and every one cancels
    * the timer that is held and records its error, if it has one. */
  ghost predicate Ended(c: Con, d: Con, ec: Ec) {
    && d.state == Closed && d.timer == None
    && d.ec == (if ec == Success then c.ec else ec)
    && d.localCode == (if ec == Success then c.localCode else 1006)
    && d.world.shutdowns == c.world.shutdowns + (if c.state == Closed then 0 else 1)
    && d.world.trail == c.world.trail + (if c.state == Closed then [] else [Closed])
    && d.world.events == c.world.events + (if c.state == Closed then multiset{}
                                           else if c.state == Connecting then multiset{ShutdownDone(Failed)}
                                           else multiset{ShutdownDone(WasOpen)})
    && |d.world.timers| == |c.world.timers|
    && (forall i :: 0 <= i < |c.world.timers| ==>
          d.world.timers[i] == if c.timer == Some(i) then Stopped(c.world.timers[i]) else c.world.timers[i])
    && d.pipe == c.pipe && d.world.calls == c.world.calls && d.internal == c.internal && d.status == c.status
    && d.wasClean == c.wasClean && d.remoteCode == c.remoteCode && d.readFlag == c.readFlag
  }

  lemma TerminationEffect(c: Con, ec: OuterEc)
    ensures Ended(c, Next(c, CallStep(TerminateCall(ec))), ec)
  {
    TerminateEnds(c, ec);
    hide Terminate, Ended;
  }

  lemma TerminateEnds(c: Con, ec: Ec)
    ensures Ended(c, Terminate(c, ec), ec)
  {
  }

  // ---------------------------------------------------------------- sending

  /** A write is outstanding or a `write_frame` dispatched. */
  predicate WritePending(c: Con) {
    c.pipe.threads.writing + c.pipe.threads.dispatched > 0
  }

  /** One message more is queued, and nothing but the pipeline has changed. */
  ghost predicate Pushes(c: Con, d: Con, m: P.Message) {
    && d == c.(pipe := d.pipe)
    && d.pipe.history.pushed == c.pipe.history.pushed + [m]
    && d.pipe.queue == c.pipe.queue + [m]
    && WritePending(d)
  }

  /** `send`, `ping` and `pong`: on an open session, with a frame that could be prepared, exactly that frame
    * is queued and there is something that will write it; in every other case nothing happens. */
  lemma SendEffect(c: Con, a: Api)
    requires Valid(c) && (a.SendCall? || a.PingCall? || a.PongCall?)
    ensures var kind := if a.SendCall? then P.Data else if a.PingCall? then P.Ping else P.Pong;
      if c.state == Open && a.prepared.Frame?
      then Pushes(c, Call(c, a), P.Message(kind, a.prepared.header, a.prepared.payload, false))
      else Call(c, a) == c
  {
    var kind := if a.SendCall? then P.Data else if a.PingCall? then P.Ping else P.Pong;
    if c.state == Open && a.prepared.Frame? {
      PushEffect(c, P.Message(kind, a.prepared.header, a.prepared.payload, false));
    }
    hide Valid, Pushes, PushMessage;
  }

  lemma PushEffect(c: Con, m: P.Message)
    requires Valid(c) && c.state != Closed
    ensures Pushes(c, PushMessage(c, m), m)
  {
    P.PushNowEffect(c.pipe, m);
    var q := P.PushNow(c.pipe, m);
    assert P.Exclusive(q) && q.threads.stopped == 0;
    hide P.PushNow, P.Conserved, P.TerminalsEnd;
  }

  /** The codes after which the connection is dropped once the close frame is written. */
  const DROPPING_CODES := {1002, 1007, 1008, 1009, 1011}

  /** A close frame goes out: the session is closing, and the close timer, if there is to be one, runs. */
  ghost predicate Closes(c: Con, d: Con, prepared: Prepared, terminal: bool)
    requires prepared.Frame?
  {
    var armed := c.config.closeTimeout > 0 && c.config.hasTimers;
    && d.state == Closing && d.world.trail == c.world.trail + [Closing]
    && d.pipe.history.pushed
       == c.pipe.history.pushed + [P.Message(P.Close, prepared.header, prepared.payload, terminal)]
    && d.pipe.queue == c.pipe.queue + [P.Message(P.Close, prepared.header, prepared.payload, terminal)]
    && WritePending(d)
    && d.world.timers == c.world.timers + (if armed then [Timer(CloseTimer, Armed)] else [])
    && d.timer == (if armed then Some(|c.world.timers|) else if c.config.closeTimeout > 0 then None else c.timer)
    && d.world.events == c.world.events && d.world.calls == c.world.calls && d.internal == c.internal
    && d.world.shutdowns == c.world.shutdowns && d.ec == c.ec && d.readFlag == c.readFlag
  }

  lemma SendCloseFrameCloses(c: Con, code: Code, ack: bool, terminal: bool, prepared: Prepared)
    requires Valid(c) && c.state != Closed
    ensures var d := SendCloseFrame(c, code, ack, terminal, prepared).0;
      && (prepared.Frame? ==> Closes(c, d, prepared, terminal) && d.wasClean == (c.wasClean || ack))
      && (!prepared.Frame? ==> d == c.(localCode := d.localCode))
      && d.localCode == LocalCode(c, code, ack)
  {
    hide Valid, P.PushNow, LocalCode;
    if prepared.Frame? {
      var m := P.Message(P.Close, prepared.header, prepared.payload, terminal);
      PushEffect(c, m);
      SendCloseFrameSets(c, code, ack, terminal, prepared);
      assert SendCloseFrame(c, code, ack, terminal, prepared).0.pipe == PushMessage(c, m).pipe;
      hide SendCloseFrame;
    }
  }

  lemma SendCloseFrameSets(c: Con, code: Code, ack: bool, terminal: bool, prepared: Prepared)
    requires prepared.Frame?
    ensures var d := SendCloseFrame(c, code, ack, terminal, prepared).0;
      var armed := c.config.closeTimeout > 0 && c.config.hasTimers;
      && d.pipe == P.PushNow(c.pipe, P.Message(P.Close, prepared.header, prepared.payload, terminal))
      && d.wasClean == (c.wasClean || ack) && d.localCode == LocalCode(c, code, ack)
      && d.state == Closing && d.world.trail == c.world.trail + [Closing]
      && d.world.timers == c.world.timers + (if armed then [Timer(CloseTimer, Armed)] else [])
      && d.timer == (if armed then Some(|c.world.timers|) else if c.config.closeTimeout > 0 then None else c.timer)
      && d.world.events == c.world.events && d.world.calls == c.world.calls && d.internal == c.internal
      && d.world.shutdowns == c.world.shutdowns && d.ec == c.ec && d.readFlag == c.readFlag
  {
    hide P.PushNow, LocalCode;
  }

  /** `close`: an open session sends one close frame with the code it was given, and drops the connection
    * after it for a code that calls for that.  Without a frame, or in any other state, it goes on. */
  lemma CloseEffect(c: Con, code: Code, prepared: Prepared)
    requires Valid(c)
    ensures var d := Call(c, Close(code, prepared));
      && (c.state != Open ==> d == c)
      && (c.state == Open ==> d.localCode == (if c.config.silentClose || code == 0 then 1005 else code))
      && (c.state == Open && prepared.Frame? ==>
            Closes(c, d, prepared, code in DROPPING_CODES) && d.wasClean == c.wasClean)
      && (c.state == Open && !prepared.Frame? ==> d == c.(localCode := d.localCode))
  {
    if c.state == Open {
      SendCloseFrameCloses(c, code, false, Terminal(code), prepared);
    }
    hide Valid, Closes, SendCloseFrame;
  }

  // ---------------------------------------------------------------- pausing

  /** The connection asks for more to read, unless it is paused. */
  function NextRead(c: Con): Con {
    if c.readFlag then c.(world := c.world.(events := c.world.events + multiset{FrameRead})) else c
  }

  /** Pausing and resuming are dispatched; once they run no read is asked for, or one is. */
  lemma PauseEffect(c: Con)
    ensures Call(c, PauseReading) == c.(world := c.world.(events := c.world.events + multiset{PauseDispatched}))
    ensures Call(c, ResumeReading) == c.(world := c.world.(events := c.world.events + multiset{ResumeDispatched}))
    ensures Enabled(c, PauseStep) ==>
      Next(c, PauseStep) == Received(c, PauseDispatched).(readFlag := false)
    ensures Enabled(c, ResumeStep) ==>
      && FrameRead in Next(c, ResumeStep).world.events
      && Next(c, ResumeStep) == NextRead(Received(c, ResumeDispatched).(readFlag := true))
  {
  }

  // ---------------------------------------------------------------- the opening handshake

  /** The completions of the opening handshake. */
  predicate IsHandshake(s: Step) {
    s.HandshakeReadStep? || s.HttpResponseWrittenStep? || s.HttpRequestWrittenStep? || s.HttpResponseReadStep?
  }

  /** The connection once the completion that the step reports is no longer owed. */
  function Reported(c: Con, s: Step): Con
    requires IsHandshake(s)
  {
    var e := match s
             case HandshakeReadStep(_, _) => HandshakeRead
             case HttpResponseWrittenStep(_, _, _) => HttpResponseWritten
             case HttpRequestWrittenStep(_) => HttpRequestWritten
             case _ => HttpResponseRead;
    c.(world := c.world.(events := c.world.events - multiset{e}))
  }

  /** The internal state in which each of them is waited for. */
  function Awaited(s: Step): InternalState
    requires IsHandshake(s)
  {
    match s
    case HandshakeReadStep(_, _) => ReadHttpRequest
    case HttpResponseWrittenStep(_, _, _) => ProcessHttpRequest
    case HttpRequestWrittenStep(_) => WriteHttpRequest
    case _ => ReadHttpResponse
  }

  /** An error reported during the opening handshake, and a completion that nobody waits for, end the
    * connection, in every state but closed. */
  lemma HandshakeErrorEnds(c: Con, s: Step)
    requires Enabled(c, s) && IsHandshake(s) && c.state != Closed
    requires s.ec != Success || c.state != Connecting || c.internal != Awaited(s)
    ensures Ended(Reported(c, s), Next(c, s), if s.ec != Success then s.ec else InvalidState)
  {
    hide Ended, Terminate, HandleRequest, WriteHttpResponseError, Opened, HandleReadFrame, CancelTimer;
    TerminateEnds(Reported(c, s), s.ec);
    TerminateEnds(Reported(c, s), InvalidState);
  }

  /** For a session that is connecting this means that it has failed. */
  lemma HandshakeErrorFails(c: Con, s: Step)
    requires Enabled(c, s) && IsHandshake(s) && c.state == Connecting
    requires s.ec != Success || c.internal != Awaited(s)
    ensures var d := Next(c, s);
      && d.state == Closed && d.ec == (if s.ec != Success then s.ec else InvalidState)
      && d.world.shutdowns == c.world.shutdowns + 1 && ShutdownDone(Failed) in d.world.events
  {
    HandshakeErrorEnds(c, s);
    hide Next;
  }

  /** On a closed session a completion is ignored, and so is the end of the stream; any other error is
    * recorded, and nothing is shut down again. */
  lemma ClosedIgnores(c: Con, s: Step)
    requires Enabled(c, s) && IsHandshake(s) && c.state == Closed
    ensures s.ec == Success || s.ec == Eof ==> Next(c, s) == Reported(c, s)
    ensures s.ec != Success && s.ec != Eof ==> Ended(Reported(c, s), Next(c, s), s.ec)
  {
    TerminateEnds(Reported(c, s), s.ec);
    hide Ended, Terminate, HandleRequest, WriteHttpResponseError, Opened, HandleReadFrame, CancelTimer;
  }

  /** A response with a status is being written, and its error is recorded. */
  ghost predicate Responding(c: Con, d: Con, status: nat, ec: Ec) {
    && d.status == status && d.ec == ec && d.internal == ProcessHttpRequest
    && d.world == c.world.(events := c.world.events + multiset{HttpResponseWritten})
    && d.state == c.state && d.pipe == c.pipe && d.timer == c.timer && d.isHttp == c.isHttp
  }

  /** A server waits for a request that has not been recognised as plain HTTP. */
  predicate Expecting(c: Con) {
    && c.state == Connecting && c.internal == ReadHttpRequest && HandshakeRead in c.world.events && !c.isHttp
    && c.ec != HttpConnectionEnded
  }

  /** How the step is taken, for a request that is awaited. */
  lemma ReadsHandshake(c: Con, bytes: HandshakeBytes)
    requires c.state == Connecting && c.internal == ReadHttpRequest && HandshakeRead in c.world.events
    ensures var s := HandshakeReadStep(Success, bytes); var r := Received(c, HandshakeRead);
      && r == Reported(c, s)
      && Next(c, s) == HandleReadHandshake(r, Success, bytes)
      && (bytes.Request? ==> Next(c, s) == HandleRequest(r, bytes.processor, bytes.answers))
  {
    hide HandleRequest, WriteHttpResponseError, Terminate;
  }

  /** Bytes that do not make a request: the connection ends, more are read, or an error is answered. */
  lemma NoRequestEffect(c: Con, bytes: HandshakeBytes)
    requires Expecting(c) && !bytes.Request?
    ensures var s := HandshakeReadStep(Success, bytes); var r, d := Reported(c, s), Next(c, s);
      match bytes
      case NeedMore => d == c
      case ParseFailed(status) =>
        Responding(r, d, if status == 0 then 500 else status, if status == 0 then General else HttpParseError)
      case _ => Ended(r, d, General)
  {
    hide Next;
    ReadsHandshake(c, bytes);
    var r := Received(c, HandshakeRead);
    TerminateEnds(r, General);
    assert bytes.NeedMore? ==> Expect(r, HandshakeRead).world.events == c.world.events;
    if bytes.ParseFailed? {
      RespondError(r, r.(status := bytes.status), HttpParseError);
    }
    hide Terminate, Ended, WriteHttpResponseError, Responding, HandleRequest;
  }

  lemma RespondError(c: Con, d: Con, ec: Ec)
    requires d == c.(status := d.status, hasProcessor := d.hasProcessor) && c.internal == ReadHttpRequest
    requires ec != HttpConnectionEnded
    ensures Responding(c, WriteHttpResponseError(d, ec), if d.status == 0 then 500 else d.status,
                       if d.status == 0 then General else ec)
  {
  }

  lemma RespondDirectly(c: Con, d: Con, ec: Ec)
    requires d == c.(status := d.status, hasProcessor := d.hasProcessor, internal := ProcessHttpRequest)
    requires ec != HttpConnectionEnded && d.status != 0
    ensures Responding(c, WriteHttpResponse(d, ec), d.status, ec)
  {
  }

  /** Requests for a version of the protocol that is not known or not supported. */
  lemma VersionRefused(c: Con, processor: ProcessorInit, a: Answers)
    requires Expecting(c)
    ensures var s := HandshakeReadStep(Success, Request(processor, a));
      && (processor == UnknownVersion ==> Responding(Reported(c, s), Next(c, s), 400, InvalidVersion))
      && (processor == NoProcessor ==> Responding(Reported(c, s), Next(c, s), 400, UnsupportedVersion))
      && (processor == Supported(true, false) ==> Responding(Reported(c, s), Next(c, s), 500, ShortKey3))
  {
    hide Next;
    ReadsHandshake(c, Request(processor, a));
    var r := Received(c, HandshakeRead);
    RespondError(r, r.(status := 400), InvalidVersion);
    RespondError(r, r.(status := 400, hasProcessor := false), UnsupportedVersion);
    RespondError(r, r.(status := 500, hasProcessor := true), ShortKey3);
    hide WriteHttpResponseError, Responding, ProcessHttp, ProcessHandshake, WriteHttpResponse;
  }

  /** Plain requests without a valid URI or without an HTTP handler. */
  lemma PlainRefused(c: Con, a: Answers)
    requires Expecting(c)
    ensures var s := HandshakeReadStep(Success, Request(NotWebsocket, a));
      && (!a.uriValid ==> Responding(Reported(c, s), Next(c, s), 400, InvalidUri))
      && (a.uriValid && !c.config.hasHttpHandler ==> Responding(Reported(c, s), Next(c, s), 426, UpgradeRequired))
  {
    hide Next;
    ReadsHandshake(c, Request(NotWebsocket, a));
    var r := Received(c, HandshakeRead);
    RespondDirectly(r, r.(internal := ProcessHttpRequest, status := 400), InvalidUri);
    RespondDirectly(r, r.(internal := ProcessHttpRequest, status := 426), UpgradeRequired);
    hide WriteHttpResponse, Responding, RunHttp;
  }

  /** Handshakes that the protocol processor refuses, or whose URI is not valid. */
  lemma HandshakeRefused(c: Con, hybi00: bool, key3: bool, a: Answers)
    requires Expecting(c) && (hybi00 ==> key3) && !(a.validates && a.extensionsParse && a.uriValid)
    ensures var s := HandshakeReadStep(Success, Request(Supported(hybi00, key3), a));
      Responding(Reported(c, s), Next(c, s), 400,
                 if !a.validates then ProcessorFailure(0)
                 else if !a.extensionsParse then ProcessorFailure(1) else InvalidUri)
  {
    hide Next;
    ReadsHandshake(c, Request(Supported(hybi00, key3), a));
    var r := Received(c, HandshakeRead);
    var d := r.(hasProcessor := true, internal := ProcessHttpRequest, status := 400);
    RespondDirectly(r, d, ProcessHandshake(d, a).1);
    hide WriteHttpResponse, Responding, Run;
  }

  /** A handshake request that gets as far as the application. */
  lemma RequestOffered(c: Con, hybi00: bool, key3: bool, a: Answers)
    requires Expecting(c) && (hybi00 ==> key3) && a.validates && a.extensionsParse && a.uriValid
    ensures var s := HandshakeReadStep(Success, Request(Supported(hybi00, key3), a));
      var e := Run(Reported(c, s).(hasProcessor := true, internal := ProcessHttpRequest), a.validateScript);
      && (a.accepts && a.processes ==> Responding(e, Next(c, s), 101, Success))
      && (a.accepts && !a.processes ==> Responding(e, Next(c, s), 500, ProcessorFailure(2)))
      && (!a.accepts ==> Responding(e, Next(c, s), if e.status == 0 then 400 else e.status, Rejected))
  {
    hide Next;
    ReadsHandshake(c, Request(Supported(hybi00, key3), a));
    var e := Run(Received(c, HandshakeRead).(hasProcessor := true, internal := ProcessHttpRequest), a.validateScript);
    RunFrame(Received(c, HandshakeRead).(hasProcessor := true, internal := ProcessHttpRequest), a.validateScript);
    hide Run;
  }

  lemma {:induction false} RunFrame(c: Con, script: seq<Api>)
    ensures Run(c, script).internal == c.internal && Run(c, script).isHttp == c.isHttp
    decreases |script|
  {
    hide Call;
    if script != [] {
      CallFrame(c, script[0]);
      RunFrame(Call(c, script[0]), script[1..]);
    }
  }

  /** The session has just opened. */
  function JustOpened(c: Con): Con {
    CancelTimer(c).(internal := ProcessConnection, state := Open,
                    world := CancelTimer(c).world.(trail := c.world.trail + [Open],
                                                   calls := c.world.calls.(opens := c.world.calls.opens + 1)))
  }

  /** Frames are processed as if they had just been read. */
  function ReadsOn(c: Con, incoming: seq<Incoming>): Con {
    Next(Expect(c, FrameRead), FrameReadStep(Success, incoming))
  }

  /** The response has been written: switching protocols opens the session, runs the open handler and goes
    * on with what came along as if it had just been read; any other response ends the connection. */
  lemma ResponseWrittenEffect(c: Con, script: seq<Api>, incoming: seq<Incoming>)
    requires c.state == Connecting && c.internal == ProcessHttpRequest && HttpResponseWritten in c.world.events
    ensures var s := HttpResponseWrittenStep(Success, script, incoming); var r := Reported(c, s);
      && (c.status == 101 ==>
            Next(c, s) == ReadsOn(Run(JustOpened(r), script), incoming))
      && (c.status != 101 ==> Ended(r, Next(c, s), if c.isHttp then HttpConnectionEnded else c.ec))
  {
    var r := Received(c, HttpResponseWritten);
    var d := CancelTimer(r);
    ReadAtOnce(Run(JustOpened(r), script), incoming);
    CancelledEnds(r, c.ec);
    CancelledEnds(r, HttpConnectionEnded);
    CancelledMarked(r);
    hide Terminate, Ended, Run, HandleReadFrame, CancelIn;
  }

  lemma ReadAtOnce(c: Con, incoming: seq<Incoming>)
    ensures ReadsOn(c, incoming) == HandleReadFrame(c, Success, incoming)
  {
    assert Received(Expect(c, FrameRead), FrameRead) == c by {
      assert c.world.events + multiset{FrameRead} - multiset{FrameRead} == c.world.events;
    }
    hide HandleReadFrame, Expect, Received;
  }

  lemma CancelledEnds(c: Con, ec: Ec)
    ensures Ended(c, Terminate(CancelTimer(c), ec), ec)
  {
  }

  lemma CancelledMarked(c: Con)
    ensures Ended(c, Terminate(CancelTimer(c).(ec := HttpConnectionEnded), HttpConnectionEnded), HttpConnectionEnded)
  {
  }

  lemma RequestWrittenEffect(c: Con)
    requires c.state == Connecting && c.internal == WriteHttpRequest && HttpRequestWritten in c.world.events
    ensures var s := HttpRequestWrittenStep(Success); var r := Reported(c, s);
      Next(c, s) == r.(internal := ReadHttpResponse,
                       world := r.world.(events := r.world.events + multiset{HttpResponseRead}))
  {
  }

  lemma ReadsResponse(c: Con, response: ResponseBytes)
    requires c.state == Connecting && c.internal == ReadHttpResponse && HttpResponseRead in c.world.events
    ensures var s := HttpResponseReadStep(Success, response); var r := Received(c, HttpResponseRead);
      && r == Reported(c, s) && r.state == Connecting && r.internal == ReadHttpResponse
      && Next(c, s) == HandleReadHttpResponse(r, Success, response)
  {
    hide HandleReadHttpResponse;
  }

  /** A client reads a response that is malformed, incomplete, or does not validate. */
  lemma NoResponseEffect(c: Con, response: ResponseBytes)
    requires c.state == Connecting && c.internal == ReadHttpResponse && HttpResponseRead in c.world.events
    ensures var s := HttpResponseReadStep(Success, response); var r, d := Reported(c, s), Next(c, s);
      && (response.BadResponse? ==> Ended(r, d, General))
      && (response.MoreResponse? ==> d == c)
      && (response.Response? && !response.validates ==> Ended(r, d, ProcessorFailure(3)))
  {
    hide Next;
    ReadsResponse(c, response);
    var r := Received(c, HttpResponseRead);
    TerminateEnds(r, General);
    CancelledEnds(r, ProcessorFailure(3));
    assert response.MoreResponse? ==> Expect(r, HttpResponseRead).world.events == c.world.events;
    hide Terminate, Ended, Opened, HandleReadFrame, CancelTimer;
  }

  /** A response that validates opens the session and goes on with what came along, after the connection
    * has been terminated if the extensions cannot be negotiated. */
  lemma ResponseReadEffect(c: Con, negotiates: bool, script: seq<Api>, incoming: seq<Incoming>) returns (e: Con)
    requires c.state == Connecting && c.internal == ReadHttpResponse && HttpResponseRead in c.world.events
    ensures var s := HttpResponseReadStep(Success, Response(true, negotiates, script, incoming));
      && (if negotiates then e == Reported(c, s) else Ended(Reported(c, s), e, ExtensionNegotiationFailed))
      && Next(c, s) == ReadsOn(Run(JustOpened(e), script), incoming)
  {
    hide Next, Terminate, Ended, Run, JustOpened, HandleReadFrame, Opened, CancelTimer, Expect, ReadsOn;
    ReadsResponse(c, Response(true, negotiates, script, incoming));
    var r := Received(c, HttpResponseRead);
    e := if negotiates then r else Terminate(CancelTimer(r), ExtensionNegotiationFailed);
    CancelledEnds(r, ExtensionNegotiationFailed);
    NoTimerLeft(CancelTimer(r), ExtensionNegotiationFailed);
    ReadAtOnce(Run(JustOpened(e), script), incoming);
    OpenedIs(e, script);
  }

  lemma NoTimerLeft(c: Con, ec: Ec)
    ensures CancelTimer(Terminate(c, ec)) == Terminate(c, ec)
  {
    NothingToCancel(Terminate(c, ec));
    hide CancelIn;
  }

  lemma OpenedIs(c: Con, script: seq<Api>)
    ensures Run(JustOpened(c), script) == Opened(CancelTimer(c), script)
  {
    hide Run, CancelIn;
  }

  lemma NothingToCancel(c: Con)
    requires c.timer == None
    ensures CancelTimer(c) == c
  {
  }

  // ---------------------------------------------------------------- starting, timers, the transport

  lemma StartEffect(c: Con)
    ensures c.internal == UserInit ==>
      Next(c, StartStep) == c.(internal := TransportInit,
                               world := c.world.(events := c.world.events + multiset{TransportReady}))
    ensures c.internal != UserInit ==> Ended(c, Next(c, StartStep), InvalidState)
  {
    TerminateEnds(c, InvalidState);
    hide Terminate, Ended;
  }

  /** The open timer runs from here on, if there is to be one. */
  ghost predicate Opens(c: Con, d: Con) {
    var armed := c.config.openTimeout > 0 && c.config.hasTimers;
    && d.timer == (if armed then Some(|c.world.timers|) else if c.config.openTimeout > 0 then None else c.timer)
    && d.world.timers == c.world.timers + (if armed then [Timer(OpenTimer, Armed)] else [])
  }

  /** The transport is ready: a server waits for a request and a client sends one, both against the clock; a
    * client without a processor, or whose processor cannot fill in a request, does nothing more. */
  lemma TransportReadyEffect(c: Con, ec: OuterEc, processor: bool, request: bool)
    requires TransportReady in c.world.events
    ensures var r := Received(c, TransportReady); var d := Next(c, TransportReadyStep(ec, processor, request));
      if c.internal != TransportInit then Ended(r, d, InvalidState)
      else if ec != Success then Ended(r, d, ec)
      else
        var awaited := if c.config.isServer then HandshakeRead else HttpRequestWritten;
        && d.internal == (if c.config.isServer then ReadHttpRequest else WriteHttpRequest)
        && d.state == c.state && d.pipe == c.pipe && d.world.calls == c.world.calls
        && (c.config.isServer || (processor && request) ==>
              Opens(r, d) && d.world.events == r.world.events + multiset{awaited})
        && (!c.config.isServer && !(processor && request) ==> d.world == r.world && d.timer == c.timer)
        && (!c.config.isServer ==> d.hasProcessor == processor)
  {
    hide Terminate, Ended;
    var r := Received(c, TransportReady);
    if c.internal != TransportInit {
      TerminateEnds(r, InvalidState);
      hide Opens;
    } else if ec != Success {
      TerminateEnds(r, ec);
      hide Opens;
    }
  }

  /** A timer that expired ends the connection, with the error of its kind; one that was cancelled does
    * nothing. */
  lemma TimerEffect(c: Con, id: nat)
    requires Enabled(c, TimerStep(id))
    ensures var t := c.world.timers[id];
      var done := c.(world := c.world.(timers := c.world.timers[id := t.(phase := Done)]));
      if t.phase == Expired
      then Ended(done, Next(c, TimerStep(id)),
                 if t.kind == OpenTimer then OpenHandshakeTimeout else CloseHandshakeTimeout)
      else Next(c, TimerStep(id)) == done
  {
    var done := c.(world := c.world.(timers := c.world.timers[id := c.world.timers[id].(phase := Done)]));
    TerminateEnds(done, OpenHandshakeTimeout);
    TerminateEnds(done, CloseHandshakeTimeout);
    hide Terminate, Ended;
  }

  /** The transport has been shut down: of the handlers exactly the one that the session calls for runs,
    * before the termination handler, and then what they call is done. */
  lemma ShutdownEffect(c: Con, status: TerminateStatus, script: seq<Api>)
    requires ShutdownDone(status) in c.world.events
    ensures var d := Received(c, ShutdownDone(status)); var calls := c.world.calls;
      Next(c, ShutdownStep(status, script)) ==
        Run(d.(world := d.world.(calls := calls.(
          closes := calls.closes + (if status == WasOpen then 1 else 0),
          httpEnds := calls.httpEnds + (if status == Failed && c.ec == HttpConnectionEnded then 1 else 0),
          fails := calls.fails + (if status == Failed && c.ec != HttpConnectionEnded then 1 else 0),
          terminations := calls.terminations + 1))), script)
  {
    hide Run;
  }

  // ---------------------------------------------------------------- deferred responses

  /** The application may set the status only while a request is being processed, and a deferred response
    * is sent at most once. */
  lemma ResponseCalls(c: Con, status: HttpStatus)
    ensures Call(c, SetStatus(status)) == if c.internal == ProcessHttpRequest then c.(status := status) else c
    ensures var d := Call(c, SendHttpResponse);
      && (c.httpState != HttpDeferred ==> d == c)
      && (c.httpState == HttpDeferred ==>
            && d.httpState == HttpBodyWritten
            && d.status == (if c.status == 0 then 500 else c.status)
            && d.ec == (if c.status == 0 then General else Success)
            && d.world == c.world.(events := c.world.events + multiset{HttpResponseWritten})
            && d.state == c.state && d.pipe == c.pipe)
  {
  }

  // ---------------------------------------------------------------- reading

  /** A read that failed, or that came before the session was open.  It ends the connection, but for what is
    * expected of a session that is closed, and a client that is closing takes the end of the stream as the
    * end of the closing handshake. */
  lemma ReadErrorEffect(c: Con, ec: OuterEc, incoming: seq<Incoming>)
    requires FrameRead in c.world.events && (ec != Success || c.internal != ProcessConnection)
    ensures var r, d := Received(c, FrameRead), Next(c, FrameReadStep(ec, incoming));
      if c.state == Closed && (ec == Eof || ec == InvalidState || ec == Success) then d == r
      else if c.state == Closing && !c.config.isServer && ec == Eof then Ended(r, d, Success)
      else Ended(r, d, if ec == Success then InvalidState else ec)
  {
    TerminateEnds(Received(c, FrameRead), Success);
    TerminateEnds(Received(c, FrameRead), InvalidState);
    TerminateEnds(Received(c, FrameRead), ec);
    hide Terminate, Ended, ProcessIncoming;
  }

  /** After the last frame of a read comes the next read. */
  lemma ReadEnds(c: Con)
    requires c.internal == ProcessConnection
    ensures ReadsOn(c, []) == NextRead(c)
  {
    ReadAtOnce(c, []);
    hide ReadsOn;
  }

  lemma ReadsNext(c: Con, f: Incoming, rest: seq<Incoming>)
    requires c.internal == ProcessConnection
    ensures f.ConsumeFailed? ==> ReadsOn(c, [f] + rest) == FailConsume(c, f)
    ensures !f.ConsumeFailed? ==> ReadsOn(c, [f] + rest) == ProcessIncoming(ProcessOne(c, f), rest)
  {
    ReadAtOnce(c, [f] + rest);
    assert ([f] + rest)[1..] == rest;
    hide ReadsOn, ProcessOne, FailConsume;
  }

  lemma ReadsFurther(c: Con, f: Incoming, rest: seq<Incoming>)
    requires c.internal == ProcessConnection && !f.ConsumeFailed? && ProcessOne(c, f).internal == ProcessConnection
    ensures ReadsOn(c, [f] + rest) == ReadsOn(ProcessOne(c, f), rest)
  {
    ReadsNext(c, f, rest);
    ReadAtOnce(ProcessOne(c, f), rest);
    hide ReadsOn, ProcessOne, ProcessIncoming;
  }

  /** The message handler has been given a message. */
  function Given(c: Con, message: seq<byte>): Con {
    c.(world := c.world.(calls := c.world.calls.(messagesIn := c.world.calls.messagesIn + [Delivery(Open, message)])))
  }

  /** A data message goes to the message handler exactly if the session is open, and then what the handler
    * calls is done, before the next frame is looked at. */
  lemma MessageEffect(c: Con, message: seq<byte>, script: seq<Api>, rest: seq<Incoming>)
    requires c.internal == ProcessConnection
    ensures ReadsOn(c, [DataMessage(message, script)] + rest) ==
      ReadsOn(if c.state == Open then Run(Given(c, message), script) else c, rest)
  {
    RunFrame(Given(c, message), script);
    hide Run, ReadsOn;
    ReadsFurther(c, DataMessage(message, script), rest);
  }

  /** A ping on an open session is answered, unless its handler refuses or closes the session, with exactly
    * the one pong that was prepared. */
  lemma PingEffect(c: Con, script: seq<Api>, reply: bool, pong: Prepared, rest: seq<Incoming>) returns (d: Con)
    requires Valid(c) && c.internal == ProcessConnection
    ensures ReadsOn(c, [PingFrame(script, reply, pong)] + rest) == ReadsOn(d, rest)
    ensures c.state != Open ==> d == c
    ensures c.state == Open ==>
      var e := Run(c, script);
      if reply && e.state == Open && pong.Frame?
      then Pushes(e, d, P.Message(P.Pong, pong.header, pong.payload, false)) else d == e
  {
    hide Valid, Run, ReadsOn, Pushes, SendFrame;
    RunFrame(c, script);
    var e := Run(c, script);
    RunKeeps(c, script);
    SendEffect(e, PongCall(pong));
    PushesFrame(e, Call(e, PongCall(pong)), pong);
    d := if c.state != Open then c else if reply then Call(e, PongCall(pong)) else e;
    ReadsFurther(c, PingFrame(script, reply, pong), rest);
  }

  lemma PushesFrame(c: Con, d: Con, pong: Prepared)
    requires d == c || (pong.Frame? && Pushes(c, d, P.Message(P.Pong, pong.header, pong.payload, false)))
    ensures d.internal == c.internal
  {
  }

  /** A pong only calls its handler, and only on an open session.  Everything else but a close frame is
    * passed over. */
  lemma PongEffect(c: Con, script: seq<Api>, rest: seq<Incoming>)
    requires c.internal == ProcessConnection
    ensures ReadsOn(c, [PongFrame(script)] + rest) == ReadsOn(if c.state == Open then Run(c, script) else c, rest)
    ensures forall f :: f in {Partial, NullMessage, UnknownControl} ==> ReadsOn(c, [f] + rest) == ReadsOn(c, rest)
  {
    RunFrame(c, script);
    hide Run, ReadsOn;
    ReadsFurther(c, PongFrame(script), rest);
    ReadsFurther(c, Partial, rest);
    ReadsFurther(c, NullMessage, rest);
    ReadsFurther(c, UnknownControl, rest);
  }

  /** A protocol error drops the connection if it is so configured; otherwise it closes an open session with
    * the code of the error, and ends a session that cannot be closed.  Nothing more is read. */
  lemma ProtocolErrorEffect(c: Con, code: Code, failure: nat, close: Prepared, rest: seq<Incoming>)
    requires Valid(c) && c.internal == ProcessConnection
    ensures var d := ReadsOn(c, [ConsumeFailed(code, failure, close)] + rest);
      if c.config.dropOnProtocolError then Ended(c, d, ProcessorFailure(failure))
      else if c.state != Open then Ended(c, d, InvalidState)
      else if close.Frame? then Closes(c, d, close, code in DROPPING_CODES)
      else Ended(c.(localCode := if c.config.silentClose || code == 0 then 1005 else code), d,
                 if close.NoBuffer? then NoOutgoingBuffers else ProcessorFailure(close.code))
  {
    hide Valid, Ended, Terminate, Closes, ReadsOn;
    ReadsNext(c, ConsumeFailed(code, failure, close), rest);
    CloseEffect(c, code, close);
    var e := Call(c, Close(code, close));
    var ec := CloseCall(c, code, close).1;
    TerminateEnds(c, ProcessorFailure(failure));
    TerminateEnds(c, InvalidState);
    TerminateEnds(e, ec);
    CloseCallIs(c, code, close);
  }

  lemma CloseCallIs(c: Con, code: Code, close: Prepared)
    ensures CloseCall(c, code, close).0 == Call(c, Close(code, close))
    ensures CloseCall(c, code, close).1 ==
      if c.state != Open then InvalidState
      else if close.NoBuffer? then NoOutgoingBuffers
      else if close.Refused? then ProcessorFailure(close.code) else Success
  {
  }

  /** The code of a payload: none in an empty one, and the first two octets in network order. */
  function CodeIn(payload: seq<byte>): Code {
    if |payload| == 0 then 1005 else if |payload| == 1 then 1002 else 256 * payload[0] as int + payload[1]
  }

  lemma ReadsClose(c: Con, payload: seq<byte>, ack: Prepared, rest: seq<Incoming>)
    requires Valid(c) && c.internal == ProcessConnection && c.state != Closed
    ensures ReadsOn(c, [CloseFrame(payload, ack)] + rest) == ReadsOn(ProcessClose(c, payload, ack), rest)
    ensures Valid(c.(remoteCode := CodeIn(payload)))
  {
    hide Valid, ProcessClose, ReadsOn, CodeIn, Terminate, FailConsume, DeliverMessage, Run, SendFrame;
    RemoteCodeKeeps(c, CodeIn(payload));
    ProcessCloseKeeps(c, payload, ack);
    OneIsClose(c, payload, ack);
    ReadsFurther(c, CloseFrame(payload, ack), rest);
  }

  lemma OneIsClose(c: Con, payload: seq<byte>, ack: Prepared)
    requires c.state != Closed
    ensures ProcessOne(c, CloseFrame(payload, ack)) == ProcessClose(c, payload, ack)
  {
    hide ProcessClose;
  }

  /** The answer to a close frame: a close frame of this side, if one could be prepared, with which a server
    * drops the connection. */
  ghost predicate Answers(c: Con, d: Con, ack: Prepared) {
    && d.remoteCode == c.remoteCode
    && (ack.Frame? ==> Closes(c, d, ack, c.config.isServer) && d.wasClean)
    && (!ack.Frame? ==> d == c.(localCode := d.localCode))
  }

  lemma SendCloseFrameAnswers(c: Con, code: Code, ack: Prepared)
    requires Valid(c) && c.state != Closed
    ensures Answers(c, SendCloseFrame(c, code, true, c.config.isServer, ack).0, ack)
  {
    SendCloseFrameCloses(c, code, true, c.config.isServer, ack);
    SendCloseFrameRemote(c, code, c.config.isServer, ack);
    hide Valid, Closes, SendCloseFrame, LocalCode;
  }

  /** A bad close frame, whatever the state: its code is recorded, and it drops the connection, if it is so
    * configured, or is answered. */
  lemma BadCloseEffect(c: Con, payload: seq<byte>, ack: Prepared, rest: seq<Incoming>) returns (d: Con)
    requires Valid(c) && c.internal == ProcessConnection && c.state != Closed && !Acceptable(payload)
    ensures ReadsOn(c, [CloseFrame(payload, ack)] + rest) == ReadsOn(d, rest)
    ensures var r := c.(remoteCode := CodeIn(payload));
      if c.config.dropOnProtocolError then
        Ended(r, d, BadClosePayload(if CodeOf(payload).1 != NoError then CodeOf(payload).1 else ReasonOf(payload).1))
      else Answers(r, d, ack)
  {
    d := ProcessClose(c, payload, ack);
    CloseFrameCases(c, payload, ack);
    ReadsClose(c, payload, ack, rest);
    hide Valid, Ended, Answers, Terminate, SendCloseFrame, ReadsOn, ProcessClose, Acceptable;
    var r := c.(remoteCode := CodeIn(payload));
    SendCloseFrameAnswers(r, PROTOCOL_ERROR, ack);
    TerminateEnds(r, BadClosePayload(if CodeOf(payload).1 != NoError then CodeOf(payload).1 else ReasonOf(payload).1));
  }

  /** A good close frame: its code is recorded.  An open session answers it.  A closing one takes it for the
    * answer to its own, with which a server ends the connection and a client waits for that. */
  lemma GoodCloseEffect(c: Con, payload: seq<byte>, ack: Prepared, rest: seq<Incoming>) returns (d: Con)
    requires Valid(c) && c.internal == ProcessConnection && c.state != Closed && Acceptable(payload)
    ensures ReadsOn(c, [CloseFrame(payload, ack)] + rest) == ReadsOn(d, rest)
    ensures var r := c.(remoteCode := CodeIn(payload));
      if c.state == Open then Answers(r, d, ack)
      else if !c.wasClean && c.config.isServer then Ended(r.(wasClean := true), d, Success)
      else d == r.(wasClean := true)
  {
    d := ProcessClose(c, payload, ack);
    CloseFrameCases(c, payload, ack);
    ReadsClose(c, payload, ack, rest);
    RemoteCodeKeeps(c, CodeIn(payload));
    hide Valid, Ended, Answers, Terminate, SendCloseFrame, ReadsOn, ProcessClose, Acceptable;
    var r := c.(remoteCode := CodeIn(payload));
    SendCloseFrameAnswers(r, BLANK, ack);
    TerminateEnds(r.(wasClean := true), Success);
  }

  lemma SendCloseFrameRemote(c: Con, code: Code, terminal: bool, prepared: Prepared)
    ensures SendCloseFrame(c, code, true, terminal, prepared).0.remoteCode == c.remoteCode
  {
    hide P.PushNow, LocalCode;
  }

  lemma CloseFrameCases(c: Con, payload: seq<byte>, ack: Prepared)
    ensures var r, d := c.(remoteCode := CodeIn(payload)), ProcessClose(c, payload, ack);
      if !Acceptable(payload) && c.config.dropOnProtocolError then
        d == Terminate(r, BadClosePayload(if CodeOf(payload).1 != NoError then CodeOf(payload).1
                                          else ReasonOf(payload).1))
      else if !Acceptable(payload) then d == SendCloseFrame(r, PROTOCOL_ERROR, true, c.config.isServer, ack).0
      else if c.state == Open then d == SendCloseFrame(r, BLANK, true, c.config.isServer, ack).0
      else if c.state != Closing || c.wasClean then d == r
      else if c.config.isServer then d == Terminate(r.(wasClean := true), Success)
      else d == r.(wasClean := true)
  {
    CodeInIs(payload);
    hide Terminate, SendCloseFrame, ReasonOf, CodeOf, CodeIn;
  }

  lemma CodeInIs(payload: seq<byte>)
    ensures CodeOf(payload).0 == CodeIn(payload)
  {
  }

  // ---------------------------------------------------------------- all that was read

  /** No call of the application runs a handler. */
  lemma CallCalls(c: Con, a: Api)
    ensures Call(c, a).world.calls == c.world.calls
  {
    hide P.PushNow, CancelIn, LocalCode;
  }

  lemma {:induction false} RunCalls(c: Con, script: seq<Api>)
    ensures Run(c, script).world.calls == c.world.calls
    decreases |script|
  {
    hide Call;
    if script != [] {
      CallCalls(c, script[0]);
      RunCalls(Call(c, script[0]), script[1..]);
    }
  }

  /** What the application calls does not depend on what has been delivered. */
  lemma CallCommutes(c: Con, message: seq<byte>, a: Api)
    ensures Call(Given(c, message), a) == Given(Call(c, a), message)
  {
    match a {
      case Close(code, prepared) => CloseCommutes(c, message, code, prepared);
      case TerminateCall(ec) => TerminateCommutes(c, message, ec);
      case SendHttpResponse => ResponseCommutes(c, message);
      case _ => OthersCommute(c, message, a);
    }
    hide Call, Given;
  }

  lemma CloseCommutes(c: Con, message: seq<byte>, code: Code, prepared: Prepared)
    ensures Call(Given(c, message), Close(code, prepared)) == Given(Call(c, Close(code, prepared)), message)
  {
    hide P.PushNow;
  }

  lemma TerminateCommutes(c: Con, message: seq<byte>, ec: OuterEc)
    ensures Call(Given(c, message), TerminateCall(ec)) == Given(Call(c, TerminateCall(ec)), message)
  {
    hide CancelIn;
  }

  lemma ResponseCommutes(c: Con, message: seq<byte>)
    ensures Call(Given(c, message), SendHttpResponse) == Given(Call(c, SendHttpResponse), message)
  {
    RespondCommutes(c.(httpState := HttpBodyWritten), message, 500, General);
    RespondCommutes(c.(httpState := HttpBodyWritten), message, c.status, Success);
    hide RespondWith;
  }

  lemma RespondCommutes(c: Con, message: seq<byte>, status: nat, ec: Ec)
    ensures RespondWith(Given(c, message), status, ec) == Given(RespondWith(c, status, ec), message)
  {
  }

  lemma OthersCommute(c: Con, message: seq<byte>, a: Api)
    requires !a.Close? && !a.TerminateCall? && !a.SendHttpResponse?
    ensures Call(Given(c, message), a) == Given(Call(c, a), message)
  {
    hide P.PushNow;
  }

  lemma {:induction false} RunCommutes(c: Con, message: seq<byte>, script: seq<Api>)
    ensures Run(Given(c, message), script) == Given(Run(c, script), message)
    decreases |script|
  {
    hide Call, Given;
    if script != [] {
      CallCommutes(c, message, script[0]);
      RunCommutes(Call(c, script[0]), message, script[1..]);
    }
  }

  /** A script is one call after the other. */
  lemma RunOne(c: Con, a: Api)
    ensures Run(c, [a]) == Call(c, a)
    ensures RunHttp(c, [HttpApi.Plain(a)]) == Call(c, a)
  {
    hide Call;
    assert Run(Call(c, a), [a][1..]) == Call(c, a);
    assert RunHttp(Call(c, a), [HttpApi.Plain(a)][1..]) == Call(c, a);
  }

  lemma {:induction false} RunAppend(c: Con, first: seq<Api>, then': seq<Api>)
    ensures Run(c, first + then') == Run(Run(c, first), then')
    decreases |first|
  {
    hide Call;
    if first == [] {
      assert first + then' == then';
    } else {
      assert (first + then')[0] == first[0] && (first + then')[1..] == first[1..] + then';
      RunAppend(Call(c, first[0]), first[1..], then');
    }
  }

  predicate AllMessages(incoming: seq<Incoming>) {
    forall f :: f in incoming ==> f.DataMessage?
  }

  /** What the message handler calls for one message after the other. */
  function Scripts(incoming: seq<Incoming>): seq<Api>
    requires AllMessages(incoming)
  {
    if incoming == [] then [] else incoming[0].script + Scripts(incoming[1..])
  }

  function GivenAll(c: Con, incoming: seq<Incoming>): Con
    requires AllMessages(incoming)
    decreases |incoming|
  {
    if incoming == [] then c else GivenAll(Given(c, incoming[0].message), incoming[1..])
  }

  /** The session is open whenever a message is looked at. */
  ghost predicate OpenThroughout(c: Con, incoming: seq<Incoming>)
    requires AllMessages(incoming)
    decreases |incoming|
  {
    incoming == [] || (c.state == Open && OpenThroughout(Run(c, incoming[0].script), incoming[1..]))
  }

  lemma {:induction false} GivenCommutes(c: Con, message: seq<byte>, incoming: seq<Incoming>)
    requires AllMessages(incoming)
    ensures OpenThroughout(Given(c, message), incoming) == OpenThroughout(c, incoming)
    decreases |incoming|
  {
    hide Run;
    if incoming != [] {
      RunCommutes(c, message, incoming[0].script);
      GivenCommutes(Run(c, incoming[0].script), message, incoming[1..]);
    }
  }

  lemma {:induction false} RunCommutesAll(c: Con, incoming: seq<Incoming>, script: seq<Api>)
    requires AllMessages(incoming)
    ensures Run(GivenAll(c, incoming), script) == GivenAll(Run(c, script), incoming)
    decreases |incoming|
  {
    hide Run, Given;
    if incoming != [] {
      RunCommutesAll(Given(c, incoming[0].message), incoming[1..], script);
      RunCommutes(c, incoming[0].message, script);
    }
  }

  /** Messages that are read while the session stays open are delivered, each once and in order, and what
    * their handlers call is done, in that order; and then more is read. */
  lemma {:induction false} MessagesRead(c: Con, incoming: seq<Incoming>)
    requires c.internal == ProcessConnection && AllMessages(incoming) && OpenThroughout(c, incoming)
    ensures ReadsOn(c, incoming) == NextRead(GivenAll(Run(c, Scripts(incoming)), incoming))
    decreases |incoming|
  {
    hide ReadsOn, Run, Given, NextRead;
    if incoming == [] {
      ReadEnds(c);
      NothingRun(c);
    } else {
      var f, rest := incoming[0], incoming[1..];
      assert incoming == [f] + rest;
      MessageEffect(c, f.message, f.script, rest);
      var d := Run(c, f.script);
      RunCommutes(c, f.message, f.script);
      GivenCommutes(d, f.message, rest);
      RunFrame(c, f.script);
      GivenFrame(d, f.message);
      MessagesRead(Given(d, f.message), rest);
      RunCommutes(d, f.message, Scripts(rest));
      RunAppend(c, f.script, Scripts(rest));
    }
  }

  lemma NothingRun(c: Con)
    ensures Run(c, []) == c
  {
  }

  lemma GivenFrame(c: Con, message: seq<byte>)
    ensures Given(c, message).internal == c.internal && Given(c, message).state == c.state
  {
  }

  // ---------------------------------------------------------------- writing

  /** `write_frame` on a pipeline that nobody else writes: everything queued, up to the first message that is
    * to be the last, is given to the transport as one write; and otherwise nothing is. */
  lemma WriteEffect(c: Con, n: nat)
    requires Valid(c) && c.pipe.threads.dispatched > 0 && n <= |c.pipe.queue|
    requires forall i :: 0 <= i < n - 1 ==> !c.pipe.queue[i].terminal
    requires n < |c.pipe.queue| ==> n > 0 && c.pipe.queue[n - 1].terminal
    ensures var d := Next(c, WriteFrameStep); var p, q := c.pipe, d.pipe;
      && d == c.(pipe := q)
      && q.threads.dispatched == p.threads.dispatched - 1
      && (if p.writeFlag || n == 0
          then q.queue == p.queue && q.threads.writing == p.threads.writing && q.history == p.history
          else q.queue == p.queue[n..] && q.threads.writing == 1 && q.writeFlag
               && q.history.sent == p.history.sent + p.queue[..n]
               && q.history.wire == p.history.wire + P.Wire(p.queue[..n]))
  {
    PipeSound(c);
    P.BatchIs(c.pipe.queue, n);
    P.WriteNowSends(c.pipe);
    hide Valid, P.Valid, P.AtRest, P.WriteNow, P.BatchLength, P.Wire;
  }

  /** A write has completed.  After an error, or after a message that was to be the last, the connection
    * ends and nothing is written any more; otherwise whatever was queued meanwhile will be written. */
  lemma WriteDoneEffect(c: Con, ec: OuterEc)
    requires Valid(c) && c.pipe.threads.writing > 0
    ensures c.pipe.current != []
    ensures var d := Next(c, WriteDoneStep(ec)); var p, q := c.pipe, d.pipe;
      && q.queue == p.queue && q.current == [] && q.history == p.history && q.threads.writing == 0
      && (if ec != Success || p.current[|p.current| - 1].terminal
          then q.writeFlag && q.threads.dispatched == p.threads.dispatched && Ended(c.(pipe := q), d, ec)
          else d == c.(pipe := q) && !q.writeFlag
               && q.threads.dispatched == p.threads.dispatched + (if p.queue == [] then 0 else 1))
  {
    PipeSound(c);
    P.FinishNowDoes(c.pipe, ec != Success);
    TerminateEnds(c.(pipe := P.FinishNow(c.pipe, ec != Success)), ec);
    hide Valid, P.Valid, P.AtRest, P.FinishNow, Terminate, Ended;
  }

  // ---------------------------------------------------------------- plain requests

  /** The HTTP handler is given a request: what it calls is done, and then the response is written, unless
    * the handler has deferred it or has ended the connection. */
  lemma PlainHandledEffect(c: Con, a: Answers)
    requires Expecting(c) && a.uriValid && c.config.hasHttpHandler
    ensures var s := HandshakeReadStep(Success, Request(NotWebsocket, a)); var r := Reported(c, s);
      var e := RunHttp(r.(internal := ProcessHttpRequest, isHttp := true,
          world := r.world.(calls := r.world.calls.(httpRequests := r.world.calls.httpRequests + 1))),
                       a.httpScript);
      && (e.httpState != HttpInit || e.state == Closed ==> Next(c, s) == e)
      && (e.httpState == HttpInit && e.state != Closed ==>
            Responding(e, Next(c, s), if e.status == 0 then 500 else e.status,
                       if e.status == 0 then General else Success))
  {
    hide Next;
    ReadsHandshake(c, Request(NotWebsocket, a));
    var d := HttpRequested(Received(c, HandshakeRead).(internal := ProcessHttpRequest));
    RunHttpInternal(d, a.httpScript);
    hide RunHttp;
  }

  lemma {:induction false} RunHttpInternal(c: Con, script: seq<HttpApi>)
    ensures RunHttp(c, script).internal == c.internal && RunHttp(c, script).isHttp == c.isHttp
    decreases |script|
  {
    hide Call, CancelIn;
    if script != [] {
      if script[0].Plain? {
        CallFrame(c, script[0].call);
      }
      RunHttpInternal(if script[0].Defer? then DeferResponse(c) else Call(c, script[0].call), script[1..]);
    }
  }

  /** Deferring a response stops the clock and marks the response as deferred. */
  lemma DeferEffect(c: Con)
    ensures var d := RunHttp(c, [Defer]);
      && d == c.(httpState := HttpDeferred, timer := None, world := d.world)
      && d.world == c.world.(timers := d.world.timers) && |d.world.timers| == |c.world.timers|
      && forall i :: 0 <= i < |c.world.timers| ==>
           d.world.timers[i] == if c.timer == Some(i) then Stopped(c.world.timers[i]) else c.world.timers[i]
  {
    assert RunHttp(DeferResponse(c), [Defer][1..]) == DeferResponse(c);
  }
}
