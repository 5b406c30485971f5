/** A connection from its creation to its termination, as a state machine.  Each function is one method
  * of the connection class, each step one call into it: by the application, by the endpoint, or by the
  * transport delivering a completion it owes.  Calls are atomic here; `WritePipeline` treats the
  * outgoing side at the finer grain of its lock.
  *
  * What the protocol processor, the HTTP parser and the application's handlers answer arrives as
  * parameters.  A handler may itself call the connection; those calls are the handler's script. */
module Lifecycle {
  import opened Bytes
  import opened CloseCodes
  import P = WritePipeline

  datatype SessionState = Connecting | Open | Closing | Closed

  function Rank(s: SessionState): nat {
    match s
    case Connecting => 0
    case Open => 1
    case Closing => 2
    case Closed => 3
  }

  datatype InternalState =
    | UserInit | TransportInit | ReadHttpRequest | WriteHttpRequest | ReadHttpResponse
    | ProcessHttpRequest | ProcessConnection

  datatype HttpState = HttpInit | HttpDeferred | HttpBodyWritten | HttpClosed

  datatype Ec =
    | Success | Eof | ActionAfterShutdown | TransportFailure(code: nat)
    | InvalidState | General | NoOutgoingBuffers | HttpConnectionEnded | HttpParseError
    | InvalidVersion | UnsupportedVersion | ShortKey3 | InvalidUri | UpgradeRequired | Rejected
    | ExtensionNegotiationFailed | OpenHandshakeTimeout | CloseHandshakeTimeout
    | BadClosePayload(error: CloseCodes.Error) | ProcessorFailure(code: nat)

  /** Errors that come from outside the connection.  `HttpConnectionEnded` is the connection's own. */
  type OuterEc = e: Ec | e != HttpConnectionEnded witness Success

  const UNINITIALIZED: nat := 0
  const SWITCHING_PROTOCOLS: nat := 101
  const BAD_REQUEST: nat := 400
  const UPGRADE_REQUIRED: nat := 426
  const INTERNAL_SERVER_ERROR: nat := 500

  /** A status the HTTP parser or the application chooses; switching protocols is not theirs to choose. */
  type HttpStatus = s: nat | s != SWITCHING_PROTOCOLS

  datatype Config = Config(isServer: bool, openTimeout: int, closeTimeout: int, hasTimers: bool,
                           dropOnProtocolError: bool, silentClose: bool, hasHttpHandler: bool)

  datatype TimerKind = OpenTimer | CloseTimer
  datatype TimerPhase = Armed | Expired | Cancelled | Done
  datatype Timer = Timer(kind: TimerKind, phase: TimerPhase)

  datatype TerminateStatus = Failed | WasOpen

  /** Completions and dispatched calls, other than frame writes and timers, that the transport owes. */
  datatype Event =
    | TransportReady | HandshakeRead | HttpResponseWritten | HttpRequestWritten | HttpResponseRead
    | FrameRead | PauseDispatched | ResumeDispatched | ShutdownDone(status: TerminateStatus)

  /** A message given to the message handler, and the state of the session at that moment. */
  datatype Delivery = Delivery(state: SessionState, message: seq<byte>)

  /** Handler invocations so far. */
  datatype Calls = Calls(opens: nat, fails: nat, closes: nat, httpEnds: nat, terminations: nat,
                         httpRequests: nat, messagesIn: seq<Delivery>)

  /** What the outside has seen or owes, with the history of every value `m_state` has been given. */
  datatype World = World(events: multiset<Event>, timers: seq<Timer>, shutdowns: nat,
                         trail: seq<SessionState>, calls: Calls)

  datatype Con = Con(config: Config, state: SessionState, internal: InternalState, hasProcessor: bool,
                     readFlag: bool, timer: Option<nat>, status: nat, isHttp: bool, httpState: HttpState,
                     ec: Ec, wasClean: bool, localCode: Code, remoteCode: Code,
                     pipe: P.Pipeline, world: World)

  function Initial(config: Config): Con {
    Con(config, Connecting, UserInit, false, true, None, UNINITIALIZED, false, HttpInit, Success, false,
        ABNORMAL_CLOSE, ABNORMAL_CLOSE, P.IDLE,
        World(multiset{}, [], 0, [Connecting], Calls(0, 0, 0, 0, 0, 0, [])))
  }

  // ---------------------------------------------------------------- small pieces

  function Expect(c: Con, e: Event): Con {
    c.(world := c.world.(events := c.world.events + multiset{e}))
  }

  function Received(c: Con, e: Event): Con {
    c.(world := c.world.(events := c.world.events - multiset{e}))
  }

  /** Cancelling keeps an expiry that is already on its way. */
  function CancelIn(timers: seq<Timer>, timer: Option<nat>): (r: seq<Timer>)
    ensures |r| == |timers|
  {
    if timer.Some? && timer.value < |timers| && timers[timer.value].phase == Armed
    then timers[timer.value := timers[timer.value].(phase := Cancelled)]
    else timers
  }

  function CancelTimer(c: Con): Con {
    c.(timer := None, world := c.world.(timers := CancelIn(c.world.timers, c.timer)))
  }

  /** `set_timer` into `m_handshake_timer`; a transport without timers returns a null handle. */
  function SetTimer(c: Con, kind: TimerKind, duration: int): Con {
    var started := duration > 0 && c.config.hasTimers;
    c.(timer := if duration <= 0 then c.timer else if started then Some(|c.world.timers|) else None,
       world := c.world.(timers := if started then c.world.timers + [Timer(kind, Armed)] else c.world.timers))
  }

  /** The first termination closes the session and starts the shutdown of the transport; a later one
    * only cancels the handshake timer and records its error. */
  function Terminate(c: Con, ec: Ec): Con {
    c.(state := Closed,
       timer := None,
       ec := if ec == Success then c.ec else ec,
       localCode := if ec == Success then c.localCode else ABNORMAL_CLOSE,
       httpState := if c.isHttp then HttpClosed else c.httpState,
       world := Shutdown(c.world.(timers := CancelIn(c.world.timers, c.timer)), c.state))
  }

  function Shutdown(w: World, state: SessionState): World {
    if state == Closed then w
    else w.(events := w.events + multiset{ShutdownDone(if state == Connecting then Failed else WasOpen)},
            shutdowns := w.shutdowns + 1,
            trail := w.trail + [Closed])
  }

  // ---------------------------------------------------------------- outgoing messages

  /** What the message manager and the processor make of a request for an outgoing frame. */
  datatype Prepared = NoBuffer | Refused(code: nat) | Frame(header: seq<byte>, payload: seq<byte>)

  function PushMessage(c: Con, m: P.Message): Con {
    c.(pipe := P.PushNow(c.pipe, m))
  }

  /** `send`, `ping` and `pong`. */
  function SendFrame(c: Con, kind: P.FrameKind, prepared: Prepared): Con {
    if c.state == Open && prepared.Frame?
    then PushMessage(c, P.Message(kind, prepared.header, prepared.payload, false))
    else c
  }

  function LocalCode(c: Con, code: Code, ack: bool): Code {
    if c.config.silentClose then NO_STATUS
    else if code != BLANK then code
    else if !ack then NO_STATUS
    else if c.remoteCode == NO_STATUS then NORMAL
    else c.remoteCode
  }

  function SendCloseFrame(c: Con, code: Code, ack: bool, terminal: bool, prepared: Prepared): (Con, Ec) {
    var c1 := c.(localCode := LocalCode(c, code, ack));
    match prepared
    case NoBuffer => (c1, NoOutgoingBuffers)
    case Refused(n) => (c1, ProcessorFailure(n))
    case Frame(header, payload) =>
      var c2 := c1.(state := Closing, wasClean := c.wasClean || ack,
          world := c.world.(trail := c.world.trail + [Closing]));
      var c3 := SetTimer(c2, CloseTimer, c.config.closeTimeout);
      (PushMessage(c3, P.Message(P.Close, header, payload, terminal)), Success)
  }

  function SendCloseAck(c: Con, code: Code, prepared: Prepared): Con {
    SendCloseFrame(c, code, true, c.config.isServer, prepared).0
  }

  function CloseCall(c: Con, code: Code, prepared: Prepared): (Con, Ec) {
    if c.state != Open then (c, InvalidState)
    else SendCloseFrame(c, code, false, Terminal(code), prepared)
  }

  function WriteFrame(c: Con): Con
    requires c.pipe.threads.dispatched > 0
  {
    c.(pipe := P.WriteNow(c.pipe))
  }

  function HandleWriteFrame(c: Con, ec: Ec): Con
    requires c.pipe.threads.writing > 0 && c.pipe.current != []
  {
    var d := c.(pipe := P.FinishNow(c.pipe, ec != Success));
    if ec != Success || c.pipe.current[|c.pipe.current| - 1].terminal then Terminate(d, ec) else d
  }

  // ---------------------------------------------------------------- calls the application may make

  /** Calls into the connection by the application or, for `terminate`, also by the endpoint. */
  datatype Api =
    | SendCall(prepared: Prepared)
    | PingCall(prepared: Prepared)
    | PongCall(prepared: Prepared)
    | Close(code: Code, prepared: Prepared)
    | PauseReading
    | ResumeReading
    | SetStatus(status: HttpStatus)
    | SendHttpResponse
    | TerminateCall(ec: OuterEc)

  function WriteHttpResponse(c: Con, ec: Ec): Con {
    if ec == HttpConnectionEnded then c
    else if c.status == UNINITIALIZED then RespondWith(c, INTERNAL_SERVER_ERROR, General)
    else RespondWith(c, c.status, ec)
  }

  function RespondWith(c: Con, status: nat, ec: Ec): Con {
    Expect(c.(status := status, ec := ec), HttpResponseWritten)
  }

  function Call(c: Con, a: Api): Con {
    match a
    case SendCall(prepared) => SendFrame(c, P.Data, prepared)
    case PingCall(prepared) => SendFrame(c, P.Ping, prepared)
    case PongCall(prepared) => SendFrame(c, P.Pong, prepared)
    case Close(code, prepared) => CloseCall(c, code, prepared).0
    case PauseReading => Expect(c, PauseDispatched)
    case ResumeReading => Expect(c, ResumeDispatched)
    case SetStatus(status) => if c.internal == ProcessHttpRequest then c.(status := status) else c
    case SendHttpResponse =>
      if c.httpState != HttpDeferred then c else WriteHttpResponse(c.(httpState := HttpBodyWritten), Success)
    case TerminateCall(ec) => Terminate(c, ec)
  }

  /** The calls a handler makes while it runs. */
  function Run(c: Con, script: seq<Api>): Con
    decreases |script|
  {
    if script == [] then c else Run(Call(c, script[0]), script[1..])
  }

  // ---------------------------------------------------------------- incoming frames

  /** What `consume` and `get_message` yield next from the bytes read. */
  datatype Incoming =
    | ConsumeFailed(closeCode: Code, failure: nat, close: Prepared)
    | Partial
    | NullMessage
    | DataMessage(message: seq<byte>, script: seq<Api>)
    | PingFrame(script: seq<Api>, reply: bool, pong: Prepared)
    | PongFrame(script: seq<Api>)
    | CloseFrame(payload: seq<byte>, ack: Prepared)
    | UnknownControl

  function ProcessClose(c: Con, payload: seq<byte>, ack: Prepared): Con {
    var (code, codeError) := CodeOf(payload);
    var c1 := c.(remoteCode := code);
    if codeError != NoError then RejectClose(c1, codeError, ack)
    else
      var reasonError := ReasonOf(payload).1;
      if reasonError != NoError then RejectClose(c1, reasonError, ack)
      else if c1.state == Open then SendCloseAck(c1, BLANK, ack)
      else if c1.state == Closing && !c1.wasClean then
        var c2 := c1.(wasClean := true);
        if c2.config.isServer then Terminate(c2, Success) else c2
      else c1
  }

  function RejectClose(c: Con, error: CloseCodes.Error, ack: Prepared): Con {
    if c.config.dropOnProtocolError then Terminate(c, BadClosePayload(error))
    else SendCloseAck(c, PROTOCOL_ERROR, ack)
  }

  predicate IsControl(f: Incoming) {
    f.PingFrame? || f.PongFrame? || f.CloseFrame? || f.UnknownControl?
  }

  function ProcessControlFrame(c: Con, f: Incoming): Con
    requires IsControl(f)
  {
    if c.state == Closed then c
    else if !f.CloseFrame? && c.state != Open then c
    else
      match f
      case PingFrame(script, reply, pong) =>
        var c1 := Run(c, script);
        if reply then SendFrame(c1, P.Pong, pong) else c1
      case PongFrame(script) => Run(c, script)
      case CloseFrame(payload, ack) => ProcessClose(c, payload, ack)
      case UnknownControl => c
  }

  function DeliverMessage(c: Con, message: seq<byte>, script: seq<Api>): Con {
    if c.state != Open then c
    else
      var calls := c.world.calls.(messagesIn := c.world.calls.messagesIn + [Delivery(c.state, message)]);
      Run(c.(world := c.world.(calls := calls)), script)
  }

  function FailConsume(c: Con, f: Incoming): Con
    requires f.ConsumeFailed?
  {
    if c.config.dropOnProtocolError then Terminate(c, ProcessorFailure(f.failure))
    else
      var (c1, ec) := CloseCall(c, f.closeCode, f.close);
      if ec != Success then Terminate(c1, ec) else c1
  }

  function ReadFrame(c: Con): Con {
    if c.readFlag then Expect(c, FrameRead) else c
  }

  /** The loop of `handle_read_frame`. */
  function ProcessIncoming(c: Con, incoming: seq<Incoming>): Con
    decreases |incoming|
  {
    if incoming == [] then ReadFrame(c)
    else
      var f := incoming[0];
      if f.ConsumeFailed? then FailConsume(c, f)
      else ProcessIncoming(ProcessOne(c, f), incoming[1..])
  }

  function ProcessOne(c: Con, f: Incoming): Con
    requires !f.ConsumeFailed?
  {
    if f.DataMessage? then DeliverMessage(c, f.message, f.script)
    else if IsControl(f) then ProcessControlFrame(c, f)
    else c
  }

  function HandleReadFrame(c: Con, ec: Ec, incoming: seq<Incoming>): Con {
    var ecm := if ec == Success && c.internal != ProcessConnection then InvalidState else ec;
    if ecm == Success then ProcessIncoming(c, incoming)
    else if ecm == Eof && c.state == Closed then c
    else if ecm == Eof && c.state == Closing && !c.config.isServer then Terminate(c, Success)
    else if ecm == InvalidState && c.state == Closed then c
    else Terminate(c, ecm)
  }

  // ---------------------------------------------------------------- the opening handshake

  datatype Guard = Proceed | Ignore | Fail(ec: Ec)

  /** How every handshake handler starts. */
  function Check(c: Con, ec: Ec, expected: InternalState): Guard {
    if ec == Success then
      if c.state == Connecting then (if c.internal == expected then Proceed else Fail(InvalidState))
      else if c.state == Closed then Ignore
      else Fail(InvalidState)
    else if ec == Eof && c.state == Closed then Ignore
    else Fail(ec)
  }

  function Start(c: Con): Con {
    if c.internal != UserInit then Terminate(c, InvalidState)
    else Expect(c.(internal := TransportInit), TransportReady)
  }

  /** `handle_transport_init`; for a client, whether there is a processor for its version and whether the
    * processor can fill in the request. */
  function HandleTransportInit(c: Con, ec: Ec, processor: bool, request: bool): Con {
    if c.internal != TransportInit then Terminate(c, InvalidState)
    else if ec != Success then Terminate(c, ec)
    else if c.config.isServer then
      Expect(SetTimer(c.(internal := ReadHttpRequest), OpenTimer, c.config.openTimeout), HandshakeRead)
    else
      var c1 := c.(internal := WriteHttpRequest, hasProcessor := processor);
      if processor && request then Expect(SetTimer(c1, OpenTimer, c.config.openTimeout), HttpRequestWritten) else c1
  }

  datatype ProcessorInit = NotWebsocket | UnknownVersion | NoProcessor | Supported(hybi00: bool, key3: bool)

  datatype HttpApi = Defer | Plain(call: Api)

  /** The answers that `process_handshake_request` gets while it runs. */
  datatype Answers = Answers(uriValid: bool, httpScript: seq<HttpApi>, validates: bool, extensionsParse: bool,
                             validateScript: seq<Api>, accepts: bool, processes: bool)

  datatype HandshakeBytes =
    | TooLong
    | ParseFailed(status: HttpStatus)
    | Overrun
    | NeedMore
    | Request(processor: ProcessorInit, answers: Answers)

  function DeferResponse(c: Con): Con {
    CancelTimer(c).(httpState := HttpDeferred)
  }

  function RunHttp(c: Con, script: seq<HttpApi>): Con
    decreases |script|
  {
    if script == [] then c
    else RunHttp(if script[0].Defer? then DeferResponse(c) else Call(c, script[0].call), script[1..])
  }

  function HttpRequested(c: Con): Con {
    c.(isHttp := true, world := c.world.(calls := c.world.calls.(httpRequests := c.world.calls.httpRequests + 1)))
  }

  function ProcessHttp(c: Con, a: Answers): (Con, Ec) {
    if !a.uriValid then (c.(status := BAD_REQUEST), InvalidUri)
    else if !c.config.hasHttpHandler then (c.(status := UPGRADE_REQUIRED), UpgradeRequired)
    else
      var c1 := RunHttp(HttpRequested(c), a.httpScript);
      (c1, if c1.state == Closed then HttpConnectionEnded else Success)
  }

  function ProcessHandshake(c: Con, a: Answers): (Con, Ec) {
    if !a.validates then (c.(status := BAD_REQUEST), ProcessorFailure(0))
    else if !a.extensionsParse then (c.(status := BAD_REQUEST), ProcessorFailure(1))
    else if !a.uriValid then (c.(status := BAD_REQUEST), InvalidUri)
    else
      var c1 := Run(c, a.validateScript);
      if a.accepts then
        if a.processes then (c1.(status := SWITCHING_PROTOCOLS), Success)
        else (c1.(status := INTERNAL_SERVER_ERROR), ProcessorFailure(2))
      else
        (if c1.status == UNINITIALIZED then c1.(status := BAD_REQUEST) else c1, Rejected)
  }

  function WriteHttpResponseError(c: Con, ec: Ec): Con {
    if c.internal != ReadHttpRequest then Terminate(c, InvalidState)
    else WriteHttpResponse(c.(internal := ProcessHttpRequest), ec)
  }

  function HandleRequest(c: Con, processor: ProcessorInit, a: Answers): Con {
    match processor
    case UnknownVersion => WriteHttpResponseError(c.(status := BAD_REQUEST), InvalidVersion)
    case NoProcessor => WriteHttpResponseError(c.(hasProcessor := false, status := BAD_REQUEST), UnsupportedVersion)
    case NotWebsocket =>
      var (c1, ec) := ProcessHttp(c.(internal := ProcessHttpRequest), a);
      if !c1.isHttp || c1.httpState == HttpInit then WriteHttpResponse(c1, ec) else c1
    case Supported(hybi00, key3) =>
      if hybi00 && !key3 then
        WriteHttpResponseError(c.(hasProcessor := true, status := INTERNAL_SERVER_ERROR), ShortKey3)
      else
        var (c1, ec) := ProcessHandshake(c.(hasProcessor := true, internal := ProcessHttpRequest), a);
        if !c1.isHttp || c1.httpState == HttpInit then WriteHttpResponse(c1, ec) else c1
  }

  function HandleReadHandshake(c: Con, ec: Ec, bytes: HandshakeBytes): Con {
    match Check(c, ec, ReadHttpRequest)
    case Ignore => c
    case Fail(e) => Terminate(c, e)
    case Proceed =>
      match bytes
      case TooLong => Terminate(c, General)
      case ParseFailed(status) => WriteHttpResponseError(c.(status := status), HttpParseError)
      case Overrun => Terminate(c, General)
      case NeedMore => Expect(c, HandshakeRead)
      case Request(processor, answers) => HandleRequest(c, processor, answers)
  }

  function OpenSession(c: Con): Con {
    c.(internal := ProcessConnection,
       state := Open,
       world := c.world.(trail := c.world.trail + [Open],
                         calls := c.world.calls.(opens := c.world.calls.opens + 1)))
  }

  /** The session becomes open, and the open handler runs. */
  function Opened(c: Con, script: seq<Api>): Con {
    Run(OpenSession(c), script)
  }

  function HandleWriteHttpResponse(c: Con, ec: Ec, script: seq<Api>, incoming: seq<Incoming>): Con {
    match Check(c, ec, ProcessHttpRequest)
    case Ignore => c
    case Fail(e) => Terminate(c, e)
    case Proceed =>
      var c1 := CancelTimer(c);
      if c1.status != SWITCHING_PROTOCOLS then
        var c2 := if c1.isHttp then c1.(ec := HttpConnectionEnded) else c1;
        Terminate(c2, c2.ec)
      else
        HandleReadFrame(Opened(c1, script), Success, incoming)
  }

  function HandleSendHttpRequest(c: Con, ec: Ec): Con {
    match Check(c, ec, WriteHttpRequest)
    case Ignore => c
    case Fail(e) => Terminate(c, e)
    case Proceed => Expect(c.(internal := ReadHttpResponse), HttpResponseRead)
  }

  datatype ResponseBytes =
    | BadResponse
    | MoreResponse
    | Response(validates: bool, negotiates: bool, script: seq<Api>, incoming: seq<Incoming>)

  /** A failed extension negotiation terminates the connection and then falls through to open it. */
  function HandleReadHttpResponse(c: Con, ec: Ec, bytes: ResponseBytes): Con {
    match Check(c, ec, ReadHttpResponse)
    case Ignore => c
    case Fail(e) => Terminate(c, e)
    case Proceed =>
      match bytes
      case BadResponse => Terminate(c, General)
      case MoreResponse => Expect(c, HttpResponseRead)
      case Response(validates, negotiates, script, incoming) =>
        var c1 := CancelTimer(c);
        if !validates then Terminate(c1, ProcessorFailure(3))
        else
          var c2 := if negotiates then c1 else Terminate(c1, ExtensionNegotiationFailed);
          HandleReadFrame(Opened(c2, script), Success, incoming)
  }

  // ---------------------------------------------------------------- timers and termination

  /** The transport reports a timer: its expiry, or that it was cancelled. */
  function HandleTimer(c: Con, id: nat): Con
    requires id < |c.world.timers|
  {
    var t := c.world.timers[id];
    var c1 := c.(world := c.world.(timers := c.world.timers[id := t.(phase := Done)]));
    if t.phase != Expired then c1
    else Terminate(c1, if t.kind == OpenTimer then OpenHandshakeTimeout else CloseHandshakeTimeout)
  }

  /** Which handler the end of the connection calls, before the termination handler. */
  function Terminated(c: Con, status: TerminateStatus): Con {
    var calls := c.world.calls;
    var ended := status == Failed && c.ec == HttpConnectionEnded;
    c.(world := c.world.(calls := calls.(
      fails := if status == Failed && !ended then calls.fails + 1 else calls.fails,
      httpEnds := if ended then calls.httpEnds + 1 else calls.httpEnds,
      closes := if status == WasOpen then calls.closes + 1 else calls.closes,
      terminations := calls.terminations + 1)))
  }

  function HandleTerminate(c: Con, status: TerminateStatus, script: seq<Api>): Con {
    Run(Terminated(c, status), script)
  }

  // ---------------------------------------------------------------- steps

  datatype Step =
    | CallStep(call: Api)
    | StartStep
    | TransportReadyStep(ec: OuterEc, processor: bool, request: bool)
    | HandshakeReadStep(ec: OuterEc, handshake: HandshakeBytes)
    | HttpResponseWrittenStep(ec: OuterEc, script: seq<Api>, incoming: seq<Incoming>)
    | HttpRequestWrittenStep(ec: OuterEc)
    | HttpResponseReadStep(ec: OuterEc, response: ResponseBytes)
    | FrameReadStep(ec: OuterEc, incoming: seq<Incoming>)
    | PauseStep
    | ResumeStep
    | ShutdownStep(status: TerminateStatus, script: seq<Api>)
    | WriteFrameStep
    | WriteDoneStep(ec: OuterEc)
    | ExpireStep(id: nat)
    | TimerStep(id: nat)

  predicate Enabled(c: Con, s: Step) {
    match s
    case TransportReadyStep(_, _, _) => TransportReady in c.world.events
    case HandshakeReadStep(_, _) => HandshakeRead in c.world.events
    case HttpResponseWrittenStep(_, _, _) => HttpResponseWritten in c.world.events
    case HttpRequestWrittenStep(_) => HttpRequestWritten in c.world.events
    case HttpResponseReadStep(_, _) => HttpResponseRead in c.world.events
    case FrameReadStep(_, _) => FrameRead in c.world.events
    case PauseStep => PauseDispatched in c.world.events
    case ResumeStep => ResumeDispatched in c.world.events
    case ShutdownStep(status, _) => ShutdownDone(status) in c.world.events
    case WriteFrameStep => c.pipe.threads.dispatched > 0
    case WriteDoneStep(_) => c.pipe.threads.writing > 0
    case ExpireStep(id) => id < |c.world.timers| && c.world.timers[id].phase == Armed
    case TimerStep(id) => id < |c.world.timers| && c.world.timers[id].phase in {Expired, Cancelled}
    case _ => true
  }

  /** A write completion with no batch in flight would read the back of an empty vector. */
  predicate Defined(c: Con, s: Step) {
    s.WriteDoneStep? ==> c.pipe.current != []
  }

  function Next(c: Con, s: Step): Con
    requires Enabled(c, s) && Defined(c, s)
  {
    match s
    case CallStep(call) => Call(c, call)
    case StartStep => Start(c)
    case TransportReadyStep(ec, processor, request) =>
      HandleTransportInit(Received(c, TransportReady), ec, processor, request)
    case HandshakeReadStep(ec, handshake) => HandleReadHandshake(Received(c, HandshakeRead), ec, handshake)
    case HttpResponseWrittenStep(ec, script, incoming) =>
      HandleWriteHttpResponse(Received(c, HttpResponseWritten), ec, script, incoming)
    case HttpRequestWrittenStep(ec) => HandleSendHttpRequest(Received(c, HttpRequestWritten), ec)
    case HttpResponseReadStep(ec, response) => HandleReadHttpResponse(Received(c, HttpResponseRead), ec, response)
    case FrameReadStep(ec, incoming) => HandleReadFrame(Received(c, FrameRead), ec, incoming)
    case PauseStep => Received(c, PauseDispatched).(readFlag := false)
    case ResumeStep => ReadFrame(Received(c, ResumeDispatched).(readFlag := true))
    case ShutdownStep(status, script) => HandleTerminate(Received(c, ShutdownDone(status)), status, script)
    case WriteFrameStep => WriteFrame(c)
    case WriteDoneStep(ec) => HandleWriteFrame(c, ec)
    case ExpireStep(id) =>
      c.(world := c.world.(timers := c.world.timers[id := c.world.timers[id].(phase := Expired)]))
    case TimerStep(id) => HandleTimer(c, id)
  }
}
