/** Requests to a server that are not WebSocket handshakes: when the HTTP handler takes the place of the
  * fail handler, as documented, and when it does not. */
module PlainHttp {
  import opened Bytes
  import opened Lifecycle
  import opened LifecycleSafety
  import P = WritePipeline

  /** The step completes a request that is not a WebSocket handshake. */
  predicate ReadsPlainRequest(c: Con, s: Step) {
    && s.HandshakeReadStep? && Check(c, s.ec, ReadHttpRequest).Proceed?
    && s.handshake.Request? && s.handshake.processor.NotWebsocket?
  }

  /** Such a request reaches the HTTP handler. */
  predicate Handled(c: Con, s: Step)
    requires ReadsPlainRequest(c, s)
  {
    s.handshake.answers.uriValid && c.config.hasHttpHandler
  }

  /** The step reports that a response has been written, to a connection that waits for it. */
  predicate Responds(c: Con, s: Step) {
    s.HttpResponseWrittenStep? && Check(c, s.ec, ProcessHttpRequest).Proceed?
  }

  /** The steps that terminate a server with an error once more when it is closed already. */
  predicate FailsAgain(c: Con, s: Step) {
    match s
    case CallStep(call) => call.TerminateCall? && call.ec != Success
    case StartStep => true
    case TransportReadyStep(_, _, _) => true
    case HandshakeReadStep(ec, _) => ec != Success && ec != Eof
    case HttpResponseWrittenStep(ec, _, _) => ec != Success && ec != Eof
    case HttpRequestWrittenStep(ec) => ec != Success && ec != Eof
    case HttpResponseReadStep(ec, _) => ec != Success && ec != Eof
    case FrameReadStep(ec, _) => ec != Success && ec != Eof && ec != InvalidState
    case WriteDoneStep(ec) => ec != Success
    case TimerStep(id) => id < |c.world.timers| && c.world.timers[id].phase == Expired
    case _ => false
  }

  /** A plain exchange is under way or over.  Once its response has been written the connection is closed,
    * and its error is then the mark of a plain exchange that went well. */
  ghost predicate Exchange(c: Con, handled: bool) {
    && c.config.isServer && c.internal == ProcessHttpRequest && c.status != SWITCHING_PROTOCOLS
    && c.isHttp == handled && NotOpen(c) && c.world.calls.opens == 0
    && (c.ec == HttpConnectionEnded ==> handled && c.state == Closed && c.httpState == HttpClosed)
  }

  // ---------------------------------------------------------------- what keeps the exchange

  lemma TerminateExchange(c: Con, ec: Ec, handled: bool)
    requires Exchange(c, handled) && (ec == HttpConnectionEnded ==> handled)
    ensures var d := Terminate(c, ec);
      && Exchange(d, handled) && d.world.calls == c.world.calls && d.state == Closed
      && d.ec == (if ec == Success then c.ec else ec)
  {
    hide CancelIn;
  }

  /** No call but a termination with an error takes the mark away, and none sets it. */
  lemma CallExchange(c: Con, a: Api, handled: bool)
    requires Exchange(c, handled)
    ensures var d := Call(c, a);
      && Exchange(d, handled) && d.world.calls == c.world.calls
      && (c.state == Closed ==> d.state == Closed)
      && (d.ec == HttpConnectionEnded <==> c.ec == HttpConnectionEnded && !FailsAgain(c, CallStep(a)))
  {
    if a.TerminateCall? {
      TerminateExchange(c, a.ec, handled);
    }
    hide Terminate, SendCloseFrame, PushMessage;
  }

  lemma {:induction false} RunExchange(c: Con, script: seq<Api>, handled: bool)
    requires Exchange(c, handled)
    ensures Exchange(Run(c, script), handled) && Run(c, script).world.calls == c.world.calls
    decreases |script|
  {
    hide Exchange, Call;
    if script != [] {
      CallExchange(c, script[0], handled);
      RunExchange(Call(c, script[0]), script[1..], handled);
    }
  }

  lemma DeferExchange(c: Con, handled: bool)
    requires Exchange(c, handled) && c.ec != HttpConnectionEnded
    ensures var d := DeferResponse(c); Exchange(d, handled) && d.ec == c.ec && d.world.calls == c.world.calls
  {
    hide CancelIn;
  }

  lemma {:induction false} RunHttpExchange(c: Con, script: seq<HttpApi>, handled: bool)
    requires Exchange(c, handled) && c.ec != HttpConnectionEnded
    ensures var d := RunHttp(c, script);
      Exchange(d, handled) && d.ec != HttpConnectionEnded && d.world.calls == c.world.calls
    decreases |script|
  {
    hide Exchange, Call, DeferResponse;
    if script != [] {
      if script[0].Defer? {
        DeferExchange(c, handled);
        RunHttpExchange(DeferResponse(c), script[1..], handled);
      } else {
        CallExchange(c, script[0].call, handled);
        RunHttpExchange(Call(c, script[0].call), script[1..], handled);
      }
    }
  }

  lemma RespondExchange(c: Con, ec: Ec, handled: bool)
    requires Exchange(c, handled) && c.ec != HttpConnectionEnded
    ensures var d := WriteHttpResponse(c, ec);
      Exchange(d, handled) && d.ec != HttpConnectionEnded && d.world.calls == c.world.calls
  {
    if ec != HttpConnectionEnded {
      RespondWithExchange(c, INTERNAL_SERVER_ERROR, General, handled);
      RespondWithExchange(c, c.status, ec, handled);
    }
    hide Exchange, RespondWith;
  }

  lemma RespondWithExchange(c: Con, status: nat, ec: Ec, handled: bool)
    requires Exchange(c, handled) && ec != HttpConnectionEnded && status != SWITCHING_PROTOCOLS
    ensures var d := RespondWith(c, status, ec);
      Exchange(d, handled) && d.ec != HttpConnectionEnded && d.world.calls == c.world.calls
  {
  }

  lemma ProcessHttpExchange(c: Con, a: Answers, handled: bool)
    requires Exchange(c, false) && c.ec != HttpConnectionEnded && c.state == Connecting
    requires handled == (a.uriValid && c.config.hasHttpHandler)
    ensures var d := ProcessHttp(c, a).0;
      && Exchange(d, handled) && d.ec != HttpConnectionEnded
      && d.world.calls == c.world.calls.(httpRequests := d.world.calls.httpRequests)
  {
    if handled {
      assert Exchange(HttpRequested(c), true);
      RunHttpExchange(HttpRequested(c), a.httpScript, true);
    }
    hide RunHttp;
  }

  lemma RequestExchange(c: Con, a: Answers, handled: bool)
    requires Exchange(c.(internal := ProcessHttpRequest), false)
    requires c.ec != HttpConnectionEnded && c.state == Connecting && handled == (a.uriValid && c.config.hasHttpHandler)
    ensures var d := HandleRequest(c, NotWebsocket, a);
      && Exchange(d, handled) && d.ec != HttpConnectionEnded
      && d.world.calls.terminations == c.world.calls.terminations
  {
    var d := c.(internal := ProcessHttpRequest);
    ProcessHttpExchange(d, a, handled);
    var (e, ec) := ProcessHttp(d, a);
    RespondExchange(e, ec, handled);
    hide ProcessHttp, WriteHttpResponse, Exchange;
  }

  /** A plain request begins an exchange, which is not marked as over. */
  lemma RequestBegins(c: Con, s: Step)
    requires Valid(c) && Enabled(c, s) && ReadsPlainRequest(c, s)
    ensures var d := Next(c, s);
      && Exchange(d, Handled(c, s)) && d.ec != HttpConnectionEnded && d.world.calls.terminations == 0
  {
    hide Valid, HandleRequest, Exchange;
    var d := Received(c, HandshakeRead);
    ReadyToBegin(c);
    RequestExchange(d, s.handshake.answers, Handled(c, s));
  }

  lemma ReadyToBegin(c: Con)
    requires Valid(c) && c.state == Connecting && c.internal == ReadHttpRequest
    ensures var d := Received(c, HandshakeRead);
      && Exchange(d.(internal := ProcessHttpRequest), false)
      && d.ec != HttpConnectionEnded && d.world.calls.terminations == 0
  {
    NotYetSwitched(c);
  }

  // ---------------------------------------------------------------- every step

  /** What one step other than the last does to the mark. */
  ghost predicate Marks(c: Con, s: Step, d: Con, handled: bool) {
    && Exchange(d, handled) && d.world.calls == c.world.calls
    && (d.ec == HttpConnectionEnded <==>
          (c.ec == HttpConnectionEnded && !FailsAgain(c, s)) || (handled && Responds(c, s)))
  }

  lemma ServerMarks(c: Con, s: Step, handled: bool)
    requires Exchange(c, handled) && Enabled(c, s) && (s.HandshakeReadStep? || s.TransportReadyStep?)
    ensures Marks(c, s, Next(c, s), handled)
  {
    hide Terminate, HandleRequest, WriteHttpResponseError;
    if s.HandshakeReadStep? {
      TerminatesIfFails(Received(c, HandshakeRead), s.ec, handled);
    } else {
      TerminatesIfFails(Received(c, TransportReady), Success, handled);
    }
  }

  lemma ClientMarks(c: Con, s: Step, handled: bool)
    requires Exchange(c, handled) && Enabled(c, s) && (s.HttpRequestWrittenStep? || s.HttpResponseReadStep?)
    ensures Marks(c, s, Next(c, s), handled)
  {
    hide Terminate;
    TerminatesIfFails(Received(c, if s.HttpRequestWrittenStep? then HttpRequestWritten else HttpResponseRead), s.ec,
                      handled);
  }

  /** What the handshake handlers that are not expected do in an exchange. */
  lemma TerminatesIfFails(c: Con, ec: OuterEc, handled: bool)
    requires Exchange(c, handled)
    ensures forall e :: e == InvalidState || e == ec ==> var d := Terminate(c, e);
      && Exchange(d, handled) && d.world.calls == c.world.calls
      && d.ec == (if e == Success then c.ec else e)
  {
    TerminateExchange(c, InvalidState, handled);
    TerminateExchange(c, ec, handled);
    hide Terminate, Exchange;
  }

  lemma ResponseMarks(c: Con, s: Step, handled: bool)
    requires Exchange(c, handled) && Enabled(c, s) && s.HttpResponseWrittenStep?
    ensures Marks(c, s, Next(c, s), handled)
  {
    var d := Received(c, HttpResponseWritten);
    TerminatesIfFails(d, s.ec, handled);
    var e := CancelTimer(d);
    assert Exchange(e, handled) by {
      hide CancelIn;
    }
    hide Terminate, CancelIn;
    if Responds(c, s) {
      if handled {
        MarkedEnd(e);
      } else {
        TerminateExchange(e, e.ec, false);
      }
    }
  }

  /** The response of the HTTP handler has been written. */
  lemma MarkedEnd(c: Con)
    requires Exchange(c, true)
    ensures var d := Terminate(c.(ec := HttpConnectionEnded), HttpConnectionEnded);
      Exchange(d, true) && d.world.calls == c.world.calls && d.ec == HttpConnectionEnded
  {
    hide CancelIn;
  }

  lemma ReadMarks(c: Con, s: Step, handled: bool)
    requires Exchange(c, handled) && Enabled(c, s) && s.FrameReadStep?
    ensures Marks(c, s, Next(c, s), handled)
  {
    TerminatesIfFails(Received(c, FrameRead), s.ec, handled);
    hide Terminate;
  }

  lemma TimerMarks(c: Con, s: Step, handled: bool)
    requires Exchange(c, handled) && Enabled(c, s) && s.TimerStep?
    ensures Marks(c, s, Next(c, s), handled)
  {
    var t := c.world.timers[s.id];
    var d := c.(world := c.world.(timers := c.world.timers[s.id := t.(phase := Done)]));
    TerminateExchange(d, OpenHandshakeTimeout, handled);
    TerminateExchange(d, CloseHandshakeTimeout, handled);
    hide Terminate;
  }

  lemma WriteMarks(c: Con, s: Step, handled: bool)
    requires Exchange(c, handled) && Enabled(c, s) && Defined(c, s) && s.WriteDoneStep?
    ensures Marks(c, s, Next(c, s), handled)
  {
    TerminateExchange(c.(pipe := Next(c, s).pipe), s.ec, handled);
    hide P.FinishNow, CancelIn;
  }

  lemma OtherMarks(c: Con, s: Step, handled: bool)
    requires Exchange(c, handled) && Enabled(c, s)
    requires s.CallStep? || s.StartStep? || s.PauseStep? || s.ResumeStep? || s.WriteFrameStep? || s.ExpireStep?
    ensures Marks(c, s, Next(c, s), handled)
  {
    if s.CallStep? {
      CallExchange(c, s.call, handled);
    }
    TerminateExchange(c, InvalidState, handled);
    hide Terminate, Call, P.WriteNow;
  }

  lemma StepMarks(c: Con, s: Step, handled: bool)
    requires Exchange(c, handled) && Enabled(c, s) && Defined(c, s) && !s.ShutdownStep?
    ensures Marks(c, s, Next(c, s), handled)
  {
    hide Exchange, Marks, Next, Enabled, Defined;
    match s {
      case HttpResponseWrittenStep(_, _, _) => ResponseMarks(c, s, handled);
      case FrameReadStep(_, _) => ReadMarks(c, s, handled);
      case TimerStep(_) => TimerMarks(c, s, handled);
      case WriteDoneStep(_) => WriteMarks(c, s, handled);
      case CallStep(_) => OtherMarks(c, s, handled);
      case StartStep => OtherMarks(c, s, handled);
      case PauseStep => OtherMarks(c, s, handled);
      case ResumeStep => OtherMarks(c, s, handled);
      case WriteFrameStep => OtherMarks(c, s, handled);
      case ExpireStep(_) => OtherMarks(c, s, handled);
      case HandshakeReadStep(_, _) => ServerMarks(c, s, handled);
      case TransportReadyStep(_, _, _) => ServerMarks(c, s, handled);
      case HttpRequestWrittenStep(_) => ClientMarks(c, s, handled);
      case HttpResponseReadStep(_, _) => ClientMarks(c, s, handled);
    }
  }

  /** The last step reads the mark. */
  lemma ShutdownReads(c: Con, s: Step, handled: bool)
    requires Valid(c) && Exchange(c, handled) && Enabled(c, s) && s.ShutdownStep?
    ensures c.world.calls.terminations == 0 && c.state == Closed
    ensures var d := Next(c, s);
      && Exchange(d, handled) && d.world.calls.terminations == 1
      && (d.world.calls.fails == 0 <==> c.ec == HttpConnectionEnded)
  {
    var d := Received(c, ShutdownDone(s.status));
    assert s.status == Failed && c.world.calls.terminations == 0 && c.state == Closed && c.world.calls.fails == 0;
    hide Valid;
    var e := Terminated(d, s.status);
    assert Exchange(e, handled);
    RunExchange(e, s.script, handled);
    hide Run;
  }

  // ---------------------------------------------------------------- whole runs

  /** After the request a response was written while the connection waited for it, and since then, until
    * the end of the connection, nothing terminated it with an error. */
  ghost predicate AnsweredCleanly(trace: seq<Con>, steps: seq<Step>, p: nat, n: nat)
    requires n <= |steps| && |trace| == |steps| + 1
  {
    exists r :: p < r < n && Responds(trace[r], steps[r])
      && forall k :: r < k < n && trace[k].world.calls.terminations == 0 ==> !FailsAgain(trace[k], steps[k])
  }

  predicate CleanNext(c: Con, s: Step, clean: bool) {
    Responds(c, s) || (clean && (c.world.calls.terminations == 0 ==> !FailsAgain(c, s)))
  }

  lemma CleanSnoc(trace: seq<Con>, steps: seq<Step>, p: nat, n: nat)
    requires p < n < |steps| && |trace| == |steps| + 1
    ensures AnsweredCleanly(trace, steps, p, n + 1)
       <==> CleanNext(trace[n], steps[n], AnsweredCleanly(trace, steps, p, n))
  {
    hide Responds, FailsAgain;
  }

  /** Where a plain exchange stands: before the end the mark, and after it the fail handler, tells whether
    * it was answered cleanly. */
  ghost predicate Stands(c: Con, handled: bool, clean: bool) {
    && Exchange(c, handled)
    && (c.world.calls.terminations == 0 ==> (c.ec == HttpConnectionEnded <==> handled && clean))
    && (c.world.calls.terminations > 0 ==> (c.world.calls.fails == 0 <==> handled && clean))
  }

  lemma StandsOn(c: Con, s: Step, handled: bool, clean: bool)
    requires Valid(c) && Enabled(c, s) && Defined(c, s) && Stands(c, handled, clean)
    ensures Stands(Next(c, s), handled, CleanNext(c, s, clean))
  {
    if c.world.calls.terminations > 0 {
      EndedIsClosed(c, s);
    }
    if s.ShutdownStep? {
      ShutdownReads(c, s, handled);
    } else {
      StepMarks(c, s, handled);
    }
    hide Valid, Exchange, Next, Enabled, Defined, Check;
  }

  lemma EndedIsClosed(c: Con, s: Step)
    requires Valid(c) && c.world.calls.terminations > 0
    ensures !Responds(c, s)
  {
  }

  lemma {:induction false} ExchangeStands(trace: seq<Con>, steps: seq<Step>, p: nat, n: nat)
    requires RunOf(trace, steps) && Valid(trace[0]) && trace[0].config.isServer
    requires p < n <= |steps| && ReadsPlainRequest(trace[p], steps[p])
    ensures Stands(trace[n], Handled(trace[p], steps[p]), AnsweredCleanly(trace, steps, p, n))
  {
    hide Valid, ReadsPlainRequest, Handled, Stands, Next, Enabled, Defined, Responds, FailsAgain;
    ServerRunsSafe(trace, steps, n - 1);
    if n == p + 1 {
      RequestBegins(trace[p], steps[p]);
      StandsFirst(trace[n], Handled(trace[p], steps[p]));
    } else {
      ExchangeStands(trace, steps, p, n - 1);
      CleanSnoc(trace, steps, p, n - 1);
      StandsOn(trace[n - 1], steps[n - 1], Handled(trace[p], steps[p]), AnsweredCleanly(trace, steps, p, n - 1));
    }
  }

  lemma StandsFirst(c: Con, handled: bool)
    requires Exchange(c, handled) && c.ec != HttpConnectionEnded && c.world.calls.terminations == 0
    ensures Stands(c, handled, false)
  {
  }

  /** For a connection of a server that asked for no upgrade, over all runs: the session never opens, and
    * when the connection has ended the fail handler has not been called, as documented, exactly if the
    * request was handled by an HTTP handler, its response was written before anything else closed the
    * connection, and nothing terminated the connection with an error between that and its end.  In every
    * other case the fail handler has been called, whether or not the HTTP handler was. */
  lemma HandlerInsteadOfFail(trace: seq<Con>, steps: seq<Step>, p: nat, n: nat)
    requires RunOf(trace, steps) && Valid(trace[0]) && trace[0].config.isServer
    requires p < n <= |steps| && ReadsPlainRequest(trace[p], steps[p])
    requires trace[n].world.calls.terminations > 0
    ensures var calls := trace[n].world.calls;
      && calls.opens == 0 && calls.closes == 0 && calls.fails + calls.httpEnds == 1
      && (calls.httpRequests > 0 <==> Handled(trace[p], steps[p]))
      && (calls.fails == 0 <==> Handled(trace[p], steps[p]) && AnsweredCleanly(trace, steps, p, n))
  {
    ExchangeStands(trace, steps, p, n);
    ServerRunsSafe(trace, steps, n);
    ExactlyOnce(trace[n]);
    HandledMeans(trace[n]);
    hide Valid, AnsweredCleanly, RunOf, ReadsPlainRequest, Handled;
  }

  lemma HandledMeans(c: Con)
    requires Valid(c)
    ensures c.isHttp <==> c.world.calls.httpRequests > 0
  {
  }

  // ---------------------------------------------------------------- how it goes wrong

  /** A request with a valid URI that the HTTP handler, if there is one, answers with a status. */
  const ANSWERS := Answers(true, [HttpApi.Plain(SetStatus(200))], false, false, [], false, false)

  const PLAIN_REQUEST := HandshakeReadStep(Success, Request(NotWebsocket, ANSWERS))

  const WRITTEN := HttpResponseWrittenStep(Success, [], [])

  lemma HandlerAnswers(c: Con)
    requires c.internal == ProcessHttpRequest && c.state == Connecting
    ensures ProcessHttp(c, ANSWERS) ==
      if c.config.hasHttpHandler then (HttpRequested(c).(status := 200), Success)
      else (c.(status := UPGRADE_REQUIRED), UpgradeRequired)
  {
    var h := HttpRequested(c);
    assert RunHttp(h, ANSWERS.httpScript) == RunHttp(h.(status := 200), ANSWERS.httpScript[1..]) == h.(status := 200);
  }

  lemma RequestAnswered(c: Con)
    requires Listens(c)
    ensures Enabled(c, PLAIN_REQUEST) && ReadsPlainRequest(c, PLAIN_REQUEST)
    ensures Handled(c, PLAIN_REQUEST) == c.config.hasHttpHandler
    ensures var d := Next(c, PLAIN_REQUEST);
      && d.config == c.config && d.state == Connecting && d.internal == ProcessHttpRequest
      && HttpResponseWritten in d.world.events && d.isHttp == c.config.hasHttpHandler
      && d.status == (if d.isHttp then 200 else UPGRADE_REQUIRED)
      && d.ec == (if d.isHttp then Success else UpgradeRequired)
      && d.timer == c.timer && d.world.timers == c.world.timers
      && d.world.calls == c.world.calls.(httpRequests := if d.isHttp then 1 else 0)
  {
    HandlerAnswers(Received(c, HandshakeRead).(internal := ProcessHttpRequest));
    hide ProcessHttp;
  }

  lemma ResponseWritten(c: Con)
    requires c.state == Connecting && c.internal == ProcessHttpRequest && HttpResponseWritten in c.world.events
    requires c.status != SWITCHING_PROTOCOLS
    ensures Enabled(c, WRITTEN) && Responds(c, WRITTEN)
    ensures var d := Next(c, WRITTEN);
      && d.state == Closed && ShutdownDone(Failed) in d.world.events && d.world.calls == c.world.calls
      && d.ec == (if c.isHttp then HttpConnectionEnded else c.ec)
      && d.world.timers == CancelIn(c.world.timers, c.timer)
  {
    var e := CancelTimer(Received(c, HttpResponseWritten));
    assert e.timer == None && e.world.timers == CancelIn(c.world.timers, c.timer);
    assert CancelIn(e.world.timers, None) == e.world.timers;
    hide CancelIn;
  }

  lemma Ended(c: Con)
    requires ShutdownDone(Failed) in c.world.events
    ensures Enabled(c, ShutdownStep(Failed, []))
    ensures Next(c, ShutdownStep(Failed, [])).world.calls ==
      if c.ec == HttpConnectionEnded
      then c.world.calls.(httpEnds := c.world.calls.httpEnds + 1, terminations := c.world.calls.terminations + 1)
      else c.world.calls.(fails := c.world.calls.fails + 1, terminations := c.world.calls.terminations + 1)
  {
  }

  /** On every server a run in which a plain request is answered and the answer is written: without an HTTP
    * handler the fail handler is called, with one it is not. */
  lemma AnsweredRun(config: Config) returns (trace: seq<Con>, steps: seq<Step>)
    requires config.isServer
    ensures RunOf(trace, steps) && |trace| == 6 && trace[0] == Initial(config)
    ensures ReadsPlainRequest(trace[2], steps[2]) && Responds(trace[3], steps[3])
    ensures trace[5].world.calls ==
      if config.hasHttpHandler then Calls(0, 0, 0, 1, 1, 1, []) else Calls(0, 1, 0, 0, 1, 0, [])
  {
    hide RunOf, Next, Enabled, Responds, ReadsPlainRequest, CancelIn;
    trace, steps := ServerListens(config);
    var c := trace[2];
    RequestAnswered(c);
    trace, steps := ExtendRun(trace, steps, PLAIN_REQUEST);
    var d := trace[3];
    ResponseWritten(d);
    trace, steps := ExtendRun(trace, steps, WRITTEN);
    Ended(trace[4]);
    trace, steps := ExtendRun(trace, steps, ShutdownStep(Failed, []));
    assert trace[2] == c && trace[3] == d && steps[2] == PLAIN_REQUEST && steps[3] == WRITTEN;
  }

  /** The open timer expires while the response is being written, and reports that once it has been. */
  lemma LateTimer(c: Con)
    requires c.state == Closed && |c.world.timers| > 0 && c.world.timers[0] == Timer(OpenTimer, Expired)
    requires ShutdownDone(Failed) in c.world.events
    ensures Enabled(c, TimerStep(0)) && FailsAgain(c, TimerStep(0))
    ensures var d := Next(c, TimerStep(0));
      d.ec == OpenHandshakeTimeout && d.world.calls == c.world.calls && ShutdownDone(Failed) in d.world.events
  {
    hide CancelIn;
  }

  lemma Expires(c: Con)
    requires c.world.timers == [Timer(OpenTimer, Armed)]
    ensures Enabled(c, ExpireStep(0))
    ensures Next(c, ExpireStep(0)) == c.(world := c.world.(timers := [Timer(OpenTimer, Expired)]))
  {
    assert [Timer(OpenTimer, Armed)][0 := Timer(OpenTimer, Expired)] == [Timer(OpenTimer, Expired)];
  }

  /** On every server with an HTTP handler and an open timer a run in which the handler answers, its answer
    * is written, and the fail handler is called all the same. */
  lemma LateTimerRun(config: Config) returns (trace: seq<Con>, steps: seq<Step>)
    requires config.isServer && config.hasHttpHandler && config.openTimeout > 0 && config.hasTimers
    ensures RunOf(trace, steps) && |trace| == 8 && trace[0] == Initial(config)
    ensures ReadsPlainRequest(trace[2], steps[2]) && Responds(trace[4], steps[4]) && FailsAgain(trace[5], steps[5])
    ensures trace[7].world.calls == Calls(0, 1, 0, 0, 1, 1, [])
  {
    hide RunOf, Next, Enabled, Responds, ReadsPlainRequest, FailsAgain;
    trace, steps := ServerListens(config);
    RequestAnswered(trace[2]);
    trace, steps := ExtendRun(trace, steps, PLAIN_REQUEST);
    Expires(trace[3]);
    trace, steps := ExtendRun(trace, steps, ExpireStep(0));
    ResponseWritten(trace[4]);
    trace, steps := ExtendRun(trace, steps, WRITTEN);
    LateTimer(trace[5]);
    trace, steps := ExtendRun(trace, steps, TimerStep(0));
    Ended(trace[6]);
    trace, steps := ExtendRun(trace, steps, ShutdownStep(Failed, []));
  }
}
