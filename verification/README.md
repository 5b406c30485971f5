# The WebSocket++ core in Dafny

A model of the parts of WebSocket++ whose correctness is hardest to see from the code, with proofs that hold of all
inputs, all runs and all interleavings. `dafny verify dfyconfig.toml` checks the whole project.

## What is modelled

The connection is modelled three times, each time proved against the one before.

* `WritePipeline` takes the outgoing side at the grain of its write lock: a queue, a write flag, the batch in flight, and
  the threads and completions that stand between two critical sections. Any interleaving of senders, `write_frame` calls
  and write completions is a run.
* `Lifecycle` is the whole connection as a state machine, one function for each method of the class and one step for each
  call into it: by the application, by the endpoint, or by the transport delivering a completion it owes. The answers of
  the protocol processor and of the application's handlers are parameters, and a handler may itself call the connection.
  Nothing is assumed about the order in which completions, timers and calls arrive. `LifecycleSafety` states what every
  reachable state satisfies and what whole runs can and cannot do. `Effects` says of each call and of each step what it
  does: which frames it pushes, which handlers it calls, what it leaves pending, and when it ends the connection.
  `MessageDelivery` says which messages the message handler has been given after any run, `CloseFrames` counts the close
  frames of a run, and `PlainHttp` follows a request that is no WebSocket handshake to its end.
* `ConnectionObject` is the class itself: the fields of the source, and methods that assign them step by step, each proved
  to do what its function in `Lifecycle` says.

The rest stands alone.

* `CloseCodes` and `Utf8`: the payload of close frames (sections 5.5.1 and 7.4 of RFC 6455) and the table-driven UTF-8
  decoder, against the definitions of RFC 3629.
* `Masking` and `Frame`: masking by octets and by machine words on either byte order and with either word size, and the
  frame header (sections 5.2 and 5.3 of RFC 6455). A word is the sequence of its octets, least significant first;
  `ShiftsAreArithmetic` ties that to numbers.
* `Md5` and `Base64`: incremental digests (RFC 1321) with the compression function as a parameter, and the codec of
  section 4 of RFC 4648.
* `HttpParser` and `Uri`: parameter lists with quoted strings (section 3.2.6 of RFC 7230), and parsing and printing URIs.
* `Multipart`: several message parts in one, as in the ZeroMQ add-on. `Broadcast`: the action queue of the broadcast
  server, with its condition variable.

Objects that the source updates in place are classes here, loops are loops, and buffers are arrays; each method is proved
against a function on values, and what matters is proved about that function.

## Where the code does not keep the simple claim

In each of these the model does what the code does. Where a claim fails there is an input or a run that shows it, and the
condition under which the claim holds is proved to be exact.

* A client whose extension negotiation fails terminates the connection and then opens it: the session goes back from
  closed to open, and both the fail and the open handler run (`LifecycleSafety.ClientReopens`). That is the only step that
  breaks the life cycle (`NextValid`, `RunsSafe`); a server never takes it (`ServerRunsSafe`).
* A close frame with a bad code or reason is acknowledged even while closing, so a connection may send several close
  frames (`CloseFrames.TwoCloseFrames`). It does so in some run exactly if it is not configured to drop the connection on a
  protocol error (`CanCloseTwiceIff`). A run sends at most one exactly if no such frame is answered in it while closing
  (`OneCloseFrameIff`), and one is answered exactly under the guard of `AnswersAgainIff`. Nothing else ever follows the
  first close frame.
* The documentation promises that a connection that did not try to upgrade triggers the HTTP handler instead of fail or
  open. The open handler is never called for it, but the fail handler may be: when there is no HTTP handler or the URI is
  invalid, although a response is written (`PlainHttp.AnsweredRun`); when the response fails or something closes the
  connection first; and even after the HTTP handler has run and its response has been written, when a late timer or
  another error terminates the connection once more before its end (`LateTimerRun`). `HandlerInsteadOfFail` proves that
  the promise is kept exactly in the remaining case.
* A quoted value that ends in a backslash is not read back: a backslash before a quote always escapes it. Every other value
  is (`HttpParser.QuotedRoundTrip`).
* `str()` drops the brackets of an IPv6 host, so such a URI is not read back (`Uri.Ipv6NotRecovered`); `RecoveredIff` says
  which are.
* A multipart size below 255 is also accepted in five octets, and a frame size in a longer form than it needs; writing out
  what was read then shortens it, exactly then (`Multipart.ReencodingShortens`, `Frame.RewritesShortest`).
* The documentation of `word_mask_circ` says that the octets after the given length are rewritten with their own values.
  The code does not touch them, and neither does the model.

## Model

| member | source | states |
|---|---|---|
| `WritePipeline.RunValid` | websocketpp/impl/connection_impl.hpp:1793-1928 | Every state of every interleaving of senders, `write_frame` calls and write completions is valid and every step of it defined: at most one transport write is outstanding, the flag has exactly one owner, no wakeup is lost, the batches written followed by the batch held and the queue are the push history, and the buffer size is the payload sum of the queue. |
| `WritePipeline.NextValid` | websocketpp/impl/connection_impl.hpp:1793-1928 | One critical section, or one step between two of them, keeps all of that, and a write completion always finds a batch to look at the back of. |
| `WritePipeline.PushValid` | websocketpp/impl/connection_impl.hpp:133-142 | Pushing under the lock, with the test whether writing is needed, keeps validity. |
| `WritePipeline.TakeBatchConserves` | websocketpp/impl/connection_impl.hpp:1793-1828 | Popping messages up to the first terminal one loses, repeats and reorders nothing and keeps the buffer size equal to the payload sum. |
| `WritePipeline.StartWriteConserves` | websocketpp/impl/connection_impl.hpp:1830-1886 | The buffers handed to the transport are, in order, the headers and payloads of the batch. |
| `WritePipeline.CompleteValid` | websocketpp/impl/connection_impl.hpp:1889-1910 | A completion finds a non-empty batch, empties it, and leaves the flag set if the write failed or ended in a terminal message. |
| `WritePipeline.StoppedForever` | websocketpp/impl/connection_impl.hpp:1889-1917 | After a failed or terminal write has completed, the write flag stays set and nothing is ever given to the transport again, whatever anyone pushes. |
| `WritePipeline.SentIsPrefix` | websocketpp/impl/connection_impl.hpp:1807-1817 | What the transport was given is a prefix of what was pushed, its bytes are the frames of those messages, and only its last message can be terminal. |
| `WritePipeline.StepPaysDebt` | websocketpp/impl/connection_impl.hpp:1793-1928 | Every step other than a push makes the outstanding work smaller. |
| `WritePipeline.RunsDry` | websocketpp/impl/connection_impl.hpp:1793-1928 | However it is scheduled, a run without new pushes comes to rest within a number of steps known at its start. |
| `WritePipeline.RestMeansDelivered` | websocketpp/impl/connection_impl.hpp:1912-1927 | When no step is left but a push, either a failed or terminal write ended the connection or every message ever pushed has been written. |
| `WritePipeline.PushCounts` | websocketpp/impl/connection_impl.hpp:2210-2225 | `write_push` keeps the count of buffered octets equal to the payload sum of the queue. |
| `WritePipeline.FinishNowEffect` | websocketpp/impl/connection_impl.hpp:1895-1927 | An undisturbed completion leaves the pipeline valid and at rest, with the batch gone, the queue untouched, and the flag kept for good exactly after a failed or terminal write. |
| `WritePipeline.UndisturbedCallsPayDebt` | websocketpp/impl/connection_impl.hpp:1793-1928 | An undisturbed `write_frame` or completion makes the outstanding work smaller. |
| `WritePipeline.UndisturbedCallsAreRuns` | websocketpp/impl/connection_impl.hpp:117-149 | The calls that the connection machine treats as atomic are interleavings of the critical sections, so all of this holds of them. |
| `WritePipeline.BuffersAreWire` | websocketpp/impl/connection_impl.hpp:1830-1837 | Header and payload buffers, concatenated, are the frames of the batch. |
| `WritePipeline.EverythingWritten` | websocketpp/impl/connection_impl.hpp:1793-1928 | From the idle state on, under every interleaving: at rest either a failed or terminal write ended the connection, or the octets on the wire are exactly the frames of the messages that the steps of the run pushed, in the order of their pushes. |
| `WritePipeline.AllPushed` | websocketpp/impl/connection_impl.hpp:2210-2225 | What has been pushed is the list of the push steps of the run. |
| `WritePipeline.WriteNowSends` | websocketpp/impl/connection_impl.hpp:1807-1886 | An undisturbed `write_frame` gives the transport everything queued up to the first terminal message, frame after frame, and nothing if a write is outstanding or nothing is queued. |
| `WritePipeline.FinishNowDoes` | websocketpp/impl/connection_impl.hpp:1895-1927 | An undisturbed completion dispatches `write_frame` exactly if messages are queued and writing may go on. |
| `WritePipeline.BatchIs` | websocketpp/impl/connection_impl.hpp:1807-1817 | A batch is everything queued, or everything up to the first terminal message. |
| `WritePipeline.BuffersAt` | websocketpp/impl/connection_impl.hpp:1830-1837 | The buffers are the header and the payload of each message, in order. |
| `LifecycleSafety.NextValid` | websocketpp/impl/connection_impl.hpp:1619-1635 | From a valid state every step is defined and leads to a valid state exactly when it is not a client whose extension negotiation fails; that step moves a closed session back to open. |
| `LifecycleSafety.RunsSafe` | websocketpp/impl/connection_impl.hpp:1351-1431 | Over a whole run, every state is valid (session states only move forward, none but closing is entered twice, one shutdown, each handler at most once and for its own reason, handshake finished before open, only close frames after a close frame, messages delivered only while open, a live close timer while closing) exactly when no step of the run is such a failed negotiation. |
| `LifecycleSafety.RunsValid` | websocketpp/impl/connection_impl.hpp:1546-1663 | The states of a run stay valid up to the first failed extension negotiation. |
| `LifecycleSafety.ServersNeverReopen` | websocketpp/impl/connection_impl.hpp:1546-1663 | A server never takes that step. |
| `LifecycleSafety.ClientReopens` | websocketpp/impl/connection_impl.hpp:1619-1635 | A run of any client that reaches it: the connection is terminated and then opened, and both the open and the fail handler run. |
| `LifecycleSafety.ExactlyOnce` | websocketpp/impl/connection_impl.hpp:1698-1790 | When the termination handler has run, exactly one of open, fail and the plain HTTP outcome has happened, and for a connection that made no plain request one of the first two; after a plain request open has not happened; close has run exactly if open has; and nothing is pending that could run any of them again. |
| `LifecycleSafety.ClosingHasExit` | websocketpp/impl/connection_impl.hpp:1682-1695 | With a positive close timeout and a transport that has timers, every closing session has a close timer that can expire, and its expiry closes the session. |
| `LifecycleSafety.CleanServerCloses` | websocketpp/impl/connection_impl.hpp:2026-2049 | On a server a clean close means that the session is closed or that a terminal frame is in flight or queued with a write or a dispatched `write_frame` to carry it. |
| `LifecycleSafety.CleanServerTerminates` | websocketpp/impl/connection_impl.hpp:1793-1928 | And it closes: until it has, a `write_frame` or a completion can go on, however they are scheduled and whether or not the writes fail, and there are no more of them than the pipeline owed at the start. |
| `LifecycleSafety.ServerRunsSafe` | websocketpp/impl/connection_impl.hpp:716-1928 | Every state of every run of a server is valid, without further conditions, and every step of it is defined. |
| `LifecycleSafety.NextGrows` | websocketpp/impl/connection_impl.hpp:716-1928 | No step, not even a failed negotiation, rewrites the history of session states or the configuration, and only pausing and resuming decide whether to read. |
| `LifecycleSafety.InitialValid` | websocketpp/connection.hpp:297-331 | A connection starts out valid. |
| `LifecycleSafety.TerminateKeeps` | websocketpp/impl/connection_impl.hpp:1698-1748 | Termination, first or repeated, keeps every invariant and leaves the session closed. |
| `LifecycleSafety.SendFrameKeeps` | websocketpp/impl/connection_impl.hpp:104-152 | Sending, and pinging and ponging, keep every invariant: nothing but a close frame is pushed once the session has left open. |
| `LifecycleSafety.SendCloseFrameKeeps` | websocketpp/impl/connection_impl.hpp:2065-2158 | Sending a first close frame keeps every invariant, and among them arms the close timer. |
| `LifecycleSafety.CallKeeps` | websocketpp/impl/connection_impl.hpp:304-323 | Every call the application may make, in any state, keeps every invariant. |
| `LifecycleSafety.RejectCloseKeeps` | websocketpp/impl/connection_impl.hpp:1982-2018 | Rejecting a close frame keeps every invariant; whether it sends another close frame is settled by `CloseFrames.AnswersAgainIff`. |
| `LifecycleSafety.ProcessCloseKeeps` | websocketpp/impl/connection_impl.hpp:1982-2049 | Processing a close frame keeps every invariant. |
| `LifecycleSafety.ProcessControlFrameKeeps` | websocketpp/impl/connection_impl.hpp:1937-2055 | So does any control frame, with whatever its handler calls. |
| `LifecycleSafety.DeliverMessageKeeps` | websocketpp/impl/connection_impl.hpp:1092-1098 | Delivering a message, with whatever the message handler calls, keeps every invariant; that it is delivered, and only while open, is `Effects.MessageEffect`. |
| `LifecycleSafety.HandleReadFrameKeeps` | websocketpp/impl/connection_impl.hpp:965-1106 | So does everything read at once, and every read error. |
| `LifecycleSafety.HandleTransportInitKeeps` | websocketpp/impl/connection_impl.hpp:740-771 | The transport being ready, or failing, keeps every invariant. |
| `LifecycleSafety.HandleReadHandshakeKeeps` | websocketpp/impl/connection_impl.hpp:804-941 | So does every outcome of reading a handshake request. |
| `LifecycleSafety.ProcessHandshakeKeeps` | websocketpp/impl/connection_impl.hpp:1207-1293 | Answering a handshake request keeps every invariant, with whatever the validation handler calls. |
| `LifecycleSafety.SwitchesIff` | websocketpp/impl/connection_impl.hpp:1207-1293 | A request is switched to WebSocket exactly when it validates, its extensions and its URI parse, the application accepts it and the processor can answer it; in every other case there is an error. |
| `LifecycleSafety.HandleWriteHttpResponseKeeps` | websocketpp/impl/connection_impl.hpp:1351-1431 | Opening a session, or ending a plain HTTP exchange, keeps every invariant. |
| `LifecycleSafety.HandleReadHttpResponseKeeps` | websocketpp/impl/connection_impl.hpp:1546-1663 | A client reading the response keeps every invariant if the extensions, when it comes to them, can be negotiated. |
| `LifecycleSafety.NegotiationFailureReopens` | websocketpp/impl/connection_impl.hpp:1619-1635 | If they cannot, the history of session states goes back from closed to open. |
| `LifecycleSafety.HandleWriteFrameKeeps` | websocketpp/impl/connection_impl.hpp:1889-1928 | A write completion is defined and keeps every invariant. |
| `LifecycleSafety.HandleTimerKeeps` | websocketpp/impl/connection_impl.hpp:1666-1695 | A timer that expired or was cancelled keeps every invariant. |
| `LifecycleSafety.HandleTerminateKeeps` | websocketpp/impl/connection_impl.hpp:1751-1790 | The end of the connection calls one of fail, HTTP end and close, and the termination handler, once. |
| `Effects.SendEffect` | websocketpp/impl/connection_impl.hpp:104-149 | Over every valid state: `send`, `ping` and `pong` on an open session with a prepared frame append exactly that message to the push history and to the queue, change nothing outside the pipeline, and leave a write or a dispatched `write_frame` pending; in every other case they change nothing. |
| `Effects.CloseEffect` | websocketpp/impl/connection_impl.hpp:304-323 | `close` on an open session pushes one close frame with the prepared octets, records the code, leaves the session closing against the close timer, and marks the frame as the last one exactly for the codes 1002, 1007, 1008, 1009 and 1011; a frame that cannot be prepared, or another state, leaves the session as it is. |
| `Effects.TerminationEffect` | websocketpp/impl/connection_impl.hpp:1698-1748 | A termination closes the session, records the error and the abnormal code, cancels the timer that is held, and shuts the transport down once, as failed exactly if the session was connecting. |
| `Effects.PauseEffect` | websocketpp/impl/connection_impl.hpp:360-394 | Pausing and resuming are dispatched; once they run, no further read is asked for, or one is. |
| `Effects.HandshakeErrorEnds` | websocketpp/impl/connection_impl.hpp:808-841 | For each of the four completions of the opening handshake: an error, or a state in which the completion is not waited for, ends the connection with that error, or as an invalid state, unless it is closed already. |
| `Effects.HandshakeErrorFails` | websocketpp/impl/connection_impl.hpp:1365-1383 | So on a connecting session each of them gives a closed session, the error recorded, one more shutdown, and a failed termination pending. |
| `Effects.ClosedIgnores` | websocketpp/impl/connection_impl.hpp:1505-1521 | On a closed session a completion without an error and the end of the stream change nothing else; any other error is recorded and nothing is shut down again. |
| `Effects.NoRequestEffect` | websocketpp/impl/connection_impl.hpp:845-874 | Octets that make no request: more are read, a malformed one is answered with its status, and anything else ends the connection. |
| `Effects.VersionRefused` | websocketpp/impl/connection_impl.hpp:886-928 | A request for a version that is not a number is answered with 400, one for a version that is not supported with 400, and a short third key with 500, each with its error. |
| `Effects.PlainRefused` | websocketpp/impl/connection_impl.hpp:1176-1205 | A plain request without a valid URI is answered with 400, and one without an HTTP handler with 426. |
| `Effects.PlainHandledEffect` | websocketpp/impl/connection_impl.hpp:1189-1204 | The HTTP handler is called once, what it calls is done, and the response is written with its status, or 500 if it set none, unless it deferred the response or ended the connection. |
| `Effects.DeferEffect` | websocketpp/impl/connection_impl.hpp:661-673 | Deferring stops the handshake timer and marks the response as deferred. |
| `Effects.HandshakeRefused` | websocketpp/impl/connection_impl.hpp:1207-1247 | A handshake that does not validate, has malformed extensions or no valid URI is answered with 400 and the error of the first of these. |
| `Effects.RequestOffered` | websocketpp/impl/connection_impl.hpp:1249-1293 | A handshake that gets as far as the application is answered, after what its validation handler calls, with 101 if it is accepted and can be answered, with 500 if it cannot, and otherwise with the status the application chose or 400. |
| `Effects.ResponseWrittenEffect` | websocketpp/impl/connection_impl.hpp:1386-1431 | When the response has been written, status 101 opens the session, calls the open handler, does what it calls, and goes on with what came along as with a read; any other status ends the connection. |
| `Effects.RequestWrittenEffect` | websocketpp/impl/connection_impl.hpp:1532-1543 | When the request has been written, a client waits for the response. |
| `Effects.NoResponseEffect` | websocketpp/impl/connection_impl.hpp:1584-1613 | A malformed response or one that does not validate ends the connection; an incomplete one is read on. |
| `Effects.ResponseReadEffect` | websocketpp/impl/connection_impl.hpp:1615-1647 | A response that validates opens the session and goes on with what came along, after the connection has been terminated if the extensions cannot be negotiated. |
| `Effects.StartEffect` | websocketpp/impl/connection_impl.hpp:716-737 | A connection starts once: it waits for the transport, and a second start ends it. |
| `Effects.TransportReadyEffect` | websocketpp/impl/connection_impl.hpp:740-799 | When the transport is ready, a server reads a request and a client writes one, both against the open timer; a client without a processor or a request does nothing more, and an error ends the connection. |
| `Effects.TimerEffect` | websocketpp/impl/connection_impl.hpp:1666-1695 | An expired timer ends the connection with the error of its kind; a cancelled one does nothing. |
| `Effects.ShutdownEffect` | websocketpp/impl/connection_impl.hpp:1751-1790 | Exactly one of fail, HTTP end and close is counted, by the session state and the recorded error, then the termination handler, and then what they call is done. |
| `Effects.ResponseCalls` | websocketpp/impl/connection_impl.hpp:676-708 | The status can be set only while a request is processed, and a deferred response is sent at most once. |
| `Effects.ReadErrorEffect` | websocketpp/impl/connection_impl.hpp:965-1014 | A read that failed, or came too early, ends the connection, but for what is expected of a closed session, and the end of the stream on a closing client. |
| `Effects.MessageEffect` | websocketpp/impl/connection_impl.hpp:1087-1098 | A data message calls the message handler with it exactly if the session is open, and what the handler calls is done before the next frame is looked at. |
| `Effects.MessagesRead` | websocketpp/impl/connection_impl.hpp:1022-1105 | A read of any number of data messages during which the session stays open delivers each of them once and in order, does what their handlers call, in that order, and then reads on. |
| `Effects.PingEffect` | websocketpp/impl/connection_impl.hpp:1953-1968 | A ping on an open session is answered, unless its handler refuses or closes the session, by pushing exactly the one pong that was prepared. |
| `Effects.PongEffect` | websocketpp/impl/connection_impl.hpp:1969-1977 | A pong calls its handler and nothing else, on an open session only; partial frames and unknown opcodes are passed over. |
| `Effects.ProtocolErrorEffect` | websocketpp/impl/connection_impl.hpp:1058-1079 | A protocol error drops the connection if so configured, closes an open session with the code of the error, ends a session that cannot be closed, and nothing more is read. |
| `Effects.BadCloseEffect` | websocketpp/impl/connection_impl.hpp:1982-2018 | A close frame with a bad payload, in any state but closed, records its code and drops the connection with its error, or is answered. |
| `Effects.GoodCloseEffect` | websocketpp/impl/connection_impl.hpp:2019-2049 | A good close frame is answered when open; when closing it is taken for the answer, with which a server ends the connection and a client waits for the end. |
| `Effects.WriteEffect` | websocketpp/impl/connection_impl.hpp:1793-1886 | `write_frame` gives the transport everything queued up to the first terminal message as one write, if none is outstanding, and changes nothing but the pipeline. |
| `Effects.WriteDoneEffect` | websocketpp/impl/connection_impl.hpp:1889-1928 | A completion ends the connection after an error or a terminal message, and otherwise dispatches `write_frame` exactly if messages are queued. |
| `Effects.RunAppend` | websocketpp/impl/connection_impl.hpp:1087-1098 | What handlers call one after the other is one list of calls. |
| `MessageDelivery.AllDelivered` | websocketpp/impl/connection_impl.hpp:1022-1105 | Over all runs: the message handler has been given exactly the messages that were looked at while the session was open, each once, in order. |
| `MessageDelivery.StepDelivers` | websocketpp/impl/connection_impl.hpp:1087-1098 | Each step delivers exactly the messages it looks at while the session is open, and no other step than a read, or an opening that brings octets along, delivers any. |
| `MessageDelivery.ReadsUnlessPaused` | websocketpp/impl/connection_impl.hpp:360-394 | Over all runs: the connection is set to read exactly if the last that was done about it was not to pause it. |
| `CloseFrames.OneCloseFrameIff` | websocketpp/impl/connection_impl.hpp:1978-2158 | Over all runs, of clients and servers, reopened sessions included: every close frame after the first answers a bad close frame received while closing, so at most one is sent exactly if no step answers such a frame. |
| `CloseFrames.CanCloseTwiceIff` | websocketpp/impl/connection_impl.hpp:1982-2018 | A connection has a run in which it sends two close frames exactly if it is not configured to drop the connection on a protocol error. |
| `CloseFrames.TwoCloseFrames` | websocketpp/impl/connection_impl.hpp:1982-2018 | Such a run, for every client and every server so configured. |
| `CloseFrames.DroppingClosesOnce` | websocketpp/impl/connection_impl.hpp:1982-2018 | With that option no run sends two. |
| `CloseFrames.AnswersAgainIff` | websocketpp/impl/connection_impl.hpp:1982-2018 | While closing, a close frame is answered by a frame exactly if its payload is bad, the connection is not to be dropped for it, and a frame to answer with could be prepared; the answer is one more close frame. |
| `CloseFrames.StepAdds` | websocketpp/impl/connection_impl.hpp:965-1106 | Each step, whatever its handlers call, sends exactly as many close frames after the first as it answers bad ones while closing. |
| `CloseFrames.ProcessOneAdds` | websocketpp/impl/connection_impl.hpp:1937-2055 | So does each single frame. |
| `CloseFrames.AnswerCode` | websocketpp/impl/connection_impl.hpp:2070-2099 | The code with which a close frame is answered, for every payload: none when closing silently, otherwise the code that came, a normal close for an empty payload, a protocol error for a bad one; always one that may go on the wire. |
| `CloseFrames.EchoesCode` | websocketpp/impl/connection_impl.hpp:2095-2099 | Any code that may go on the wire comes back to the peer that sent it. |
| `PlainHttp.HandlerInsteadOfFail` | websocketpp/connection.hpp:51-79 | Over all runs of a server whose request was no WebSocket handshake: the session never opens, and when the connection has ended the fail handler has not been called exactly if the request reached an HTTP handler, its response was written while the connection waited for it, and nothing terminated the connection with an error between that and its end. |
| `PlainHttp.AnsweredRun` | websocketpp/impl/connection_impl.hpp:1176-1205 | On every server a run in which a plain request is answered and the answer written: without an HTTP handler the fail handler is called, with one only the HTTP handler. |
| `PlainHttp.LateTimerRun` | websocketpp/impl/connection_impl.hpp:1709-1714 | With an HTTP handler and an open timer, a run in which the handler answers, the answer is written, and a timer that had expired before then overwrites the error, so that the fail handler is called as well. |
| `PlainHttp.RequestBegins` | websocketpp/impl/connection_impl.hpp:1176-1205 | A plain request leads to an exchange that is handled exactly if its URI is valid and there is an HTTP handler, whatever that calls, and that is not yet over. |
| `PlainHttp.StepMarks` | websocketpp/impl/connection_impl.hpp:1386-1418 | Each later step marks the exchange as over exactly if the response to a handled request is written, and takes the mark away exactly if it terminates the connection with an error once more. |
| `PlainHttp.ShutdownReads` | websocketpp/impl/connection_impl.hpp:1751-1775 | The end of the connection calls the fail handler exactly if the mark is not there. |
| `ConnectionObject.Connection.constructor` | websocketpp/connection.hpp:297-331 | The initial field values. |
| `ConnectionObject.Connection.Deliver` | websocketpp/impl/connection_impl.hpp:104-2158 | The object takes any step as the machine does, and stays valid unless the step is a failed extension negotiation of a client. |
| `ConnectionObject.Connection.Send` | websocketpp/impl/connection_impl.hpp:104-152 | While open with a buffer that the processor prepared, exactly that message is appended to the queue and to the push history, and `write_frame` is dispatched unless the flag is set; otherwise an error and no change. |
| `ConnectionObject.Connection.PushAndDispatch` | websocketpp/impl/connection_impl.hpp:133-149 | A push, and a dispatch of `write_frame` exactly if the flag is clear. |
| `ConnectionObject.Connection.WritePop` | websocketpp/impl/connection_impl.hpp:2228-2248 | The front message leaves the queue and its payload is no longer counted; an empty queue gives none. |
| `ConnectionObject.Connection.TakeMessages` | websocketpp/impl/connection_impl.hpp:1807-1817 | The batch gets every queued message up to the first terminal one, in order. |
| `ConnectionObject.Connection.CollectBuffers` | websocketpp/impl/connection_impl.hpp:1830-1837 | A header and a payload buffer for each message of the batch. |
| `ConnectionObject.Connection.WriteFrames` | websocketpp/impl/connection_impl.hpp:1793-1886 | `write_frame` from start to end. |
| `ConnectionObject.Connection.OnFramesWritten` | websocketpp/impl/connection_impl.hpp:1889-1928 | `handle_write_frame`, which terminates after an error or a terminal message. |
| `ConnectionObject.Connection.CloseSession` | websocketpp/impl/connection_impl.hpp:304-323 | `close`, which is an error unless the session is open. |
| `ConnectionObject.Connection.BeginClosing` | websocketpp/impl/connection_impl.hpp:2124-2141 | The session is closing, clean if this acknowledges, with a close timer. |
| `ConnectionObject.Connection.SendClose` | websocketpp/impl/connection_impl.hpp:2065-2158 | `send_close_frame`. |
| `ConnectionObject.Connection.SendAck` | websocketpp/impl/connection_impl.hpp:2058-2062 | An acknowledgement is terminal on a server. |
| `ConnectionObject.Connection.RejectPayload` | websocketpp/impl/connection_impl.hpp:1982-2018 | A bad code or reason drops the connection or is acknowledged as a protocol error. |
| `ConnectionObject.Connection.OnCloseFrame` | websocketpp/impl/connection_impl.hpp:1978-2049 | A close frame: record the remote code, reject, acknowledge, or note that it was acknowledged. |
| `ConnectionObject.Connection.OnControlFrame` | websocketpp/impl/connection_impl.hpp:1937-2055 | `process_control_frame`: ignored when closed, only close frames unless open, a pong for a ping that is not refused. |
| `ConnectionObject.Connection.OnMessage` | websocketpp/impl/connection_impl.hpp:1092-1098 | The message handler is called with the message exactly if the session is open, and then what it calls is done. |
| `ConnectionObject.Connection.OnConsumeFailure` | websocketpp/impl/connection_impl.hpp:1058-1079 | A protocol error drops or closes, and terminates if closing fails. |
| `ConnectionObject.Connection.ConsumeAll` | websocketpp/impl/connection_impl.hpp:1022-1105 | The loop over the bytes read, which a protocol error ends, and the next read. |
| `ConnectionObject.Connection.OnFramesRead` | websocketpp/impl/connection_impl.hpp:965-1106 | `handle_read_frame`, with the errors that are expected in the closing and closed states. |
| `ConnectionObject.Connection.ReadMore` | websocketpp/impl/connection_impl.hpp:1110-1128 | A new read unless paused. |
| `ConnectionObject.Connection.Admit` | websocketpp/impl/connection_impl.hpp:1493-1530 | Every handshake handler goes on exactly without an error in the state it waits for, ignores a closed session exactly without an error or at the end of the stream, and otherwise fails with the error, or as an invalid state. |
| `ConnectionObject.Connection.Begin` | websocketpp/impl/connection_impl.hpp:716-737 | `start`. |
| `ConnectionObject.Connection.OnTransportReady` | websocketpp/impl/connection_impl.hpp:740-771 | `handle_transport_init`. |
| `ConnectionObject.Connection.ReadHandshake` | websocketpp/impl/connection_impl.hpp:774-799 | An open timer, and a read. |
| `ConnectionObject.Connection.SendRequest` | websocketpp/impl/connection_impl.hpp:1434-1490 | A request is sent only with a processor that can fill it in. |
| `ConnectionObject.Connection.OnHandshakeRead` | websocketpp/impl/connection_impl.hpp:804-941 | `handle_read_handshake`. |
| `ConnectionObject.Connection.OnRequest` | websocketpp/impl/connection_impl.hpp:876-928 | A whole request: its processor, its answer, and a response unless one was deferred or started. |
| `ConnectionObject.Connection.AnswerHttp` | websocketpp/impl/connection_impl.hpp:1176-1205 | A plain HTTP request goes to the HTTP handler, if there is one. |
| `ConnectionObject.Connection.AnswerHandshake` | websocketpp/impl/connection_impl.hpp:1207-1293 | A WebSocket request is validated, offered to the application and processed. |
| `ConnectionObject.Connection.WriteResponseError` | websocketpp/impl/connection_impl.hpp:949-960 | An early error response, only while the request is being read. |
| `ConnectionObject.Connection.WriteResponse` | websocketpp/impl/connection_impl.hpp:1296-1348 | A response, with an internal error if no status was chosen, unless a handler took the connection over. |
| `ConnectionObject.Connection.SendResponse` | websocketpp/impl/connection_impl.hpp:686-699 | A deferred response is sent at most once. |
| `ConnectionObject.Connection.DeferHttp` | websocketpp/impl/connection_impl.hpp:661-673 | Deferring cancels the handshake timer. |
| `ConnectionObject.Connection.OnHttpResponseWritten` | websocketpp/impl/connection_impl.hpp:1351-1431 | `handle_write_http_response`. |
| `ConnectionObject.Connection.BecomeOpen` | websocketpp/impl/connection_impl.hpp:1421-1428 | The session opens and the open handler runs. |
| `ConnectionObject.Connection.OnHttpRequestWritten` | websocketpp/impl/connection_impl.hpp:1493-1543 | `handle_send_http_request`. |
| `ConnectionObject.Connection.OnHttpResponseRead` | websocketpp/impl/connection_impl.hpp:1546-1663 | `handle_read_http_response`. |
| `ConnectionObject.Connection.OnResponse` | websocketpp/impl/connection_impl.hpp:1598-1647 | A whole response, with the fall through after a failed negotiation. |
| `ConnectionObject.Connection.OnTimer` | websocketpp/impl/connection_impl.hpp:1666-1695 | An expiry terminates with the timeout of its timer; a cancellation does nothing. |
| `ConnectionObject.Connection.CloseTransport` | websocketpp/impl/connection_impl.hpp:1723-1747 | Only the first termination shuts the transport down, as failed or as having been open. |
| `ConnectionObject.Connection.TerminateWith` | websocketpp/impl/connection_impl.hpp:1698-1748 | `terminate`: whatever the state was, the session is closed, and the transport is shut down unless it was closed before. |
| `ConnectionObject.Connection.OnTerminated` | websocketpp/impl/connection_impl.hpp:1751-1790 | `handle_terminate`. |
| `ConnectionObject.Connection.ApiCall` | websocketpp/impl/connection_impl.hpp:155-292 | The calls the application may make, `ping` and `pong` among them. |
| `CloseCodes.ExtractCode` | websocketpp/close.hpp:294-323 | The code of a payload and its error: none, one octet, invalid or reserved. |
| `CloseCodes.ExtractReason` | websocketpp/close.hpp:333-348 | The reason, and whether it is UTF-8. |
| `CloseCodes.ErrorOf` | websocketpp/close.hpp:294-323 | What is wrong with a payload, in numbers: one octet, a code reserved for later use (1004, 1016-2999), or a code that is never sent (below 1000, from 5000 on, 1005, 1006 and 1015). |
| `CloseCodes.AcceptableIff` | websocketpp/impl/connection_impl.hpp:1981-2018 | A close payload is processed without an error if and only if it is empty or a code of 1000-1003, 1007-1014 or 3000-4999 followed by UTF-8 text; code followed by reason is then the payload. |
| `CloseCodes.AcceptedIsClosePayload` | websocketpp/close.hpp:184-214 | What is accepted has such a code and such a text. |
| `CloseCodes.ClosePayloadAccepted` | websocketpp/close.hpp:184-214 | Everything made of such a code and such a text is accepted. |
| `CloseCodes.PayloadFields` | websocketpp/close.hpp:294-348 | Code and reason are recovered from any payload made of them. |
| `Utf8.ValidIffEncoding` | websocketpp/utf8_validator.hpp:45-78 | The table accepts a string if and only if it is the encoding, by section 3 of RFC 3629, of some scalar values, which are then the codepoints held at each accept. |
| `Utf8.AcceptsEncodings` | websocketpp/utf8_validator.hpp:45-78 | Every encoding is accepted and its scalar values recovered. |
| `Utf8.AcceptsOnlyEncodings` | websocketpp/utf8_validator.hpp:45-78 | Nothing else is accepted. |
| `Utf8.FirstCharacter` | websocketpp/utf8_validator.hpp:69-78 | An accepted string starts with one encoded scalar value and goes on with an accepted string. |
| `Utf8.EncodeValue` | websocketpp/utf8_validator.hpp:45-64 | The well-formed sequences of section 4 of RFC 3629 are exactly encodings: no overlong forms, no surrogates, nothing above 10FFFF. |
| `Utf8.ValueEncode` | websocketpp/utf8_validator.hpp:45-64 | And every scalar value has one. |
| `Utf8.RejectAbsorbs` | websocketpp/utf8_validator.hpp:91-97 | Once rejected, a string stays rejected. |
| `Utf8.ChunksAgree` | websocketpp/utf8_validator.hpp:105-121 | Decoding chunk by chunk agrees with decoding the concatenation. |
| `Utf8.Validator.Step` | websocketpp/utf8_validator.hpp:69-78 | One octet through the table. |
| `Utf8.Validator.Consume` | websocketpp/utf8_validator.hpp:91-97 | One octet, reporting rejection. |
| `Utf8.Validator.Decode` | websocketpp/utf8_validator.hpp:105-121 | The loop over a chunk, which stops at a rejection. |
| `Utf8.Validator.Complete` | websocketpp/utf8_validator.hpp:119-126 | True exactly when all octets decoded since the last reset, in however many pieces, are together the encoding of some scalar values. |
| `Utf8.AcceptingIffEncoding` | websocketpp/utf8_validator.hpp:104-126 | The machine accepts exactly when what it has been fed is an encoding. |
| `Utf8.Validator.Reset` | websocketpp/utf8_validator.hpp:129-132 | The state of a new validator. |
| `Utf8.Validate` | websocketpp/utf8_validator.hpp:143-149 | True if and only if the whole string encodes scalar values. |
| `Masking.ChunkedMasking` | websocketpp/frame.hpp:768-841 | For any cut of a payload into chunks, each masked by the word or by the octet routine with the key fed forward, the result is section 5.3 of RFC 6455 applied to the whole payload, and the key returned is the one for the next octet. |
| `Masking.UnmaskingRestores` | websocketpp/frame.hpp:768-841 | Masking again under any other cut, on a machine of any word size and byte order, restores the payload. |
| `Masking.OneChunk` | websocketpp/frame.hpp:768-841 | One call masks from its point of the cycle on, and both routines return the same key. |
| `Masking.PreparedKey` | websocketpp/frame.hpp:595-604 | A prepared key is the key repeated, whatever the word size and the byte order. |
| `Masking.CircshiftAdvances` | websocketpp/frame.hpp:612-623 | Rotating a prepared key moves it along the cycle of the key, on either byte order. |
| `Masking.ShiftsAreArithmetic` | websocketpp/frame.hpp:616-622 | The shifts of whole octets that this rests on are division and multiplication modulo the word. |
| `Masking.OctetsUsed` | websocketpp/frame.hpp:830-834 | The low or the high half of a prepared key, whichever a conversion to 32 bits keeps, is the same four octets. |
| `Masking.ByteMask` | websocketpp/frame.hpp:644-655 | The octets written are the definition; nothing else changes; in place or not. |
| `Masking.WordMaskExact` | websocketpp/frame.hpp:702-717 | The same, a word at a time with single octets at the end. |
| `Masking.WordMaskCirc` | websocketpp/frame.hpp:768-789 | The octets written are the input against the prepared key, under any prepared key; nothing else changes; the key comes back rotated. |
| `Masking.ByteMaskCirc` | websocketpp/frame.hpp:830-841 | The same, one octet at a time. |
| `Masking.WordIsOctets` | websocketpp/frame.hpp:775-778 | Reading, changing and writing back a word masks its octets in the order of their addresses. |
| `Masking.MaskTwice` | websocketpp/frame.hpp:644-655 | Masking twice restores. |
| `Masking.MaskedBit` | websocketpp/frame.hpp:644-655 | A bit is set in the masked payload exactly if the bits of the payload and of the octet of the key at its place modulo four differ. |
| `Frame.HeaderRoundTrip` | websocketpp/frame.hpp:489-585 | Reading a header back from the front of any longer stream, on any machine, recovers flags, size and key and leaves the rest, and the opcode exactly if it has four bits. |
| `Frame.FrameRoundTrip` | websocketpp/frame.hpp:489-585 | Header and masked payload, read from the front of a stream, give back the payload and leave the rest. |
| `Frame.RewritesShortest` | websocketpp/frame.hpp:573-585 | Writing out a header that was read never takes more octets, and gives back its octets exactly if its size had the shortest form. |
| `Frame.ShortestForm` | websocketpp/frame.hpp:207-216 | The size takes none, two or eight octets more, the least that hold it, and the header has the length computed from its first octets. |
| `Frame.HeaderOctets` | websocketpp/frame.hpp:235-275 | After the first two octets come the size in network order and the key, the same on every machine. |
| `Frame.BasicRoundTrip` | websocketpp/frame.hpp:189-232 | Every bit of the first two octets comes back through its accessor. |
| `Frame.NetworkMemory` | websocketpp/common/network.hpp:45-95 | A converted number lies in memory most significant octet first, on either kind of machine, and converting again restores it. |
| `Frame.Htonll` | websocketpp/common/network.hpp:66-95 | The four swaps reverse the octets on a little endian machine. |
| `Frame.BasicHeader.constructor` | websocketpp/frame.hpp:194-228 | The bits set one after the other, and the two numbers that section 5.2 of RFC 6455 makes of them. |
| `Frame.HeaderBits` | websocketpp/frame.hpp:177-228 | Every header starts with the two octets of section 5.2 of RFC 6455, as numbers: 128, 64, 32 and 16 for the four flags and the opcode below them; 128 for the mask bit, and the size up to 125, 126 for sizes below 65536, and 127 above. |
| `Frame.AccessorBits` | websocketpp/frame.hpp:321-433 | For every two octets the accessors read the flags, the opcode, the mask bit and the size at those places. |
| `Frame.FrameOctets` | websocketpp/frame.hpp:489-585 | A frame is its header and then the payload, each octet against the octet of the key at its place modulo four. |
| `Frame.LongestHeader` | websocketpp/frame.hpp:47-52 | The longest header, with a key and eight octets of size, fills the extended header exactly. |
| `Frame.NoKey` | websocketpp/frame.hpp:516-529 | The key read from a header without one masks nothing. |
| `Frame.BasicHeader.SetFin` | websocketpp/frame.hpp:330-332 | Sets one flag and leaves the others and the opcode. |
| `Frame.BasicHeader.SetRsv1` | websocketpp/frame.hpp:348-350 | The same for the first reserved bit. |
| `Frame.BasicHeader.SetRsv2` | websocketpp/frame.hpp:366-368 | The same for the second. |
| `Frame.BasicHeader.SetRsv3` | websocketpp/frame.hpp:384-386 | The same for the third. |
| `Frame.BasicHeader.SetMasked` | websocketpp/frame.hpp:411-413 | Sets the mask bit and leaves the size. |
| `Frame.ExtendedHeader.constructor` | websocketpp/frame.hpp:246-256 | Zeros, the size, and the key where the size ends. |
| `Frame.ExtendedHeader.CopyPayload` | websocketpp/frame.hpp:260-274 | The last octets of the size in network order, as many as its form has. |
| `Md5.State.Append` | websocketpp/common/md5.hpp:357-391 | Whatever message the state holds, afterwards it holds that message and the data: registers folded over all whole blocks, the tail in the buffer, the count eight times the length modulo 2 to the 64. |
| `Md5.State.Finish` | websocketpp/common/md5.hpp:393-412 | The digest is that of section 3.1 to 3.5 of RFC 1321 over the message held. |
| `Md5.HashChunks` | websocketpp/common/md5.hpp:357-412 | Appending a message in any pieces gives the digest of the whole. |
| `Md5.HashString` | websocketpp/common/md5.hpp:415-429 | The digest of a string. |
| `Md5.State.constructor` | websocketpp/common/md5.hpp:349-355 | The state holds the empty message. |
| `Md5.State.Count` | websocketpp/common/md5.hpp:366-370 | Two 32-bit words with a carry add like one of 64 bits. |
| `Md5.State.FillBlock` | websocketpp/common/md5.hpp:372-382 | An initial partial block is completed and processed, or stays partial. |
| `Md5.State.ProcessBlocks` | websocketpp/common/md5.hpp:384-386 | The loop over whole blocks of the input. |
| `Md5.PadFromCount` | websocketpp/common/md5.hpp:406-407 | The padding computed from the low word of the count is the one that leads to 56 modulo 64. |
| `Md5.Spread` | websocketpp/common/md5.hpp:403-411 | Words are taken apart least significant octet first. |
| `Md5.AppendBlocks` | websocketpp/common/md5.hpp:372-390 | Appending only concerns what the whole blocks left over. |
| `Md5.PaddingIsInjective` | websocketpp/common/md5.hpp:393-412 | No two messages have the same padded form. |
| `Md5.PaddingIs` | websocketpp/common/md5.hpp:393-412 | After the message come the octet 128 and zeros, the fewest that lead to 56 modulo 64, and then the length in bits modulo 2 to the 64, least significant octet first. |
| `Md5.RegistersInOrder` | websocketpp/common/md5.hpp:349-355 | The registers start as the octets of section 3.3 of RFC 1321. |
| `Md5.OutputIs` | websocketpp/common/md5.hpp:411-412 | The digest is the four registers in turn, each least significant octet first. |
| `Base64.RoundTrip` | websocketpp/base64/base64.hpp:66-174 | Decoding what was encoded gives it back, for every octet string. |
| `Base64.Encode` | websocketpp/base64/base64.hpp:66-112 | The loop and the last group compute the encoding of section 4 of RFC 4648, four characters for every three octets or less. |
| `Base64.Decode` | websocketpp/base64/base64.hpp:131-174 | Decoding any text gives the octets of its longest prefix in the alphabet, three quarters as many rounded down; what the lookups of zero filler leave behind never shows. |
| `Base64.OnlyPrefixMatters` | websocketpp/base64/base64.hpp:139-140 | Nothing after the first character outside the alphabet makes a difference. |
| `Base64.DecodingReadsBits` | websocketpp/base64/base64.hpp:131-174 | Read as a number, the octets are the sextets with the leftover bits dropped. |
| `Base64.EncodingSpellsBits` | websocketpp/base64/base64.hpp:66-112 | Read as a number, the sextets are the octets with zero bits after them. |
| `Base64.FillerUnused` | websocketpp/base64/base64.hpp:158-171 | The octets kept of a last group do not depend on the sextets that were not read. |
| `Base64.LookupIs` | websocketpp/base64/base64.hpp:40-58 | `is_base64` holds of exactly the alphabet, and looking up anything else gives 255. |
| `Base64.StandardAlphabet` | websocketpp/base64/base64.hpp:40-48 | The alphabet is Table 1 of RFC 4648. |
| `Base64.OneGroupOfText` | websocketpp/base64/base64.hpp:66-112 | One, two and three octets, each as the four characters of section 4 of RFC 4648, in numbers. |
| `HttpParser.ParameterListRoundTrip` | websocketpp/http/parser.hpp:194-377 | A parameter list written in whatever way the grammar allows, its attributes bare, with a token or with a quoted string, in any order, with whitespace wherever it may stand, is read as exactly the names and values written, blank where there is none, and read to its end, if and only if every name is a token and no quoted value ends in a backslash. |
| `HttpParser.ListEnds` | websocketpp/http/parser.hpp:359-375 | A list is read up to what does not belong to it, and one that ends in a comma is malformed. |
| `HttpParser.OnlySpaceAfter` | websocketpp/http/parser.hpp:312-375 | Whitespace alone is an empty list, and after the last comma it is accepted. |
| `HttpParser.WhitespaceIs` | websocketpp/http/constants.hpp:111-113 | Whitespace is made of spaces and tabs. |
| `HttpParser.NothingMissing` | websocketpp/http/parser.hpp:218-262 | A semicolon without an attribute and an equals sign without a value make the list malformed. |
| `HttpParser.NoTokenNoList` | websocketpp/http/parser.hpp:325-330 | Nothing is read of a text that does not start with a token. |
| `HttpParser.SpaceSkipped` | websocketpp/http/parser.hpp:138-177 | Whitespace, in whatever units, is skipped up to what follows. |
| `HttpParser.ReplaceSkips` | websocketpp/impl/utilities_impl.hpp:73-82 | Up to and including the first occurrence the text is copied with the occurrence replaced, and the rest follows. |
| `HttpParser.ReplaceNothing` | websocketpp/impl/utilities_impl.hpp:73-82 | A text without an occurrence stays as it is. |
| `HttpParser.QuotedRoundTrip` | websocketpp/http/parser.hpp:91-127 | Reading a quoted string inverts quoting, for any following text, exactly for the values that do not end in a backslash. |
| `HttpParser.QuotedTextRoundTrip` | websocketpp/http/parser.hpp:107-126 | A value that does end in one is read past its closing quote, or not at all. |
| `HttpParser.QuotedTextReadable` | websocketpp/http/parser.hpp:107-126 | No quoted string can be read as a value that ends in a backslash. |
| `HttpParser.ParametersReadable` | websocketpp/http/parser.hpp:292-377 | Everything that can be read has tokens for names and no value that ends in a backslash. |
| `HttpParser.TableIsTchar` | websocketpp/http/constants.hpp:78-105 | The table of token characters is the `tchar` of section 3.2.6 of RFC 7230. |
| `HttpParser.ExtractToken` | websocketpp/http/parser.hpp:72-78 | The longest run of token characters. |
| `HttpParser.ExtractQuotedString` | websocketpp/http/parser.hpp:91-127 | The scan from quote to quote reads what reading character by character does, and nothing if no quote closes the string. |
| `HttpParser.ExtractLws` | websocketpp/http/parser.hpp:138-151 | A line break that whitespace follows, and whitespace. |
| `HttpParser.ExtractAllLws` | websocketpp/http/parser.hpp:163-177 | As many of them as there are. |
| `HttpParser.ExtractAttributes` | websocketpp/http/parser.hpp:194-276 | The loop reads the list of attributes that the grammar gives, or reports the start when it is malformed. |
| `HttpParser.ExtractAttribute` | websocketpp/http/parser.hpp:228-272 | One name, and its value: blank, a quoted string or a token. |
| `HttpParser.ExtractParameters` | websocketpp/http/parser.hpp:292-377 | The list of parameters, or the start when it is malformed, with the parameters read so far. |
| `HttpParser.ExtractParameter` | websocketpp/http/parser.hpp:322-357 | One name and its attributes. |
| `HttpParser.StringReplaceAll` | websocketpp/impl/utilities_impl.hpp:73-82 | Every occurrence from the left is replaced, and none inside a replacement. |
| `Multipart.RoundTrip` | examples/print_client_tls/zmq_addon.hpp:278-360 | Decoding what was encoded gives back the parts and reads all of it. |
| `Multipart.DecodableIff` | examples/print_client_tls/zmq_addon.hpp:333-360 | A message is decoded, and then exactly consumed, if and only if it is some parts, each after its size in one octet or in five; otherwise decoding throws. |
| `Multipart.ItemsSpelled` | examples/print_client_tls/zmq_addon.hpp:333-360 | Decoding inverts either form of a size, and goes on with what follows. |
| `Multipart.ReencodingShortens` | examples/print_client_tls/zmq_addon.hpp:333-360 | Encoding again what was decoded is no longer, and gives back the message exactly if no size below 255 was in the long form. |
| `Multipart.EncodedAppend` | examples/print_client_tls/zmq_addon.hpp:278-316 | Encoding a list appended to another is one encoding after the other. |
| `Multipart.ReadNetworkOrder` | examples/print_client_tls/zmq_addon.hpp:135-160 | A size is read back as it was written. |
| `Multipart.WriteNetworkOrder` | examples/print_client_tls/zmq_addon.hpp:135-146 | Four octets, most significant first, on either kind of machine. |
| `Multipart.MessageSize` | examples/print_client_tls/zmq_addon.hpp:280-293 | The first pass finds a part that is too large, or the exact size of what the second pass writes. |
| `Multipart.Encode` | examples/print_client_tls/zmq_addon.hpp:278-316 | Both passes: the encoding of every list of parts below 2 to the 32, and the error for any other. |
| `Multipart.ReadPart` | examples/print_client_tls/zmq_addon.hpp:338-357 | One part, in either form of its size, never past the end. |
| `Multipart.Decode` | examples/print_client_tls/zmq_addon.hpp:333-360 | The loop: the parts found, and whether they were the whole message. |
| `Multipart.MultipartList.Prepend` | examples/print_client_tls/zmq_addon.hpp:495-499 | The other list comes in front, in order, and is left empty. |
| `Multipart.MultipartList.Append` | examples/print_client_tls/zmq_addon.hpp:502-506 | The other list comes behind, in order, and is left empty. |
| `Multipart.MultipartList.Pop` | examples/print_client_tls/zmq_addon.hpp:579-584 | The front part leaves the list. |
| `Multipart.MultipartList.Remove` | examples/print_client_tls/zmq_addon.hpp:587-592 | The back part leaves the list. |
| `Multipart.MultipartList.Clone` | examples/print_client_tls/zmq_addon.hpp:631-637 | A new list of the same parts. |
| `Multipart.EncodeAppended` | examples/print_client_tls/zmq_addon.hpp:502-506 | Encoding a list after another was appended to it. |
| `Multipart.EncodedPart` | examples/print_client_tls/zmq_addon.hpp:296-313 | A part is one octet of size below 255, or 255 and four octets that spell the size, most significant first, and then its octets. |
| `Uri.RecoveredIff` | websocketpp/uri.hpp:51-168 | Parsing a printed URI of one of the four schemes recovers every component, the default port that is not printed among them, if and only if its port is not zero, its resource starts with a slash, and its host has no colon, no slash and no bracket in front. |
| `Uri.ParsedIsStable` | websocketpp/uri.hpp:51-168 | What was parsed is recovered by printing and parsing exactly if its host is plain, which it always is unless it came in brackets. |
| `Uri.Ipv6NotRecovered` | websocketpp/uri.hpp:274-285 | An IPv6 address loses its brackets, and is not. |
| `Uri.ParsedShape` | websocketpp/uri.hpp:51-168 | What is parsed has a known scheme, a port that is not zero and a resource that starts with a slash. |
| `Uri.BracketsLost` | websocketpp/uri.hpp:84-119 | No host that starts with a bracket is read as it was printed. |
| `Uri.AtoiReads` | websocketpp/uri.hpp:321-341 | A port is read back from its decimal digits. |
| `Uri.AtoiSpells` | websocketpp/uri.hpp:330 | After white space and a sign digits are read up to what is none, and without any the number is zero. |
| `Uri.PortRefused` | websocketpp/uri.hpp:330-340 | A port is refused exactly if its number, converted to 32 bits without a sign, is zero or above 65535. |
| `Uri.PlainText` | websocketpp/uri.hpp:51-168 | For each scheme with its own default port: any host without brackets, with a port or without, with a path or without, is read as exactly these, and a missing path is a slash. |
| `Uri.BracketedText` | websocketpp/uri.hpp:84-119 | An address in brackets is read up to the first closing one, with or without a port and a path. |
| `Uri.BracketRefused` | websocketpp/uri.hpp:84-119 | A bracket that is never closed is refused, and so is anything but a port or a path after it. |
| `Uri.PrintedText` | websocketpp/uri.hpp:274-285 | A URI prints its port exactly if it is not the one of its scheme. |
| `Uri.ParsedUri.constructor` | websocketpp/uri.hpp:51-168 | The parsing loops do what the grammar says, and report every text it refuses. |
| `Uri.ParsedUri.ReadScheme` | websocketpp/uri.hpp:60-78 | The four schemes, each with at least one character after it. |
| `Uri.ParsedUri.ReadBracketedHost` | websocketpp/uri.hpp:84-119 | Everything up to the closing bracket, and what may follow it. |
| `Uri.ParsedUri.ReadPlainHost` | websocketpp/uri.hpp:120-137 | Everything up to a colon, a slash or the end. |
| `Uri.ParsedUri.ReadPortText` | websocketpp/uri.hpp:139-154 | Everything up to a slash or the end. |
| `Uri.ParsedUri.SetPort` | websocketpp/uri.hpp:321-341 | The default for an empty port, and an error for zero and for what is too large. |
| `Uri.ParsedUri.ToString` | websocketpp/uri.hpp:274-285 | `str`. |
| `Broadcast.Linearised` | examples/broadcast_server/broadcast_server.cpp:74-132 | On every run: processed actions, the one in hand and the queue are the actions of the queueing steps of that run, in their order; whoever sleeps on a queue that is not empty will be notified; and each connection has been sent, in order, no less than what is due from the processed actions and no more than what is due from the queued ones. |
| `Broadcast.AllQueued` | examples/broadcast_server/broadcast_server.cpp:74-100 | What has been queued is what the queueing steps of the run asked for. |
| `Broadcast.EachNotifies` | examples/broadcast_server/broadcast_server.cpp:74-100 | There are as many notifications to come as actions queued and not yet notified. |
| `Broadcast.AlwaysQueues` | examples/broadcast_server/broadcast_server.cpp:74-100 | Every run can go on with any action being queued. |
| `Broadcast.NextValid` | examples/broadcast_server/broadcast_server.cpp:74-132 | Every critical section, and every single send, keeps that. |
| `Broadcast.RestMeansDelivered` | examples/broadcast_server/broadcast_server.cpp:97-132 | When nothing can happen but a new action or a spurious wakeup, everything queued is processed and everyone has been sent everything that is due. |
| `Broadcast.StepPaysDebt` | examples/broadcast_server/broadcast_server.cpp:97-132 | Every other step makes the outstanding work smaller. |
| `Broadcast.RunsDry` | examples/broadcast_server/broadcast_server.cpp:97-132 | A run without new actions and spurious wakeups is no longer than the work at its start: for each action a look, its application, and a send to each of the most connections there can be. |
| `Broadcast.DueBetween` | examples/broadcast_server/broadcast_server.cpp:113-128 | What is due to a connection is exactly the messages queued between its subscription and the end of it. |
| `Broadcast.BroadcastServer.OnOpen` | examples/broadcast_server/broadcast_server.cpp:74-81 | Queue a subscription under the lock, then notify. |
| `Broadcast.BroadcastServer.OnClose` | examples/broadcast_server/broadcast_server.cpp:83-90 | Queue the end of it, then notify. |
| `Broadcast.BroadcastServer.OnMessage` | examples/broadcast_server/broadcast_server.cpp:92-100 | Queue a message, then notify. |
| `Broadcast.BroadcastServer.TakeAction` | examples/broadcast_server/broadcast_server.cpp:102-112 | Wait on an empty queue, or take the front action. |
| `Broadcast.BroadcastServer.ProcessAction` | examples/broadcast_server/broadcast_server.cpp:113-131 | Apply the action in hand. |
| `Broadcast.BroadcastServer.SendToAll` | examples/broadcast_server/broadcast_server.cpp:119-128 | The loop over the connections, in whatever order the set has. |

## Left out

- WritePipeline.PushCounts: the count of buffered octets is an integer without a bound; a sum of payloads above the range of `size_t` would wrap.
- Masking.ByteMask: input and output are one buffer at the same position, or two buffers; that is how the source calls it. Overlap at different positions is not modelled.
- Uri.ParsedUri.SetPort: `atoi` is undefined above the range of `int`; here it reads the number whatever its size before it is converted to 32 bits.
- Base64.Encode: the index counters are `int` in the source; texts of 2 to the 31 characters and more are not distinguished.
- Base64.Decode: the same holds of the decoder.
- Md5.State.Append: a single chunk whose length is within 64 of the range of `size_t` would wrap in a comparison; lengths have no bound here.
- Multipart.MessageSize: the sum of the sizes has no bound here.
- Broadcast.Linearised: a send that fails by throwing, which would end the processing thread, is not modelled.
- LifecycleSafety.RunsSafe: calls into one connection are atomic in this machine. `send` checks the state and pushes under two locks; between them the write queue is covered by `WritePipeline`, the order of frames around a close is not.
- Transports, TLS, sockets and timers as implementations: only the completions they owe are modelled. A timer ends by expiring or by being cancelled, not by an error of its own.
- The protocol processors, the HTTP message classes and permessage-deflate: their answers are parameters.
- Ping timeouts and interrupts: they call an application handler and change none of the fields that the invariants speak of.
- The texts of close reasons, logging, statistics, error texts, and configuration other than the options named in `Config`.
- Prepared messages that the application itself marks as terminal or as close frames, and messages changed while they are queued.
- Handlers that choose HTTP status 101 themselves, and deferral of a response outside the HTTP handler.
- The compression function of MD5 with its alignment and byte order shortcuts: it is a parameter.
- `strip_lws`, the rest of the HTTP message parser, the other constructors of the URI class, and the queries on its resource.
- `string_replace_all` with an empty search text, which does not terminate.
- The endless outer loop of the broadcast server's processing thread, and the way its handlers are bound: the steps of the loop are modelled, and `BroadcastServer.ProcessAction` takes one undisturbed.
- The remaining examples and tutorials.
