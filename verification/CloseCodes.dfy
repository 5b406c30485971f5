/** Close codes, and the payload of a close frame (sections 5.5.1 and 7.4 of RFC 6455). */
module CloseCodes {
  import opened Bytes
  import Utf8

  /** A close code is a 16-bit unsigned integer. */
  type Code = c: int | 0 <= c < 0x1_0000

  const BLANK: Code := 0
  const NORMAL: Code := 1000
  const PROTOCOL_ERROR: Code := 1002
  const NO_STATUS: Code := 1005
  const ABNORMAL_CLOSE: Code := 1006
  const INVALID_PAYLOAD: Code := 1007
  const POLICY_VIOLATION: Code := 1008
  const MESSAGE_TOO_BIG: Code := 1009
  const INTERNAL_ENDPOINT_ERROR: Code := 1011
  const TLS_HANDSHAKE: Code := 1015
  const RSV_START: Code := 1016
  const RSV_END: Code := 2999
  const INVALID_LOW: Code := 999
  const INVALID_HIGH: Code := 5000

  datatype Error = NoError | BadCloseCode | InvalidCloseCode | ReservedCloseCode | InvalidUtf8

  predicate Reserved(code: Code) {
    RSV_START <= code <= RSV_END || code == 1004
  }

  predicate Invalid(code: Code) {
    || code <= INVALID_LOW || code >= INVALID_HIGH
    || code == NO_STATUS || code == ABNORMAL_CLOSE || code == TLS_HANDSHAKE
  }

  /** Codes after which the connection is dropped without waiting for an acknowledgement. */
  predicate Terminal(code: Code) {
    || code == PROTOCOL_ERROR || code == INVALID_PAYLOAD || code == POLICY_VIOLATION
    || code == MESSAGE_TOO_BIG || code == INTERNAL_ENDPOINT_ERROR
  }

  /** The code of a close payload and the error that goes with it. */
  function CodeOf(payload: seq<byte>): (Code, Error) {
    if |payload| == 0 then (NO_STATUS, NoError)
    else if |payload| == 1 then (PROTOCOL_ERROR, BadCloseCode)
    else
      var code: Code := payload[0] as int * 256 + payload[1];
      (code, if Reserved(code) then ReservedCloseCode else if Invalid(code) then InvalidCloseCode else NoError)
  }

  function ReasonOf(payload: seq<byte>): (seq<byte>, Error) {
    var reason := if |payload| > 2 then payload[2..] else [];
    (reason, if Utf8.IsValid(reason) then NoError else InvalidUtf8)
  }

  method ExtractCode(payload: seq<byte>) returns (code: Code, ec: Error)
    ensures (code, ec) == CodeOf(payload)
  {
    ec := NoError;
    if |payload| == 0 {
      return NO_STATUS, ec;
    } else if |payload| == 1 {
      return PROTOCOL_ERROR, BadCloseCode;
    }
    code := payload[0] as int * 256 + payload[1];
    if Invalid(code) {
      ec := InvalidCloseCode;
    }
    if Reserved(code) {
      ec := ReservedCloseCode;
    }
  }

  method ExtractReason(payload: seq<byte>) returns (reason: seq<byte>, ec: Error)
    ensures (reason, ec) == ReasonOf(payload)
  {
    reason, ec := [], NoError;
    if |payload| > 2 {
      reason := reason + payload[2..];
      assert reason == payload[2..];
    }
    var ok := Utf8.Validate(reason);
    if !ok {
      ec := InvalidUtf8;
    }
  }

  /** A close frame is processed without an error. */
  predicate Acceptable(payload: seq<byte>) {
    CodeOf(payload).1.NoError? && ReasonOf(payload).1.NoError?
  }

  /** What is wrong with a payload, in numbers: a single octet, a code that is reserved for later use, or a code
    * that is never sent. */
  lemma ErrorOf(payload: seq<byte>)
    ensures var error := CodeOf(payload).1;
      && (error == BadCloseCode <==> |payload| == 1)
      && (|payload| >= 2 ==>
            var code := 256 * payload[0] as int + payload[1];
            && (error == ReservedCloseCode <==> code == 1004 || 1016 <= code < 3000)
            && (error == InvalidCloseCode <==> code < 1000 || code >= 5000 || code in {1005, 1006, 1015}))
      && (|payload| == 0 ==> error == NoError)
  {
  }

  /** The codes section 7.4 of RFC 6455 lets an endpoint put on the wire. */
  predicate OnTheWire(code: int) {
    1000 <= code <= 1003 || 1007 <= code <= 1014 || 3000 <= code <= 4999
  }

  /** The payload of a close frame with a code: two octets in network order, then the reason. */
  function Payload(code: Code, reason: seq<byte>): seq<byte> {
    [code / 256, code % 256] + reason
  }

  ghost predicate IsClosePayload(payload: seq<byte>) {
    exists code: Code, text: seq<nat> ::
      OnTheWire(code) && Utf8.AreScalars(text) && payload == Payload(code, Utf8.EncodeAll(text))
  }

  /** Exactly the empty payload, and a code for the wire followed by UTF-8 text, are accepted; and then
    * code and reason are the ones the payload was made of. */
  lemma AcceptableIff(payload: seq<byte>)
    ensures Acceptable(payload) <==> payload == [] || IsClosePayload(payload)
    ensures Acceptable(payload) && payload != [] ==>
      payload == Payload(CodeOf(payload).0, ReasonOf(payload).0)
  {
    if Acceptable(payload) && payload != [] {
      AcceptedIsClosePayload(payload);
    }
    if IsClosePayload(payload) {
      var code: Code, text: seq<nat> :|
        OnTheWire(code) && Utf8.AreScalars(text) && payload == Payload(code, Utf8.EncodeAll(text));
      ClosePayloadAccepted(code, text);
    }
    if payload == [] {
      Utf8.AcceptsEncodings(0, []);
    }
  }

  lemma AcceptedIsClosePayload(payload: seq<byte>)
    requires Acceptable(payload) && payload != []
    ensures IsClosePayload(payload) && payload == Payload(CodeOf(payload).0, ReasonOf(payload).0)
  {
    var code, reason := CodeOf(payload).0, ReasonOf(payload).0;
    CodeBytes(payload[0], payload[1]);
    assert payload == Payload(code, reason);
    Utf8.ValidIffEncoding(reason);
    var text :| Utf8.AreScalars(text) && Utf8.EncodeAll(text) == reason;
    assert OnTheWire(code) && payload == Payload(code, Utf8.EncodeAll(text));
  }

  lemma ClosePayloadAccepted(code: Code, text: seq<nat>)
    requires OnTheWire(code) && Utf8.AreScalars(text)
    ensures Acceptable(Payload(code, Utf8.EncodeAll(text)))
  {
    var reason := Utf8.EncodeAll(text);
    PayloadFields(code, reason);
    Utf8.AcceptsEncodings(0, text);
  }

  lemma CodeBytes(high: byte, low: byte)
    ensures (high as int * 256 + low) / 256 == high && (high as int * 256 + low) % 256 == low
  {
  }

  lemma PayloadFields(code: Code, reason: seq<byte>)
    ensures CodeOf(Payload(code, reason)).0 == code && ReasonOf(Payload(code, reason)).0 == reason
  {
    var p := Payload(code, reason);
    assert p[0] as int * 256 + p[1] == code;
    assert p[2..] == reason;
  }
}
