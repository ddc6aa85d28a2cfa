/** The wire records exchanged with the server and the interpretation of a CRUD reply
    (the request/response part of Services/CacheClient.cs). */
module Messages {
  import opened Wrappers
  import opened CacheEventModels

  /** The operations a request can carry. */
  datatype Operation = Create | Read | Update | Delete | Clear | Subscribe | Unsubscribe

  /** The string written in the request's `Operation` field. */
  function WireName(op: Operation): string
  {
    match op
    case Create => "CREATE"
    case Read => "READ"
    case Update => "UPDATE"
    case Delete => "DELETE"
    case Clear => "CLEAR"
    case Subscribe => "SUBSCRIBE"
    case Unsubscribe => "UNSUBSCRIBE"
  }

  /** Distinct operations are written as distinct strings, so the server can tell them apart. */
  lemma WireNameInjective(a: Operation, b: Operation)
    ensures WireName(a) == WireName(b) ==> a == b
  {
  }

  /** A request; fields an initializer leaves out are null. */
  datatype CacheRequest = CacheRequest(
    operation: Operation,
    key: Option<string>,
    value: Payload,
    expirationSeconds: Option<int>,
    subscribedEventTypes: Option<seq<string>>,
    keyPattern: Option<string>)

  /** A decoded response, on either connection. */
  datatype CacheResponse = CacheResponse(
    success: bool,
    value: Payload,
    error: Option<string>,
    isNotification: bool,
    event: Option<CacheEvent>)

  /** What one CRUD exchange with the server yields: an I/O failure (connect, write or the
      single read), text that does not parse as JSON, a reply that deserialises to null (the
      JSON literal null, or an empty or whitespace-only reply, as when the read returns 0
      bytes), or a response. */
  datatype Reply = IoFailure | Malformed | NullBody | Body(response: CacheResponse)

  /** The exceptions the client throws.
      NotInitialized: ObjectDisposedException; AlreadySubscribed: InvalidOperationException;
      ConnectionError: a socket or I/O exception; ProtocolError: a JsonException;
      ClientError: a CacheClientException with its message. */
  datatype CacheError =
    | NotInitialized
    | AlreadySubscribed(message: string)
    | ConnectionError
    | ProtocolError
    | ClientError(message: string)

  const InvalidResponseMessage: string := "Invalid response from server"
  const DuplicateKeyMessage: string := "Duplicate key."
  const MissingKeyMessage: string := "Key does not exist."
  const AlreadySubscribedMessage: string := "Already subscribed. Call Unsubscribe() first."

  /** `Char.IsWhiteSpace`: the Unicode separators (categories Zs, Zl, Zp) and the control
      characters U+0009 to U+000D and U+0085. */
  predicate IsWhiteSpace(c: char)
  {
    var n := c as int;
    || n == 0x20 || (0x09 <= n <= 0x0D) || n == 0x85 || n == 0xA0 || n == 0x1680
    || (0x2000 <= n <= 0x200A) || n == 0x2028 || n == 0x2029 || n == 0x202F
    || n == 0x205F || n == 0x3000
  }

  /** `string.IsNullOrWhiteSpace`. */
  predicate IsNullOrWhiteSpace(s: Option<string>)
  {
    s.None? || forall i | 0 <= i < |s.value| :: IsWhiteSpace(s.value[i])
  }

  /** The request `Send` builds for a CRUD operation. */
  function CrudRequest(op: Operation, key: Option<string>, value: Payload, expirationSeconds: Option<int>): (r: CacheRequest)
    ensures r.operation == op && r.key == key && r.value == value && r.expirationSeconds == expirationSeconds
    ensures r.subscribedEventTypes.None? && r.keyPattern.None?
  {
    CacheRequest(op, key, value, expirationSeconds, None, None)
  }

  /** The wire names of the requested event types, in argument order. */
  function EventTypeNames(ts: seq<CacheEventType>): (names: seq<string>)
    ensures |names| == |ts|
    ensures forall i | 0 <= i < |ts| :: names[i] == TypeName(ts[i])
  {
    seq(|ts|, i requires 0 <= i < |ts| => TypeName(ts[i]))
  }

  /** The subscribe handshake. The filter is null when no event type is given, and
      otherwise names the given types in the order given. */
  function SubscribeRequest(keyPattern: Option<string>, eventTypes: seq<CacheEventType>): (r: CacheRequest)
    ensures r.operation == Subscribe && r.key.None? && r.value == Null && r.expirationSeconds.None?
    ensures r.keyPattern == keyPattern
    ensures r.subscribedEventTypes.None? <==> |eventTypes| == 0
    ensures r.subscribedEventTypes.Some? ==>
      |r.subscribedEventTypes.value| == |eventTypes| &&
      forall i | 0 <= i < |eventTypes| :: r.subscribedEventTypes.value[i] == TypeName(eventTypes[i])
  {
    CacheRequest(Subscribe, None, Null, None,
      if |eventTypes| > 0 then Some(EventTypeNames(eventTypes)) else None,
      keyPattern)
  }

  /** The server can recover the requested event types from the handshake: two calls with
      different type lists send different filters. */
  lemma SubscribeFilterInjective(p: Option<string>, a: seq<CacheEventType>, b: seq<CacheEventType>)
    requires SubscribeRequest(p, a) == SubscribeRequest(p, b)
    ensures a == b
  {
    var fa, fb := SubscribeRequest(p, a).subscribedEventTypes, SubscribeRequest(p, b).subscribedEventTypes;
    if |a| > 0 {
      assert |b| > 0;
      forall i | 0 <= i < |a| ensures a[i] == b[i] {
        assert fa.value[i] == fb.value[i];
        TypeNameInjective(a[i], b[i]);
      }
    }
  }

  /** The UNSUBSCRIBE request: every other field is null. */
  const UnsubscribeRequest: CacheRequest := CacheRequest(Unsubscribe, None, Null, None, None, None)

  /** How `Send` turns what it read into a response or an exception: a failed exchange and an
      unparsable or null body are errors; a response whose Error is not blank fails with that
      message whatever its Success flag; any other response is returned as it came. */
  function Interpret(reply: Reply): (r: Result<CacheResponse, CacheError>)
    ensures r.Ok? <==> reply.Body? && IsNullOrWhiteSpace(reply.response.error)
    ensures r.Ok? ==> r.value == reply.response
    ensures reply.IoFailure? ==> r == Err(ConnectionError)
    ensures reply.Malformed? ==> r == Err(ProtocolError)
    ensures reply.NullBody? ==> r == Err(ClientError(InvalidResponseMessage))
    ensures reply.Body? && !IsNullOrWhiteSpace(reply.response.error) ==>
      r == Err(ClientError(reply.response.error.value))
  {
    match reply
    case IoFailure => Err(ConnectionError)
    case Malformed => Err(ProtocolError)
    case NullBody => Err(ClientError(InvalidResponseMessage))
    case Body(response) =>
      if !IsNullOrWhiteSpace(response.error) then Err(ClientError(response.error.value))
      else Ok(response)
  }

  /** The error check comes before any use of Success: two responses that differ only in
      their Success flag are interpreted alike whenever their Error is not blank. */
  lemma ErrorPrecedesSuccess(resp: CacheResponse, success: bool)
    requires !IsNullOrWhiteSpace(resp.error)
    ensures Interpret(Body(resp)) == Interpret(Body(resp.(success := success)))
    ensures Interpret(Body(resp)).Err?
  {
  }
}
