/** The CacheClient object (Services/CacheClient.cs): its initialisation flag, the
    notification subscription it holds, and the CRUD operations it performs over one
    short-lived connection each. Sockets, tasks and JSON are abstract: the environment's
    behaviour comes in as parameters. */
module Client {
  import opened Wrappers
  import opened CacheEventModels
  import opened Messages

  /** The notification TcpClient the object holds, and whether it reports itself connected. */
  datatype Connection = Connection(connected: bool)

  /** How far Subscribe gets with the network: the connect throws; the write of the SUBSCRIBE
      request throws, after which the socket reports itself connected or not (the socket
      layer decides, the client does not look); or the request is written. */
  datatype SubscribeNetwork = ConnectFails | WriteFails(stillConnected: bool) | Written

  class CacheClient {
    /** `_initialized` */
    var initialized: bool
    /** `_notificationClient`: None is null */
    var notificationClient: Option<Connection>
    /** `_notificationCts` is not null */
    var hasCts: bool
    /** `_notificationTask` is not null */
    var hasTask: bool

    /** A cancellation source exists only while a notification client is held and a listener
        task has been started. */
    ghost predicate Valid()
      reads this
    {
      hasCts ==> notificationClient.Some? && hasTask
    }

    /** `IsSubscribed`: a notification client is held and reports itself connected. */
    function IsSubscribed(): (b: bool)
      reads this
      ensures b <==> notificationClient == Some(Connection(true))
    {
      notificationClient.Some? && notificationClient.value.connected
    }

    /** A new client is not initialised and holds no subscription. */
    constructor()
      ensures Valid()
      ensures !initialized && notificationClient.None? && !hasCts && !hasTask
      ensures !IsSubscribed()
    {
      initialized := false;
      notificationClient := None;
      hasCts := false;
      hasTask := false;
    }

    /** `Initialize` sets the flag and nothing else. */
    method Initialize()
      modifies this
      requires Valid()
      ensures Valid()
      ensures initialized
      ensures notificationClient == old(notificationClient) && hasCts == old(hasCts) && hasTask == old(hasTask)
    {
      initialized := true;
    }

    /** The environment closing the notification connection (the server going away, the
        network failing): the client object stays, but no longer reports itself connected. */
    method ConnectionLost()
      modifies this
      requires Valid()
      ensures Valid()
      ensures notificationClient == if old(notificationClient).Some? then Some(Connection(false)) else None
      ensures initialized == old(initialized) && hasCts == old(hasCts) && hasTask == old(hasTask)
      ensures !IsSubscribed()
    {
      if notificationClient.Some? {
        notificationClient := Some(Connection(false));
      }
    }

    /** `Subscribe(keyPattern, eventTypes)`. It refuses, changing nothing, when the client is
        not initialised or already subscribed. Otherwise it assigns a new client before
        connecting, so a failed connect leaves an unconnected client held; a failed write
        leaves the new client held, connected or not as its socket reports, without a new
        cancellation source or listener. Only when
        the request is written are both created. `sent` is the request written. */
    method Subscribe(keyPattern: Option<string>, eventTypes: seq<CacheEventType>, network: SubscribeNetwork)
      returns (r: Outcome<CacheError>, sent: Option<CacheRequest>)
      modifies this
      requires Valid()
      ensures Valid()
      ensures initialized == old(initialized)
      ensures !old(initialized) ==> r == Fail(NotInitialized)
      ensures old(initialized) && old(IsSubscribed()) ==> r == Fail(AlreadySubscribed(AlreadySubscribedMessage))
      ensures !old(initialized) || old(IsSubscribed()) ==>
        sent.None? && notificationClient == old(notificationClient) && hasCts == old(hasCts) && hasTask == old(hasTask)
      ensures old(initialized) && !old(IsSubscribed()) ==>
        match network
        case ConnectFails =>
          r == Fail(ConnectionError) && sent.None? && notificationClient == Some(Connection(false))
          && hasCts == old(hasCts) && hasTask == old(hasTask)
        case WriteFails(stillConnected) =>
          r == Fail(ConnectionError) && sent.None? && notificationClient == Some(Connection(stillConnected))
          && hasCts == old(hasCts) && hasTask == old(hasTask)
        case Written =>
          r == Pass && sent == Some(SubscribeRequest(keyPattern, eventTypes))
          && notificationClient == Some(Connection(true)) && hasCts && hasTask
      ensures r.Pass? <==> old(initialized) && !old(IsSubscribed()) && network.Written?
      ensures r.Pass? ==> IsSubscribed()
    {
      if !initialized {
        return Fail(NotInitialized), None;
      }
      if IsSubscribed() {
        return Fail(AlreadySubscribed(AlreadySubscribedMessage)), None;
      }
      notificationClient := Some(Connection(false));
      if network.ConnectFails? {
        return Fail(ConnectionError), None;
      }
      notificationClient := Some(Connection(true));
      var request := SubscribeRequest(keyPattern, eventTypes);
      if network.WriteFails? {
        notificationClient := Some(Connection(network.stillConnected));
        return Fail(ConnectionError), None;
      }
      sent := Some(request);
      hasCts := true;
      hasTask := true;
      r := Pass;
    }

    /** `Unsubscribe`: a no-op unless subscribed. Otherwise the UNSUBSCRIBE request is written
        if the connection allows it (a failure is swallowed), and the client and the
        cancellation source are released; the listener task stays referenced. */
    method Unsubscribe(writeSucceeds: bool) returns (sent: Option<CacheRequest>)
      modifies this
      requires Valid()
      ensures Valid()
      ensures initialized == old(initialized) && hasTask == old(hasTask)
      ensures !old(IsSubscribed()) ==>
        sent.None? && notificationClient == old(notificationClient) && hasCts == old(hasCts)
      ensures old(IsSubscribed()) ==>
        notificationClient.None? && !hasCts && sent == (if writeSucceeds then Some(UnsubscribeRequest) else None)
      ensures !IsSubscribed()
    {
      if !IsSubscribed() {
        return None;
      }
      sent := if writeSucceeds then Some(UnsubscribeRequest) else None;
      notificationClient := None;
      hasCts := false;
    }

    /** `Dispose`: unsubscribe, then clear the initialisation flag. */
    method Dispose(writeSucceeds: bool) returns (sent: Option<CacheRequest>)
      modifies this
      requires Valid()
      ensures Valid()
      ensures !initialized && !IsSubscribed() && hasTask == old(hasTask)
      ensures !old(IsSubscribed()) ==>
        sent.None? && notificationClient == old(notificationClient) && hasCts == old(hasCts)
      ensures old(IsSubscribed()) ==>
        notificationClient.None? && !hasCts && sent == (if writeSucceeds then Some(UnsubscribeRequest) else None)
    {
      sent := Unsubscribe(writeSucceeds);
      initialized := false;
    }

    /** `Send`: refuse when not initialised; otherwise build the request, exchange it with
        the server (connect, one write, one read, decode) and interpret what came back. */
    method Send(op: Operation, key: Option<string>, value: Payload, expirationSeconds: Option<int>,
                exchange: CacheRequest -> Reply)
      returns (r: Result<CacheResponse, CacheError>)
      ensures !initialized ==> r == Err(NotInitialized)
      ensures initialized ==> r == Interpret(exchange(CrudRequest(op, key, value, expirationSeconds)))
      ensures r.Ok? ==> initialized && IsNullOrWhiteSpace(r.value.error)
    {
      if !initialized {
        return Err(NotInitialized);
      }
      var request := CrudRequest(op, key, value, expirationSeconds);
      var reply := exchange(request);
      r := Interpret(reply);
    }

    /** `Add`: a CREATE that fails with "Duplicate key." when the server reports no success. */
    method Add(key: string, value: Payload, expirationSeconds: Option<int>, exchange: CacheRequest -> Reply)
      returns (r: Outcome<CacheError>)
      ensures var sent := Interpret(exchange(CrudRequest(Operation.Create, Some(key), value, expirationSeconds)));
        && (r.Pass? <==> initialized && sent.Ok? && sent.value.success)
        && (!initialized ==> r == Fail(NotInitialized))
        && (initialized && sent.Err? ==> r == Fail(sent.error))
        && (initialized && sent.Ok? && !sent.value.success ==> r == Fail(ClientError(DuplicateKeyMessage)))
    {
      var response := Send(Operation.Create, Some(key), value, expirationSeconds, exchange);
      if response.Err? {
        return Fail(response.error);
      }
      if !response.value.success {
        return Fail(ClientError(DuplicateKeyMessage));
      }
      r := Pass;
    }

    /** `Update`: an UPDATE that fails with "Key does not exist." when the server reports no
        success. */
    method Update(key: string, value: Payload, expirationSeconds: Option<int>, exchange: CacheRequest -> Reply)
      returns (r: Outcome<CacheError>)
      ensures var sent := Interpret(exchange(CrudRequest(Operation.Update, Some(key), value, expirationSeconds)));
        && (r.Pass? <==> initialized && sent.Ok? && sent.value.success)
        && (!initialized ==> r == Fail(NotInitialized))
        && (initialized && sent.Err? ==> r == Fail(sent.error))
        && (initialized && sent.Ok? && !sent.value.success ==> r == Fail(ClientError(MissingKeyMessage)))
    {
      var response := Send(Operation.Update, Some(key), value, expirationSeconds, exchange);
      if response.Err? {
        return Fail(response.error);
      }
      if !response.value.success {
        return Fail(ClientError(MissingKeyMessage));
      }
      r := Pass;
    }

    /** `Get`: a READ returning the response's value, whatever its Success flag. */
    method Get(key: string, exchange: CacheRequest -> Reply) returns (r: Result<Payload, CacheError>)
      ensures var sent := Interpret(exchange(CrudRequest(Operation.Read, Some(key), Null, None)));
        && (r.Ok? <==> initialized && sent.Ok?)
        && (!initialized ==> r == Err(NotInitialized))
        && (initialized && sent.Err? ==> r == Err(sent.error))
        && (initialized && sent.Ok? ==> r == Ok(sent.value.value))
    {
      var response := Send(Operation.Read, Some(key), Null, None, exchange);
      if response.Err? {
        return Err(response.error);
      }
      r := Ok(response.value.value);
    }

    /** `Remove`: a DELETE whose Success flag is ignored. */
    method Remove(key: string, exchange: CacheRequest -> Reply) returns (r: Outcome<CacheError>)
      ensures var sent := Interpret(exchange(CrudRequest(Operation.Delete, Some(key), Null, None)));
        && (r.Pass? <==> initialized && sent.Ok?)
        && (!initialized ==> r == Fail(NotInitialized))
        && (initialized && sent.Err? ==> r == Fail(sent.error))
    {
      var response := Send(Operation.Delete, Some(key), Null, None, exchange);
      r := if response.Err? then Fail(response.error) else Pass;
    }

    /** `Clear`: a CLEAR with no key, whose Success flag is ignored. */
    method Clear(exchange: CacheRequest -> Reply) returns (r: Outcome<CacheError>)
      ensures var sent := Interpret(exchange(CrudRequest(Operation.Clear, None, Null, None)));
        && (r.Pass? <==> initialized && sent.Ok?)
        && (!initialized ==> r == Fail(NotInitialized))
        && (initialized && sent.Err? ==> r == Fail(sent.error))
    {
      var response := Send(Operation.Clear, None, Null, None, exchange);
      r := if response.Err? then Fail(response.error) else Pass;
    }
  }

  /** A second Subscribe after a successful one is refused and writes no second request,
      until the connection is lost. */
  method SubscribeTwice(c: CacheClient, p1: Option<string>, t1: seq<CacheEventType>,
                        p2: Option<string>, t2: seq<CacheEventType>, n2: SubscribeNetwork)
    returns (first: Outcome<CacheError>, second: Outcome<CacheError>, sent: Option<CacheRequest>)
    modifies c
    requires c.Valid() && c.initialized && !c.IsSubscribed()
    ensures first == Pass
    ensures second == Fail(AlreadySubscribed(AlreadySubscribedMessage)) && sent.None? && c.IsSubscribed()
  {
    var ignored;
    first, ignored := c.Subscribe(p1, t1, Written);
    second, sent := c.Subscribe(p2, t2, n2);
  }

  /** A Subscribe whose write failed can be retried exactly when the socket no longer
      reports itself connected; otherwise the retry is refused as already subscribed. */
  method RetryAfterFailedWrite(c: CacheClient, p: Option<string>, t: seq<CacheEventType>, stillConnected: bool)
    returns (first: Outcome<CacheError>, retry: Outcome<CacheError>, sent: Option<CacheRequest>)
    modifies c
    requires c.Valid() && c.initialized && !c.IsSubscribed()
    ensures first == Fail(ConnectionError)
    ensures stillConnected ==> retry == Fail(AlreadySubscribed(AlreadySubscribedMessage)) && sent.None?
    ensures !stillConnected ==> retry == Pass && sent == Some(SubscribeRequest(p, t)) && c.IsSubscribed()
  {
    var ignored;
    first, ignored := c.Subscribe(p, t, WriteFails(stillConnected));
    retry, sent := c.Subscribe(p, t, Written);
  }

  /** Unsubscribing twice: the second call finds nothing to release and writes nothing. */
  method UnsubscribeTwice(c: CacheClient, w1: bool, w2: bool) returns (second: Option<CacheRequest>)
    modifies c
    requires c.Valid()
    ensures second.None? && !c.IsSubscribed()
    ensures c.initialized == old(c.initialized) && c.hasTask == old(c.hasTask)
  {
    var first := c.Unsubscribe(w1);
    second := c.Unsubscribe(w2);
  }

  /** After Dispose every operation that checks the flag is refused. */
  method UseAfterDispose(c: CacheClient, w: bool, key: string, exchange: CacheRequest -> Reply,
                         keyPattern: Option<string>, eventTypes: seq<CacheEventType>, network: SubscribeNetwork)
    returns (got: Result<Payload, CacheError>, subscribed: Outcome<CacheError>)
    modifies c
    requires c.Valid()
    ensures got == Err(NotInitialized) && subscribed == Fail(NotInitialized)
    ensures !c.IsSubscribed()
  {
    var ignored := c.Dispose(w);
    got := c.Get(key, exchange);
    var written;
    subscribed, written := c.Subscribe(keyPattern, eventTypes, network);
  }
}
