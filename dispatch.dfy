/** Routing of a notification to the client's observer events (RaiseEvent in
    Services/CacheClient.cs) and the invocation of their handlers. */
module Dispatch {
  import opened Wrappers
  import opened CacheEventModels
  import opened Sequences

  /** The six public events of the client: one per event type and the catch-all CacheEvent. */
  datatype Bucket = OnItemAdded | OnItemUpdated | OnItemRemoved | OnItemExpired | OnItemEvicted | OnCacheEvent

  /** An observer delegate, identified by a number. */
  type Handler = nat

  /** The invocation list of each event; an empty list is an event nobody subscribed to
      (a null delegate, which `?.Invoke` skips). */
  datatype Observers = Observers(
    itemAdded: seq<Handler>,
    itemUpdated: seq<Handler>,
    itemRemoved: seq<Handler>,
    itemExpired: seq<Handler>,
    itemEvicted: seq<Handler>,
    cacheEvent: seq<Handler>)
  {
    function Of(b: Bucket): seq<Handler>
    {
      match b
      case OnItemAdded => itemAdded
      case OnItemUpdated => itemUpdated
      case OnItemRemoved => itemRemoved
      case OnItemExpired => itemExpired
      case OnItemEvicted => itemEvicted
      case OnCacheEvent => cacheEvent
    }
  }

  /** One call of one handler, for one event, with the arguments it received. */
  datatype Invocation = Invocation(bucket: Bucket, handler: Handler, args: CacheEventArgs)

  /** The event type a bucket is raised for; the catch-all serves none in particular. */
  function Serves(b: Bucket): Option<CacheEventType>
  {
    match b
    case OnItemAdded => Some(ItemAdded)
    case OnItemUpdated => Some(ItemUpdated)
    case OnItemRemoved => Some(ItemRemoved)
    case OnItemExpired => Some(ItemExpired)
    case OnItemEvicted => Some(ItemEvicted)
    case OnCacheEvent => None
  }

  /** The switch of RaiseEvent: the event raised for each event type. Every type has a
      case, and the case is the bucket that serves that type. */
  function SpecificBucket(t: CacheEventType): (b: Bucket)
    ensures b != OnCacheEvent
    ensures Serves(b) == Some(t)
  {
    match t
    case ItemAdded => OnItemAdded
    case ItemUpdated => OnItemUpdated
    case ItemRemoved => OnItemRemoved
    case ItemExpired => OnItemExpired
    case ItemEvicted => OnItemEvicted
  }

  /** The switch is a one-to-one correspondence between the five event types and the five
      specific events. */
  lemma SwitchIsBijective(b: Bucket, t: CacheEventType)
    ensures SpecificBucket(t) == b <==> Serves(b) == Some(t)
  {
  }

  /** One event's invocation list run in order with the same arguments. */
  function Calls(b: Bucket, handlers: seq<Handler>, args: CacheEventArgs): (calls: seq<Invocation>)
    ensures |calls| == |handlers|
    ensures forall i | 0 <= i < |calls| :: calls[i] == Invocation(b, handlers[i], args)
  {
    if handlers == [] then [] else [Invocation(b, handlers[0], args)] + Calls(b, handlers[1..], args)
  }

  /** The handlers called for bucket `b`, in the order of the calls. */
  function HandlersOf(calls: seq<Invocation>, b: Bucket): seq<Handler>
  {
    if calls == [] then []
    else (if calls[0].bucket == b then [calls[0].handler] else []) + HandlersOf(calls[1..], b)
  }

  /** HandlersOf distributes over concatenation of call lists. */
  lemma {:induction false} HandlersOfAppend(x: seq<Invocation>, y: seq<Invocation>, b: Bucket)
    ensures HandlersOf(x + y, b) == HandlersOf(x, b) + HandlersOf(y, b)
  {
    if x != [] {
      assert (x + y)[0] == x[0] && (x + y)[1..] == x[1..] + y;
      HandlersOfAppend(x[1..], y, b);
    } else {
      assert x + y == y;
    }
  }

  /** One event's invocation list calls exactly its handlers for that event, and none for any other. */
  lemma {:induction false} HandlersOfCalls(c: Bucket, handlers: seq<Handler>, args: CacheEventArgs, b: Bucket)
    ensures HandlersOf(Calls(c, handlers, args), b) == if c == b then handlers else []
  {
    if handlers != [] {
      HandlersOfCalls(c, handlers[1..], args, b);
    }
  }

  /** RaiseEvent: every call gets the copy of the event; the calls go to the event matching
      its type and to the catch-all and nowhere else; no call to the specific event comes
      after a call to the catch-all; and each of the two invokes its whole invocation list,
      in order. */
  function RaiseEvent(observers: Observers, e: CacheEvent): (calls: seq<Invocation>)
    ensures forall i | 0 <= i < |calls| :: calls[i].args == FromEvent(e)
    ensures forall i | 0 <= i < |calls| ::
      calls[i].bucket == SpecificBucket(e.eventType) || calls[i].bucket == OnCacheEvent
    ensures forall i, j | 0 <= i < j < |calls| ::
      calls[i].bucket == OnCacheEvent ==> calls[j].bucket == OnCacheEvent
    ensures HandlersOf(calls, SpecificBucket(e.eventType)) == observers.Of(SpecificBucket(e.eventType))
    ensures HandlersOf(calls, OnCacheEvent) == observers.Of(OnCacheEvent)
  {
    var specific := SpecificBucket(e.eventType);
    TwoEvents(specific, observers.Of(specific), observers.Of(OnCacheEvent), FromEvent(e));
    Calls(specific, observers.Of(specific), FromEvent(e)) +
    Calls(OnCacheEvent, observers.Of(OnCacheEvent), FromEvent(e))
  }

  /** Raising a specific event and then the catch-all. */
  lemma TwoEvents(specific: Bucket, hs: seq<Handler>, ks: seq<Handler>, args: CacheEventArgs)
    requires specific != OnCacheEvent
    ensures var calls := Calls(specific, hs, args) + Calls(OnCacheEvent, ks, args);
      && (forall i | 0 <= i < |calls| :: calls[i].args == args)
      && (forall i | 0 <= i < |calls| :: calls[i].bucket == specific || calls[i].bucket == OnCacheEvent)
      && (forall i, j | 0 <= i < j < |calls| :: calls[i].bucket == OnCacheEvent ==> calls[j].bucket == OnCacheEvent)
      && HandlersOf(calls, specific) == hs
      && HandlersOf(calls, OnCacheEvent) == ks
  {
    TwoEventsOrder(specific, hs, ks, args);
    TwoEventsHandlers(specific, hs, ks, args);
  }

  /** In a specific event followed by the catch-all, every call gets the same arguments, and the
      specific event's calls all come before the catch-all's. */
  lemma TwoEventsOrder(specific: Bucket, hs: seq<Handler>, ks: seq<Handler>, args: CacheEventArgs)
    requires specific != OnCacheEvent
    ensures var calls := Calls(specific, hs, args) + Calls(OnCacheEvent, ks, args);
      && (forall i | 0 <= i < |calls| :: calls[i].args == args)
      && (forall i | 0 <= i < |calls| :: calls[i].bucket == (if i < |hs| then specific else OnCacheEvent))
  {
    var first, last := Calls(specific, hs, args), Calls(OnCacheEvent, ks, args);
    var calls := first + last;
    forall i | 0 <= i < |calls|
      ensures calls[i].args == args && calls[i].bucket == (if i < |hs| then specific else OnCacheEvent)
    {
      if i < |first| {
        assert calls[i] == first[i];
      } else {
        assert calls[i] == last[i - |first|];
      }
    }
  }

  /** In a specific event followed by the catch-all, each event calls exactly its own handlers, in
      invocation-list order. */
  lemma TwoEventsHandlers(specific: Bucket, hs: seq<Handler>, ks: seq<Handler>, args: CacheEventArgs)
    requires specific != OnCacheEvent
    ensures var calls := Calls(specific, hs, args) + Calls(OnCacheEvent, ks, args);
      && HandlersOf(calls, specific) == hs
      && HandlersOf(calls, OnCacheEvent) == ks
  {
    var first, last := Calls(specific, hs, args), Calls(OnCacheEvent, ks, args);
    HandlersOfAppend(first, last, specific);
    HandlersOfAppend(first, last, OnCacheEvent);
    HandlersOfCalls(specific, hs, args, specific);
    HandlersOfCalls(OnCacheEvent, ks, args, specific);
    HandlersOfCalls(specific, hs, args, OnCacheEvent);
    HandlersOfCalls(OnCacheEvent, ks, args, OnCacheEvent);
    SeqUnit(hs);
    SeqUnit(ks);
  }

  /** No other event is raised: the handlers of the four other specific events are never called. */
  lemma OnlyMatchingEventRaised(observers: Observers, e: CacheEvent, b: Bucket)
    requires b != OnCacheEvent && b != SpecificBucket(e.eventType)
    ensures HandlersOf(RaiseEvent(observers, e), b) == []
  {
    var calls := RaiseEvent(observers, e);
    NoCallsNoHandlers(calls, b);
  }

  /** A call list with no call to event `b` calls none of its handlers. */
  lemma {:induction false} NoCallsNoHandlers(calls: seq<Invocation>, b: Bucket)
    requires forall i | 0 <= i < |calls| :: calls[i].bucket != b
    ensures HandlersOf(calls, b) == []
  {
    if calls != [] {
      NoCallsNoHandlers(calls[1..], b);
    }
  }

  /** How a handler call ends. A JsonException is told apart because the read loop catches
      that type around each message. */
  datatype HandlerOutcome = Returns | ThrowsJsonException | Throws

  /** Running calls in order: the first call that throws ends the run and its exception is
      the outcome; the calls after it are not made. */
  function Invoke(calls: seq<Invocation>, outcome: Invocation -> HandlerOutcome): (r: (seq<Invocation>, HandlerOutcome))
    ensures |r.0| <= |calls| && r.0 == calls[..|r.0|]
    ensures forall i | 0 <= i < |r.0| - 1 :: outcome(r.0[i]) == Returns
    ensures r.1 == Returns ==> r.0 == calls && forall i | 0 <= i < |calls| :: outcome(calls[i]) == Returns
    ensures r.1 != Returns ==> r.0 != [] && outcome(r.0[|r.0| - 1]) == r.1
  {
    if calls == [] then ([], Returns)
    else if outcome(calls[0]) != Returns then ([calls[0]], outcome(calls[0]))
    else
      var rest := Invoke(calls[1..], outcome);
      assert calls == [calls[0]] + calls[1..];
      ([calls[0]] + rest.0, rest.1)
  }
}
