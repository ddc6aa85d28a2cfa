/** The event payloads that the notification channel carries (Models/CacheEventModels.cs). */
module CacheEventModels {
  import opened Wrappers

  /** The five kinds of cache mutation the server reports, in declaration order. */
  datatype CacheEventType = ItemAdded | ItemUpdated | ItemRemoved | ItemExpired | ItemEvicted

  /** An opaque cache value (C# `object`), kept in its serialised form; `Null` is a null reference. */
  datatype Payload = Null | Json(text: string)

  /** A point in time, as the tick count of a C# `DateTime`. */
  type Instant = int

  /** A decoded notification payload. */
  datatype CacheEvent = CacheEvent(
    eventType: CacheEventType,
    key: string,
    value: Payload,
    timestamp: Instant,
    reason: Option<string>)

  /** The argument handed to observers. Being a datatype, it has no setters: every
      field is fixed when the value is built. */
  datatype CacheEventArgs = CacheEventArgs(
    eventType: CacheEventType,
    key: string,
    value: Payload,
    timestamp: Instant,
    reason: Option<string>)

  /** `Enum.ToString()`: the name of an event type as it is written on the wire. */
  function TypeName(t: CacheEventType): string
  {
    match t
    case ItemAdded => "ItemAdded"
    case ItemUpdated => "ItemUpdated"
    case ItemRemoved => "ItemRemoved"
    case ItemExpired => "ItemExpired"
    case ItemEvicted => "ItemEvicted"
  }

  /** Distinct event types have distinct wire names, so a list of names identifies
      the list of types it was made from. */
  lemma TypeNameInjective(a: CacheEventType, b: CacheEventType)
    ensures TypeName(a) == TypeName(b) ==> a == b
  {
    if a != b {
      var na, nb := TypeName(a), TypeName(b);
      assert |na| != |nb| || na[4] != nb[4] || na[5] != nb[5];
    }
  }

  /** The copy constructor `CacheEventArgs(CacheEvent)`: every field is taken over unchanged. */
  function FromEvent(e: CacheEvent): (args: CacheEventArgs)
    ensures args.eventType == e.eventType && args.key == e.key && args.value == e.value
    ensures args.timestamp == e.timestamp && args.reason == e.reason
  {
    CacheEventArgs(e.eventType, e.key, e.value, e.timestamp, e.reason)
  }

  /** The explicit constructor. It reads the clock (`DateTime.UtcNow`); the reading is
      the parameter `now`. The value and the reason default to null. */
  function Create(eventType: CacheEventType, key: string, now: Instant,
                  value: Payload := Null, reason: Option<string> := None): (args: CacheEventArgs)
    ensures args.eventType == eventType && args.key == key && args.value == value
    ensures args.reason == reason && args.timestamp == now
  {
    CacheEventArgs(eventType, key, value, now, reason)
  }

  /** The copy keeps all information of the event: two events with the same copy are equal. */
  lemma FromEventInjective(a: CacheEvent, b: CacheEvent)
    ensures FromEvent(a) == FromEvent(b) ==> a == b
  {
  }

  /** The two constructors agree: copying an event built from the same fields gives the
      value the explicit constructor gives. */
  lemma ConstructorsAgree(t: CacheEventType, key: string, value: Payload, now: Instant, reason: Option<string>)
    ensures FromEvent(CacheEvent(t, key, value, now, reason)) == Create(t, key, now, value, reason)
  {
  }
}
