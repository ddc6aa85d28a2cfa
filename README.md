# CacheClient, modelled in Dafny

CacheClient is a .NET client for a key/value cache server. The client handles two kinds of traffic:

- **CRUD.** Each of `Add`, `Get`, `Update`, `Remove` and `Clear` opens its own connection. It writes one JSON request (`CREATE`, `READ`, `UPDATE`, `DELETE`, `CLEAR`) and reads one response. It then turns that response into a value or an exception.
- **Notifications.** `Subscribe` opens one long-lived connection and writes a `SUBSCRIBE` request, which carries an optional key pattern and an optional event-type filter. It then starts a background listener. The listener reassembles newline-terminated JSON messages from whatever chunks each read delivers. It decodes each message, and raises `ItemAdded`/`ItemUpdated`/`ItemRemoved`/`ItemExpired`/`ItemEvicted` plus the catch-all `CacheEvent` for every notification. `Unsubscribe` and `Dispose` tear the subscription down.

The model has eight modules, one file each.

| file | module | models |
|---|---|---|
| wrappers.dfy | `Wrappers` | `Option`, `Result` and `Outcome`: null references and thrown exceptions as values |
| sequences.dfy | `Sequences` | two identities of sequence concatenation that the proofs share |
| events.dfy | `CacheEventModels` | the event type enum, the `CacheEvent` record and the two `CacheEventArgs` constructors |
| messages.dfy | `Messages` | `CacheRequest`/`CacheResponse`, building requests, and `Send`'s mapping of what it read onto a response or an error |
| framing.dfy | `Framing` | the newline framing of the notification stream: the `MessageBuffer` class whose `Feed` method is one turn of the read loop, plus the split/join and chunking theory behind it |
| dispatch.dfy | `Dispatch` | `RaiseEvent`: which handler lists are invoked, in what order, with what arguments, and how a throwing handler cuts the invocation short |
| listener.dfy | `Listener` | `ListenForNotificationsAsync`: the read loop and the `foreach` over the messages a read completes |
| client.dfy | `Client` | the `CacheClient` class: its `_initialized` flag and notification fields, `Initialize`, `Subscribe`, `Unsubscribe`, `Dispose`, `IsSubscribed`, and the CRUD methods over `Send` |

Each imperative part of the source is an imperative member here:

- the `StringBuilder` buffer is a class field;
- the read loop and the `foreach` are `while` loops;
- the lifecycle methods assign the class's fields.

The members that compute are proved against specification functions, and the source's promises are lemmas about those functions:

- `MessageBuffer.Feed` returns `Frames` of the old buffer plus the chunk and keeps its `Tail`;
- `ProcessMessages` returns `ProcessBatch` of its messages;
- `ListenForNotifications` makes the calls of `ListenCalls`, which is `ProcessBatch` of the `Frames` of the text received;
- `Send` returns `Interpret` of the exchange, and `Add`, `Update`, `Get`, `Remove` and `Clear` are stated in terms of that.

The lifecycle methods `Initialize`, `ConnectionLost`, `Subscribe`, `Unsubscribe` and `Dispose` state their new field values outright, case by case. `Subscribe` also names the request it writes (`SubscribeRequest`). Each of them keeps the class invariant `Valid()`.

Some behaviours of the code, which the model follows:

- **Handler exceptions are not isolated.** An event handler that throws anything other than a `JsonException` is caught by the read loop's outer `catch`, which ends the listener. A handler that throws `JsonException` is caught by the per-message `catch`: the rest of that message's handlers are skipped, and the next message is processed. `HandlerOutcome` and `ProcessBatch` capture both cases.
- **`Send` reads once.** It decodes the reply to a single `Read` of up to 4096 bytes. Text cut short by that limit is a decode failure (`Reply.Malformed`).
- **`Subscribe` has partial side effects on its failure paths.** `_notificationClient` is assigned before `Connect`, so a failed connect leaves an unconnected client held. A failed write leaves the new client held, with no new cancellation source and no listener. Whether that client still reports itself connected is up to the socket layer, so the model takes it as an input (`WriteFails(stillConnected)`). If it does, `IsSubscribed` is true and a retried `Subscribe` is refused with `AlreadySubscribed`. If it does not, a retry goes through and replaces the client. Only the `AlreadySubscribed` and not-initialised refusals change nothing.
- **`Unsubscribe` keeps `_notificationTask`.** It releases the client and the cancellation source, and it does nothing at all when the connection has already dropped. In that case neither of them is released.
- **Request and response fields.** `CacheRequest` and `CacheResponse` carry the fields that Services/CacheClient.cs reads and writes: `SubscribedEventTypes`, `KeyPattern`, `IsNotification` and `Event` besides the CRUD fields. The model file in `Models/` declares only the CRUD fields.

## Model

| member | source | states |
|---|---|---|
| CacheEventModels.TypeName | Services/CacheClient.cs:112 | the `ToString` name of each declared event type |
| CacheEventModels.TypeNameInjective | Models/CacheEventModels.cs:6-13 | distinct event types have distinct names, so a list of names identifies the list of types |
| CacheEventModels.FromEvent | Models/CacheEventModels.cs:38-45 | the copy constructor carries type, key, value, timestamp and reason over unchanged |
| CacheEventModels.FromEventInjective | Models/CacheEventModels.cs:38-45 | no field is lost: distinct events give distinct event arguments |
| CacheEventModels.Create | Models/CacheEventModels.cs:47-53 | the explicit constructor stores type, key, value and reason verbatim and stamps the clock reading it is given |
| CacheEventModels.ConstructorsAgree | Models/CacheEventModels.cs:38-53 | the two constructors build the same arguments when the event's timestamp is the clock reading |
| Messages.WireName | Services/CacheClient.cs:50-132 | the `Operation` string of each request kind |
| Messages.WireNameInjective | Services/CacheClient.cs:50-132 | distinct operations are written as distinct strings |
| Messages.IsWhiteSpace | Services/CacheClient.cs:282 | the characters `Char.IsWhiteSpace` accepts: separators of categories Zs, Zl and Zp, U+0009 to U+000D and U+0085 |
| Messages.IsNullOrWhiteSpace | Services/CacheClient.cs:282 | `string.IsNullOrWhiteSpace`: null, or made only of white space |
| Messages.UnsubscribeRequest | Services/CacheClient.cs:132 | the UNSUBSCRIBE request: the operation alone, every other field null |
| Messages.CrudRequest | Services/CacheClient.cs:256-262 | a CRUD request carries the operation, key, value and expiration given, and no subscription filter or key pattern |
| Messages.EventTypeNames | Services/CacheClient.cs:112 | one name per event type, position by position |
| Messages.SubscribeRequest | Services/CacheClient.cs:108-115 | a SUBSCRIBE request carries the key pattern; its type filter is null if and only if no types were given, and otherwise lists their names in argument order |
| Messages.SubscribeFilterInjective | Services/CacheClient.cs:111-113 | two SUBSCRIBE requests with the same filter were built from the same type list |
| Messages.Interpret | Services/CacheClient.cs:276-285 | only a response whose Error is null or white space is returned, and it is returned unchanged; I/O failures, undecodable text, a null body ("Invalid response from server") and a non-blank Error (that message) are the errors |
| Messages.ErrorPrecedesSuccess | Services/CacheClient.cs:282-283 | a non-blank Error fails the call whatever the Success flag says |
| Framing.Split | Services/CacheClient.cs:187 | `Split('\n')`, empty pieces included, yields at least one piece; SplitPiecesFree, JoinSplit and SplitJoin state what the pieces are |
| Framing.SplitNonEmpty | Services/CacheClient.cs:187 | `Split('\n', RemoveEmptyEntries)`: Split with the empty pieces dropped; SplitNonEmptyPieces states its properties |
| Framing.Complete | Services/CacheClient.cs:179-183 | the text before the last newline, empty when there is none; FrameShape states its properties |
| Framing.Tail | Services/CacheClient.cs:179-185 | the text after the last newline, all of it when there is none, which the buffer keeps; FrameShape states its properties |
| Framing.Frames | Services/CacheClient.cs:183-187 | the messages the foreach receives: the non-empty pieces of the complete part; FramesAppend and StreamFrames state its properties |
| Framing.LastIndexOf | Services/CacheClient.cs:179 | the result is -1 or an index holding the character, with no occurrence after it |
| Framing.SplitPiecesFree | Services/CacheClient.cs:187 | no piece of a split on newline contains a newline |
| Framing.SplitNonEmptyPieces | Services/CacheClient.cs:187 | splitting with empty entries removed yields non-empty, newline-free pieces, and joining all the pieces gives back the text |
| Framing.RemoveEmptyKeeps | Services/CacheClient.cs:187 | every kept piece is a non-empty piece of the input, and every non-empty piece of the input is kept |
| Framing.RemoveEmptyCounts | Services/CacheClient.cs:187 | each non-empty piece is kept as often as it occurs in the input, and no empty piece is kept |
| Framing.RemoveEmptyAppend | Services/CacheClient.cs:187 | dropping empty entries distributes over concatenation, so the kept pieces stay in input order |
| Framing.RemoveEmptyOfNonEmpty | Services/CacheClient.cs:187 | a list without empty entries is left as it is |
| Framing.JoinSplit | Services/CacheClient.cs:187 | joining the pieces of a split with newlines restores the text |
| Framing.SplitJoin | Services/CacheClient.cs:187 | splitting a newline-join of newline-free pieces restores the pieces |
| Framing.SplitJoined | Services/CacheClient.cs:187 | splitting `a + "\n" + b` splits `a` and `b` separately |
| Framing.SplitNonEmptyJoined | Services/CacheClient.cs:187 | the same with empty entries removed |
| Framing.SplitOfFree | Services/CacheClient.cs:187 | text with no newline splits into itself |
| Framing.LastIndexOfJoined | Services/CacheClient.cs:179 | in `a + "\n" + b` with `b` newline-free, the last newline is at the position just after `a` |
| Framing.FrameShape | Services/CacheClient.cs:179-185 | with no newline nothing is complete and everything is retained; otherwise the text is the complete part, a newline and the retained tail; the tail never holds a newline |
| Framing.FrameOfJoined | Services/CacheClient.cs:179-185 | for `a + "\n" + b` with `b` newline-free, the complete part is `a` and the tail is `b` |
| Framing.FramesAppend | Services/CacheClient.cs:175-187 | the messages of `s + c` are those of `s` followed by those of `s`'s tail plus `c`, and the tails agree |
| Framing.FramesPrepend | Services/CacheClient.cs:183-187 | a newline-terminated prefix contributes its own pieces ahead of the rest |
| Framing.MessageBuffer.constructor | Services/CacheClient.cs:166 | a new buffer is empty |
| Framing.MessageBuffer.Feed | Services/CacheClient.cs:175-187 | with no newline in buffer plus chunk nothing is emitted and everything is kept; otherwise the text is the complete part, a newline and the new buffer, and the emitted messages are the complete part's non-empty pieces; the buffer never holds a newline |
| Framing.FeedAllFrames | Services/CacheClient.cs:168-187 | feeding a list of chunks after a prefix emits what framing the whole text emits, and keeps its tail |
| Framing.FeedAllFromEmpty | Services/CacheClient.cs:168-187 | from an empty buffer, the chunks emit the frames of their concatenation and keep its tail |
| Framing.ChunkingIrrelevant | Services/CacheClient.cs:168-187 | two chunkings of the same text emit the same messages and keep the same tail |
| Framing.StreamFrames | Services/CacheClient.cs:175-187 | newline-terminated well-formed messages followed by a partial one are emitted exactly, and the partial one is kept |
| Framing.TwoMessagesAndAHalf | Services/CacheClient.cs:175-187 | a read of two messages and half a third emits the two and keeps the half; the read with the rest and its newline emits the third and leaves the buffer empty |
| Dispatch.SpecificBucket | Services/CacheClient.cs:221-238 | every event type has a specific handler list, not the catch-all, serving that type |
| Dispatch.SwitchIsBijective | Services/CacheClient.cs:221-238 | the switch pairs the five event types and the five specific handler lists one to one |
| Dispatch.Calls | Services/CacheClient.cs:224 | invoking a handler list calls each handler once, in subscription order, with the same arguments |
| Dispatch.HandlersOfAppend | Services/CacheClient.cs:221-241 | HandlersOf distributes over concatenation: the handlers called for an event in two call sequences run one after the other are those of the first followed by those of the second |
| Dispatch.HandlersOfCalls | Services/CacheClient.cs:224 | invoking one list calls exactly that list's handlers and none of another |
| Dispatch.RaiseEvent | Services/CacheClient.cs:216-242 | every call receives the arguments copied from the event; only the matching specific list and the catch-all are invoked, each completely, and no specific call follows a catch-all call |
| Dispatch.TwoEvents | Services/CacheClient.cs:220-241 | a specific invocation followed by the catch-all invocation calls exactly their handlers, specific ones first |
| Dispatch.OnlyMatchingEventRaised | Services/CacheClient.cs:221-238 | a specific list of another type is not invoked |
| Dispatch.NoCallsNoHandlers | Services/CacheClient.cs:221-241 | a list with no call in a sequence has no handler called |
| Dispatch.Invoke | Services/CacheClient.cs:224-241 | the handlers run in order and stop at the first that throws: what ran is a prefix of the calls, all but the last returned, and the whole list ran exactly when none threw |
| Listener.Notification | Services/CacheClient.cs:191-192 | only a decoded response that is a notification and carries an event is dispatched, and it is its event that is |
| Listener.HandleMessage | Services/CacheClient.cs:189-200 | one message: no call unless it decodes to a notification with an event, else RaiseEvent's calls up to the first throwing handler; HandleMessageCalls states its properties |
| Listener.HandleMessageCalls | Services/CacheClient.cs:189-200 | a message that is not a notification causes no call; a notification causes a prefix of RaiseEvent's calls, each with that event's arguments |
| Listener.ProcessBatch | Services/CacheClient.cs:187-211 | the foreach as a value: the calls of each message in turn, stopping after a handler throws a non-JSON exception, with whether that happened; ProcessBatchAppend and SkippedMessage state its properties |
| Listener.ProcessBatchAppend | Services/CacheClient.cs:187-201 | processing two batches is processing their concatenation, unless the first ended the listener |
| Listener.BatchStep | Services/CacheClient.cs:187-201 | one more message adds its calls, and ends the batch exactly when a handler threw a non-JSON exception |
| Listener.BatchStop | Services/CacheClient.cs:208-211 | once the batch has ended, the remaining messages are not processed |
| Listener.ProcessMessages | Services/CacheClient.cs:187-201 | the foreach makes exactly the calls of processing the batch, and reports whether it ended the listener |
| Listener.ListenForNotifications | Services/CacheClient.cs:160-214 | the read loop makes exactly the calls of processing the messages that the text received before the loop stopped completes, whatever reads it came in |
| Listener.ReceivedStep | Services/CacheClient.cs:168-176 | a read that delivers data appends its text to what was received |
| Listener.ReceivedEnd | Services/CacheClient.cs:168-173 | the loop stops receiving at end of stream, cancellation, disconnection or a read failure |
| Listener.AbortedStaysAborted | Services/CacheClient.cs:208-211 | after a handler's non-JSON exception ended the loop, later text dispatches nothing |
| Listener.SkippedMessage | Services/CacheClient.cs:189-200 | a message that does not decode to a notification is skipped without affecting the rest of the batch |
| Listener.TwoDelivered | Services/CacheClient.cs:187-195 | two notifications whose handlers return raise their events in order |
| Listener.MalformedBetweenTwoNotifications | Services/CacheClient.cs:187-200 | a malformed message between two well-formed notifications on the stream does not keep both events from being raised, in order |
| Listener.ReceivedOne | Services/CacheClient.cs:175-176 | one data read followed by nothing receives its text |
| Listener.ThreeFrames | Services/CacheClient.cs:183-187 | three newline-terminated well-formed messages frame as themselves |
| Listener.AllReturnInvoke | Services/CacheClient.cs:224-241 | when no handler throws, every call is made |
| Client.CacheClient.IsSubscribed | Services/CacheClient.cs:25 | subscribed exactly when a notification client is held and reports itself connected |
| Client.CacheClient.constructor | Services/CacheClient.cs:11-31 | a new client is not initialised, holds no notification client, cancellation source or listener task, and is not subscribed |
| Client.CacheClient.Initialize | Services/CacheClient.cs:33-36 | sets the flag and changes nothing else |
| Client.CacheClient.ConnectionLost | Services/CacheClient.cs:25 | a dropped connection leaves the client held but no longer subscribed |
| Client.CacheClient.Subscribe | Services/CacheClient.cs:97-124 | refused with no change when not initialised or already subscribed (with the message "Already subscribed. Call Unsubscribe() first."); a failed connect leaves an unconnected client; a failed write leaves the new client held, connected as the socket layer reports, without a new cancellation source or listener; when the request is written, the request sent is SubscribeRequest's and cancellation source and listener task exist; it succeeds exactly in that case and then the client is subscribed |
| Client.CacheClient.Unsubscribe | Services/CacheClient.cs:126-158 | a no-op unless subscribed; otherwise the UNSUBSCRIBE request is written when the connection allows it, the client and cancellation source are released and the listener task stays referenced; never subscribed afterwards |
| Client.CacheClient.Dispose | Services/CacheClient.cs:246-250 | unsubscribes, then leaves the client not initialised |
| Client.CacheClient.Send | Services/CacheClient.cs:252-286 | refused when not initialised; otherwise the interpretation of the exchange of the CRUD request built from the arguments; a success has a blank Error |
| Client.CacheClient.Add | Services/CacheClient.cs:48-54 | succeeds exactly when the CREATE exchange succeeds with Success set; "Duplicate key." when Success is false; Send's errors pass through |
| Client.CacheClient.Update | Services/CacheClient.cs:72-78 | succeeds exactly when the UPDATE exchange succeeds with Success set; "Key does not exist." when Success is false; Send's errors pass through |
| Client.CacheClient.Get | Services/CacheClient.cs:56-60 | the READ response's value, whatever Success says; Send's errors pass through |
| Client.CacheClient.Remove | Services/CacheClient.cs:80-83 | succeeds exactly when the DELETE exchange succeeds, ignoring Success |
| Client.CacheClient.Clear | Services/CacheClient.cs:85-88 | a CLEAR with no key; succeeds exactly when the exchange succeeds, ignoring Success |
| Client.SubscribeTwice | Services/CacheClient.cs:99-102 | after a successful Subscribe a second one is refused with AlreadySubscribed and the message "Already subscribed. Call Unsubscribe() first.", and writes no second request |
| Client.RetryAfterFailedWrite | Services/CacheClient.cs:101-124 | after a Subscribe whose write failed, a retry is refused as already subscribed exactly when the socket still reports itself connected, and otherwise succeeds and writes the request |
| Client.UnsubscribeTwice | Services/CacheClient.cs:128 | a second Unsubscribe writes nothing and leaves the client unsubscribed |
| Client.UseAfterDispose | Services/CacheClient.cs:246-254 | after Dispose, Get and Subscribe are refused as not initialised |

## Left out

- Sockets: connect, write, read, close and their timeouts, including `ReceiveTimeout = 0`. A CRUD exchange is a parameter `CacheRequest -> Reply`; the reads of the notification connection are a list of `ReadStep`s; Subscribe's and Unsubscribe's writes are parameters saying whether they succeed.
- `Task.Run`, `CancellationTokenSource`, the two-second wait in `Unsubscribe`, and async/await. Cancellation appears only as a `ReadStep` that ends the read loop; the listener is not run concurrently with the class's methods.
- JSON serialisation and deserialisation (Newtonsoft). Decoding is a parameter `string -> Option<CacheResponse>`, and a request's wire form is its `CacheRequest` value.
- UTF-8 decoding of each read. The model works on characters, so a multi-byte character cut between two reads is not represented.
- `DateTime.UtcNow` in the explicit `CacheEventArgs` constructor. The clock reading is a parameter.
- Debug logging.
- C# event subscription (`+=`/`-=`). The handler lists are one `Observers` value for a whole run of the read loop (Listener.ListenForNotifications, Listener.ProcessBatch). Adding or removing handlers while the listener runs is not modelled: between messages, from another thread, or from inside a handler. Also not modelled: the catch-all delegate at Services/CacheClient.cs:241 is read only after the specific handlers have run, so a change they make to it would take effect within the same event.
- Events whose `EventType` is an integer the enum does not declare. Deserialisation accepts such a value, and the switch at Services/CacheClient.cs:221-238 has no default, so the event reaches only the catch-all `CacheEvent` handlers at line 241. The same holds for a cast value handed to `Subscribe`, for example `(CacheEventType)7`: its `ToString()` is `"7"`, and that text goes into the subscription filter at Services/CacheClient.cs:112. The model's `CacheEventType` has only the five declared values, so `EventTypeNames` only ever yields declared names.
- the public `Add`/`Update` overloads with and without expiration, and `Subscribe(params eventTypes)` without a key pattern. Each is one method taking an `Option` for the omitted argument.
- Client.CacheClient.Subscribe and Client.CacheClient.Unsubscribe: neither starts or cancels the listener. The listener is modelled separately by Listener.ListenForNotifications, and the listener task is only a flag.
- Handlers with state of their own. Whether a handler returns or throws is a function `outcome` of its invocation, so a handler that behaves differently on its second call with the same arguments (a counter, a flag it sets) is not represented.
- The options object (host, ports, timeout) and its null check in the constructor.
- `Subscribe(null)`, the `params` overload handed a null array. Line 111 of Services/CacheClient.cs then throws `NullReferenceException`, after connecting at lines 104-105, which leaves a connected client without a listener. The model's event-type list is a sequence and cannot be null.
- A notification whose `Key` is null (absent from its JSON). `CacheEvent.key` and the copied `CacheEventArgs.key` are plain strings in the model; only `Value` and `Reason` are nullable.
- The server's semantics, for example a `READ` after a `CREATE` returning the stored value. The server is behind the exchange parameter.
