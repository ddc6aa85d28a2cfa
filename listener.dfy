/** The background read loop of the notification connection (ListenForNotificationsAsync in
    Services/CacheClient.cs): frame the text each read delivers, decode each complete
    message, and raise the events of the notifications among them. */
module Listener {
  import opened Wrappers
  import opened CacheEventModels
  import opened Messages
  import opened Framing
  import opened Dispatch
  import opened Sequences

  /** What one turn of the loop meets. Only `Data` lets the loop go on. */
  datatype ReadStep =
    | Data(text: string)  // ReadAsync returned bytes; this is their decoded text
    | EndOfStream         // ReadAsync returned 0 bytes: the peer closed the connection
    | Cancelled           // cancellation was requested before the read, or cancelled it
    | Disconnected        // the client reports itself not Connected, or was already cleared
    | ReadFailed          // ReadAsync threw any other exception

  /** The text delivered before the loop meets its first step that is not `Data`. */
  function Received(steps: seq<ReadStep>): string
  {
    if steps == [] || !steps[0].Data? then [] else steps[0].text + Received(steps[1..])
  }

  /** The event a decoded message hands to RaiseEvent: only a response that is a
      notification and carries an event. A message that failed to decode is None. */
  function Notification(decoded: Option<CacheResponse>): (e: Option<CacheEvent>)
    ensures e.Some? <==> decoded.Some? && decoded.value.isNotification && decoded.value.event.Some?
    ensures e.Some? ==> e == decoded.value.event
  {
    if decoded.Some? && decoded.value.isNotification && decoded.value.event.Some? then decoded.value.event
    else None
  }

  /** The body of the foreach for one message: the calls made for it and how the last one
      ended. A message that is not a notification causes no call; a notification causes
      the calls of RaiseEvent up to the first handler that throws. */
  function HandleMessage(message: string, decode: string -> Option<CacheResponse>,
                         observers: Observers, outcome: Invocation -> HandlerOutcome): (seq<Invocation>, HandlerOutcome)
  {
    match Notification(decode(message))
    case None => ([], Returns)
    case Some(e) => Invoke(RaiseEvent(observers, e), outcome)
  }

  /** What handling one message does: nothing unless it is a notification; for a
      notification, a prefix of the calls RaiseEvent makes for its event, each handed the
      event arguments built from that event. */
  lemma HandleMessageCalls(message: string, decode: string -> Option<CacheResponse>,
                           observers: Observers, outcome: Invocation -> HandlerOutcome)
    ensures var r := HandleMessage(message, decode, observers, outcome);
      && (Notification(decode(message)).None? ==> r == ([], Returns))
      && (Notification(decode(message)).Some? ==>
            var calls := RaiseEvent(observers, Notification(decode(message)).value);
            |r.0| <= |calls| && r.0 == calls[..|r.0|])
      && (forall i | 0 <= i < |r.0| ::
            Notification(decode(message)).Some? && r.0[i].args == FromEvent(Notification(decode(message)).value))
  {
    var r := HandleMessage(message, decode, observers, outcome);
    if Notification(decode(message)).Some? {
      var e := Notification(decode(message)).value;
      var calls := RaiseEvent(observers, e);
      assert r == Invoke(calls, outcome);
      forall i | 0 <= i < |r.0|
        ensures r.0[i].args == FromEvent(e)
      {
        assert r.0[i] == calls[i];
      }
    }
  }

  /** The foreach over one batch of messages, as a value: the calls made and whether a
      handler threw an exception other than a JsonException, which leaves the foreach and
      ends the listener. A JsonException only ends the current message. */
  function ProcessBatch(messages: seq<string>, decode: string -> Option<CacheResponse>,
                        observers: Observers, outcome: Invocation -> HandlerOutcome): (seq<Invocation>, bool)
  {
    if messages == [] then ([], false)
    else
      var h := HandleMessage(messages[0], decode, observers, outcome);
      if h.1 == Throws then (h.0, true)
      else
        var rest := ProcessBatch(messages[1..], decode, observers, outcome);
        (h.0 + rest.0, rest.1)
  }

  /** Processing two batches in turn is processing their concatenation, except that nothing
      of the second is processed once the first ended the listener. */
  lemma {:induction false} ProcessBatchAppend(a: seq<string>, b: seq<string>, decode: string -> Option<CacheResponse>,
                                              observers: Observers, outcome: Invocation -> HandlerOutcome)
    ensures var pa, pb := ProcessBatch(a, decode, observers, outcome), ProcessBatch(b, decode, observers, outcome);
      ProcessBatch(a + b, decode, observers, outcome) == if pa.1 then pa else (pa.0 + pb.0, pb.1)
  {
    if a == [] {
      assert a + b == b;
      SeqUnit(ProcessBatch(b, decode, observers, outcome).0);
    } else {
      assert (a + b)[0] == a[0] && (a + b)[1..] == a[1..] + b;
      ProcessBatchAppend(a[1..], b, decode, observers, outcome);
      var h := HandleMessage(a[0], decode, observers, outcome);
      var ra := ProcessBatch(a[1..], decode, observers, outcome);
      SeqAssoc(h.0, ra.0, ProcessBatch(b, decode, observers, outcome).0);
    }
  }

  /** The foreach loop over the messages one read completed. */
  method ProcessMessages(messages: seq<string>, decode: string -> Option<CacheResponse>,
                         observers: Observers, outcome: Invocation -> HandlerOutcome)
    returns (calls: seq<Invocation>, aborted: bool)
    ensures (calls, aborted) == ProcessBatch(messages, decode, observers, outcome)
  {
    calls, aborted := [], false;
    var i := 0;
    while i < |messages|
      invariant 0 <= i <= |messages|
      invariant (calls, false) == ProcessBatch(messages[..i], decode, observers, outcome)
    {
      var handled := HandleMessage(messages[i], decode, observers, outcome);
      BatchStep(messages, i, decode, observers, outcome);
      calls := calls + handled.0;
      i := i + 1;
      if handled.1 == Throws {
        aborted := true;
        BatchStop(messages, i, decode, observers, outcome);
        return;
      }
    }
    assert messages[..i] == messages;
  }

  /** One iteration of the foreach: unless the listener has ended, the next message adds its
      calls and decides whether it ends. */
  lemma BatchStep(messages: seq<string>, i: nat, decode: string -> Option<CacheResponse>,
                  observers: Observers, outcome: Invocation -> HandlerOutcome)
    requires i < |messages|
    ensures var p, h := ProcessBatch(messages[..i], decode, observers, outcome), HandleMessage(messages[i], decode, observers, outcome);
      !p.1 ==> ProcessBatch(messages[..i + 1], decode, observers, outcome) == (p.0 + h.0, h.1 == Throws)
  {
    assert messages[..i + 1] == messages[..i] + [messages[i]];
    ProcessBatchAppend(messages[..i], [messages[i]], decode, observers, outcome);
    var h := HandleMessage(messages[i], decode, observers, outcome);
    assert [messages[i]][1..] == [];
    SeqUnit(h.0);
  }

  /** Once the listener has ended part-way through a batch, the rest of the batch is not processed. */
  lemma BatchStop(messages: seq<string>, i: nat, decode: string -> Option<CacheResponse>,
                  observers: Observers, outcome: Invocation -> HandlerOutcome)
    requires i <= |messages|
    requires ProcessBatch(messages[..i], decode, observers, outcome).1
    ensures ProcessBatch(messages, decode, observers, outcome) == ProcessBatch(messages[..i], decode, observers, outcome)
  {
    assert messages[..i] + messages[i..] == messages;
    ProcessBatchAppend(messages[..i], messages[i..], decode, observers, outcome);
  }

  /** The calls the read loop makes on the given steps. */
  function ListenCalls(steps: seq<ReadStep>, decode: string -> Option<CacheResponse>,
                       observers: Observers, outcome: Invocation -> HandlerOutcome): seq<Invocation>
  {
    ProcessBatch(Frames(Received(steps)), decode, observers, outcome).0
  }

  /** The read loop. It ends at the first step that is not `Data`, or when a handler throws
      an exception other than a JsonException. The calls it makes are those of processing
      the messages that the received text completes, whatever the reads it came in. */
  method ListenForNotifications(steps: seq<ReadStep>, decode: string -> Option<CacheResponse>,
                                observers: Observers, outcome: Invocation -> HandlerOutcome)
    returns (calls: seq<Invocation>)
    ensures calls == ListenCalls(steps, decode, observers, outcome)
  {
    var buffer := new MessageBuffer();
    calls := [];
    var i := 0;
    ghost var seen: string := [];
    FrameShape([]);
    while i < |steps| && steps[i].Data?
      invariant 0 <= i <= |steps|
      invariant fresh(buffer)
      invariant Received(steps) == seen + Received(steps[i..])
      invariant buffer.content == Tail(seen)
      invariant (calls, false) == ProcessBatch(Frames(seen), decode, observers, outcome)
    {
      var text := steps[i].text;
      ReceivedStep(steps, i, seen);
      var messages := buffer.Feed(text);
      FramesAppend(seen, text);
      var batch, aborted := ProcessMessages(messages, decode, observers, outcome);
      ProcessBatchAppend(Frames(seen), messages, decode, observers, outcome);
      calls := calls + batch;
      seen := seen + text;
      i := i + 1;
      if aborted {
        AbortedStaysAborted(seen, Received(steps[i..]), decode, observers, outcome);
        return;
      }
    }
    ReceivedEnd(steps, i, seen);
  }

  /** One `Data` step of the read loop appends its text to what has been received. */
  lemma ReceivedStep(steps: seq<ReadStep>, i: nat, seen: string)
    requires i < |steps| && steps[i].Data?
    requires Received(steps) == seen + Received(steps[i..])
    ensures Received(steps) == (seen + steps[i].text) + Received(steps[i + 1..])
  {
    assert steps[i..][0] == steps[i] && steps[i..][1..] == steps[i + 1..];
  }

  /** The first step that is not `Data` (or the end of the steps) ends what is received. */
  lemma ReceivedEnd(steps: seq<ReadStep>, i: nat, seen: string)
    requires i <= |steps| && (i == |steps| || !steps[i].Data?)
    requires Received(steps) == seen + Received(steps[i..])
    ensures Received(steps) == seen
  {
    assert i < |steps| ==> steps[i..][0] == steps[i];
  }

  /** Once processing the messages completed so far has ended the listener, text received
      later changes nothing. */
  lemma AbortedStaysAborted(seen: string, later: string, decode: string -> Option<CacheResponse>,
                            observers: Observers, outcome: Invocation -> HandlerOutcome)
    requires ProcessBatch(Frames(seen), decode, observers, outcome).1
    ensures ProcessBatch(Frames(seen + later), decode, observers, outcome) == ProcessBatch(Frames(seen), decode, observers, outcome)
  {
    FramesAppend(seen, later);
    ProcessBatchAppend(Frames(seen), Frames(Tail(seen) + later), decode, observers, outcome);
  }

  /** A message that is not a notification (malformed, or decoding to anything else) is
      skipped: the batch is processed as if it were not there. */
  lemma SkippedMessage(before: seq<string>, skipped: string, after: seq<string>,
                       decode: string -> Option<CacheResponse>, observers: Observers, outcome: Invocation -> HandlerOutcome)
    requires Notification(decode(skipped)).None?
    ensures ProcessBatch(before + [skipped] + after, decode, observers, outcome)
         == ProcessBatch(before + after, decode, observers, outcome)
  {
    ProcessBatchAppend(before + [skipped], after, decode, observers, outcome);
    ProcessBatchAppend(before, [skipped], decode, observers, outcome);
    ProcessBatchAppend(before, after, decode, observers, outcome);
    var pb := ProcessBatch(before, decode, observers, outcome);
    assert HandleMessage(skipped, decode, observers, outcome) == ([], Returns);
    assert [skipped][1..] == [];
    SeqUnit<Invocation>([]);
    assert ProcessBatch([skipped], decode, observers, outcome) == ([], false);
    SeqUnit(pb.0);
  }

  /** Observers whose handlers all return. */
  ghost predicate AllReturn(outcome: Invocation -> HandlerOutcome)
  {
    forall inv :: outcome(inv) == Returns
  }

  /** A malformed message between two well-formed notifications, all three arriving on the
      wire, does not keep the two events from being raised, in order. */
  lemma MalformedBetweenTwoNotifications(m1: string, bad: string, m2: string, e1: CacheEvent, e2: CacheEvent,
                                         decode: string -> Option<CacheResponse>, observers: Observers,
                                         outcome: Invocation -> HandlerOutcome)
    requires WellFormed(m1) && WellFormed(bad) && WellFormed(m2)
    requires Notification(decode(m1)) == Some(e1) && Notification(decode(m2)) == Some(e2)
    requires decode(bad).None?
    requires AllReturn(outcome)
    ensures ListenCalls([Data(Stream([m1, bad, m2]))], decode, observers, outcome)
         == RaiseEvent(observers, e1) + RaiseEvent(observers, e2)
  {
    var text := Stream([m1, bad, m2]);
    ReceivedOne(text);
    ThreeFrames(m1, bad, m2);
    SkippedMessage([m1], bad, [m2], decode, observers, outcome);
    assert [m1] + [bad] + [m2] == [m1, bad, m2];
    assert [m1] + [m2] == [m1, m2];
    TwoDelivered(m1, m2, e1, e2, decode, observers, outcome);
  }

  /** A single read delivers its text. */
  lemma ReceivedOne(text: string)
    ensures Received([Data(text)]) == text
  {
    assert [Data(text)][1..] == [];
  }

  /** Three well-formed messages on the wire are exactly the three complete frames. */
  lemma ThreeFrames(m1: string, m2: string, m3: string)
    requires WellFormed(m1) && WellFormed(m2) && WellFormed(m3)
    ensures Frames(Stream([m1, m2, m3])) == [m1, m2, m3]
  {
    StreamFrames([m1, m2, m3], []);
    assert Stream([m1, m2, m3]) + [] == Stream([m1, m2, m3]);
  }

  /** Two notifications in one batch, with handlers that all return, raise both events in order
      and do not end the listener. */
  lemma TwoDelivered(m1: string, m2: string, e1: CacheEvent, e2: CacheEvent,
                     decode: string -> Option<CacheResponse>, observers: Observers,
                     outcome: Invocation -> HandlerOutcome)
    requires Notification(decode(m1)) == Some(e1) && Notification(decode(m2)) == Some(e2)
    requires AllReturn(outcome)
    ensures ProcessBatch([m1, m2], decode, observers, outcome) == (RaiseEvent(observers, e1) + RaiseEvent(observers, e2), false)
  {
    var r1, r2 := RaiseEvent(observers, e1), RaiseEvent(observers, e2);
    AllReturnInvoke(r1, outcome);
    AllReturnInvoke(r2, outcome);
    assert HandleMessage(m1, decode, observers, outcome) == (r1, Returns);
    assert HandleMessage(m2, decode, observers, outcome) == (r2, Returns);
    assert [m2][1..] == [];
    SeqUnit(r2);
    assert ProcessBatch([m2], decode, observers, outcome) == (r2, false);
    assert [m1, m2][1..] == [m2];
  }

  /** When no handler throws, every call is made and the outcome is that they returned. */
  lemma AllReturnInvoke(calls: seq<Invocation>, outcome: Invocation -> HandlerOutcome)
    requires AllReturn(outcome)
    ensures Invoke(calls, outcome) == (calls, Returns)
  {
  }
}
