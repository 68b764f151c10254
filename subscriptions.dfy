/** The subscription side of the service: the callback wrapper `Subscribe` hands to the
    event bus, and `Unsubscribe`. */
module Subscriptions {
  import opened Wrappers
  import opened RpcTypes

  /** Why `NewResultEvent` could not map a raw bus message. */
  datatype MappingError = MappingError(reason: string)

  /** `NewResultEvent`: the mapping from an event ID and a raw message to a result event,
      which may fail. It is defined outside this model, so it is a parameter. */
  type Mapper<!Msg, Ev> = (string, Msg) -> Result<Ev, MappingError>

  /** What the wrapper does with one raw message: whether it tells the bus to keep the
      subscription (its boolean return), and the event it handed to the caller's
      callback, if it called the callback at all. */
  datatype Delivery<Ev> = Delivery(keep: bool, handed: Option<Ev>)

  /** The wrapper closure of `Subscribe`: map the message with the subscription's event
      ID; on a mapping error keep the subscription without calling the callback,
      otherwise call the callback and return its answer. */
  function HandleMessage<Msg, Ev>(newResultEvent: Mapper<Msg, Ev>, eventID: string, callback: Ev -> bool, message: Msg)
    : (d: Delivery<Ev>)
    ensures newResultEvent(eventID, message).Failure? ==> d.keep && d.handed.None?
    ensures newResultEvent(eventID, message).Success? ==>
      d.handed == Some(newResultEvent(eventID, message).value) && d.keep == callback(d.handed.value)
    ensures !d.keep ==> d.handed.Some? && !callback(d.handed.value)
  {
    match newResultEvent(eventID, message)
    case Failure(_) => Delivery(true, None)
    case Success(resultEvent) => Delivery(callback(resultEvent), Some(resultEvent))
  }

  /** The events the caller's callback receives when the bus delivers `messages` in
      order to the wrapper and ends the subscription the first time the wrapper returns
      false (the bus's stop rule; the bus itself is not part of this model). */
  function DeliveredEvents<Msg, Ev>(newResultEvent: Mapper<Msg, Ev>, eventID: string, callback: Ev -> bool, messages: seq<Msg>)
    : (delivered: seq<Ev>)
  {
    if messages == [] then []
    else
      var d := HandleMessage(newResultEvent, eventID, callback, messages[0]);
      (if d.handed.Some? then [d.handed.value] else [])
      + (if d.keep then DeliveredEvents(newResultEvent, eventID, callback, messages[1..]) else [])
  }

  /** Messages that cannot be mapped are dropped without ending the subscription,
      wherever they arrive: the messages after them are delivered exactly as if they had
      never arrived. */
  lemma {:induction false} MalformedMessagesAreSkipped<Msg, Ev>(
    newResultEvent: Mapper<Msg, Ev>, eventID: string, callback: Ev -> bool,
    before: seq<Msg>, malformed: seq<Msg>, rest: seq<Msg>)
    requires forall i :: 0 <= i < |malformed| ==> newResultEvent(eventID, malformed[i]).Failure?
    ensures DeliveredEvents(newResultEvent, eventID, callback, before + malformed + rest) ==
      DeliveredEvents(newResultEvent, eventID, callback, before + rest)
  {
    if before == [] {
      assert before + malformed + rest == malformed + rest;
      assert before + rest == rest;
      MalformedRunIsSkipped(newResultEvent, eventID, callback, malformed, rest);
    } else {
      assert (before + malformed + rest)[0] == before[0];
      assert (before + rest)[0] == before[0];
      assert (before + malformed + rest)[1..] == before[1..] + malformed + rest;
      assert (before + rest)[1..] == before[1..] + rest;
      MalformedMessagesAreSkipped(newResultEvent, eventID, callback, before[1..], malformed, rest);
    }
  }

  /** A run of unmappable messages at the front of the stream contributes nothing. */
  lemma {:induction false} MalformedRunIsSkipped<Msg, Ev>(
    newResultEvent: Mapper<Msg, Ev>, eventID: string, callback: Ev -> bool, malformed: seq<Msg>, rest: seq<Msg>)
    requires forall i :: 0 <= i < |malformed| ==> newResultEvent(eventID, malformed[i]).Failure?
    ensures DeliveredEvents(newResultEvent, eventID, callback, malformed + rest) ==
      DeliveredEvents(newResultEvent, eventID, callback, rest)
  {
    if malformed != [] {
      assert (malformed + rest)[0] == malformed[0];
      assert (malformed + rest)[1..] == malformed[1..] + rest;
      MalformedRunIsSkipped(newResultEvent, eventID, callback, malformed[1..], rest);
    } else {
      assert malformed + rest == rest;
    }
  }

  /** Once the callback answers false to an event, it receives nothing more. */
  lemma {:induction false} StopIsFinal<Msg, Ev>(
    newResultEvent: Mapper<Msg, Ev>, eventID: string, callback: Ev -> bool,
    before: seq<Msg>, stopping: Msg, after: seq<Msg>)
    requires newResultEvent(eventID, stopping).Success?
    requires !callback(newResultEvent(eventID, stopping).value)
    ensures DeliveredEvents(newResultEvent, eventID, callback, before + [stopping] + after) ==
      DeliveredEvents(newResultEvent, eventID, callback, before + [stopping])
  {
    if before == [] {
      assert before + [stopping] + after == [stopping] + after;
      assert before + [stopping] == [stopping];
      assert ([stopping] + after)[0] == stopping;
      assert [stopping][1..] == [];
    } else {
      assert (before + [stopping] + after)[0] == before[0];
      assert (before + [stopping])[0] == before[0];
      assert (before + [stopping] + after)[1..] == before[1..] + [stopping] + after;
      assert (before + [stopping])[1..] == before[1..] + [stopping];
      StopIsFinal(newResultEvent, eventID, callback, before[1..], stopping, after);
    }
  }

  /** The events that `messages` map to, in order, dropping those that fail to map. */
  function MappedEvents<Msg, Ev>(newResultEvent: Mapper<Msg, Ev>, eventID: string, messages: seq<Msg>): (mapped: seq<Ev>)
  {
    if messages == [] then []
    else
      (match newResultEvent(eventID, messages[0])
       case Success(e) => [e]
       case Failure(_) => [])
      + MappedEvents(newResultEvent, eventID, messages[1..])
  }

  /** A callback that accepts every event the stream maps to receives all of them, in
      the order the bus delivered the messages. */
  lemma {:induction false} KeepingCallbackSeesAllMapped<Msg, Ev>(
    newResultEvent: Mapper<Msg, Ev>, eventID: string, callback: Ev -> bool, messages: seq<Msg>)
    requires forall i :: 0 <= i < |messages| && newResultEvent(eventID, messages[i]).Success? ==>
      callback(newResultEvent(eventID, messages[i]).value)
    ensures DeliveredEvents(newResultEvent, eventID, callback, messages) == MappedEvents(newResultEvent, eventID, messages)
  {
    if messages != [] {
      var tail := messages[1..];
      forall i | 0 <= i < |tail| && newResultEvent(eventID, tail[i]).Success?
        ensures callback(newResultEvent(eventID, tail[i]).value)
      {
        assert tail[i] == messages[i + 1];
      }
      KeepingCallbackSeesAllMapped(newResultEvent, eventID, callback, tail);
    }
  }

  /** `Unsubscribe`: remove every registration under the ID; a bus error is wrapped
      with the subscription ID, success is nil. */
  function Unsubscribe(subscriptionID: string, unsubscribeAll: string -> Outcome<string>): (r: Outcome<Error>)
    ensures r.Fail? <==> unsubscribeAll(subscriptionID).Fail?
    ensures r.Fail? ==> r.error == UnsubscribeFailed(subscriptionID, unsubscribeAll(subscriptionID).error)
  {
    match unsubscribeAll(subscriptionID)
    case Pass => Pass
    case Fail(cause) => Fail(UnsubscribeFailed(subscriptionID, cause))
  }
}
