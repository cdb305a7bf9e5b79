/** The listener registry and event dispatch shared by both serial
    connectors (NibeHeatPumpBaseConnector.java). Listeners are identified by
    number; what a listener does with an event is not part of this model,
    only whether it throws, which the caller states as the set `throwing`. */
module Connectors {
  import opened Common
  import opened MessageFactory
  import opened Lists

  type ListenerId = nat

  /** What a listener is called with: msgReceived(msg) or errorOccured(text). */
  datatype Event = MessageEvent(msg: Message) | ErrorEvent(text: string)

  /** One listener call. */
  datatype Delivery = Delivery(listener: ListenerId, event: Event)

  /** addEventListener(l): append l unless the list already contains it. */
  function WithListener(ls: seq<ListenerId>, l: ListenerId): (r: seq<ListenerId>)
    ensures l in r
    ensures forall x :: x in r <==> x in ls || x == l
    ensures l in ls ==> r == ls
    ensures l !in ls ==> r == ls + [l]
    ensures NoDuplicates(ls) ==> NoDuplicates(r)
  {
    if l in ls then ls else ls + [l]
  }

  /** The calls one dispatch loop makes: each listener in registration
      order receives the event, and the first one that throws ends the loop
      (the try block wraps the whole iteration). */
  function Deliveries(ls: seq<ListenerId>, e: Event, throwing: set<ListenerId>): (d: seq<Delivery>)
    ensures |d| <= |ls|
    ensures forall k :: 0 <= k < |d| ==> d[k] == Delivery(ls[k], e)
    ensures forall k :: 0 <= k < |d| - 1 ==> ls[k] !in throwing
    ensures |d| < |ls| ==> |d| > 0 && ls[|d| - 1] in throwing
  {
    if ls == [] then []
    else if ls[0] in throwing then [Delivery(ls[0], e)]
    else [Delivery(ls[0], e)] + Deliveries(ls[1..], e, throwing)
  }

  lemma DeliveriesUnfold(ls: seq<ListenerId>, e: Event, throwing: set<ListenerId>)
    requires ls != []
    ensures Deliveries(ls, e, throwing) ==
      [Delivery(ls[0], e)] + (if ls[0] in throwing then [] else Deliveries(ls[1..], e, throwing))
  {
  }

  /** When no listener throws, every listener receives the event once, in
      registration order. */
  lemma DeliveriesReachAll(ls: seq<ListenerId>, e: Event, throwing: set<ListenerId>)
    requires forall l :: l in ls ==> l !in throwing
    ensures |Deliveries(ls, e, throwing)| == |ls|
  {
  }

  /** A listener after a throwing one receives nothing. */
  lemma DeliveriesStopAtThrow(ls: seq<ListenerId>, e: Event, throwing: set<ListenerId>, k: nat)
    requires k < |ls| && ls[k] in throwing
    ensures |Deliveries(ls, e, throwing)| <= k + 1
  {
  }

  /** Exceptions sendMsgToListeners(byte[]) catches: the NibeHeatPumpException
      family (raised by the factory or by a helper). Index and buffer
      exceptions are runtime exceptions and pass through. */
  predicate Caught(e: Error)
  {
    e.NibeError? || e.HelperFailure?
  }

  class BaseConnector {
    var listeners: seq<ListenerId>
    var connected: bool
    /** Every listener call made so far, in order. */
    var delivered: seq<Delivery>

    constructor ()
      ensures listeners == [] && !connected && delivered == []
    {
      listeners := [];
      connected := false;
      delivered := [];
    }

    predicate Valid()
      reads this
    {
      NoDuplicates(listeners)
    }

    /** addEventListener(l): add l unless it is already registered. */
    method AddEventListener(l: ListenerId)
      modifies this
      ensures listeners == WithListener(old(listeners), l)
      ensures connected == old(connected) && delivered == old(delivered)
      ensures old(Valid()) ==> Valid()
    {
      if l !in listeners {
        listeners := listeners + [l];
      }
    }

    /** removeEventListener(l): List.remove(Object), the first occurrence. */
    method RemoveEventListener(l: ListenerId)
      modifies this
      ensures listeners == RemoveFirst(old(listeners), l)
      ensures connected == old(connected) && delivered == old(delivered)
      ensures old(Valid()) ==> Valid() && l !in listeners
    {
      if NoDuplicates(listeners) {
        RemoveFirstRemoves(listeners, l);
      }
      listeners := RemoveFirst(listeners, l);
    }

    function IsConnected(): bool
      reads this
    {
      connected
    }

    /** sendMsgToListeners(msg) and sendErrorToListeners(text): call the
        listeners in order until one throws; the exception is swallowed. */
    method Dispatch(e: Event, throwing: set<ListenerId>)
      modifies this
      ensures delivered == old(delivered) + Deliveries(listeners, e, throwing)
      ensures listeners == old(listeners) && connected == old(connected)
    {
      var ls := listeners;
      var log := delivered;
      var i := 0;
      while i < |ls|
        modifies {}
        invariant 0 <= i <= |ls|
        invariant log + Deliveries(ls[i..], e, throwing) == old(delivered) + Deliveries(ls, e, throwing)
      {
        DeliveriesUnfold(ls[i..], e, throwing);
        assert ls[i..][1..] == ls[i + 1..];
        log := log + [Delivery(ls[i], e)];
        if ls[i] in throwing {
          assert log == old(delivered) + Deliveries(ls, e, throwing);
          break;
        }
        i := i + 1;
      }
      if i == |ls| {
        assert ls[i..] == [];
      }
      delivered := log;
    }

    method SendMsgToListeners(m: Message, throwing: set<ListenerId>)
      modifies this
      ensures delivered == old(delivered) + Deliveries(listeners, MessageEvent(m), throwing)
      ensures listeners == old(listeners) && connected == old(connected)
    {
      Dispatch(MessageEvent(m), throwing);
    }

    method SendErrorToListeners(text: string, throwing: set<ListenerId>)
      modifies this
      ensures delivered == old(delivered) + Deliveries(listeners, ErrorEvent(text), throwing)
      ensures listeners == old(listeners) && connected == old(connected)
    {
      Dispatch(ErrorEvent(text), throwing);
    }

    /** sendMsgToListeners(byte[]): build the message with the factory; a
        NibeHeatPumpException reaches no listener, any other exception
        reaches no listener and escapes to the caller. */
    method SendDataToListeners(data: seq<byte>, throwing: set<ListenerId>) returns (fault: Option<Error>)
      modifies this
      ensures fault == DispatchFault(data)
      ensures GetMessage(Some(data)).Err? ==> delivered == old(delivered)
      ensures GetMessage(Some(data)).Ok? ==>
        delivered == old(delivered) + Deliveries(listeners, MessageEvent(GetMessage(Some(data)).value), throwing)
      ensures listeners == old(listeners) && connected == old(connected)
    {
      var r := GetMessage(Some(data));
      if r.Err? {
        return if Caught(r.error) then None else Some(r.error);
      }
      SendMsgToListeners(r.value, throwing);
      return None;
    }
  }

  /** The exception sendMsgToListeners(byte[]) lets escape for a frame. */
  function DispatchFault(data: seq<byte>): (f: Option<Error>)
    ensures f.Some? ==> GetMessage(Some(data)).Err? && !Caught(f.value)
    ensures f.None? && GetMessage(Some(data)).Err? ==> Caught(GetMessage(Some(data)).error)
  {
    match GetMessage(Some(data))
    case Ok(_) => None
    case Err(e) => if Caught(e) then None else Some(e)
  }

}
