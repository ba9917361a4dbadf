/**
 * The socket service the pages import (socket.js). It never opens a transport: `connect`
 * only raises the flag, `ws` stays `null`, and bid updates reach callbacks only through
 * `simulateBidUpdate`. Besides the map from item id to callback it keeps a single
 * "current subscription" slot, which `onBidUpdate` overwrites and `offBidUpdate` clears.
 */
module MockSocket {
  import opened Wrappers

  const MaxReconnectAttempts := 5
  const ReconnectIntervalMs := 3000

  /** The identity of a callback function. */
  type CallbackId = int

  /** The `{ itemId, callback }` object `onBidUpdate` stores and returns. */
  datatype Slot = Slot(itemId: int, callback: CallbackId)

  datatype MockState = MockState(
    hasSocket: bool,
    connected: bool,
    reconnectAttempts: int,
    subscriptions: map<int, CallbackId>,
    bidSubscription: Option<Slot>)

  datatype Event =
    | Connect
    | Disconnect
    | BidUpdateOn(itemId: int, callback: CallbackId)
    | BidUpdateOff
    | Join(itemId: int)
    | Leave(itemId: int)
    | Simulate(itemId: int)

  function InitialState(): MockState
  {
    MockState(false, false, 0, map[], None)
  }

  /**
   * `ws` is never assigned, the counter is never touched, and the slot, when full, names a
   * key of the map that holds the slot's callback.
   */
  ghost predicate ValidState(s: MockState)
  {
    && !s.hasSocket
    && s.reconnectAttempts == 0
    && (s.bidSubscription.Some? ==>
          s.bidSubscription.value.itemId in s.subscriptions
          && s.subscriptions[s.bidSubscription.value.itemId] == s.bidSubscription.value.callback)
  }

  /** `offBidUpdate`: forgets the key of the current slot, if any, and empties the slot. */
  function OffStep(s: MockState): (r: MockState)
    ensures r.bidSubscription == None
    ensures s.bidSubscription.None? ==> r == s
    ensures s.bidSubscription.Some? ==>
              r.subscriptions == s.subscriptions - {s.bidSubscription.value.itemId}
  {
    match s.bidSubscription
    case None => s
    case Some(slot) => s.(subscriptions := s.subscriptions - {slot.itemId}, bidSubscription := None)
  }

  function Step(s: MockState, e: Event): MockState
  {
    match e
    case Connect => s.(connected := true)
    case Disconnect => if s.hasSocket then s.(connected := false) else s
    case BidUpdateOn(itemId, callback) =>
      s.(subscriptions := s.subscriptions[itemId := callback], bidSubscription := Some(Slot(itemId, callback)))
    case BidUpdateOff => OffStep(s)
    case Join(_) => s
    case Leave(_) => s
    case Simulate(_) => s
  }

  /** `simulateBidUpdate`: the callback that runs, which is the one registered for the item, if any. */
  function Simulated(s: MockState, itemId: int): (r: Option<CallbackId>)
    ensures r.Some? <==> itemId in s.subscriptions
    ensures r.Some? ==> r.value == s.subscriptions[itemId]
  {
    if itemId in s.subscriptions then Some(s.subscriptions[itemId]) else None
  }

  function Run(s: MockState, events: seq<Event>): MockState
    decreases events
  {
    if events == [] then s else Run(Step(s, events[0]), events[1..])
  }

  lemma {:induction false} RunKeepsValid(s: MockState, events: seq<Event>)
    requires ValidState(s)
    ensures ValidState(Run(s, events))
    decreases events
  {
    if events != [] {
      var t := Step(s, events[0]);
      assert ValidState(t);
      RunKeepsValid(t, events[1..]);
    }
  }

  /** `disconnect` does nothing, because there is never a socket: after `connect` the flag stays up. */
  lemma DisconnectIsInert(s: MockState)
    requires ValidState(s)
    ensures Step(s, Disconnect) == s
    ensures Run(s, [Connect, Disconnect]).connected
  {
    var s1 := Step(s, Connect);
    assert Run(Step(s1, Disconnect), []) == s1;
  }

  /** A second `offBidUpdate` is a no-op. */
  lemma OffIsIdempotent(s: MockState)
    ensures OffStep(OffStep(s)) == OffStep(s)
  {
  }

  /**
   * The single slot forgets earlier registrations: after registering item `a` and then
   * item `b`, `offBidUpdate` removes only `b`, and `a`'s callback stays registered with
   * nothing left that would remove it.
   */
  lemma {:induction false} SlotEvictsEarlierRegistration(s: MockState, a: int, ca: CallbackId, b: int, cb: CallbackId)
    requires a != b
    ensures var r := Run(s, [BidUpdateOn(a, ca), BidUpdateOn(b, cb), BidUpdateOff]);
            a in r.subscriptions && r.subscriptions[a] == ca && b !in r.subscriptions && r.bidSubscription == None
    ensures Run(s, [BidUpdateOn(a, ca), BidUpdateOn(b, cb), BidUpdateOff, BidUpdateOff])
            == Run(s, [BidUpdateOn(a, ca), BidUpdateOn(b, cb), BidUpdateOff])
  {
    var s1 := Step(s, BidUpdateOn(a, ca));
    var s2 := Step(s1, BidUpdateOn(b, cb));
    var s3 := Step(s2, BidUpdateOff);
    var s4 := Step(s3, BidUpdateOff);
    assert s4 == s3;
    assert Run(s3, []) == s3;
    assert Run(s4, []) == s4;
    assert Run(s2, [BidUpdateOff]) == s3;
    assert Run(s3, [BidUpdateOff]) == s4;
    assert Run(s2, [BidUpdateOff, BidUpdateOff]) == Run(s3, [BidUpdateOff]);
    assert Run(s1, [BidUpdateOn(b, cb), BidUpdateOff]) == Run(s2, [BidUpdateOff]);
    assert Run(s1, [BidUpdateOn(b, cb), BidUpdateOff, BidUpdateOff]) == Run(s2, [BidUpdateOff, BidUpdateOff]);
  }

  /** Registering and then unregistering an item leaves the other items' callbacks as they were. */
  lemma OnThenOffKeepsOthers(s: MockState, itemId: int, callback: CallbackId, other: int)
    requires other != itemId
    ensures var r := OffStep(Step(s, BidUpdateOn(itemId, callback)));
            itemId !in r.subscriptions
            && (other in r.subscriptions <==> other in s.subscriptions)
            && (other in s.subscriptions ==> r.subscriptions[other] == s.subscriptions[other])
  {
  }

  class SocketService {
    var hasSocket: bool
    var connected: bool
    var reconnectAttempts: int
    var subscriptions: map<int, CallbackId>
    var bidSubscription: Option<Slot>
    const maxReconnectAttempts: int
    const reconnectInterval: int

    function State(): MockState
      reads this
    {
      MockState(hasSocket, connected, reconnectAttempts, subscriptions, bidSubscription)
    }

    ghost predicate Valid()
      reads this
    {
      ValidState(State()) && maxReconnectAttempts == MaxReconnectAttempts
      && reconnectInterval == ReconnectIntervalMs
    }

    constructor ()
      ensures Valid() && State() == InitialState()
    {
      hasSocket, connected, reconnectAttempts := false, false, 0;
      subscriptions, bidSubscription := map[], None;
      maxReconnectAttempts, reconnectInterval := MaxReconnectAttempts, ReconnectIntervalMs;
    }

    /** Mock mode: raises the flag and never creates a socket. */
    method Connect()
      requires Valid()
      modifies this
      ensures Valid() && State() == Step(old(State()), Event.Connect)
    {
      connected := true;
    }

    /** Written for a socket that this mode never creates; on a valid service it changes nothing. */
    method Disconnect()
      modifies this
      ensures State() == Step(old(State()), Event.Disconnect)
      ensures old(Valid()) ==> Valid() && State() == old(State())
    {
      if hasSocket {
        connected := false;
      }
    }

    method OnBidUpdate(itemId: int, callback: CallbackId) returns (slot: Slot)
      requires Valid()
      modifies this
      ensures Valid() && State() == Step(old(State()), BidUpdateOn(itemId, callback))
      ensures slot == Slot(itemId, callback)
    {
      subscriptions := subscriptions[itemId := callback];
      bidSubscription := Some(Slot(itemId, callback));
      slot := bidSubscription.value;
    }

    method OffBidUpdate()
      requires Valid()
      modifies this
      ensures Valid() && State() == Step(old(State()), BidUpdateOff)
    {
      if bidSubscription.Some? {
        var itemId := bidSubscription.value.itemId;
        subscriptions := subscriptions - {itemId};
        bidSubscription := None;
      }
    }

    /** Only logs; no field changes (the method may not modify anything). */
    method JoinAuction(itemId: int)
      requires Valid()
      ensures State() == Step(State(), Join(itemId))
    {
    }

    /** Only logs; no field changes (the method may not modify anything). */
    method LeaveAuction(itemId: int)
      requires Valid()
      ensures State() == Step(State(), Leave(itemId))
    {
    }

    method SimulateBidUpdate(itemId: int) returns (invoked: Option<CallbackId>)
      ensures invoked == Simulated(State(), itemId)
    {
      if itemId in subscriptions {
        invoked := Some(subscriptions[itemId]);
      } else {
        invoked := None;
      }
    }
  }
}
