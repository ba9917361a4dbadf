/**
 * The native WebSocket client (nativeSocket.js): one connection flag, a reconnect counter
 * bounded by `maxReconnectAttempts`, and a map from item id to the callback registered for
 * that item's bid updates. The browser transport and its timers are replaced by explicit
 * events: the socket's `onopen`, `onclose`, `onerror` and `onmessage` handlers and the
 * reconnect timer firing become methods the environment calls, and `ws.send` appends the
 * frame to `outbox`. `ws.send` on a socket that is still connecting throws `InvalidStateError`;
 * the operations that send report that as `threw`.
 */
module NativeSocket {
  import opened Wrappers

  const MaxReconnectAttempts := 5
  const ReconnectIntervalMs := 3000

  /** The identity of a callback function; the model never calls it, it reports which one runs. */
  type CallbackId = int

  /** The topic string `auction/{itemId}/bids`. */
  datatype Topic = AuctionBids(itemId: int)

  /** The JSON objects `send` writes to the socket. */
  datatype Frame =
    | Subscribe(topic: Topic)
    | Unsubscribe(topic: Topic)
    | JoinAuction(itemId: int)
    | LeaveAuction(itemId: int)

  /**
   * The socket's `readyState`: a fresh socket is connecting, `onopen` makes it open, and
   * `close()`, a failure or the closing handshake leave it closing or closed, where `send`
   * silently drops the frame.
   */
  datatype ReadyState = Connecting | Open | Closing

  /** A parsed inbound frame: its `type` field and its `itemId` field. */
  datatype Inbound = Inbound(kind: string, itemId: int)

  /**
   * The service's fields. `hasSocket` is `ws != null` and `ready` that socket's state;
   * `pendingReconnects` counts the
   * `setTimeout(connect, reconnectInterval)` timers that have been scheduled and not yet fired.
   */
  datatype SocketState = SocketState(
    hasSocket: bool,
    ready: ReadyState,
    connected: bool,
    reconnectAttempts: int,
    pendingReconnects: nat,
    subscriptions: map<int, CallbackId>,
    outbox: seq<Frame>)

  /** Everything that can happen to the service. `created` says whether `new WebSocket` succeeded. */
  datatype Event =
    | Connect(created: bool)
    | Disconnect
    | Opened
    | Closed
    | Errored
    | ReconnectTimerFired(created: bool)
    | BidUpdateOn(itemId: int, callback: CallbackId)
    | BidUpdateOff(itemId: int)
    | Join(itemId: int)
    | Leave(itemId: int)
    | Received(frame: Option<Inbound>)

  function InitialState(): SocketState
  {
    SocketState(false, Closing, false, 0, 0, map[], [])
  }

  ghost predicate ValidState(s: SocketState)
  {
    0 <= s.reconnectAttempts <= MaxReconnectAttempts && (s.connected ==> s.hasSocket)
  }

  /**
   * `send`: the frame is handed to the socket only when there is one and the flag says
   * connected, and it goes out only when that socket is open.
   */
  function SendStep(s: SocketState, f: Frame): (r: SocketState)
    ensures r.outbox == if s.hasSocket && s.connected && s.ready == Open then s.outbox + [f] else s.outbox
    ensures r.(outbox := s.outbox) == s
  {
    if s.hasSocket && s.connected && s.ready == Open then s.(outbox := s.outbox + [f]) else s
  }

  /** `send` reaches `ws.send` on a socket that is still connecting, which throws. */
  predicate SendThrows(s: SocketState)
  {
    s.hasSocket && s.connected && s.ready == Connecting
  }

  /** `attemptReconnect`: schedules one reconnect while fewer than five have been tried. */
  function AttemptReconnectStep(s: SocketState): (r: SocketState)
    ensures s.reconnectAttempts < MaxReconnectAttempts ==>
              r.reconnectAttempts == s.reconnectAttempts + 1 && r.pendingReconnects == s.pendingReconnects + 1
    ensures s.reconnectAttempts >= MaxReconnectAttempts ==> r == s
    ensures r.(reconnectAttempts := s.reconnectAttempts, pendingReconnects := s.pendingReconnects) == s
  {
    if s.reconnectAttempts < MaxReconnectAttempts then
      s.(reconnectAttempts := s.reconnectAttempts + 1, pendingReconnects := s.pendingReconnects + 1)
    else s
  }

  /**
   * `connect`: a new socket, still connecting, replaces the old one; the connected flag is left
   * as it was. A failed `new WebSocket` is caught and changes nothing.
   */
  function ConnectStep(s: SocketState, created: bool): SocketState
  {
    if created then s.(hasSocket := true, ready := Connecting) else s
  }

  /**
   * `handleMessage`: the callback that runs for a parsed frame, if any. Only a `BID_UPDATE`
   * frame whose item has a registered callback reaches one; a frame that failed to parse
   * (`None`) reaches none.
   */
  function Route(subscriptions: map<int, CallbackId>, frame: Option<Inbound>): (r: Option<CallbackId>)
    ensures r.Some? <==> frame.Some? && frame.value.kind == "BID_UPDATE" && frame.value.itemId in subscriptions
    ensures r.Some? ==> r.value == subscriptions[frame.value.itemId]
  {
    match frame
    case None => None
    case Some(m) =>
      if m.kind == "BID_UPDATE" && m.itemId in subscriptions then Some(subscriptions[m.itemId]) else None
  }

  /**
   * The effect of one event. Transport events only come from an existing socket and the timer
   * only fires when one is pending, so those events without their source change nothing.
   */
  function Step(s: SocketState, e: Event): SocketState
  {
    match e
    case Connect(created) => ConnectStep(s, created)
    case Disconnect => if s.hasSocket then s.(ready := Closing, connected := false) else s
    case Opened => if s.hasSocket then s.(ready := Open, connected := true, reconnectAttempts := 0) else s
    case Closed => if s.hasSocket then AttemptReconnectStep(s.(ready := Closing, connected := false)) else s
    case Errored => if s.hasSocket then s.(ready := Closing, connected := false) else s
    case ReconnectTimerFired(created) =>
      if s.pendingReconnects > 0 then ConnectStep(s.(pendingReconnects := s.pendingReconnects - 1), created)
      else s
    case BidUpdateOn(itemId, callback) =>
      var s' := s.(subscriptions := s.subscriptions[itemId := callback]);
      if s.connected then SendStep(s', Subscribe(AuctionBids(itemId))) else s'
    case BidUpdateOff(itemId) =>
      var s' := s.(subscriptions := s.subscriptions - {itemId});
      if s.connected then SendStep(s', Unsubscribe(AuctionBids(itemId))) else s'
    case Join(itemId) => if s.connected then SendStep(s, JoinAuction(itemId)) else s
    case Leave(itemId) => if s.connected then SendStep(s, LeaveAuction(itemId)) else s
    case Received(_) => s
  }

  /** Whether the operation behind `e` throws out of `send`; only the four sending operations can. */
  predicate Throws(s: SocketState, e: Event)
  {
    match e
    case BidUpdateOn(_, _) => SendThrows(s)
    case BidUpdateOff(_) => SendThrows(s)
    case Join(_) => SendThrows(s)
    case Leave(_) => SendThrows(s)
    case _ => false
  }

  function Run(s: SocketState, events: seq<Event>): SocketState
    decreases events
  {
    if events == [] then s else Run(Step(s, events[0]), events[1..])
  }

  /** The counter stays within 0..5 and the flag is only up while a socket exists, whatever happens. */
  lemma StepKeepsValid(s: SocketState, e: Event)
    requires ValidState(s)
    ensures ValidState(Step(s, e))
  {
  }

  lemma {:induction false} RunKeepsValid(s: SocketState, events: seq<Event>)
    requires ValidState(s)
    ensures ValidState(Run(s, events))
    decreases events
  {
    if events != [] {
      StepKeepsValid(s, events[0]);
      RunKeepsValid(Step(s, events[0]), events[1..]);
    }
  }

  /**
   * Once five reconnects have been tried, no event short of a successful open schedules
   * another: the counter stays at five and the number of pending timers never grows.
   */
  lemma {:induction false} ExhaustedNeverReschedules(s: SocketState, events: seq<Event>)
    requires ValidState(s) && s.reconnectAttempts == MaxReconnectAttempts
    requires forall i :: 0 <= i < |events| ==> events[i] != Opened
    ensures Run(s, events).reconnectAttempts == MaxReconnectAttempts
    ensures Run(s, events).pendingReconnects <= s.pendingReconnects
    decreases events
  {
    if events != [] {
      var t := Step(s, events[0]);
      assert t.reconnectAttempts == MaxReconnectAttempts && t.pendingReconnects <= s.pendingReconnects;
      ExhaustedNeverReschedules(t, events[1..]);
    }
  }

  /** Nothing is ever written to the transport while the flag says disconnected. */
  lemma SilentWhileDisconnected(s: SocketState, e: Event)
    requires !s.connected
    ensures Step(s, e).outbox == s.outbox
  {
  }

  /** Each operation that sends writes exactly its own frame while connected over an open socket. */
  lemma FramesWhileConnected(s: SocketState, itemId: int, callback: CallbackId)
    requires ValidState(s) && s.connected && s.ready == Open
    ensures !Throws(s, Join(itemId))
    ensures Step(s, BidUpdateOn(itemId, callback)).outbox == s.outbox + [Subscribe(AuctionBids(itemId))]
    ensures Step(s, BidUpdateOff(itemId)).outbox == s.outbox + [Unsubscribe(AuctionBids(itemId))]
    ensures Step(s, Join(itemId)).outbox == s.outbox + [JoinAuction(itemId)]
    ensures Step(s, Leave(itemId)).outbox == s.outbox + [LeaveAuction(itemId)]
  {
  }

  /** The flag says connected only while the current socket is open. */
  ghost predicate ReadyWhileConnected(s: SocketState)
  {
    s.connected ==> s.ready == Open
  }

  /**
   * As long as `connect` is not called again while connected (directly or by a reconnect timer),
   * the flag only stands for an open socket, and no operation throws.
   */
  lemma StepKeepsReady(s: SocketState, e: Event)
    requires ReadyWhileConnected(s)
    requires s.connected ==> !(e.Connect? && e.created) && !(e.ReconnectTimerFired? && e.created)
    ensures ReadyWhileConnected(Step(s, e))
    ensures !Throws(s, e)
  {
  }

  /**
   * A second `connect()` while connected replaces the socket by one that is still connecting and
   * leaves the flag up, so joining an auction then throws and sends nothing.
   */
  lemma {:induction false} ReconnectWhileConnectedThrows(itemId: int)
    ensures var s := Run(InitialState(), [Connect(true), Opened, Connect(true)]);
            && s.connected
            && Throws(s, Join(itemId))
            && Step(s, Join(itemId)).outbox == s.outbox
  {
    var s0 := InitialState();
    var s1 := Step(s0, Connect(true));
    var s2 := Step(s1, Opened);
    var s3 := Step(s2, Connect(true));
    assert Run(s3, []) == s3;
    assert Run(s2, [Connect(true)]) == Run(s3, []);
    assert Run(s1, [Opened, Connect(true)]) == Run(s2, [Connect(true)]);
  }

  /**
   * `onBidUpdate` sets exactly the key of its item, overwriting an earlier callback;
   * `offBidUpdate` deletes exactly that key; every other key keeps its callback.
   */
  lemma RegistrationTouchesOneKey(s: SocketState, itemId: int, callback: CallbackId, other: int)
    requires other != itemId
    ensures Step(s, BidUpdateOn(itemId, callback)).subscriptions[itemId] == callback
    ensures itemId !in Step(s, BidUpdateOff(itemId)).subscriptions
    ensures other in Step(s, BidUpdateOn(itemId, callback)).subscriptions <==> other in s.subscriptions
    ensures other in Step(s, BidUpdateOff(itemId)).subscriptions <==> other in s.subscriptions
    ensures other in s.subscriptions ==>
              Step(s, BidUpdateOn(itemId, callback)).subscriptions[other] == s.subscriptions[other]
              && Step(s, BidUpdateOff(itemId)).subscriptions[other] == s.subscriptions[other]
  {
  }

  /**
   * A callback registered while disconnected is never announced: opening the socket afterwards
   * sends nothing, so the server never hears the subscription.
   */
  lemma {:induction false} OpenDoesNotReplay(s: SocketState, itemId: int, callback: CallbackId)
    requires ValidState(s) && s.hasSocket && !s.connected
    ensures Run(s, [BidUpdateOn(itemId, callback), Opened]).outbox == s.outbox
    ensures Run(s, [BidUpdateOn(itemId, callback), Opened]).connected
    ensures itemId in Run(s, [BidUpdateOn(itemId, callback), Opened]).subscriptions
    ensures Run(s, [BidUpdateOn(itemId, callback), Opened]).subscriptions[itemId] == callback
  {
    var s1 := Step(s, BidUpdateOn(itemId, callback));
    var s2 := Step(s1, Opened);
    assert Run(s2, []) == s2;
    assert Run(s1, [Opened]) == Run(s2, []);
  }

  /**
   * `disconnect` is not final: the socket it closes still reports `onclose`, which schedules
   * a reconnect while fewer than five attempts have been made.
   */
  lemma {:induction false} DisconnectStillReconnects(s: SocketState)
    requires ValidState(s) && s.hasSocket && s.reconnectAttempts < MaxReconnectAttempts
    ensures Run(s, [Disconnect, Closed]).pendingReconnects == s.pendingReconnects + 1
    ensures Run(s, [Disconnect, Closed]).reconnectAttempts == s.reconnectAttempts + 1
    ensures !Run(s, [Disconnect, Closed]).connected
  {
    var s1 := Step(s, Disconnect);
    var s2 := Step(s1, Closed);
    assert Run(s2, []) == s2;
    assert Run(s1, [Closed]) == Run(s2, []);
  }

  /** The service object; its fields are those of nativeSocket.js's constructor. */
  class NativeSocketService {
    var hasSocket: bool
    var ready: ReadyState
    var connected: bool
    var reconnectAttempts: int
    var pendingReconnects: nat
    var subscriptions: map<int, CallbackId>
    var outbox: seq<Frame>
    const maxReconnectAttempts: int
    const reconnectInterval: int

    function State(): SocketState
      reads this
    {
      SocketState(hasSocket, ready, connected, reconnectAttempts, pendingReconnects, subscriptions, outbox)
    }

    ghost predicate Valid()
      reads this
    {
      ValidState(State()) && maxReconnectAttempts == MaxReconnectAttempts
      && reconnectInterval == ReconnectIntervalMs
    }

    constructor ()
      ensures Valid() && State() == InitialState()
    {
      hasSocket, ready, connected, reconnectAttempts, pendingReconnects := false, Closing, false, 0, 0;
      subscriptions, outbox := map[], [];
      maxReconnectAttempts, reconnectInterval := MaxReconnectAttempts, ReconnectIntervalMs;
    }

    /** `connect`: a new, still connecting socket when the constructor succeeds; a failure is caught and logged. */
    method Connect(created: bool)
      requires Valid()
      modifies this
      ensures Valid() && State() == Step(old(State()), Event.Connect(created))
    {
      if created {
        hasSocket := true;
        ready := Connecting;
      }
    }

    method Disconnect()
      requires Valid()
      modifies this
      ensures Valid() && State() == Step(old(State()), Event.Disconnect)
    {
      if hasSocket {
        ready := Closing;
        connected := false;
      }
    }

    /** The socket's `onopen` handler. */
    method OnOpen()
      requires Valid() && hasSocket
      modifies this
      ensures Valid() && State() == Step(old(State()), Opened)
    {
      ready := Open;
      connected := true;
      reconnectAttempts := 0;
    }

    /** The socket's `onclose` handler. */
    method OnClose()
      requires Valid() && hasSocket
      modifies this
      ensures Valid() && State() == Step(old(State()), Closed)
    {
      ready := Closing;
      connected := false;
      AttemptReconnect();
    }

    /** The socket's `onerror` handler. */
    method OnError()
      requires Valid() && hasSocket
      modifies this
      ensures Valid() && State() == Step(old(State()), Errored)
    {
      ready := Closing;
      connected := false;
    }

    method AttemptReconnect()
      requires Valid()
      modifies this
      ensures Valid() && State() == AttemptReconnectStep(old(State()))
    {
      if reconnectAttempts < maxReconnectAttempts {
        reconnectAttempts := reconnectAttempts + 1;
        pendingReconnects := pendingReconnects + 1;
      }
    }

    /** A reconnect timer scheduled by `attemptReconnect` fires and calls `connect`. */
    method OnReconnectTimer(created: bool)
      requires Valid() && pendingReconnects > 0
      modifies this
      ensures Valid() && State() == Step(old(State()), ReconnectTimerFired(created))
    {
      pendingReconnects := pendingReconnects - 1;
      Connect(created);
    }

    /**
     * The socket's `onmessage` handler: `None` is a frame `JSON.parse` rejected. The callback
     * that runs is reported; nothing in the service changes, even when the callback throws.
     */
    method OnMessage(frame: Option<Inbound>) returns (invoked: Option<CallbackId>)
      ensures invoked == Route(subscriptions, frame)
    {
      match frame
      case None =>
        invoked := None;
      case Some(data) =>
        invoked := HandleMessage(data);
    }

    method HandleMessage(data: Inbound) returns (invoked: Option<CallbackId>)
      ensures invoked == Route(subscriptions, Some(data))
    {
      invoked := None;
      if data.kind == "BID_UPDATE" {
        if data.itemId in subscriptions {
          invoked := Some(subscriptions[data.itemId]);
        }
      }
    }

    method OnBidUpdate(itemId: int, callback: CallbackId) returns (threw: bool)
      requires Valid()
      modifies this
      ensures Valid() && State() == Step(old(State()), BidUpdateOn(itemId, callback))
      ensures threw == Throws(old(State()), BidUpdateOn(itemId, callback))
    {
      subscriptions := subscriptions[itemId := callback];
      threw := false;
      if connected {
        threw := Send(Subscribe(AuctionBids(itemId)));
      }
    }

    method OffBidUpdate(itemId: int) returns (threw: bool)
      requires Valid()
      modifies this
      ensures Valid() && State() == Step(old(State()), BidUpdateOff(itemId))
      ensures threw == Throws(old(State()), BidUpdateOff(itemId))
    {
      subscriptions := subscriptions - {itemId};
      threw := false;
      if connected {
        threw := Send(Unsubscribe(AuctionBids(itemId)));
      }
    }

    method JoinAuction(itemId: int) returns (threw: bool)
      requires Valid()
      modifies this
      ensures Valid() && State() == Step(old(State()), Join(itemId))
      ensures threw == Throws(old(State()), Join(itemId))
    {
      threw := false;
      if connected {
        threw := Send(Frame.JoinAuction(itemId));
      }
    }

    method LeaveAuction(itemId: int) returns (threw: bool)
      requires Valid()
      modifies this
      ensures Valid() && State() == Step(old(State()), Leave(itemId))
      ensures threw == Throws(old(State()), Leave(itemId))
    {
      threw := false;
      if connected {
        threw := Send(Frame.LeaveAuction(itemId));
      }
    }

    /** `send`: `threw` is the `InvalidStateError` of a socket that is still connecting. */
    method Send(f: Frame) returns (threw: bool)
      requires Valid()
      modifies this
      ensures Valid() && State() == SendStep(old(State()), f)
      ensures threw == SendThrows(old(State()))
    {
      threw := false;
      if hasSocket && connected {
        if ready == Open {
          outbox := outbox + [f];
        } else if ready == Connecting {
          threw := true;
        }
      }
    }
  }
}
