/** The socket service (src/services/websocket.ts): handler registries,
    connection-state notification, the send guard, and the reconnect
    decision and back-off taken when the socket closes.

    The browser socket is reduced to the events it delivers (open, close
    with a code, error, message); handlers are identified by number; every
    observable side effect of a step is returned as an `Effect`, in order. */
module WebSocket {
  import opened Wrappers
  import opened Strings

  const NormalClosure: int := 1000
  const MaxReconnectAttempts: nat := 10
  const ReconnectDelayMs: nat := 1000
  const MaxReconnectDelayMs: nat := 30000

  datatype ConnState = Connecting | Connected | Disconnected | Error

  /** The `readyState` of the socket object the service holds. */
  datatype ReadyState = SocketConnecting | SocketOpen | SocketClosed

  /** The identity of a handler function. */
  type HandlerId = nat

  datatype Outgoing = Subscribe(topic: string)

  datatype Effect =
    | Notified(handler: HandlerId, state: ConnState)
    | Invoked(handler: HandlerId, messageType: string, threw: bool)
    | Transmitted(message: Outgoing)
    | ReconnectScheduled(delayMs: int)
    | ClosedSocket(code: int)
    | Resolved
    | Rejected

  /** The service's fields. A JavaScript `Set` of handlers iterates in
      insertion order, so each registry is a duplicate-free sequence. */
  datatype Service = Service(
    url: string,
    socket: Option<ReadyState>,
    attempts: nat,
    handlers: map<string, seq<HandlerId>>,
    stateHandlers: seq<HandlerId>,
    state: ConnState)

  datatype Outcome = Outcome(service: Service, effects: seq<Effect>)

  // ----- Construction ------------------------------------------------------------

  /** `url || baseUrl.replace('http', 'ws') + '/live'`: an explicit,
      non-empty url wins; otherwise the first "http" of the base url becomes
      "ws" and "/live" is appended. */
  function ResolveUrl(url: Option<string>, baseUrl: string): (r: string)
    ensures url.Some? && url.value != "" ==> r == url.value
    ensures (url.None? || url.value == "") ==> r == ReplaceFirst(baseUrl, "http", "ws") + "/live"
  {
    if url.Some? && url.value != "" then url.value
    else ReplaceFirst(baseUrl, "http", "ws") + "/live"
  }

  /** A base url starting with "http" (so also "https") gets the "ws"
      (or "wss") scheme; an empty url counts as absent. */
  lemma DefaultUrlForHttpBase(url: Option<string>, rest: string)
    requires url.None? || url.value == ""
    ensures ResolveUrl(url, "http" + rest) == "ws" + rest + "/live"
  {
    var b := "http" + rest;
    assert OccursAt(b, "http", 0) by { assert b[0..4] == "http"; }
    assert b[4..] == rest;
  }

  function NewService(url: Option<string>, baseUrl: string): (r: Service)
    ensures r.socket.None? && r.attempts == 0 && r.state == Disconnected
    ensures r.handlers == map[] && r.stateHandlers == []
    ensures r.url == ResolveUrl(url, baseUrl)
  {
    Service(ResolveUrl(url, baseUrl), None, 0, map[], [], Disconnected)
  }

  // ----- Registries ----------------------------------------------------------------

  predicate NoDuplicates(hs: seq<HandlerId>)
  {
    forall i, j :: 0 <= i < j < |hs| ==> hs[i] != hs[j]
  }

  /** `set.add(h)`: no change when already present. */
  function AddHandler(hs: seq<HandlerId>, h: HandlerId): (r: seq<HandlerId>)
    ensures h in hs ==> r == hs
    ensures h !in hs ==> r == hs + [h]
    ensures NoDuplicates(hs) ==> NoDuplicates(r)
  {
    if h in hs then hs else hs + [h]
  }

  /** `set.delete(h)`: every other handler stays, in order. */
  function RemoveHandler(hs: seq<HandlerId>, h: HandlerId): (r: seq<HandlerId>)
    ensures h !in r
    ensures forall g :: g != h ==> (g in r <==> g in hs)
    ensures |r| <= |hs|
    ensures NoDuplicates(hs) ==> NoDuplicates(r)
  {
    if hs == [] then []
    else if hs[0] == h then RemoveHandler(hs[1..], h)
    else
      var rest := RemoveHandler(hs[1..], h);
      assert NoDuplicates(hs) ==> NoDuplicates(hs[1..]) && hs[0] !in hs[1..] by {
        if NoDuplicates(hs) {
          forall k | 0 <= k < |hs[1..]|
            ensures hs[1..][k] != hs[0]
          {
            assert hs[1..][k] == hs[k + 1];
          }
        }
      }
      [hs[0]] + rest
  }

  lemma {:induction false} RemoveAbsent(hs: seq<HandlerId>, h: HandlerId)
    requires h !in hs
    ensures RemoveHandler(hs, h) == hs
  {
    if hs != [] {
      RemoveAbsent(hs[1..], h);
      assert hs == [hs[0]] + hs[1..];
    }
  }

  /** Deleting a handler keeps every other handler in its registration
      order. */
  lemma {:induction false} RemoveKeepsOrder(a: seq<HandlerId>, h: HandlerId, b: seq<HandlerId>)
    requires h !in a && h !in b
    ensures RemoveHandler(a + [h] + b, h) == a + b
  {
    if a == [] {
      assert ([h] + b)[1..] == b;
      RemoveAbsent(b, h);
    } else {
      assert (a + [h] + b)[1..] == a[1..] + [h] + b;
      RemoveKeepsOrder(a[1..], h, b);
      assert a + b == [a[0]] + (a[1..] + b);
    }
  }

  lemma {:induction false} RemoveAppended(hs: seq<HandlerId>, h: HandlerId)
    requires h !in hs
    ensures RemoveHandler(hs + [h], h) == hs
  {
    if hs == [] {
      assert [h][1..] == [];
    } else {
      assert (hs + [h])[1..] == hs[1..] + [h];
      RemoveAppended(hs[1..], h);
      assert hs == [hs[0]] + hs[1..];
    }
  }

  function HandlersOf(svc: Service, messageType: string): seq<HandlerId>
  {
    if messageType in svc.handlers then svc.handlers[messageType] else []
  }

  /** `on(type, h)`: h joins the registry of `type` only. */
  function On(svc: Service, messageType: string, h: HandlerId): (r: Service)
    ensures h in HandlersOf(r, messageType)
    ensures HandlersOf(r, messageType) == AddHandler(HandlersOf(svc, messageType), h)
    ensures forall t :: t != messageType ==> HandlersOf(r, t) == HandlersOf(svc, t)
    ensures r.stateHandlers == svc.stateHandlers && r.state == svc.state && r.socket == svc.socket
  {
    svc.(handlers := svc.handlers[messageType := AddHandler(HandlersOf(svc, messageType), h)])
  }

  /** The cleanup function returned by `on(type, h)`: removes exactly h from
      the registry of `type`. */
  function Off(svc: Service, messageType: string, h: HandlerId): (r: Service)
    ensures h !in HandlersOf(r, messageType)
    ensures HandlersOf(r, messageType) == RemoveHandler(HandlersOf(svc, messageType), h)
    ensures forall t :: t != messageType ==> HandlersOf(r, t) == HandlersOf(svc, t)
    ensures r.stateHandlers == svc.stateHandlers && r.state == svc.state && r.socket == svc.socket
  {
    if messageType in svc.handlers then
      svc.(handlers := svc.handlers[messageType := RemoveHandler(svc.handlers[messageType], h)])
    else svc
  }

  /** Registering a new handler and then calling its cleanup restores every
      registry as it was. */
  lemma OnThenOffRestores(svc: Service, messageType: string, h: HandlerId, t: string)
    requires h !in HandlersOf(svc, messageType)
    ensures HandlersOf(Off(On(svc, messageType, h), messageType, h), t) == HandlersOf(svc, t)
  {
    if t == messageType {
      RemoveAppended(HandlersOf(svc, messageType), h);
    }
  }

  function OnConnectionStateChange(svc: Service, h: HandlerId): (r: Service)
    ensures r.stateHandlers == AddHandler(svc.stateHandlers, h)
    ensures r.handlers == svc.handlers && r.state == svc.state
  {
    svc.(stateHandlers := AddHandler(svc.stateHandlers, h))
  }

  function OffConnectionStateChange(svc: Service, h: HandlerId): (r: Service)
    ensures h !in r.stateHandlers
    ensures r.stateHandlers == RemoveHandler(svc.stateHandlers, h)
    ensures r.handlers == svc.handlers && r.state == svc.state
  {
    svc.(stateHandlers := RemoveHandler(svc.stateHandlers, h))
  }

  // ----- Dispatch and state notification -------------------------------------------

  /** `handleMessage`: every handler registered for the type is invoked, in
      registration order; one that throws is caught and the rest still run. */
  function HandleMessage(svc: Service, messageType: string, throwing: set<HandlerId>): (r: seq<Effect>)
    ensures |r| == |HandlersOf(svc, messageType)|
    ensures forall i :: 0 <= i < |r| ==>
      r[i] == Invoked(HandlersOf(svc, messageType)[i], messageType, HandlersOf(svc, messageType)[i] in throwing)
  {
    var hs := HandlersOf(svc, messageType);
    seq(|hs|, i requires 0 <= i < |hs| => Invoked(hs[i], messageType, hs[i] in throwing))
  }

  /** A handler is invoked for a message exactly when it is registered for
      the message's type; an unregistered type reaches nobody. */
  lemma HandleMessageReachesExactlyRegistered(svc: Service, messageType: string, throwing: set<HandlerId>, h: HandlerId)
    ensures (exists i :: 0 <= i < |HandleMessage(svc, messageType, throwing)| && HandleMessage(svc, messageType, throwing)[i].handler == h)
        <==> h in HandlersOf(svc, messageType)
    ensures messageType !in svc.handlers ==> HandleMessage(svc, messageType, throwing) == []
  {
    var r := HandleMessage(svc, messageType, throwing);
    var hs := HandlersOf(svc, messageType);
    if h in hs {
      var i :| 0 <= i < |hs| && hs[i] == h;
      assert r[i].handler == h;
    }
  }

  /** `setState`: the state is recorded and every state handler is told, in
      registration order. */
  function SetState(svc: Service, st: ConnState): (r: Outcome)
    ensures r.service == svc.(state := st)
    ensures |r.effects| == |svc.stateHandlers|
    ensures forall i :: 0 <= i < |r.effects| ==> r.effects[i] == Notified(svc.stateHandlers[i], st)
  {
    Outcome(svc.(state := st),
      seq(|svc.stateHandlers|, i requires 0 <= i < |svc.stateHandlers| => Notified(svc.stateHandlers[i], st)))
  }

  /** `getConnectionState()` after `setState(st)` is `st`. */
  lemma SetStateObserved(svc: Service, st: ConnState, h: HandlerId)
    ensures SetState(svc, st).service.state == st
    ensures h in svc.stateHandlers ==> Notified(h, st) in SetState(svc, st).effects
  {
    if h in svc.stateHandlers {
      var i :| 0 <= i < |svc.stateHandlers| && svc.stateHandlers[i] == h;
      assert SetState(svc, st).effects[i] == Notified(h, st);
    }
  }

  // ----- Socket life cycle ------------------------------------------------------------

  /** `send`: transmitted only through an open socket, otherwise dropped. */
  function Send(svc: Service, message: Outgoing): (r: seq<Effect>)
    ensures svc.socket == Some(SocketOpen) ==> r == [Transmitted(message)]
    ensures svc.socket != Some(SocketOpen) ==> r == []
  {
    if svc.socket == Some(SocketOpen) then [Transmitted(message)] else []
  }

  /** `connect()`: state becomes connecting and a new socket is created;
      `created` is false when the socket constructor throws, which turns the
      state to error and rejects. */
  function Connect(svc: Service, created: bool): (r: Outcome)
    ensures created ==> r.service.state == Connecting && r.service.socket == Some(SocketConnecting)
    ensures !created ==> r.service.state == Error && r.service.socket == svc.socket && |r.effects| >= 1 && r.effects[|r.effects| - 1] == Rejected
    ensures r.service.attempts == svc.attempts
    ensures r.service.handlers == svc.handlers && r.service.stateHandlers == svc.stateHandlers
  {
    var connecting := SetState(svc, Connecting);
    if created then Outcome(connecting.service.(socket := Some(SocketConnecting)), connecting.effects)
    else
      var failed := SetState(connecting.service, Error);
      Outcome(failed.service, connecting.effects + failed.effects + [Rejected])
  }

  const TransfersTopic: string := "transfers"
  const AccountCreationsTopic: string := "account_creations"

  /** `onopen`: connected, attempts reset, both topics subscribed, then the
      connect promise resolves. */
  function OnOpen(svc: Service): (r: Outcome)
    ensures r.service.state == Connected && r.service.attempts == 0
    ensures |r.effects| >= |svc.stateHandlers| + 1 && r.effects[|r.effects| - 1] == Resolved
    ensures forall i :: 0 <= i < |svc.stateHandlers| ==> r.effects[i] == Notified(svc.stateHandlers[i], Connected)
    ensures svc.socket.Some? ==>
      r.effects[|svc.stateHandlers|..] == [Transmitted(Subscribe(TransfersTopic)), Transmitted(Subscribe(AccountCreationsTopic)), Resolved]
    ensures svc.socket.None? ==> r.effects[|svc.stateHandlers|..] == [Resolved]
    ensures r.service.handlers == svc.handlers && r.service.stateHandlers == svc.stateHandlers
  {
    var notified := SetState(svc, Connected);
    var live := notified.service.(attempts := 0, socket := if svc.socket.Some? then Some(SocketOpen) else None);
    var sends := Send(live, Subscribe(TransfersTopic)) + Send(live, Subscribe(AccountCreationsTopic));
    Outcome(live, notified.effects + sends + [Resolved])
  }

  /** The reconnect delay for a given attempt number, capped at 30 s. */
  function ReconnectDelay(attempts: nat): int
  {
    if ReconnectDelayMs * attempts <= MaxReconnectDelayMs then ReconnectDelayMs * attempts else MaxReconnectDelayMs
  }

  /** With at most ten attempts the delay never reaches the 30 s cap: it
      lies between one and ten seconds and grows linearly. */
  lemma ReconnectDelayBounds(attempts: nat)
    requires 1 <= attempts <= MaxReconnectAttempts
    ensures 1000 <= ReconnectDelay(attempts) <= 10000
    ensures ReconnectDelay(attempts) == 1000 * attempts
  {
  }

  /** `onclose`: the socket is dropped and the state becomes disconnected;
      a reconnect is scheduled exactly when the close was not normal and
      fewer than ten attempts were made, and then the attempt counter grows
      by one. */
  function OnClose(svc: Service, code: int): (r: Outcome)
    ensures r.service.socket.None? && r.service.state == Disconnected
    ensures code != NormalClosure && svc.attempts < MaxReconnectAttempts ==>
      && r.service.attempts == svc.attempts + 1
      && |r.effects| >= 1
      && r.effects[|r.effects| - 1] == ReconnectScheduled(ReconnectDelay(svc.attempts + 1))
    ensures code == NormalClosure || svc.attempts >= MaxReconnectAttempts ==>
      && r.service.attempts == svc.attempts
      && forall i :: 0 <= i < |r.effects| ==> !r.effects[i].ReconnectScheduled?
    ensures svc.attempts <= MaxReconnectAttempts ==> r.service.attempts <= MaxReconnectAttempts
    ensures r.service.handlers == svc.handlers && r.service.stateHandlers == svc.stateHandlers
  {
    var notified := SetState(svc.(socket := None), Disconnected);
    if code != NormalClosure && svc.attempts < MaxReconnectAttempts then
      var attempts := svc.attempts + 1;
      Outcome(notified.service.(attempts := attempts), notified.effects + [ReconnectScheduled(ReconnectDelay(attempts))])
    else notified
  }

  /** `onerror`: the state becomes error and `reject` is called, which
      settles the connect promise only if `onopen` has not resolved it yet
      (see `ErrorAfterOpenStaysResolved`); the browser has by then marked
      the socket closed. Both handler registries are left alone. */
  function OnError(svc: Service): (r: Outcome)
    ensures r.service.state == Error && |r.effects| >= 1 && r.effects[|r.effects| - 1] == Rejected
    ensures r.service.attempts == svc.attempts
    ensures svc.socket.Some? ==> r.service.socket == Some(SocketClosed)
    ensures svc.socket.None? ==> r.service.socket.None?
    ensures r.service.handlers == svc.handlers && r.service.stateHandlers == svc.stateHandlers
  {
    var notified := SetState(svc, Error);
    Outcome(notified.service.(socket := if svc.socket.Some? then Some(SocketClosed) else None),
      notified.effects + [Rejected])
  }

  /** `disconnect()`: closes a held socket with the normal code and drops
      it; without a socket nothing happens. */
  function Disconnect(svc: Service): (r: Outcome)
    ensures r.service.socket.None?
    ensures svc.socket.Some? ==> r.effects == [ClosedSocket(NormalClosure)]
    ensures svc.socket.None? ==> r.effects == [] && r.service == svc
    ensures r.service.attempts == svc.attempts && r.service.state == svc.state
    ensures r.service.handlers == svc.handlers && r.service.stateHandlers == svc.stateHandlers
  {
    if svc.socket.Some? then Outcome(svc.(socket := None), [ClosedSocket(NormalClosure)])
    else Outcome(svc, [])
  }

  /** After a manual disconnect, the close event the browser then delivers
      decides alone whether a reconnect follows: none exactly when it carries
      the normal code or the attempts are used up. An open socket reports the
      code 1000 it was closed with; a socket closed while still connecting
      reports an abnormal code, and the service then reconnects. */
  lemma DisconnectNeverReconnects(svc: Service, code: int)
    ensures var closed := OnClose(Disconnect(svc).service, code);
      && ((exists i :: 0 <= i < |closed.effects| && closed.effects[i].ReconnectScheduled?)
          <==> code != NormalClosure && svc.attempts < MaxReconnectAttempts)
      && (code == NormalClosure ==> closed.service.attempts == svc.attempts)
  {
    var closed := OnClose(Disconnect(svc).service, code);
    if code != NormalClosure && svc.attempts < MaxReconnectAttempts {
      assert closed.effects[|closed.effects| - 1].ReconnectScheduled?;
    }
  }

  // ----- The connect promise ---------------------------------------------------

  /** A promise takes the first `resolve` or `reject` call made on it;
      every later call is ignored. */
  function FirstSettlement(effects: seq<Effect>): (r: Option<Effect>)
    ensures r.None? <==> Resolved !in effects && Rejected !in effects
    ensures r.Some? ==> (r.value == Resolved || r.value == Rejected) && r.value in effects
  {
    if effects == [] then None
    else if effects[0] == Resolved || effects[0] == Rejected then Some(effects[0])
    else FirstSettlement(effects[1..])
  }

  /** Once settled, a promise keeps its outcome whatever is called later. */
  lemma {:induction false} SettlementIsFinal(a: seq<Effect>, b: seq<Effect>)
    requires FirstSettlement(a).Some?
    ensures FirstSettlement(a + b) == FirstSettlement(a)
  {
    if a[0] == Resolved || a[0] == Rejected {
      assert (a + b)[0] == a[0];
    } else {
      assert (a + b)[1..] == a[1..] + b;
      SettlementIsFinal(a[1..], b);
    }
  }

  /** An error on a socket that has already opened calls `reject` in vain:
      the promise of that `connect()` stays resolved. */
  lemma ErrorAfterOpenStaysResolved(svc: Service)
    ensures var afterOpen := OnOpen(svc);
      FirstSettlement(afterOpen.effects + OnError(afterOpen.service).effects) == Some(Resolved)
  {
    var afterOpen := OnOpen(svc);
    var k := |svc.stateHandlers|;
    assert FirstSettlement(afterOpen.effects[..k]) == None by {
      forall i | 0 <= i < k ensures afterOpen.effects[..k][i].Notified? { }
    }
    assert FirstSettlement(afterOpen.effects[k..]) == Some(Resolved);
    FirstSettlementSplit(afterOpen.effects, k);
    SettlementIsFinal(afterOpen.effects, OnError(afterOpen.service).effects);
  }

  /** An error before the socket opens rejects the promise. */
  lemma ErrorBeforeOpenRejects(svc: Service)
    ensures var connecting := Connect(svc, true);
      FirstSettlement(connecting.effects + OnError(connecting.service).effects) == Some(Rejected)
  {
    var connecting := Connect(svc, true);
    var failed := OnError(connecting.service);
    assert forall i :: 0 <= i < |connecting.effects| ==> connecting.effects[i].Notified?;
    assert forall i :: 0 <= i < |failed.effects| - 1 ==> failed.effects[i].Notified?;
    var all := connecting.effects + failed.effects;
    assert forall i :: 0 <= i < |all| - 1 ==> all[i].Notified?;
    assert all[|all| - 1] == Rejected;
    FirstSettlementSplit(all, |all| - 1);
    assert all[|all| - 1..] == [Rejected];
  }

  /** Settlement of a split sequence: the left part, unless it settles
      nothing. */
  lemma {:induction false} FirstSettlementSplit(effects: seq<Effect>, k: nat)
    requires k <= |effects|
    ensures FirstSettlement(effects) ==
      if FirstSettlement(effects[..k]).Some? then FirstSettlement(effects[..k]) else FirstSettlement(effects[k..])
  {
    if k > 0 {
      assert effects[..k][1..] == effects[1..][..k - 1];
      assert effects[1..][k - 1..] == effects[k..];
      FirstSettlementSplit(effects[1..], k - 1);
    } else {
      assert effects[k..] == effects;
    }
  }

  // ----- Runs ----------------------------------------------------------------------------

  /** The events the browser and the application deliver to the service. */
  datatype SocketEvent =
    | ConnectCall(created: bool)
    | Opened
    | Closed(code: int)
    | Errored
    | Message(messageType: Option<string>, throwing: set<HandlerId>)
    | DisconnectCall
    | SendCall(message: Outgoing)

  function Handle(svc: Service, ev: SocketEvent): Outcome
  {
    match ev
    case ConnectCall(created) => Connect(svc, created)
    case Opened => OnOpen(svc)
    case Closed(code) => OnClose(svc, code)
    case Errored => OnError(svc)
    case Message(t, throwing) =>
      // A payload that is not valid JSON is logged and dropped.
      if t.Some? then Outcome(svc, HandleMessage(svc, t.value, throwing)) else Outcome(svc, [])
    case DisconnectCall => Disconnect(svc)
    case SendCall(m) => Outcome(svc, Send(svc, m))
  }

  function Replay(svc: Service, events: seq<SocketEvent>): Service
    decreases |events|
  {
    if events == [] then svc else Replay(Handle(svc, events[0]).service, events[1..])
  }

  /** Whatever the browser does, the attempt counter never exceeds ten, so
      at most ten reconnects follow one another without a successful open. */
  lemma {:induction false} AttemptsStayBounded(svc: Service, events: seq<SocketEvent>)
    requires svc.attempts <= MaxReconnectAttempts
    ensures Replay(svc, events).attempts <= MaxReconnectAttempts
    decreases |events|
  {
    if events != [] {
      AttemptsStayBounded(Handle(svc, events[0]).service, events[1..]);
    }
  }

  /** No life-cycle event touches the registries: handlers registered once
      keep receiving messages across errors, closes and reconnects. */
  lemma {:induction false} ReplayKeepsRegistries(svc: Service, events: seq<SocketEvent>)
    ensures Replay(svc, events).handlers == svc.handlers
    ensures Replay(svc, events).stateHandlers == svc.stateHandlers
    decreases |events|
  {
    if events != [] {
      ReplayKeepsRegistries(Handle(svc, events[0]).service, events[1..]);
    }
  }

  /** Once ten attempts have been made, an abnormal close schedules no
      further reconnect and leaves the counter at ten. */
  lemma TenthAttemptIsLast(svc: Service, code: int)
    requires svc.attempts == MaxReconnectAttempts && code != NormalClosure
    ensures OnClose(svc, code).service.attempts == MaxReconnectAttempts
    ensures forall i :: 0 <= i < |OnClose(svc, code).effects| ==> !OnClose(svc, code).effects[i].ReconnectScheduled?
  {
  }
}
