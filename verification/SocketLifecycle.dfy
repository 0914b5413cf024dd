/** The WebSocket client: one socket at a time, a three-second reconnect timer, and a
    shutdown after which nothing runs.  The browser's sockets and timers are part of
    the state; what it may do is given by `Enabled`. */
module SocketLifecycle {
  import opened Options

  datatype Phase = Connecting | Open | Closing | Closed

  /** A browser socket and whether its close handler still schedules a reconnect. */
  datatype Socket = Socket(phase: Phase, reconnects: bool)

  datatype Message = AuthAck | Data(kind: string, payload: string)

  /** What the client does to the outside, in order. */
  datatype Effect =
    | SentAuth(socket: nat)
    | SendFailed
    | Authenticated
    | ReconnectRound(callbacks: set<nat>)
    | Dispatched(message: Message, handlers: set<nat>, anyHandlers: set<nat>)

  datatype State = State(
    ws: Option<nat>, reconnectTimer: Option<nat>, hasConnectedBefore: bool, needsToken: bool,
    handlers: map<string, set<nat>>, anyHandlers: set<nat>, onReconnect: set<nat>,
    sockets: map<nat, Socket>, timers: set<nat>, nextId: nat, log: seq<Effect>)

  datatype Event =
    | Connects
    | Opens(socket: nat)
    | Receives(socket: nat, message: Message)
    | Fades(socket: nat)
    | Closes(socket: nat)
    | Fires(timer: nat)
    | Disconnects
    | Registers(kind: string, handler: nat)
    | RegistersAny(handler: nat)
    | RegistersReconnect(callback: nat)
    | Unregisters(kind: string, handler: nat)
    | UnregistersAny(handler: nat)
    | UnregistersReconnect(callback: nat)

  /** The owner connects when there is no connection: at first, and again after disconnecting.  A
      browser's socket opens only while connecting, receives only while open, and closes once; a timer
      fires only while pending. */
  predicate Enabled(s: State, e: Event) {
    match e
    case Connects => s.ws.None?
    case Opens(id) => id in s.sockets && s.sockets[id].phase == Connecting
    case Receives(id, _) => id in s.sockets && s.sockets[id].phase == Open
    case Fades(id) => id in s.sockets && s.sockets[id].phase != Closed
    case Closes(id) => id in s.sockets && s.sockets[id].phase != Closed
    case Fires(t) => t in s.timers
    case _ => true
  }

  function WithPhase(sockets: map<nat, Socket>, id: nat, phase: Phase): map<nat, Socket>
    requires id in sockets
  {
    sockets[id := sockets[id].(phase := phase)]
  }

  function Connected(s: State): State {
    s.(ws := Some(s.nextId), sockets := s.sockets[s.nextId := Socket(Connecting, true)], nextId := s.nextId + 1)
  }

  function OnAuthenticated(s: State): State {
    s.(log := s.log + [Authenticated] + (if s.hasConnectedBefore then [ReconnectRound(s.onReconnect)] else []),
       hasConnectedBefore := true)
  }

  function HandlersOf(s: State, kind: string): set<nat> {
    if kind in s.handlers then s.handlers[kind] else {}
  }

  function Disconnected(s: State): State {
    s.(timers := if s.reconnectTimer.Some? then s.timers - {s.reconnectTimer.value} else s.timers,
       reconnectTimer := None,
       sockets := if s.ws.Some? && s.ws.value in s.sockets
                  then s.sockets[s.ws.value := Socket(if s.sockets[s.ws.value].phase == Closed then Closed else Closing, false)]
                  else s.sockets,
       ws := None, hasConnectedBefore := false, handlers := map[], anyHandlers := {}, onReconnect := {})
  }

  function Step(s: State, e: Event): State
    requires Enabled(s, e)
  {
    match e
    case Connects => Connected(s)
    case Opens(id) =>
      var nowOpen := s.(sockets := WithPhase(s.sockets, id, Open));
      if s.needsToken
      then nowOpen.(log := s.log + [if s.ws.Some? then SentAuth(s.ws.value) else SendFailed])
      else OnAuthenticated(nowOpen)
    case Receives(_, m) =>
      if m.AuthAck? then OnAuthenticated(s)
      else s.(log := s.log + [Dispatched(m, HandlersOf(s, m.kind), s.anyHandlers)])
    case Fades(id) => s.(sockets := WithPhase(s.sockets, id, Closing))
    case Closes(id) =>
      var closed := s.(sockets := WithPhase(s.sockets, id, Closed));
      if s.sockets[id].reconnects
      then closed.(reconnectTimer := Some(s.nextId), timers := s.timers + {s.nextId}, nextId := s.nextId + 1)
      else closed
    case Fires(t) => Connected(s.(timers := s.timers - {t}))
    case Disconnects => Disconnected(s)
    case Registers(kind, h) => s.(handlers := s.handlers[kind := HandlersOf(s, kind) + {h}])
    case RegistersAny(h) => s.(anyHandlers := s.anyHandlers + {h})
    case RegistersReconnect(cb) => s.(onReconnect := s.onReconnect + {cb})
    case Unregisters(kind, h) =>
      if kind in s.handlers then s.(handlers := s.handlers[kind := s.handlers[kind] - {h}]) else s
    case UnregistersAny(h) => s.(anyHandlers := s.anyHandlers - {h})
    case UnregistersReconnect(cb) => s.(onReconnect := s.onReconnect - {cb})
  }

  /* ---- The client ---- */

  class WSClient {
    const needsToken: bool
    var ws: Option<nat>
    var reconnectTimer: Option<nat>
    var hasConnectedBefore: bool
    var handlers: map<string, set<nat>>
    var anyHandlers: set<nat>
    var onReconnectCallbacks: set<nat>
    // What the browser holds for the client.
    var sockets: map<nat, Socket>
    var timers: set<nat>
    var nextId: nat
    var log: seq<Effect>

    function Now(): State
      reads this
    {
      State(ws, reconnectTimer, hasConnectedBefore, needsToken, handlers, anyHandlers, onReconnectCallbacks,
            sockets, timers, nextId, log)
    }

    /** `needsToken`: token mode with a token set, as opposed to cookie mode. */
    constructor (needsToken: bool)
      ensures Now() == Initial(needsToken)
    {
      this.needsToken := needsToken;
      ws, reconnectTimer, hasConnectedBefore := None, None, false;
      handlers, anyHandlers, onReconnectCallbacks := map[], {}, {};
      sockets, timers, nextId, log := map[], {}, 0, [];
    }

    method Connect()
      modifies this
      ensures Now() == Connected(old(Now()))
    {
      ws := Some(nextId);
      sockets := sockets[nextId := Socket(Connecting, true)];
      nextId := nextId + 1;
    }

    method OnOpen(id: nat)
      requires Enabled(Now(), Opens(id))
      modifies this
      ensures Now() == Step(old(Now()), Opens(id))
    {
      sockets := WithPhase(sockets, id, Open);
      if needsToken {
        log := log + [if ws.Some? then SentAuth(ws.value) else SendFailed];
        return;
      }
      Authenticate();
    }

    method OnMessage(id: nat, m: Message)
      requires Enabled(Now(), Receives(id, m))
      modifies this
      ensures Now() == Step(old(Now()), Receives(id, m))
    {
      if m.AuthAck? {
        Authenticate();
        return;
      }
      var eventHandlers := if m.kind in handlers then handlers[m.kind] else {};
      log := log + [Dispatched(m, eventHandlers, anyHandlers)];
    }

    method OnClose(id: nat)
      requires Enabled(Now(), Closes(id))
      modifies this
      ensures Now() == Step(old(Now()), Closes(id))
    {
      var reconnects := sockets[id].reconnects;
      sockets := WithPhase(sockets, id, Closed);
      if reconnects {
        reconnectTimer := Some(nextId);
        timers := timers + {nextId};
        nextId := nextId + 1;
      }
    }

    method OnTimer(t: nat)
      requires Enabled(Now(), Fires(t))
      modifies this
      ensures Now() == Step(old(Now()), Fires(t))
    {
      timers := timers - {t};
      Connect();
    }

    method Authenticate()
      modifies this
      ensures Now() == OnAuthenticated(old(Now()))
    {
      log := log + [Authenticated];
      if hasConnectedBefore {
        log := log + [ReconnectRound(onReconnectCallbacks)];
      }
      hasConnectedBefore := true;
    }

    method Disconnect()
      modifies this
      ensures Now() == Disconnected(old(Now()))
    {
      if reconnectTimer.Some? {
        timers := timers - {reconnectTimer.value};
        reconnectTimer := None;
      }
      if ws.Some? {
        if ws.value in sockets {
          sockets := sockets[ws.value := sockets[ws.value].(reconnects := false)];
          if sockets[ws.value].phase != Closed {
            sockets := WithPhase(sockets, ws.value, Closing);
          }
        }
        ws := None;
      }
      hasConnectedBefore := false;
      handlers, anyHandlers, onReconnectCallbacks := map[], {}, {};
    }

    method On(kind: string, h: nat)
      modifies this`handlers
      ensures Now() == Step(old(Now()), Registers(kind, h))
    {
      if kind !in handlers { handlers := handlers[kind := {}]; }
      handlers := handlers[kind := handlers[kind] + {h}];
    }

    method OnAny(h: nat)
      modifies this`anyHandlers
      ensures Now() == Step(old(Now()), RegistersAny(h))
    {
      anyHandlers := anyHandlers + {h};
    }

    method OffAny(h: nat)
      modifies this`anyHandlers
      ensures Now() == Step(old(Now()), UnregistersAny(h))
    {
      anyHandlers := anyHandlers - {h};
    }

    method OffReconnect(callback: nat)
      modifies this`onReconnectCallbacks
      ensures Now() == Step(old(Now()), UnregistersReconnect(callback))
    {
      onReconnectCallbacks := onReconnectCallbacks - {callback};
    }

    method OnReconnect(callback: nat)
      modifies this`onReconnectCallbacks
      ensures Now() == Step(old(Now()), RegistersReconnect(callback))
    {
      onReconnectCallbacks := onReconnectCallbacks + {callback};
    }

    method Off(kind: string, h: nat)
      modifies this`handlers
      ensures Now() == Step(old(Now()), Unregisters(kind, h))
    {
      if kind in handlers { handlers := handlers[kind := handlers[kind] - {h}]; }
    }
  }

  function Initial(needsToken: bool): State {
    State(None, None, false, needsToken, map[], {}, {}, map[], {}, 0, [])
  }

  /* ---- Runs ---- */

  ghost predicate Possible(s: State, es: seq<Event>)
    decreases |es|, 0
  {
    |es| == 0 || (Possible(s, es[..|es| - 1]) && Enabled(Run(s, es[..|es| - 1]), es[|es| - 1]))
  }

  ghost function Run(s: State, es: seq<Event>): State
    requires Possible(s, es)
    decreases |es|, 1
  {
    if |es| == 0 then s else Step(Run(s, es[..|es| - 1]), es[|es| - 1])
  }

  /** A socket that is not closed and whose close would schedule a reconnect. */
  ghost predicate Alive(s: State, id: nat) {
    id in s.sockets && s.sockets[id].phase != Closed && s.sockets[id].reconnects
  }

  /** A socket that may neither open nor receive nor reconnect. */
  ghost predicate Retired(s: State, id: nat)
    requires id in s.sockets
  {
    s.sockets[id].phase == Closed || (s.sockets[id].phase == Closing && !s.sockets[id].reconnects)
  }

  /** Between connecting and disconnecting there is exactly one of: the current socket,
      alive, or a pending reconnect timer, which is the remembered one.  Every other socket is retired. */
  ghost predicate Live(s: State) {
    && s.ws.Some? && s.ws.value in s.sockets
    && (forall id :: id in s.sockets ==> id < s.nextId)
    && (forall t :: t in s.timers ==> t < s.nextId)
    && (forall id :: id in s.sockets && id != s.ws.value ==> Retired(s, id))
    && (|| (Alive(s, s.ws.value) && s.timers == {})
        || (s.sockets[s.ws.value].phase == Closed && s.reconnectTimer.Some? && s.timers == {s.reconnectTimer.value}))
  }

  /** Nothing is left that could run: no pending timer and only retired sockets. */
  ghost predicate Quiet(s: State) {
    && s.timers == {}
    && forall id :: id in s.sockets ==> id < s.nextId && Retired(s, id)
  }

  ghost predicate LiveOrQuiet(s: State) {
    if s.ws.Some? then Live(s) else Quiet(s)
  }

  ghost predicate Ongoing(es: seq<Event>) {
    forall e :: e in es ==> !e.Disconnects?
  }

  lemma LivePhase(s: State, id: nat, phase: Phase)
    requires Live(s) && id in s.sockets && s.sockets[id].phase != Closed
    requires phase == Closing || (phase == Open && s.sockets[id].phase == Connecting)
    ensures Live(s.(sockets := WithPhase(s.sockets, id, phase)))
  {
  }

  lemma LiveClose(s: State, id: nat)
    requires Live(s) && Enabled(s, Closes(id))
    ensures Live(Step(s, Closes(id)))
  {
  }

  lemma LiveTimer(s: State, t: nat)
    requires Live(s) && Enabled(s, Fires(t))
    ensures Live(Step(s, Fires(t)))
  {
  }

  /** What the invariant speaks about. */
  ghost predicate SameSockets(s: State, s': State) {
    s'.ws == s.ws && s'.reconnectTimer == s.reconnectTimer && s'.sockets == s.sockets && s'.timers == s.timers && s'.nextId == s.nextId
  }

  lemma LiveKept(s: State, s': State)
    requires Live(s) && SameSockets(s, s')
    ensures Live(s')
  {
  }

  lemma LiveStep(s: State, e: Event)
    requires Live(s) && Enabled(s, e) && !e.Disconnects?
    ensures Live(Step(s, e))
  {
    if e.Opens? {
      LivePhase(s, e.socket, Open);
      LiveKept(s.(sockets := WithPhase(s.sockets, e.socket, Open)), Step(s, e));
    } else if e.Fades? {
      LivePhase(s, e.socket, Closing);
    } else if e.Closes? {
      LiveClose(s, e.socket);
    } else if e.Fires? {
      LiveTimer(s, e.timer);
    } else {
      LiveKept(s, Step(s, e));
    }
  }

  lemma QuietStep(s: State, e: Event)
    requires Quiet(s) && Enabled(s, e) && !e.Connects?
    ensures Quiet(Step(s, e)) && Step(s, e).log == s.log
    ensures s.ws.None? ==> Step(s, e).ws.None?
  {
  }

  lemma ConnectIsLive(s: State)
    requires Quiet(s)
    ensures Live(Connected(s))
  {
  }

  lemma DisconnectIsQuiet(s: State)
    requires LiveOrQuiet(s)
    ensures Quiet(Disconnected(s)) && Disconnected(s).ws.None? && Disconnected(s).log == s.log
  {
  }

  lemma LiveOrQuietStep(s: State, e: Event)
    requires LiveOrQuiet(s) && Enabled(s, e)
    ensures LiveOrQuiet(Step(s, e))
  {
    if e.Disconnects? {
      DisconnectIsQuiet(s);
    } else if s.ws.Some? {
      LiveStep(s, e);
    } else if e.Connects? {
      ConnectIsLive(s);
    } else {
      QuietStep(s, e);
    }
  }

  /** In every run, through any number of connections: while connected there is exactly one of a live
      current socket and a pending timer, otherwise nothing that could run. */
  lemma {:induction false} LiveRun(needsToken: bool, es: seq<Event>)
    requires Possible(Initial(needsToken), es)
    ensures LiveOrQuiet(Run(Initial(needsToken), es))
  {
    if |es| == 0 {
    } else {
      LiveRun(needsToken, es[..|es| - 1]);
      LiveOrQuietStep(Run(Initial(needsToken), es[..|es| - 1]), es[|es| - 1]);
    }
  }

  /** At most one socket is alive or timer pending, and a socket that may still open is the
      current one: the token goes out on the socket that opened. */
  lemma OneAtATime(s: State, id: nat, other: nat)
    requires LiveOrQuiet(s)
    ensures Alive(s, id) && Alive(s, other) ==> id == other
    ensures Alive(s, id) ==> s.timers == {}
    ensures id in s.timers && other in s.timers ==> id == other
    ensures Enabled(s, Opens(id)) ==> s.ws == Some(id)
    ensures Enabled(s, Opens(id)) && s.needsToken ==> Step(s, Opens(id)).log == s.log + [SentAuth(id)]
  {
  }

  /* ---- What runs, read off the history ---- */

  /** The handler was registered for this kind of event and neither unregistered nor disconnected since. */
  ghost predicate Registered(es: seq<Event>, kind: string, h: nat) {
    |es| > 0
    && match es[|es| - 1]
       case Registers(k, x) => (k == kind && x == h) || Registered(es[..|es| - 1], kind, h)
       case Unregisters(k, x) => !(k == kind && x == h) && Registered(es[..|es| - 1], kind, h)
       case Disconnects => false
       case _ => Registered(es[..|es| - 1], kind, h)
  }

  ghost predicate RegisteredAny(es: seq<Event>, h: nat) {
    |es| > 0
    && match es[|es| - 1]
       case RegistersAny(x) => x == h || RegisteredAny(es[..|es| - 1], h)
       case UnregistersAny(x) => x != h && RegisteredAny(es[..|es| - 1], h)
       case Disconnects => false
       case _ => RegisteredAny(es[..|es| - 1], h)
  }

  ghost predicate RegisteredReconnect(es: seq<Event>, cb: nat) {
    |es| > 0
    && match es[|es| - 1]
       case RegistersReconnect(x) => x == cb || RegisteredReconnect(es[..|es| - 1], cb)
       case UnregistersReconnect(x) => x != cb && RegisteredReconnect(es[..|es| - 1], cb)
       case Disconnects => false
       case _ => RegisteredReconnect(es[..|es| - 1], cb)
  }

  /** Without a token opening authenticates, with one the server's acknowledgement does. */
  predicate Authenticates(needsToken: bool, e: Event) {
    (e.Opens? && !needsToken) || (e.Receives? && e.message.AuthAck?)
  }

  /** An earlier authentication since the last disconnect. */
  ghost predicate AuthenticatedBefore(needsToken: bool, es: seq<Event>) {
    |es| > 0 && !es[|es| - 1].Disconnects?
    && (Authenticates(needsToken, es[|es| - 1]) || AuthenticatedBefore(needsToken, es[..|es| - 1]))
  }

  lemma HandlersStep(s: State, e: Event, kind: string, h: nat)
    requires Enabled(s, e)
    ensures h in HandlersOf(Step(s, e), kind)
       <==> !e.Disconnects? && (e == Registers(kind, h) || (h in HandlersOf(s, kind) && e != Unregisters(kind, h)))
    ensures h in Step(s, e).anyHandlers
       <==> !e.Disconnects? && (e == RegistersAny(h) || (h in s.anyHandlers && e != UnregistersAny(h)))
    ensures h in Step(s, e).onReconnect
       <==> !e.Disconnects? && (e == RegistersReconnect(h) || (h in s.onReconnect && e != UnregistersReconnect(h)))
  {
  }

  lemma ConnectedBeforeStep(s: State, e: Event)
    requires Enabled(s, e)
    ensures Step(s, e).needsToken == s.needsToken
    ensures Step(s, e).hasConnectedBefore <==> !e.Disconnects? && (s.hasConnectedBefore || Authenticates(s.needsToken, e))
  {
  }

  /** In every run the registrations the client holds are those the history says. */
  lemma {:induction false} HandlersFollowHistory(needsToken: bool, es: seq<Event>, kind: string, h: nat)
    requires Possible(Initial(needsToken), es)
    ensures var s := Run(Initial(needsToken), es);
            && (h in HandlersOf(s, kind) <==> Registered(es, kind, h))
            && (h in s.anyHandlers <==> RegisteredAny(es, h))
            && (h in s.onReconnect <==> RegisteredReconnect(es, h))
  {
    if |es| == 0 {
    } else {
      HandlersFollowHistory(needsToken, es[..|es| - 1], kind, h);
      HandlersStep(Run(Initial(needsToken), es[..|es| - 1]), es[|es| - 1], kind, h);
    }
  }

  lemma {:induction false} ConnectedBeforeFollowsHistory(needsToken: bool, es: seq<Event>)
    requires Possible(Initial(needsToken), es)
    ensures var s := Run(Initial(needsToken), es);
            s.needsToken == needsToken && (s.hasConnectedBefore <==> AuthenticatedBefore(needsToken, es))
  {
    if |es| == 0 {
    } else {
      ConnectedBeforeFollowsHistory(needsToken, es[..|es| - 1]);
      ConnectedBeforeStep(Run(Initial(needsToken), es[..|es| - 1]), es[|es| - 1]);
    }
  }

  ghost predicate DispatchOf(es: seq<Event>, m: Message, x: Effect) {
    && m.Data? && x.Dispatched? && x.message == m
    && (forall h :: h in x.handlers <==> Registered(es, m.kind, h))
    && (forall h :: h in x.anyHandlers <==> RegisteredAny(es, h))
  }

  ghost predicate RoundOf(es: seq<Event>, x: Effect) {
    x.ReconnectRound? && forall cb :: cb in x.callbacks <==> RegisteredReconnect(es, cb)
  }

  /** What one more event does to the outside, told by the events before it alone. */
  ghost predicate EffectsOf(needsToken: bool, es: seq<Event>, e: Event, effects: seq<Effect>) {
    if e.Opens? && needsToken then effects == [SentAuth(e.socket)]
    else if Authenticates(needsToken, e) then
      if AuthenticatedBefore(needsToken, es) then |effects| == 2 && effects[0] == Authenticated && RoundOf(es, effects[1])
      else effects == [Authenticated]
    else if e.Receives? then |effects| == 1 && DispatchOf(es, e.message, effects[0])
    else effects == []
  }

  lemma LogGrows(s: State, e: Event) returns (effects: seq<Effect>)
    requires Enabled(s, e) && LiveOrQuiet(s)
    ensures Step(s, e).log == s.log + effects
    ensures effects == if e.Opens? && s.needsToken then [SentAuth(e.socket)]
                       else if Authenticates(s.needsToken, e) then
                         [Authenticated] + if s.hasConnectedBefore then [ReconnectRound(s.onReconnect)] else []
                       else if e.Receives? then [Dispatched(e.message, HandlersOf(s, e.message.kind), s.anyHandlers)]
                       else []
  {
    OneAtATime(s, if e.Opens? then e.socket else 0, 0);
    effects := Step(s, e).log[|s.log|..];
  }

  /** In every run each event has exactly the effects its history calls for: a message reaches exactly the
      handlers registered for its kind and those for all kinds, an authentication that is not the first of
      its connection runs exactly the registered reconnect callbacks, and nothing else runs. */
  lemma EffectsFollowHistory(needsToken: bool, es: seq<Event>, e: Event) returns (effects: seq<Effect>)
    requires Possible(Initial(needsToken), es) && Enabled(Run(Initial(needsToken), es), e)
    ensures Step(Run(Initial(needsToken), es), e).log == Run(Initial(needsToken), es).log + effects
    ensures EffectsOf(needsToken, es, e, effects)
  {
    var s := Run(Initial(needsToken), es);
    LiveRun(needsToken, es);
    ConnectedBeforeFollowsHistory(needsToken, es);
    effects := LogGrows(s, e);
    if e.Opens? && needsToken {
    } else if Authenticates(needsToken, e) {
      forall cb ensures cb in s.onReconnect <==> RegisteredReconnect(es, cb) {
        HandlersFollowHistory(needsToken, es, "", cb);
      }
    } else if e.Receives? {
      DispatchFollowsHistory(needsToken, es, e.message);
    }
  }

  lemma DispatchFollowsHistory(needsToken: bool, es: seq<Event>, m: Message)
    requires Possible(Initial(needsToken), es) && m.Data?
    ensures var s := Run(Initial(needsToken), es);
            DispatchOf(es, m, Dispatched(m, HandlersOf(s, m.kind), s.anyHandlers))
  {
    var s := Run(Initial(needsToken), es);
    forall h ensures (h in HandlersOf(s, m.kind) <==> Registered(es, m.kind, h)) && (h in s.anyHandlers <==> RegisteredAny(es, h)) {
      HandlersFollowHistory(needsToken, es, m.kind, h);
    }
  }

  /* ---- Reconnect rounds ---- */

  ghost function Authentications(log: seq<Effect>): nat {
    if |log| == 0 then 0 else Authentications(log[..|log| - 1]) + if log[|log| - 1].Authenticated? then 1 else 0
  }

  ghost function Rounds(log: seq<Effect>): nat {
    if |log| == 0 then 0 else Rounds(log[..|log| - 1]) + if log[|log| - 1].ReconnectRound? then 1 else 0
  }

  lemma CountSnoc(log: seq<Effect>, x: Effect)
    ensures Authentications(log + [x]) == Authentications(log) + if x.Authenticated? then 1 else 0
    ensures Rounds(log + [x]) == Rounds(log) + if x.ReconnectRound? then 1 else 0
  {
    assert (log + [x])[..|log|] == log;
  }

  /** Every authentication but the first is followed by one round of reconnect callbacks. */
  ghost predicate RoundsCounted(s: State) { LogCounted(s.log, s.hasConnectedBefore) }

  ghost predicate LogCounted(log: seq<Effect>, connectedBefore: bool) {
    && connectedBefore == (Authentications(log) > 0)
    && Rounds(log) == if Authentications(log) > 0 then Authentications(log) - 1 else 0
  }

  lemma AuthenticatedCounts(s: State)
    requires RoundsCounted(s)
    ensures RoundsCounted(OnAuthenticated(s))
  {
    CountSnoc(s.log, Authenticated);
    if s.hasConnectedBefore {
      CountSnoc(s.log + [Authenticated], ReconnectRound(s.onReconnect));
    } else {
      assert s.log + [Authenticated] + [] == s.log + [Authenticated];
    }
  }

  /** Any other effect leaves the count alone. */
  lemma OtherEffectCounts(log: seq<Effect>, x: Effect, connectedBefore: bool)
    requires !x.Authenticated? && !x.ReconnectRound?
    ensures LogCounted(log + [x], connectedBefore) <==> LogCounted(log, connectedBefore)
  {
    CountSnoc(log, x);
  }

  lemma OpensCounts(s: State, id: nat)
    requires RoundsCounted(s) && Enabled(s, Opens(id))
    ensures RoundsCounted(Step(s, Opens(id)))
  {
    if s.needsToken {
      OtherEffectCounts(s.log, if s.ws.Some? then SentAuth(s.ws.value) else SendFailed, s.hasConnectedBefore);
    } else {
      AuthenticatedCounts(s.(sockets := WithPhase(s.sockets, id, Open)));
    }
  }

  lemma ReceivesCounts(s: State, id: nat, m: Message)
    requires RoundsCounted(s) && Enabled(s, Receives(id, m))
    ensures RoundsCounted(Step(s, Receives(id, m)))
  {
    if m.AuthAck? {
      AuthenticatedCounts(s);
    } else {
      OtherEffectCounts(s.log, Dispatched(m, HandlersOf(s, m.kind), s.anyHandlers), s.hasConnectedBefore);
    }
  }

  lemma RoundsStep(s: State, e: Event)
    requires RoundsCounted(s) && Enabled(s, e) && !e.Disconnects?
    ensures RoundsCounted(Step(s, e))
  {
    match e
    case Opens(id) => OpensCounts(s, id);
    case Receives(id, m) => ReceivesCounts(s, id, m);
    case _ =>
  }

  lemma {:induction false} RoundsRun(s: State, es: seq<Event>)
    requires RoundsCounted(s) && Possible(s, es) && Ongoing(es)
    ensures RoundsCounted(Run(s, es))
  {
    if |es| == 0 {
    } else {
      assert es[|es| - 1] in es && forall e :: e in es[..|es| - 1] ==> e in es;
      RoundsRun(s, es[..|es| - 1]);
      RoundsStep(Run(s, es[..|es| - 1]), es[|es| - 1]);
    }
  }

  /* ---- After disconnecting ---- */

  /** Once disconnected, until the owner connects again: whatever is registered and whatever the browser
      still reports, no handler or callback runs and no timer is set. */
  lemma {:induction false} QuietForever(s: State, es: seq<Event>)
    requires Quiet(s) && Possible(s, es) && forall e :: e in es ==> !e.Connects?
    ensures Quiet(Run(s, es)) && Run(s, es).log == s.log
  {
    if |es| == 0 {
    } else {
      assert es[|es| - 1] in es && forall e :: e in es[..|es| - 1] ==> e in es;
      QuietForever(s, es[..|es| - 1]);
      QuietStep(Run(s, es[..|es| - 1]), es[|es| - 1]);
    }
  }

  /** The whole lifecycle: any run, disconnect, any run in which the owner does not connect again. */
  lemma LifecycleIsSafe(needsToken: bool, before: seq<Event>, after: seq<Event>)
    requires Possible(Initial(needsToken), before)
    requires Possible(Disconnected(Run(Initial(needsToken), before)), after) && forall e :: e in after ==> !e.Connects?
    ensures var s := Run(Initial(needsToken), before);
            && LiveOrQuiet(s)
            && (Ongoing(before) ==> RoundsCounted(s))
            && Quiet(Run(Disconnected(s), after))
            && Run(Disconnected(s), after).log == s.log
  {
    LiveRun(needsToken, before);
    if Ongoing(before) { RoundsRun(Initial(needsToken), before); }
    var s := Run(Initial(needsToken), before);
    DisconnectIsQuiet(s);
    QuietForever(Disconnected(s), after);
  }

  /** Why `connect` must not be called again: it always breaks the one-at-a-time rule, and
      `disconnect` then leaves nothing that could run exactly when the first socket was not alive;
      otherwise that socket survives and reconnects. */
  lemma SecondConnectLeaksIff(s: State)
    requires Live(s)
    ensures !Live(Connected(s))
    ensures Quiet(Disconnected(Connected(s))) <==> !Alive(s, s.ws.value)
    ensures Alive(s, s.ws.value) ==>
              var d := Disconnected(Connected(s));
              Enabled(d, Closes(s.ws.value)) && Step(d, Closes(s.ws.value)).timers != {}
  {
    var first, d := s.ws.value, Disconnected(Connected(s));
    assert Connected(s).sockets[first] == s.sockets[first];
    assert d.sockets[first] == s.sockets[first];
    if Alive(s, first) {
      assert d.nextId in Step(d, Closes(first)).timers;
    } else {
      PendingTimerIsCleared(s);
    }
  }

  lemma PendingTimerIsCleared(s: State)
    requires Live(s) && !Alive(s, s.ws.value)
    ensures Quiet(Disconnected(Connected(s)))
  {
  }
}
