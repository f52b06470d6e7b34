/**
 The library as one transition system: the event queue, the dispatcher, the handlers, the client's
 state, the waiters and the timers. Every handler call, timer callback and waiter iteration is one
 atomic step. A run is any sequence of steps; a step that is not
 enabled does nothing.
 */
module Negotiation {
  import opened GoStrings
  import opened Message
  import opened Events
  import opened Wire
  import opened EventBus
  import opened Io
  import opened Capabilities
  import opened Sasl
  import opened Registration
  import opened Keepalive
  import opened Tracking

  /** What factory.go asks for. */
  const REQUESTED: seq<string> := ["sasl", "echo-message"]

  /** What a run cannot change: the outcome of each send, the codec, the configuration, and how many
      handlers besides the SASL one listen for CapPreEnd. */
  datatype Setup = Setup(
    net: Outcomes,
    codec: Codec,
    hasSasl: bool,
    username: string,
    password: string,
    requested: seq<string>,
    config: Config,
    listeners: nat)

  datatype Task = Task(handler: Handler, event: Event)

  datatype World = World(
    io: Io,
    todo: seq<Task>,
    caps: Caps,
    sasl: Sasl,
    reg: Reg,
    ping: Timer,
    client: ClientView)

  datatype Step =
    | ConnectionUp
    | ConnectionDown
    | ServerLine(msg: Message)
    | BadLine
    | Dispatch
    | RunTask
    | SaslTimer
    | RegTimer
    | PingTimer(clock: string)
    | SaslAbort
    | SaslReset
    | CapsReset
    | Signal(listener: nat)
    | StartWaiter(i: nat)
    | ReadyWaiter(i: nat)
    | TimeOutWaiter(i: nat)
    | CancelWaiter(i: nat)

  /** The number of the registration handler's numeric subscription, from the order of the subscriptions. */
  function NumericID(su: Setup): nat {
    (if su.hasSasl then 5 else 0) + 8 + 2
  }

  function Initial(su: Setup): World {
    World(
      Io([], []), [],
      Caps(su.requested, {}, map[], map[], false, 0, []),
      Sasl(Inactive, None, false, [], su.username, su.password, DEFAULT_CHUNK_SIZE),
      Reg(su.config, RegInactive, false, NumericID(su)),
      NoTimer,
      InitialView(su.config.nick))
  }

  function Users(n: nat): seq<Handler> {
    seq(n, i requires 0 <= i < n => User(i))
  }

  function IfSasl(su: Setup, h: Handler): seq<Handler> {
    if su.hasSasl then [h] else []
  }

  /** The handlers of an event type, in subscription order. */
  function HandlersOf(su: Setup, reg: Reg, kind: EventType): seq<Handler> {
    match kind
    case Connected => [CapsOnConnected, RegOnConnected, ClientOnEvent]
    case CapLS => [CapsOnLS]
    case CapACK => [CapsOnACK]
    case CapNAK => [CapsOnNAK]
    case CapDEL => [CapsOnDEL]
    case CapNEW => [CapsOnNEW]
    case CapEnd => [CapsOnEnd]
    case CapEndReady => IfSasl(su, SaslCounting) + [CapsOnEndReady]
    case CapPreEnd => IfSasl(su, SaslOnPreEnd) + Users(su.listeners)
    case SASLAuth => IfSasl(su, SaslAuthenticate)
    case SASLSuccess => IfSasl(su, SaslOnSuccess)
    case SASLFail => IfSasl(su, SaslOnFail)
    case Registered => [RegOnWelcome, PingOnWelcome, ClientOnEvent]
    case Numeric => if reg.state == RegComplete then [ClientOnEvent] else [RegOnNumeric, ClientOnEvent]
    case Ping => [PingOnPing]
    case RawIncoming => [PingOnRaw]
    case _ => if ClientKind(kind) then [ClientOnEvent] else []
  }

  /** The types NewClient subscribes to, besides Connected, Registered and Numeric. */
  predicate ClientKind(kind: EventType) {
    kind in {Disconnected, Nick, Mode, Join_, Part, Quit, Kick, Topic, CapAdded, CapRemoved}
  }

  function TasksOf(handlers: seq<Handler>, e: Event): seq<Task> {
    seq(|handlers|, i requires 0 <= i < |handlers| => Task(handlers[i], e))
  }

  /** How many handlers CountListeners(EventCapPreEnd) finds. */
  function ListenerCount(su: Setup): nat {
    su.listeners + if su.hasSasl then 1 else 0
  }

  /** The connection announces every line it reads, then what the line means. */
  function LineEvents(msg: Message): seq<Event>
    requires EventsOf(msg).Some?
  {
    [Plain(RawIncoming)] + EventsOf(msg).value
  }

  /** A line cannot forge what only the library may say, a ready signal in particular. */
  lemma LineCannotForge(msg: Message)
    requires EventsOf(msg).Some?
    ensures forall e | e in LineEvents(msg) :: !Internal(e.kind)
    ensures |LineEvents(msg)| <= 3
  {
    hide EventsOf;
    ServerCannotForge(msg);
  }

  function WithCaps(w: World, r: Result): World {
    w.(caps := r.caps, io := r.io)
  }

  function WithSasl(w: World, r: SaslResult): World {
    w.(sasl := r.sasl, io := r.io)
  }

  function WithReg(w: World, r: RegResult): World {
    w.(reg := r.reg, io := r.io)
  }

  function Handle(su: Setup, w: World, t: Task): World {
    match t.handler
    case CapsOnConnected => WithCaps(w, OnConnected(w.caps, w.io, su.net))
    case CapsOnLS => WithCaps(w, OnLS(w.caps, w.io, su.net, t.event))
    case CapsOnACK => WithCaps(w, OnACK(w.caps, w.io, t.event))
    case CapsOnNAK => WithCaps(w, OnNAK(w.caps, w.io, t.event))
    case CapsOnDEL => WithCaps(w, OnDEL(w.caps, w.io, t.event))
    case CapsOnNEW => WithCaps(w, OnNEW(w.caps, w.io, su.net, t.event))
    case CapsOnEnd => WithCaps(w, OnCapEnd(w.caps, w.io, su.net))
    case CapsOnEndReady => w.(caps := OnEndReady(w.caps))
    case SaslOnPreEnd => WithSasl(w, OnPreEnd(w.sasl, w.io, su.net, t.event))
    case SaslAuthenticate =>
      if w.sasl.maxChunk == 0 then w else WithSasl(w, OnAuthenticate(w.sasl, w.io, su.net, su.codec, t.event))
    case SaslOnSuccess => WithSasl(w, OnSuccess(w.sasl, w.io))
    case SaslOnFail => WithSasl(w, OnFail(w.sasl, w.io, t.event))
    case RegOnConnected => WithReg(w, OnRegConnected(w.reg, w.io, su.net))
    case RegOnWelcome => WithReg(w, OnWelcome(w.reg, w.io, t.event))
    case RegOnNumeric => WithReg(w, OnNumeric(w.reg, w.io, su.net, t.event))
    case PingOnPing => w.(io := OnPing(w.io, su.net, t.event))
    case PingOnRaw => w.(ping := OnRaw(w.ping))
    case PingOnWelcome => w.(ping := OnPingWelcome(w.ping))
    case ClientOnEvent => w.(client := OnEvent(w.client, t.event), io := EmitAll(w.io, NamesDone(w.client, t.event)))
    case SaslCounting => w
    case User(_) => w
  }

  predicate Enabled(su: Setup, w: World, step: Step) {
    match step
    case ConnectionUp => true
    case ConnectionDown => true
    case ServerLine(msg) => EventsOf(msg).Some?
    case BadLine => true
    case Dispatch => w.todo == [] && w.io.queue != []
    case RunTask => w.todo != []
    case SaslTimer => su.hasSasl && w.sasl.timerArmed
    case RegTimer => w.reg.timerArmed
    case PingTimer(_) => w.ping == Ticking
    case SaslAbort => su.hasSasl
    case SaslReset => su.hasSasl
    case CapsReset => true
    case Signal(i) => i < su.listeners
    case StartWaiter(i) => i < |w.caps.waiters| && w.caps.waiters[i].Fresh?
    case ReadyWaiter(i) => i < |w.caps.waiters| && w.caps.waiters[i].Counting? && w.caps.tokens > 0
    case TimeOutWaiter(i) => i < |w.caps.waiters| && w.caps.waiters[i].Counting?
    case CancelWaiter(i) => i < |w.caps.waiters| && w.caps.waiters[i].Counting?
  }

  function Next(su: Setup, w: World, step: Step): World {
    if !Enabled(su, w, step) then w
    else
      match step
      case ConnectionUp => w.(io := Emit(w.io, Internally(Connected, ConnectedData(""))))
      case ConnectionDown => w.(io := Emit(w.io, Plain(Disconnected)))
      case ServerLine(msg) => w.(io := EmitAll(w.io, LineEvents(msg)))
      case BadLine => w.(io := EmitAll(w.io, [Plain(RawIncoming), ErrorEvent("failed to parse message")]))
      case Dispatch =>
        var e := w.io.queue[0];
        w.(io := w.io.(queue := w.io.queue[1..]), todo := TasksOf(HandlersOf(su, w.reg, e.kind), e))
      case RunTask => Handle(su, w.(todo := w.todo[1..]), w.todo[0])
      case SaslTimer => WithSasl(w, OnTimer(w.sasl, w.io))
      case RegTimer => WithReg(w, OnRegTimer(w.reg, w.io))
      case PingTimer(clock) => w.(ping := Elapsed, io := SendOrReport(w.io, su.net, "PING", ["tithon-" + clock]))
      case SaslAbort => WithSasl(w, AbortSession(w.sasl, w.io, su.net))
      case SaslReset => w.(sasl := ResetSasl(w.sasl))
      case CapsReset => w.(caps := ResetCaps(w.caps))
      case Signal(_) => w.(io := Emit(w.io, Plain(CapEndReady)))
      case StartWaiter(i) => WithCaps(w, WaiterStart(w.caps, w.io, su.net, i, ListenerCount(su)))
      case ReadyWaiter(i) => WithCaps(w, WaiterToken(w.caps, w.io, su.net, i))
      case TimeOutWaiter(i) => WithCaps(w, WaiterTimeout(w.caps, w.io, su.net, i))
      case CancelWaiter(i) => w.(caps := DropWaiter(w.caps, i))
  }

  function Run(su: Setup, steps: seq<Step>): World {
    if steps == [] then Initial(su)
    else Next(su, Run(su, steps[..|steps| - 1]), steps[|steps| - 1])
  }

  // ---------- counting ----------

  function Count(q: seq<Event>, kind: EventType): nat {
    if q == [] then 0 else (if q[0].kind == kind then 1 else 0) + Count(q[1..], kind)
  }

  function CountTasks(ts: seq<Task>, h: Handler): nat {
    if ts == [] then 0 else (if ts[0].handler == h then 1 else 0) + CountTasks(ts[1..], h)
  }

  predicate IsCapEnd(a: Attempt) {
    a.command == "CAP" && a.params == ["END"]
  }

  /** How often CAP END was sent, or tried. */
  function CountEnds(log: seq<Attempt>): nat {
    if log == [] then 0 else CountEnds(log[..|log| - 1]) + if IsCapEnd(log[|log| - 1]) then 1 else 0
  }

  lemma {:induction false} CountConcat(a: seq<Event>, b: seq<Event>, kind: EventType)
    ensures Count(a + b, kind) == Count(a, kind) + Count(b, kind)
  {
    if a == [] {
      assert a + b == b;
    } else {
      CountConcat(a[1..], b, kind);
      assert (a + b)[1..] == a[1..] + b;
    }
  }

  lemma CountEmit(q: seq<Event>, e: Event, kind: EventType)
    ensures Count(q + [e], kind) == Count(q, kind) + if e.kind == kind then 1 else 0
  {
    CountConcat(q, [e], kind);
    assert [e][1..] == [];
  }

  lemma CountEndsSnoc(log: seq<Attempt>, a: Attempt)
    ensures CountEnds(log + [a]) == CountEnds(log) + if IsCapEnd(a) then 1 else 0
  {
    assert (log + [a])[..|log|] == log;
  }

  /** What a run has shown so far; kept beside the world, never read by it. */
  datatype History = History(
    rounds: int,               // CapPreEnd events emitted
    handledBySasl: nat,        // CapPreEnd events the SASL handler has handled
    saslSignals: int,          // CapEndReady events the SASL handler has emitted
    signalled: set<nat>,       // other listeners that have emitted CapEndReady
    repeated: bool,            // some other listener signalled twice
    consumed: nat,             // ready signals waiters have received
    endedByReady: bool,        // a waiter finished because enough signals had come
    endedByTimer: bool,        // a waiter finished because its 30 s timer fired
    connects: nat,             // Connected events the capability handler has handled
    lsHandled: nat,            // CAP LS events it has handled
    everPending: set<string>,  // names ever placed in pendingCaps
    answered: set<string>)     // names in an ACK or NAK handled while negotiating

  const NO_HISTORY := History(0, 0, 0, {}, false, 0, false, false, 0, 0, {}, {})

  predicate FinishesByReady(su: Setup, w: World, step: Step) {
    match step
    case StartWaiter(i) => Enabled(su, w, step) && ListenerCount(su) == 0
    case ReadyWaiter(i) =>
      Enabled(su, w, step) && w.caps.waiters[i].ready + 1 >= w.caps.waiters[i].expected
    case _ => false
  }

  predicate RunsTask(w: World, step: Step, h: Handler) {
    step == RunTask && w.todo != [] && w.todo[0].handler == h
  }

  predicate RunsSaslTask(w: World, step: Step) {
    step == RunTask && w.todo != [] &&
    w.todo[0].handler in {SaslOnPreEnd, SaslAuthenticate, SaslOnSuccess, SaslOnFail}
  }

  /** The names an ACK or NAK answers, when handled while negotiating. */
  function Answers(w: World, step: Step): set<string> {
    if (RunsTask(w, step, CapsOnACK) || RunsTask(w, step, CapsOnNAK)) && w.caps.negotiating
    then Elements(Fields(Trailing(w.todo[0].event)))
    else {}
  }

  function Emitted(w: World, w': World, kind: EventType): int {
    Count(w'.io.queue, kind) - Count(w.io.queue, kind)
  }

  function Observe(su: Setup, w: World, h: History, step: Step): History {
    var w' := Next(su, w, step);
    var signal := step.Signal? && Enabled(su, w, step);
    History(
      h.rounds + (if step == Dispatch then 0 else Emitted(w, w', CapPreEnd)),
      h.handledBySasl + (if RunsTask(w, step, SaslOnPreEnd) then 1 else 0),
      h.saslSignals + (if RunsSaslTask(w, step) then Emitted(w, w', CapEndReady) else 0),
      h.signalled + (if signal then {step.listener} else {}),
      h.repeated || (signal && step.listener in h.signalled),
      h.consumed + (if step.ReadyWaiter? && Enabled(su, w, step) then 1 else 0),
      h.endedByReady || FinishesByReady(su, w, step),
      h.endedByTimer || (step.TimeOutWaiter? && Enabled(su, w, step)),
      h.connects + (if RunsTask(w, step, CapsOnConnected) then 1 else 0),
      h.lsHandled + (if RunsTask(w, step, CapsOnLS) then 1 else 0),
      h.everPending + w'.caps.pending,
      h.answered + Answers(w, step))
  }

  function HistoryOf(su: Setup, steps: seq<Step>): History {
    if steps == [] then NO_HISTORY
    else
      var before := steps[..|steps| - 1];
      Observe(su, Run(su, before), HistoryOf(su, before), steps[|steps| - 1])
  }
}
