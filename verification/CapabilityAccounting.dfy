/**
 Two things the queue keeps straight: the client's set of capabilities is a delayed copy of the
 handler's, and no requested capability is forgotten.
 */
module CapabilityAccounting {
  import opened GoStrings
  import opened Message
  import opened Events
  import opened Wire
  import opened EventBus
  import opened Io
  import opened Capabilities
  import opened Sasl
  import opened Registration
  import opened Negotiation
  import opened NegotiationEffects
  import Modes
  import Utf8
  import Tracking

  // ---------- the replica ----------

  /** What an event does to the names the client knows. */
  function ReplayOne(keys: set<string>, e: Event): set<string> {
    if e.kind == CapAdded && e.data.CapAddedData? then keys + {e.data.capability}
    else if e.kind == CapRemoved && e.data.CapRemovedData? then keys - {e.data.capability}
    else keys
  }

  lemma {:induction false} ModeKeepsCapabilities(v: Tracking.ClientView, target: string, changes: seq<Modes.Change>)
    ensures Tracking.OnChanges(v, target, changes).capabilities == v.capabilities
    decreases |changes|
  {
    if changes != [] {
      ModeKeepsCapabilities(Tracking.OnChange(v, target, changes[0]), target, changes[1..]);
    }
  }

  lemma MembershipKeepsCapabilities(v: Tracking.ClientView, e: Event)
    ensures Tracking.OnMembership(v, e).capabilities == v.capabilities
  {
    if e.data.ModeData? {
      ModeKeepsCapabilities(v, e.data.target, Modes.Changes(Utf8.Runes(e.data.modes), true, e.data.args));
    }
    hide Tracking.OnChanges, Modes.Changes, Tracking.RenamedAll;
  }

  /** Of all the client's handlers only the two for capabilities touch the names, as `ReplayOne` says. */
  lemma ClientReplays(v: Tracking.ClientView, e: Event)
    ensures Tracking.OnEvent(v, e).capabilities.Keys == ReplayOne(v.capabilities.Keys, e)
  {
    MembershipKeepsCapabilities(v, e);
    hide Tracking.OnMembership, Tracking.OnNames, Tracking.OnISupport;
    assert Tracking.OnNumericReply(v, e.data).capabilities == v.capabilities by {
      NumericKeepsCapabilities(v, e.data);
    }
    hide Tracking.OnNumericReply;
  }

  lemma NumericKeepsCapabilities(v: Tracking.ClientView, d: Data)
    ensures Tracking.OnNumericReply(v, d).capabilities == v.capabilities
  {
    hide Tracking.Named, Tracking.OnTokens, Fields;
  }

  function Replay(keys: set<string>, es: seq<Event>): set<string>
    decreases |es|
  {
    if es == [] then keys else Replay(ReplayOne(keys, es[0]), es[1..])
  }

  function ReplayTask(keys: set<string>, t: Task): set<string> {
    if t.handler == ClientOnEvent then ReplayOne(keys, t.event) else keys
  }

  function ReplayTasks(keys: set<string>, ts: seq<Task>): set<string>
    decreases |ts|
  {
    if ts == [] then keys else ReplayTasks(ReplayTask(keys, ts[0]), ts[1..])
  }

  function ClientCaps(w: World): set<string> {
    w.client.capabilities.Keys
  }

  /** The client's capability names once everything queued has been handled. */
  function Eventually(w: World): set<string> {
    Replay(ReplayTasks(ClientCaps(w), w.todo), w.io.queue)
  }

  lemma {:induction false} ReplayConcat(keys: set<string>, a: seq<Event>, b: seq<Event>)
    ensures Replay(keys, a + b) == Replay(Replay(keys, a), b)
    decreases |a|
  {
    if a == [] {
      assert a + b == b;
    } else {
      ReplayConcat(ReplayOne(keys, a[0]), a[1..], b);
      assert (a + b)[1..] == a[1..] + b;
    }
  }

  predicate Neutral(kind: EventType) {
    kind != CapAdded && kind != CapRemoved
  }

  lemma {:induction false} ReplayNeutral(keys: set<string>, es: seq<Event>)
    requires forall e | e in es :: Neutral(e.kind)
    ensures Replay(keys, es) == keys
    decreases |es|
  {
    if es != [] {
      assert es[0] in es;
      ReplayNeutral(keys, es[1..]);
    }
  }

  lemma ReplayAdds(keys: set<string>, io: Io, io': Io, kinds: seq<EventType>)
    requires Adds(io, io', kinds) && forall k | k in kinds :: Neutral(k)
    ensures Replay(keys, io'.queue) == Replay(keys, io.queue)
  {
    var n := |io.queue|;
    var es := io'.queue[n..];
    assert io'.queue == io.queue + es;
    forall e | e in es ensures Neutral(e.kind) {
      var i :| 0 <= i < |es| && es[i] == e;
      assert io'.queue[n + i].kind == kinds[i] && kinds[i] in kinds;
    }
    ReplayConcat(keys, io.queue, es);
    ReplayNeutral(Replay(keys, io.queue), es);
  }

  lemma {:induction false} ReplayAddedAll(keys: set<string>, words: seq<string>)
    ensures Replay(keys, AddedAll(words)) == keys + Elements(words)
    ensures Replay(keys, RemovedAll(words)) == keys - Elements(words)
    decreases |words|
  {
    if words != [] {
      var x, rest := words[0], words[1..];
      assert words == [x] + rest;
      assert Elements(words) == {x} + Elements(rest);
      assert AddedAll(words)[1..] == AddedAll(rest) && RemovedAll(words)[1..] == RemovedAll(rest);
      ReplayAddedAll(keys + {x}, rest);
      ReplayAddedAll(keys - {x}, rest);
      assert keys + {x} + Elements(rest) == keys + Elements(words);
      assert keys - {x} - Elements(rest) == keys - Elements(words);
    }
  }

  lemma EndNegotiationReplay(keys: set<string>, c: Caps, io: Io)
    ensures var r := EndNegotiation(c, io);
            Replay(keys, r.io.queue) == Replay(keys, io.queue) && r.caps.acked == c.acked
            && r.caps.pending == c.pending && r.caps.available == c.available
  {
    var r := EndNegotiation(c, io);
    if c.negotiating {
      assert Adds(io, r.io, [CapPreEnd]);
      ReplayAdds(keys, io, r.io, [CapPreEnd]);
    }
  }

  /** Every handler of the capability handler changes the queued additions and its own set alike. */
  ghost predicate InStep(c: Caps, io: Io, r: Result) {
    forall keys | Replay(keys, io.queue) == c.acked.Keys :: Replay(keys, r.io.queue) == r.caps.acked.Keys
  }

  lemma OnACKInStep(c: Caps, io: Io, e: Event)
    ensures InStep(c, io, OnACK(c, io, e))
  {
    hide Fields, Replay, AckAll, AddedAll, EndNegotiation;
    var words := Fields(Trailing(e));
    forall keys | Replay(keys, io.queue) == c.acked.Keys
      ensures Replay(keys, OnACK(c, io, e).io.queue) == OnACK(c, io, e).caps.acked.Keys
    {
      AckAllFields(c, words);
      ReplayConcat(keys, io.queue, AddedAll(words));
      ReplayAddedAll(c.acked.Keys, words);
      EndNegotiationReplay(keys, AckAll(c, words), EmitAll(io, AddedAll(words)));
    }
  }

  lemma OnDELInStep(c: Caps, io: Io, e: Event)
    ensures InStep(c, io, OnDEL(c, io, e))
  {
    hide Fields, Replay, RemovedAll;
    var words := Fields(Trailing(e));
    forall keys | Replay(keys, io.queue) == c.acked.Keys
      ensures Replay(keys, OnDEL(c, io, e).io.queue) == OnDEL(c, io, e).caps.acked.Keys
    {
      ReplayConcat(keys, io.queue, RemovedAll(words));
      ReplayAddedAll(c.acked.Keys, words);
      assert (c.acked - Elements(words)).Keys == c.acked.Keys - Elements(words);
    }
  }

  lemma OnNAKInStep(c: Caps, io: Io, e: Event)
    ensures InStep(c, io, OnNAK(c, io, e))
  {
    hide Fields, Replay, EndNegotiation;
    forall keys {
      EndNegotiationReplay(keys, c.(pending := c.pending - Elements(Fields(Trailing(e)))), io);
    }
  }

  lemma OnLSInStep(c: Caps, io: Io, net: Outcomes, e: Event)
    ensures InStep(c, io, OnLS(c, io, net, e))
  {
    hide Replay, EndNegotiation, ProcessNew;
    ProcessNewFrame(c, io, net, Trailing(e));
    var r := ProcessNew(c, io, net, Trailing(e));
    forall keys {
      EndNegotiationReplay(keys, r.caps, r.io);
    }
  }

  predicate CapsHandler(h: Handler) {
    h in {CapsOnConnected, CapsOnLS, CapsOnACK, CapsOnNAK, CapsOnDEL, CapsOnNEW, CapsOnEnd, CapsOnEndReady}
  }

  lemma CapsTaskInStep(su: Setup, w: World)
    requires w.todo != [] && CapsHandler(w.todo[0].handler)
    ensures var w' := Next(su, w, RunTask);
            InStep(w.caps, w.io, Result(w'.caps, w'.io, true)) && w'.todo == w.todo[1..] && w'.client == w.client
  {
    hide Replay, OnLS, OnACK, OnNAK, OnDEL, ProcessNew;
    var e := w.todo[0].event;
    match w.todo[0].handler
    case CapsOnLS => OnLSInStep(w.caps, w.io, su.net, e);
    case CapsOnACK => OnACKInStep(w.caps, w.io, e);
    case CapsOnNAK => OnNAKInStep(w.caps, w.io, e);
    case CapsOnDEL => OnDELInStep(w.caps, w.io, e);
    case CapsOnNEW => ProcessNewFrame(w.caps, w.io, su.net, Trailing(e));
    case CapsOnConnected =>
    case CapsOnEnd =>
    case CapsOnEndReady =>
  }

  /** The types of the events the remaining steps may append. */
  const NEUTRAL_KINDS: set<EventType> := {CapEndReady, Error, SASLFail, SASLSuccess, Registered, Connected, Disconnected,
                                         NamesComplete, RawIncoming}

  ghost predicate AddsNeutral(io: Io, io': Io) {
    exists kinds :: Adds(io, io', kinds) && forall k | k in kinds :: k in NEUTRAL_KINDS
  }

  predicate SessionHandler(h: Handler) {
    h in {SaslOnPreEnd, SaslAuthenticate, SaslOnSuccess, SaslOnFail, RegOnConnected, RegOnWelcome, RegOnNumeric}
  }

  lemma NoNews(io: Io, io': Io)
    requires io'.queue == io.queue
    ensures AddsNeutral(io, io')
  {
    assert Adds(io, io', []);
  }

  lemma Neutrally(io: Io, io': Io, kinds: seq<EventType>)
    requires Adds(io, io', kinds) && forall k | k in kinds :: k in NEUTRAL_KINDS
    ensures AddsNeutral(io, io')
  {
  }

  lemma SaslTaskNeutral(su: Setup, w: World)
    requires w.todo != []
    requires w.todo[0].handler in {SaslOnPreEnd, SaslAuthenticate, SaslOnSuccess, SaslOnFail}
    ensures AddsNeutral(w.io, Next(su, w, RunTask).io)
  {
    hide Adds, OnPreEnd, OnAuthenticate, OnSuccess, OnFail;
    var e, w' := w.todo[0].event, Next(su, w, RunTask);
    NoNews(w.io, w.io);
    match w.todo[0].handler
    case SaslOnPreEnd => OnPreEndAdds(w.sasl, w.io, su.net, e);
    case SaslAuthenticate =>
      if w.sasl.maxChunk > 0 {
        OnAuthenticateAdds(w.sasl, w.io, su.net, su.codec, e);
      }
    case SaslOnSuccess => OnSuccessAdds(w.sasl, w.io);
    case SaslOnFail => OnFailAdds(w.sasl, w.io, e);
  }

  lemma RegTaskNeutral(su: Setup, w: World)
    requires w.todo != [] && w.todo[0].handler in {RegOnConnected, RegOnWelcome, RegOnNumeric}
    ensures AddsNeutral(w.io, Next(su, w, RunTask).io)
  {
    hide Adds, OnRegConnected, OnWelcome, OnNumeric;
    var e := w.todo[0].event;
    NoNews(w.io, w.io);
    match w.todo[0].handler
    case RegOnConnected => OnRegConnectedAdds(w.reg, w.io, su.net);
    case RegOnWelcome => OnWelcomeAdds(w.reg, w.io, e);
    case RegOnNumeric => OnNumericAdds(w.reg, w.io, su.net, e);
  }

  lemma SessionTaskFrame(su: Setup, w: World)
    requires w.todo != [] && SessionHandler(w.todo[0].handler)
    ensures var w' := Next(su, w, RunTask);
            w'.todo == w.todo[1..] && w'.client == w.client && w'.caps == w.caps
  {
  }

  predicate PlainHandler(h: Handler) {
    h in {PingOnPing, PingOnRaw, PingOnWelcome, SaslCounting} || h.User?
  }

  lemma PlainTaskNeutral(su: Setup, w: World)
    requires w.todo != [] && PlainHandler(w.todo[0].handler)
    ensures var w' := Next(su, w, RunTask);
            w'.todo == w.todo[1..] && w'.client == w.client && w'.caps == w.caps && AddsNeutral(w.io, w'.io)
  {
    var w' := Next(su, w, RunTask);
    if w'.io.queue == w.io.queue {
      NoNews(w.io, w'.io);
    } else {
      assert Adds(w.io, w'.io, [Error]);
      Neutrally(w.io, w'.io, [Error]);
    }
  }

  lemma ClientTaskNeutral(su: Setup, w: World)
    requires w.todo != [] && w.todo[0].handler == ClientOnEvent
    ensures var w' := Next(su, w, RunTask);
            && w'.todo == w.todo[1..] && w'.caps == w.caps && AddsNeutral(w.io, w'.io)
            && ClientCaps(w') == ReplayTask(ClientCaps(w), w.todo[0])
  {
    hide Tracking.OnEvent;
    var w', e := Next(su, w, RunTask), w.todo[0].event;
    ClientReplays(w.client, e);
    if w'.io.queue == w.io.queue {
      NoNews(w.io, w'.io);
    } else {
      assert Adds(w.io, w'.io, [NamesComplete]);
      Neutrally(w.io, w'.io, [NamesComplete]);
    }
  }

  ghost predicate Replica(w: World) {
    Eventually(w) == w.caps.acked.Keys
  }

  lemma NeutralKeeps(w: World, w': World)
    requires Replica(w) && AddsNeutral(w.io, w'.io) && w'.caps.acked == w.caps.acked
    requires ReplayTasks(ClientCaps(w'), w'.todo) == ReplayTasks(ClientCaps(w), w.todo)
    ensures Replica(w')
  {
    var kinds :| Adds(w.io, w'.io, kinds) && forall k | k in kinds :: k in NEUTRAL_KINDS;
    ReplayAdds(ReplayTasks(ClientCaps(w), w.todo), w.io, w'.io, kinds);
  }

  lemma ReplicaTask(su: Setup, w: World)
    requires Replica(w) && w.todo != []
    ensures Replica(Next(su, w, RunTask))
  {
    var w', h := Next(su, w, RunTask), w.todo[0].handler;
    if CapsHandler(h) {
      hide Next;
      CapsTaskInStep(su, w);
    } else if SessionHandler(h) {
      hide Next, Replica;
      SessionTaskFrame(su, w);
      if h in {RegOnConnected, RegOnWelcome, RegOnNumeric} {
        RegTaskNeutral(su, w);
      } else {
        SaslTaskNeutral(su, w);
      }
      NeutralKeeps(w, w');
    } else if PlainHandler(h) {
      hide Next, Replica;
      PlainTaskNeutral(su, w);
      NeutralKeeps(w, w');
    } else {
      hide Next, Replica;
      ClientTaskNeutral(su, w);
      NeutralKeeps(w, w');
    }
  }

  lemma ReplayNoTasks(keys: set<string>, hs: seq<Handler>, e: Event)
    requires Neutral(e.kind)
    ensures ReplayTasks(keys, TasksOf(hs, e)) == keys
    decreases |hs|
  {
    if hs != [] {
      assert TasksOf(hs, e)[1..] == TasksOf(hs[1..], e);
      ReplayNoTasks(keys, hs[1..], e);
    }
  }

  lemma ReplicaDispatch(su: Setup, w: World)
    requires Replica(w) && w.todo == [] && w.io.queue != []
    ensures Replica(Next(su, w, Dispatch))
  {
    var e := w.io.queue[0];
    var hs := HandlersOf(su, w.reg, e.kind);
    var w' := Next(su, w, Dispatch);
    assert w'.todo == TasksOf(hs, e) && w'.io.queue == w.io.queue[1..] && w'.client == w.client;
    assert ReplayTasks(ClientCaps(w), w.todo) == ClientCaps(w);
    assert Replay(ClientCaps(w), w.io.queue) == Replay(ReplayOne(ClientCaps(w), e), w.io.queue[1..]);
    DispatchedTasks(su, w, e);
  }

  lemma DispatchedTasks(su: Setup, w: World, e: Event)
    ensures ReplayTasks(ClientCaps(w), TasksOf(HandlersOf(su, w.reg, e.kind), e)) == ReplayOne(ClientCaps(w), e)
  {
    var hs := HandlersOf(su, w.reg, e.kind);
    if e.kind == CapAdded || e.kind == CapRemoved {
      var t := Task(hs[0], e);
      assert TasksOf(hs, e) == [t];
      assert [t][1..] == [];
      assert ReplayTasks(ClientCaps(w), [t]) == ReplayTask(ClientCaps(w), t);
    } else {
      ReplayNoTasks(ClientCaps(w), hs, e);
    }
  }

  lemma ServerLineReplica(w: World, w': World, msg: Message)
    requires Replica(w) && EventsOf(msg).Some?
    requires w' == w.(io := EmitAll(w.io, LineEvents(msg)))
    ensures Replica(w')
  {
    hide EventsOf;
    LineCannotForge(msg);
    var keys := ReplayTasks(ClientCaps(w), w.todo);
    ReplayConcat(keys, w.io.queue, LineEvents(msg));
    ReplayNeutral(Replay(keys, w.io.queue), LineEvents(msg));
  }

  lemma ReplicaStep(su: Setup, w: World, step: Step)
    requires Replica(w) && !step.CapsReset?
    ensures Replica(Next(su, w, step))
  {
    hide Replica, Adds, Handle, HandlersOf, EventsOf;
    var w' := Next(su, w, step);
    if Enabled(su, w, step) {
      match step
      case RunTask => ReplicaTask(su, w);
      case Dispatch => ReplicaDispatch(su, w);
      case ServerLine(msg) => ServerLineReplica(w, w', msg);
      case SaslTimer => EmitKeeps(w, w', FailEvent(NameOfMechanism(w.sasl), "timeout"));
      case RegTimer => EmitKeeps(w, w', ErrorEvent("registration timeout"));
      case ConnectionUp => EmitKeeps(w, w', Internally(Connected, ConnectedData("")));
      case ConnectionDown => EmitKeeps(w, w', Plain(Disconnected));
      case BadLine =>
        var w1 := w.(io := Emit(w.io, Plain(RawIncoming)));
        EmitKeeps(w, w1, Plain(RawIncoming));
        EmitKeeps(w1, w', ErrorEvent("failed to parse message"));
      case PingTimer(_) =>
        if w'.io.queue == w.io.queue {
          NoNews(w.io, w'.io);
          NeutralKeeps(w, w');
        } else {
          EmitKeeps(w, w', Internally(Error, ErrorData("failed to send ping")));
        }
      case Signal(_) => EmitKeeps(w, w', Plain(CapEndReady));
      case _ =>
        NoNews(w.io, w'.io);
        NeutralKeeps(w, w');
    }
  }

  lemma EmitKeeps(w: World, w': World, e: Event)
    requires Replica(w) && w'.caps == w.caps && w'.todo == w.todo && w'.client == w.client
    requires w'.io.queue == w.io.queue + [e] && e.kind in NEUTRAL_KINDS
    ensures Replica(w')
  {
    assert Adds(w.io, w'.io, [e.kind]);
    Neutrally(w.io, w'.io, [e.kind]);
    NeutralKeeps(w, w');
  }

  predicate NoReset(steps: seq<Step>) {
    CapsReset !in steps
  }

  /**
   Main result: in every run without Reset, handling what is queued would make the client's
   capability names equal to the handler's; once nothing is queued they are equal.
   */
  lemma {:induction false} ClientIsReplica(su: Setup, steps: seq<Step>)
    requires NoReset(steps)
    ensures var w := Run(su, steps);
            && Eventually(w) == w.caps.acked.Keys
            && (w.todo == [] && w.io.queue == [] ==> ClientCaps(w) == w.caps.acked.Keys)
    decreases |steps|
  {
    if steps != [] {
      var before := steps[..|steps| - 1];
      ClientIsReplica(su, before);
      ReplicaStep(su, Run(su, before), steps[|steps| - 1]);
    }
  }

  // ---------- requests are accounted for ----------

  /**
   What processNewCapabilities requests: exactly the advertised names that are wanted, in advertised
   order. The check against the advertised names that RequestCapabilities makes drops nothing here.
   */
  lemma {:induction false} RequestsExactlyTheWanted(c: Caps, io: Io, net: Outcomes, text: string)
    ensures var r := ProcessNew(c, io, net, text);
            var chosen := Select(NamesOf(Fields(text)), Elements(c.requested));
            && (forall x :: x in chosen <==> x in NamesOf(Fields(text)) && x in c.requested)
            && r.caps.pending == c.pending + Elements(chosen)
            && r.io.log == io.log + (if chosen == [] then []
                                     else [Attempt("CAP", ["REQ", Join(chosen, ' ')], net(|io.log|))])
            && r.caps.available.Keys == c.available.Keys + Elements(NamesOf(Fields(text)))
            && (c.pending <= c.available.Keys ==> r.caps.pending <= r.caps.available.Keys)
  {
    hide Fields, Join, Select, NamesOf, AddAvailable;
    var words := Fields(text);
    var names := NamesOf(words);
    var chosen := Select(names, Elements(c.requested));
    AddAvailableKeys(words, c.available);
    SelectMeaning(names, Elements(c.requested));
    assert forall x :: x in chosen <==> x in names && x in c.requested;
    SelectAll(chosen, AddAvailable(words, c.available).Keys);
    if c.requested == [] {
      assert Elements(c.requested) == {};
      SelectNone(names);
    }
    assert c.pending + Elements([]) == c.pending;
    assert io.log + [] == io.log;
  }

  /** Nothing requested is forgotten. */
  ghost predicate Accounted(w: World, h: History) {
    h.everPending <= w.caps.pending + h.answered && w.caps.pending <= h.everPending
  }

  lemma EndNegotiationFrame(c: Caps, io: Io)
    ensures var r := EndNegotiation(c, io); r.caps == c.(waiters := r.caps.waiters)
  {
  }

  lemma LSPending(c: Caps, io: Io, net: Outcomes, e: Event)
    ensures forall c' | c' in {OnLS(c, io, net, e).caps, OnNEW(c, io, net, e).caps} ::
              && c.pending <= c'.pending
              && (c.pending <= c.available.Keys ==> c'.pending <= c'.available.Keys)
  {
    hide Fields, ProcessNew, EndNegotiation;
    RequestsExactlyTheWanted(c, io, net, Trailing(e));
    var r := ProcessNew(c, io, net, Trailing(e));
    EndNegotiationFrame(r.caps, r.io);
  }

  lemma AnswerPending(c: Caps, io: Io, e: Event)
    ensures forall c' | c' in {OnACK(c, io, e).caps, OnNAK(c, io, e).caps} ::
              && c.pending <= c'.pending + (if c.negotiating then Elements(Fields(Trailing(e))) else {})
              && c'.pending <= c.pending && c'.available == c.available
  {
    hide Fields, AckAll, AddedAll, EndNegotiation, Elements;
    var words := Fields(Trailing(e));
    AckAllFields(c, words);
    EndNegotiationFrame(AckAll(c, words), EmitAll(io, AddedAll(words)));
    EndNegotiationFrame(c.(pending := c.pending - Elements(words)), io);
  }

  /** What a task of the capability handler does to pendingCaps and availableCaps. */
  lemma CapsTaskPending(su: Setup, w: World)
    requires w.todo != [] && CapsHandler(w.todo[0].handler)
    ensures var c := Next(su, w, RunTask).caps;
            && w.caps.pending <= c.pending + Answers(w, RunTask)
            && (w.caps.pending <= w.caps.available.Keys ==> c.pending <= c.available.Keys)
  {
    hide Fields, OnLS, OnNEW, OnACK, OnNAK, EventsOf;
    var e := w.todo[0].event;
    match w.todo[0].handler
    case CapsOnLS => LSPending(w.caps, w.io, su.net, e);
    case CapsOnNEW => LSPending(w.caps, w.io, su.net, e);
    case CapsOnACK => AnswerPending(w.caps, w.io, e);
    case CapsOnNAK => AnswerPending(w.caps, w.io, e);
    case CapsOnConnected =>
    case CapsOnDEL =>
    case CapsOnEnd =>
    case CapsOnEndReady =>
  }

  lemma OtherPending(su: Setup, w: World, step: Step)
    requires !(step == RunTask && w.todo != [] && CapsHandler(w.todo[0].handler))
    ensures var c := Next(su, w, step).caps;
            c.pending == w.caps.pending && (!step.CapsReset? ==> c.available == w.caps.available)
  {
    hide EventsOf, Handle, HandlersOf, OnTimer, OnRegTimer, AbortSession, ResetSasl;
    if step == RunTask && w.todo != [] {
      OtherTaskPending(su, w);
    }
  }

  lemma OtherTaskPending(su: Setup, w: World)
    requires w.todo != [] && !CapsHandler(w.todo[0].handler)
    ensures Next(su, w, RunTask).caps == w.caps
  {
    hide OnPreEnd, OnAuthenticate, OnSuccess, OnFail, OnRegConnected, OnNumeric, OnWelcome;
  }

  /** A step may take names out of pendingCaps only if it handles an ACK or NAK that names them. */
  lemma PendingStep(su: Setup, w: World, step: Step)
    ensures w.caps.pending <= Next(su, w, step).caps.pending + Answers(w, step)
  {
    hide Next;
    if step == RunTask && w.todo != [] && CapsHandler(w.todo[0].handler) {
      CapsTaskPending(su, w);
    } else {
      OtherPending(su, w, step);
    }
  }

  /** Main result: every name ever pending is still pending or was named in an answer. */
  lemma {:induction false} PendingAccounted(su: Setup, steps: seq<Step>)
    ensures Accounted(Run(su, steps), HistoryOf(su, steps))
    decreases |steps|
  {
    if steps != [] {
      var before, step := steps[..|steps| - 1], steps[|steps| - 1];
      PendingAccounted(su, before);
      hide Next, Count;
      PendingStep(su, Run(su, before), step);
    }
  }

  lemma AvailableStep(su: Setup, w: World, step: Step)
    requires w.caps.pending <= w.caps.available.Keys && !step.CapsReset?
    ensures var w' := Next(su, w, step); w'.caps.pending <= w'.caps.available.Keys
  {
    hide Next;
    if step == RunTask && w.todo != [] && CapsHandler(w.todo[0].handler) {
      CapsTaskPending(su, w);
    } else {
      OtherPending(su, w, step);
    }
  }

  /** Main result: in runs without Reset, only advertised capabilities are ever pending. */
  lemma {:induction false} PendingIsAdvertised(su: Setup, steps: seq<Step>)
    requires NoReset(steps)
    ensures var w := Run(su, steps); w.caps.pending <= w.caps.available.Keys
    decreases |steps|
  {
    if steps != [] {
      var before := steps[..|steps| - 1];
      PendingIsAdvertised(su, before);
      AvailableStep(su, Run(su, before), steps[|steps| - 1]);
    }
  }
}
