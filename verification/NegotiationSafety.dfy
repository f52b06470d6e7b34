/**
 Safety of the end of negotiation, over every run: the counting invariant that ties the three
 handlers, the queue and the waiters together, and what CAP END then guarantees.
 */
module NegotiationSafety {
  import opened GoStrings
  import opened Message
  import opened Events
  import opened Wire
  import opened EventBus
  import opened Io
  import opened Capabilities
  import opened Sasl
  import opened Registration
  import opened Keepalive
  import Tracking
  import opened Negotiation

  // ---------- what each handler can add to the queue and the wire ----------

  /** Same number of events of this type before and after. */
  predicate Same(io: Io, io': Io, kind: EventType) {
    Count(io'.queue, kind) == Count(io.queue, kind)
  }

  /** No ready signal, no CapEnd event, no CAP END line; a CapPreEnd event only together with a new waiter. */
  predicate CapsQuiet(c: Caps, io: Io, r: Result) {
    && r.caps.tokens == c.tokens
    && Same(io, r.io, CapEndReady) && Same(io, r.io, CapEnd)
    && CountEnds(r.io.log) == CountEnds(io.log)
    && ((r.caps.waiters == c.waiters && Same(io, r.io, CapPreEnd)) ||
        (r.caps.waiters == c.waiters + [Fresh] &&
         Count(r.io.queue, CapPreEnd) == Count(io.queue, CapPreEnd) + 1))
  }

  lemma EndNegotiationQuiet(c: Caps, io: Io)
    ensures CapsQuiet(c, io, EndNegotiation(c, io))
  {
    var e := Internally(CapPreEnd, CapPreEndData(c.acked.Keys, c.acked));
    CountEmit(io.queue, e, CapEndReady);
    CountEmit(io.queue, e, CapEnd);
    CountEmit(io.queue, e, CapPreEnd);
  }

  lemma ProcessNewQuiet(c: Caps, io: Io, net: Outcomes, text: string)
    ensures var r := ProcessNew(c, io, net, text);
            CapsQuiet(c, io, r)
  {
    ProcessNewFrame(c, io, net, text);
    hide Fields, Select, NamesOf, AddAvailable, Join, Count, CountEnds;
    var words := Fields(text);
    var available := AddAvailable(words, c.available);
    var chosen := Select(Select(NamesOf(words), Elements(c.requested)), available.Keys);
    CountEndsSnoc(io.log, Attempt("CAP", ["REQ", Join(chosen, ' ')], net(|io.log|)));
  }

  lemma OnLSQuiet(c: Caps, io: Io, net: Outcomes, e: Event)
    ensures CapsQuiet(c, io, OnLS(c, io, net, e))
  {
    ProcessNewQuiet(c, io, net, Trailing(e));
    ProcessNewFrame(c, io, net, Trailing(e));
    var r := ProcessNew(c, io, net, Trailing(e));
    EndNegotiationQuiet(r.caps, r.io);
  }

  lemma {:induction false} CapEventsCount(words: seq<string>, kind: EventType)
    requires kind != CapAdded && kind != CapRemoved
    ensures Count(AddedAll(words), kind) == 0 && Count(RemovedAll(words), kind) == 0
  {
    if words != [] {
      CapEventsCount(words[1..], kind);
      assert AddedAll(words)[1..] == AddedAll(words[1..]);
      assert RemovedAll(words)[1..] == RemovedAll(words[1..]);
    }
  }

  lemma CapEventsSame(io: Io, words: seq<string>, kind: EventType)
    requires kind != CapAdded && kind != CapRemoved
    ensures Same(io, EmitAll(io, AddedAll(words)), kind)
    ensures Same(io, EmitAll(io, RemovedAll(words)), kind)
  {
    CapEventsCount(words, kind);
    CountConcat(io.queue, AddedAll(words), kind);
    CountConcat(io.queue, RemovedAll(words), kind);
  }

  lemma OnACKQuiet(c: Caps, io: Io, e: Event)
    ensures CapsQuiet(c, io, OnACK(c, io, e))
  {
    hide Fields, AckAll, AddedAll, Count, CountEnds;
    var words := Fields(Trailing(e));
    AckAllFields(c, words);
    CapEventsSame(io, words, CapEndReady);
    CapEventsSame(io, words, CapEnd);
    CapEventsSame(io, words, CapPreEnd);
    EndNegotiationQuiet(AckAll(c, words), EmitAll(io, AddedAll(words)));
  }

  lemma OnNAKQuiet(c: Caps, io: Io, e: Event)
    ensures CapsQuiet(c, io, OnNAK(c, io, e))
  {
    EndNegotiationQuiet(c.(pending := c.pending - Elements(Fields(Trailing(e)))), io);
  }

  lemma OnDELQuiet(c: Caps, io: Io, e: Event)
    ensures CapsQuiet(c, io, OnDEL(c, io, e))
  {
    var words := Fields(Trailing(e));
    CapEventsSame(io, words, CapEndReady);
    CapEventsSame(io, words, CapEnd);
    CapEventsSame(io, words, CapPreEnd);
  }

  lemma OnConnectedQuiet(c: Caps, io: Io, net: Outcomes)
    ensures CapsQuiet(c, io, OnConnected(c, io, net))
  {
    CountEndsSnoc(io.log, Attempt("CAP", ["LS", PROTOCOL_VERSION], net(|io.log|)));
  }

  /** No CapPreEnd, no CapEnd, no CAP END; `ready` ready signals. */
  predicate Signals(io: Io, io': Io, ready: int) {
    && Count(io'.queue, CapEndReady) == Count(io.queue, CapEndReady) + ready
    && Same(io, io', CapPreEnd) && Same(io, io', CapEnd)
    && CountEnds(io'.log) == CountEnds(io.log)
  }

  lemma SignalsEmit(io: Io, e: Event)
    requires e.kind != CapPreEnd && e.kind != CapEnd
    ensures Signals(io, Emit(io, e), if e.kind == CapEndReady then 1 else 0)
  {
    CountEmit(io.queue, e, CapEndReady);
    CountEmit(io.queue, e, CapPreEnd);
    CountEmit(io.queue, e, CapEnd);
  }

  lemma SignalsSend(io: Io, net: Outcomes, command: string, params: seq<string>)
    requires command != "CAP"
    ensures Signals(io, Send(io, net, command, params), 0)
  {
    CountEndsSnoc(io.log, Attempt(command, params, net(|io.log|)));
  }

  lemma {:induction false} SignalsSendEach(io: Io, net: Outcomes, payloads: seq<string>)
    ensures Signals(io, SendEach(io, net, payloads).0, 0)
    decreases |payloads|
  {
    if payloads != [] {
      SignalsSend(io, net, "AUTHENTICATE", [payloads[0]]);
      SignalsSendEach(Send(io, net, "AUTHENTICATE", [payloads[0]]), net, payloads[1..]);
    }
  }

  function ActiveCount(s: Sasl): nat {
    if Active(s) then 1 else 0
  }

  /** A handler call emits at most as many ready signals as it gives up sessions, plus `credit`. */
  predicate Pays(s: Sasl, io: Io, r: SaslResult, credit: nat) {
    var ready := Count(r.io.queue, CapEndReady) - Count(io.queue, CapEndReady);
    Signals(io, r.io, ready) && ready + ActiveCount(r.sasl) <= ActiveCount(s) + credit
  }

  lemma StartPlainPays(s: Sasl, io: Io, net: Outcomes)
    ensures var r := StartPlain(s, io, net);
            Signals(io, r.io, 0) && ActiveCount(r.sasl) <= ActiveCount(s) + (if r.ok then 1 else 0)
  {
    hide Count, CountEnds;
    SignalsSend(io, net, "AUTHENTICATE", ["PLAIN"]);
  }

  lemma ErrorThenReady(io: Io, e: Event)
    requires e.kind != CapPreEnd && e.kind != CapEnd && e.kind != CapEndReady
    ensures Signals(io, Emit(Emit(io, e), Plain(CapEndReady)), 1)
  {
    hide Count, CountEnds;
    SignalsEmit(io, e);
    SignalsEmit(Emit(io, e), Plain(CapEndReady));
  }

  lemma OnPreEndPays(s: Sasl, io: Io, net: Outcomes, e: Event)
    ensures Pays(s, io, OnPreEnd(s, io, net, e), 1)
  {
    hide Count, CountEnds, StartPlain, MechanismsIn;
    SignalsEmit(io, Plain(CapEndReady));
    ErrorThenReady(io, Internally(Error, ErrorData("SASL required but not supported by server")));
    if e.data.CapPreEndData? {
      var s' := s.(mechanisms := MechanismsIn(e.data.capValues));
      var r := StartPlain(s', io, net);
      StartPlainPays(s', io, net);
      ErrorThenReady(r.io, FailEvent("unknown", "failed to start SASL"));
    }
  }

  lemma AbortPays(s: Sasl, io: Io, net: Outcomes)
    ensures Pays(s, io, AbortSession(s, io, net), 0) && Signals(io, AbortSession(s, io, net).io, 0)
    ensures Active(s) ==> !Active(AbortSession(s, io, net).sasl)
  {
    hide Count, CountEnds;
    SignalsSend(io, net, "AUTHENTICATE", ["*"]);
  }

  lemma OnAuthenticatePays(s: Sasl, io: Io, net: Outcomes, codec: Codec, e: Event)
    requires s.maxChunk > 0
    ensures Pays(s, io, OnAuthenticate(s, io, net, codec, e), 0)
  {
    hide Count, CountEnds, Split, PlainPayload, Payloads, SendEach;
    AbortPays(s, io, net);
    AbortPays(s.(state := Authenticating), io, net);
    if s.mechanism.Some? {
      var m := s.mechanism.value;
      var s2 := s.(state := Authenticating, mechanism := Some(Mechanism("", "", true)));
      var payloads := Payloads(codec.encode(PlainPayload(m.username, m.password)), s.maxChunk);
      SignalsSendEach(io, net, payloads);
      SignalsEmit(SendEach(io, net, payloads).0, FailEvent(NameOfMechanism(s2), "send failed"));
    }
  }

  lemma OnSuccessPays(s: Sasl, io: Io)
    ensures Pays(s, io, OnSuccess(s, io), 0)
  {
    hide Count, CountEnds;
    var e := Internally(SASLSuccess, SASLData("PLAIN", "authentication successful"));
    SignalsEmit(io, e);
    SignalsEmit(io, Plain(CapEndReady));
    SignalsEmit(Emit(io, e), Plain(CapEndReady));
  }

  lemma OnFailPays(s: Sasl, io: Io, e: Event)
    ensures Pays(s, io, OnFail(s, io, e), 0)
  {
    hide Count, CountEnds;
    var f := FailEvent(NameOfMechanism(s), FailReason(e));
    SignalsEmit(io, f);
    SignalsEmit(Emit(io, f), Plain(CapEndReady));
  }

  lemma OnTimerPays(s: Sasl, io: Io)
    ensures Pays(s, io, OnTimer(s, io), 0) && Signals(io, OnTimer(s, io).io, 0)
  {
    hide Count, CountEnds;
    SignalsEmit(io, FailEvent(NameOfMechanism(s), "timeout"));
  }

  lemma RegFailSignals(r: Reg, io: Io, text: string)
    ensures Signals(io, RegFail(r, io, text).io, 0)
  {
    SignalsEmit(io, ErrorEvent(text));
  }

  lemma SendUserSignals(r: Reg, io: Io, net: Outcomes)
    ensures Signals(io, SendUser(r, io, net).io, 0)
  {
    hide Count, CountEnds;
    var params := [r.config.username, "0", "*", r.config.realname];
    SignalsSend(io, net, "USER", params);
    RegFailSignals(r, Send(io, net, "USER", params), "failed to send USER command");
  }

  lemma SendNickSignals(r: Reg, io: Io, net: Outcomes)
    ensures Signals(io, SendNick(r, io, net).io, 0)
  {
    hide Count, CountEnds;
    var io' := Send(io, net, "NICK", [r.config.nick]);
    SignalsSend(io, net, "NICK", [r.config.nick]);
    RegFailSignals(r, io', "failed to send NICK command");
    SendUserSignals(r, io', net);
  }

  lemma OnRegConnectedSignals(r: Reg, io: Io, net: Outcomes)
    ensures Signals(io, OnRegConnected(r, io, net).io, 0)
  {
    hide Count, CountEnds;
    var r' := r.(state := RegStarted, timerArmed := true);
    var io' := Send(io, net, "PASS", [r.config.password]);
    SignalsSend(io, net, "PASS", [r.config.password]);
    RegFailSignals(r', io', "failed to send PASS command");
    SendNickSignals(r', io, net);
    SendNickSignals(r', io', net);
  }

  lemma OnNumericSignals(r: Reg, io: Io, net: Outcomes, e: Event)
    ensures Signals(io, OnNumeric(r, io, net, e).io, 0)
  {
    hide Count, CountEnds;
    SignalsSend(io, net, "NICK", [r.config.nick + "_"]);
    RegFailSignals(r, Send(io, net, "NICK", [r.config.nick + "_"]), "failed to send NICK command for collision");
  }

  lemma OnWelcomeSignals(r: Reg, io: Io, e: Event)
    ensures Signals(io, OnWelcome(r, io, e).io, 0)
  {
    hide Count, CountEnds;
    if e.message.Some? {
      SignalsEmit(io, Internally(Registered, ConnectedData(e.message.value.source)));
    }
  }

  lemma SendOrReportSignals(io: Io, net: Outcomes, command: string, params: seq<string>)
    requires command != "CAP"
    ensures Signals(io, SendOrReport(io, net, command, params), 0)
  {
    hide Count, CountEnds;
    SignalsSend(io, net, command, params);
    SignalsEmit(Send(io, net, command, params), Internally(Error, ErrorData("failed to send ping")));
  }

  // ---------- the dispatcher's task list ----------

  function CountHandlers(hs: seq<Handler>, h: Handler): nat {
    if hs == [] then 0 else (if hs[0] == h then 1 else 0) + CountHandlers(hs[1..], h)
  }

  lemma {:induction false} CountTasksOf(hs: seq<Handler>, e: Event, h: Handler)
    ensures CountTasks(TasksOf(hs, e), h) == CountHandlers(hs, h)
  {
    if hs != [] {
      assert TasksOf(hs, e)[1..] == TasksOf(hs[1..], e);
      CountTasksOf(hs[1..], e, h);
    }
  }

  lemma {:induction false} CountNone(hs: seq<Handler>, h: Handler)
    requires h !in hs
    ensures CountHandlers(hs, h) == 0
  {
    if hs != [] {
      CountNone(hs[1..], h);
    }
  }

  lemma {:induction false} CountOnce(hs: seq<Handler>, h: Handler, i: nat)
    requires i < |hs| && hs[i] == h && forall j | 0 <= j < |hs| && j != i :: hs[j] != h
    ensures CountHandlers(hs, h) == 1
  {
    if i == 0 {
      assert forall j | 0 <= j < |hs[1..]| :: hs[1..][j] == hs[j + 1];
      CountNone(hs[1..], h);
    } else {
      assert forall j | 0 <= j < |hs[1..]| :: hs[1..][j] == hs[j + 1];
      CountOnce(hs[1..], h, i - 1);
    }
  }

  lemma OthersAbsent(su: Setup, reg: Reg, kind: EventType)
    ensures kind != CapPreEnd || !su.hasSasl ==> SaslOnPreEnd !in HandlersOf(su, reg, kind)
    ensures kind != CapEndReady ==> CapsOnEndReady !in HandlersOf(su, reg, kind)
    ensures kind != CapEnd ==> CapsOnEnd !in HandlersOf(su, reg, kind)
  {
    hide ClientKind;
  }

  lemma PreEndOnce(su: Setup, reg: Reg)
    requires su.hasSasl
    ensures CountHandlers(HandlersOf(su, reg, CapPreEnd), SaslOnPreEnd) == 1
  {
    var hs := HandlersOf(su, reg, CapPreEnd);
    assert hs == [SaslOnPreEnd] + Users(su.listeners);
    CountOnce(hs, SaslOnPreEnd, 0);
  }

  lemma EndReadyOnce(su: Setup, reg: Reg)
    ensures CountHandlers(HandlersOf(su, reg, CapEndReady), CapsOnEndReady) == 1
  {
    var hs := HandlersOf(su, reg, CapEndReady);
    assert hs == if su.hasSasl then [SaslCounting, CapsOnEndReady] else [CapsOnEndReady];
    CountOnce(hs, CapsOnEndReady, if su.hasSasl then 1 else 0);
  }

  lemma EndOnce(su: Setup, reg: Reg)
    ensures CountHandlers(HandlersOf(su, reg, CapEnd), CapsOnEnd) == 1
  {
    CountOnce([CapsOnEnd], CapsOnEnd, 0);
  }

  lemma CountDispatched(su: Setup, reg: Reg, e: Event)
    ensures CountTasks(TasksOf(HandlersOf(su, reg, e.kind), e), SaslOnPreEnd) ==
            if su.hasSasl && e.kind == CapPreEnd then 1 else 0
    ensures CountTasks(TasksOf(HandlersOf(su, reg, e.kind), e), CapsOnEndReady) ==
            if e.kind == CapEndReady then 1 else 0
    ensures CountTasks(TasksOf(HandlersOf(su, reg, e.kind), e), CapsOnEnd) ==
            if e.kind == CapEnd then 1 else 0
  {
    hide *;
    var hs := HandlersOf(su, reg, e.kind);
    CountTasksOf(hs, e, SaslOnPreEnd);
    CountTasksOf(hs, e, CapsOnEndReady);
    CountTasksOf(hs, e, CapsOnEnd);
    OthersAbsent(su, reg, e.kind);
    if su.hasSasl && e.kind == CapPreEnd {
      PreEndOnce(su, reg);
    } else {
      CountNone(hs, SaslOnPreEnd);
    }
    if e.kind == CapEndReady {
      EndReadyOnce(su, reg);
    } else {
      CountNone(hs, CapsOnEndReady);
    }
    if e.kind == CapEnd {
      EndOnce(su, reg);
    } else {
      CountNone(hs, CapsOnEnd);
    }
  }

  // ---------- the counting invariant ----------

  predicate WaitersCounted(su: Setup, waiters: seq<Waiter>, consumed: nat) {
    forall i | 0 <= i < |waiters| && waiters[i].Counting? ::
      waiters[i].expected == ListenerCount(su) && waiters[i].ready <= consumed
  }

  function Below(n: nat): set<nat> {
    if n == 0 then {} else Below(n - 1) + {n - 1}
  }

  lemma {:induction false} InBelow(i: nat, n: nat)
    ensures i in Below(n) <==> i < n
  {
    if n > 0 {
      InBelow(i, n - 1);
    }
  }

  /**
   Ready signals the SASL handler has emitted, plus its active session, never exceed the CapPreEnd
   events it has handled; and the ready signals received, buffered, queued or being handled never
   exceed those emitted.
   */
  ghost predicate Counted(su: Setup, w: World, h: History) {
    && (su.hasSasl ==>
          && h.saslSignals + ActiveCount(w.sasl) <= h.handledBySasl
          && h.handledBySasl + CountTasks(w.todo, SaslOnPreEnd) + Count(w.io.queue, CapPreEnd) == h.rounds)
    && (!su.hasSasl ==> h.saslSignals == 0)
    && h.signalled <= Below(su.listeners)
    && (!h.repeated ==>
          h.consumed + w.caps.tokens + CountTasks(w.todo, CapsOnEndReady) + Count(w.io.queue, CapEndReady)
          <= h.saslSignals + |h.signalled|)
    && WaitersCounted(su, w.caps.waiters, h.consumed)
    && (h.endedByReady ==> h.consumed >= ListenerCount(su))
    && (CountEnds(w.io.log) > 0 ==> h.endedByReady || h.endedByTimer)
    && Count(w.io.queue, CapEnd) == 0 && CountTasks(w.todo, CapsOnEnd) == 0
    && (!su.hasSasl ==> forall t | t in w.todo :: !SaslHandler(t.handler))
  }

  predicate SaslHandler(h: Handler) {
    h in {SaslOnPreEnd, SaslAuthenticate, SaslOnSuccess, SaslOnFail}
  }

  lemma TasksWithoutSasl(su: Setup, reg: Reg, e: Event)
    requires !su.hasSasl
    ensures forall t | t in TasksOf(HandlersOf(su, reg, e.kind), e) :: !SaslHandler(t.handler)
  {
    var hs := HandlersOf(su, reg, e.kind);
    assert forall h | h in hs :: !SaslHandler(h);
    forall t | t in TasksOf(hs, e) ensures !SaslHandler(t.handler) {
      var i :| 0 <= i < |hs| && TasksOf(hs, e)[i] == t;
      assert hs[i] in hs;
    }
  }

  lemma DispatchFacts(su: Setup, w: World, h: History)
    requires Enabled(su, w, Dispatch)
    ensures var e := w.io.queue[0];
            Next(su, w, Dispatch) ==
            w.(io := w.io.(queue := w.io.queue[1..]), todo := TasksOf(HandlersOf(su, w.reg, e.kind), e))
    ensures Observe(su, w, h, Dispatch) == h.(everPending := h.everPending + w.caps.pending)
    ensures forall k :: Count(w.io.queue, k) == Count(w.io.queue[1..], k) + if w.io.queue[0].kind == k then 1 else 0
    ensures forall x :: CountTasks(w.todo, x) == 0
  {
    hide HandlersOf, TasksOf;
  }

  lemma DispatchKeeps(su: Setup, w: World, h: History)
    requires Counted(su, w, h) && Enabled(su, w, Dispatch)
    ensures Counted(su, Next(su, w, Dispatch), Observe(su, w, h, Dispatch))
  {
    hide Next, Observe, Count, CountTasks, HandlersOf, TasksOf, WaitersCounted, SaslHandler;
    var e := w.io.queue[0];
    DispatchFacts(su, w, h);
    CountDispatched(su, w.reg, e);
    if !su.hasSasl {
      TasksWithoutSasl(su, w.reg, e);
    }
  }

  lemma PopCounts(ts: seq<Task>, h: Handler)
    requires ts != []
    ensures CountTasks(ts, h) == CountTasks(ts[1..], h) + if ts[0].handler == h then 1 else 0
  {
  }

  /** What running a task adds to the parts of the history that Counted reads. */
  lemma TaskHistory(su: Setup, w: World, h: History)
    requires w.todo != []
    ensures var k, w', h' := w.todo[0].handler, Next(su, w, RunTask), Observe(su, w, h, RunTask);
            && h'.rounds == h.rounds + Emitted(w, w', CapPreEnd)
            && h'.handledBySasl == h.handledBySasl + (if k == SaslOnPreEnd then 1 else 0)
            && h'.saslSignals == h.saslSignals + (if SaslHandler(k) then Emitted(w, w', CapEndReady) else 0)
            && h'.signalled == h.signalled && h'.repeated == h.repeated && h'.consumed == h.consumed
            && h'.endedByReady == h.endedByReady && h'.endedByTimer == h.endedByTimer
  {
    hide Next, Count, Answers;
  }

  /** What running a task of the capability handler does to the world. */
  lemma CapsTask(su: Setup, w: World)
    requires w.todo != []
    requires w.todo[0].handler in {CapsOnConnected, CapsOnLS, CapsOnACK, CapsOnNAK, CapsOnDEL, CapsOnNEW}
    ensures var w' := Next(su, w, RunTask);
            w'.todo == w.todo[1..] && w'.sasl == w.sasl && w'.reg == w.reg
            && CapsQuiet(w.caps, w.io, Result(w'.caps, w'.io, true))
  {
    hide CapsQuiet, OnLS, OnACK, OnNAK, OnDEL, ProcessNew;
    var e := w.todo[0].event;
    match w.todo[0].handler
    case CapsOnConnected => OnConnectedQuiet(w.caps, w.io, su.net);
    case CapsOnLS => OnLSQuiet(w.caps, w.io, su.net, e); QuietResult(w.caps, w.io, OnLS(w.caps, w.io, su.net, e));
    case CapsOnACK => OnACKQuiet(w.caps, w.io, e); QuietResult(w.caps, w.io, OnACK(w.caps, w.io, e));
    case CapsOnNAK => OnNAKQuiet(w.caps, w.io, e); QuietResult(w.caps, w.io, OnNAK(w.caps, w.io, e));
    case CapsOnDEL => OnDELQuiet(w.caps, w.io, e); QuietResult(w.caps, w.io, OnDEL(w.caps, w.io, e));
    case CapsOnNEW =>
      ProcessNewQuiet(w.caps, w.io, su.net, Trailing(e));
      NothingQuiet(w.caps, w.io);
      QuietResult(w.caps, w.io, OnNEW(w.caps, w.io, su.net, e));
  }

  lemma QuietResult(c: Caps, io: Io, r: Result)
    requires CapsQuiet(c, io, r)
    ensures CapsQuiet(c, io, Result(r.caps, r.io, true))
  {
  }

  lemma NothingQuiet(c: Caps, io: Io)
    ensures CapsQuiet(c, io, Result(c, io, true))
  {
  }

  lemma CapsTaskKeeps(su: Setup, w: World, h: History)
    requires Counted(su, w, h) && w.todo != []
    requires w.todo[0].handler in {CapsOnConnected, CapsOnLS, CapsOnACK, CapsOnNAK, CapsOnDEL, CapsOnNEW}
    ensures Counted(su, Next(su, w, RunTask), Observe(su, w, h, RunTask))
  {
    hide Next, Observe, Count, CountTasks, CountEnds;
    TaskHistory(su, w, h);
    CapsTask(su, w);
    PopCounts(w.todo, SaslOnPreEnd);
    PopCounts(w.todo, CapsOnEndReady);
    PopCounts(w.todo, CapsOnEnd);
  }

  /** What running a task of the SASL handler does to the world. */
  lemma SaslTask(su: Setup, w: World)
    requires w.todo != [] && SaslHandler(w.todo[0].handler)
    ensures var w' := Next(su, w, RunTask);
            w'.todo == w.todo[1..] && w'.caps == w.caps && w'.reg == w.reg
            && Pays(w.sasl, w.io, SaslResult(w'.sasl, w'.io, true),
                    if w.todo[0].handler == SaslOnPreEnd then 1 else 0)
  {
    hide Count, CountEnds, OnPreEnd, OnAuthenticate, OnSuccess, OnFail;
    var e := w.todo[0].event;
    match w.todo[0].handler
    case SaslOnPreEnd => OnPreEndPays(w.sasl, w.io, su.net, e);
    case SaslAuthenticate =>
      if w.sasl.maxChunk > 0 {
        OnAuthenticatePays(w.sasl, w.io, su.net, su.codec, e);
      }
    case SaslOnSuccess => OnSuccessPays(w.sasl, w.io);
    case SaslOnFail => OnFailPays(w.sasl, w.io, e);
  }

  lemma SaslTaskKeeps(su: Setup, w: World, h: History)
    requires Counted(su, w, h) && w.todo != [] && SaslHandler(w.todo[0].handler)
    ensures Counted(su, Next(su, w, RunTask), Observe(su, w, h, RunTask))
  {
    hide Next, Observe, Count, CountTasks, CountEnds;
    TaskHistory(su, w, h);
    assert w.todo[0] in w.todo;
    SaslTask(su, w);
    PopCounts(w.todo, SaslOnPreEnd);
    PopCounts(w.todo, CapsOnEndReady);
    PopCounts(w.todo, CapsOnEnd);
  }

  predicate QuietHandler(h: Handler) {
    h in {RegOnConnected, RegOnWelcome, RegOnNumeric, ClientOnEvent,
          PingOnPing, PingOnRaw, PingOnWelcome, SaslCounting} || h.User?
  }

  lemma QuietTask(su: Setup, w: World)
    requires w.todo != [] && QuietHandler(w.todo[0].handler)
    ensures var w' := Next(su, w, RunTask);
            w'.todo == w.todo[1..] && w'.sasl == w.sasl && w'.caps == w.caps && Signals(w.io, w'.io, 0)
  {
    hide Count, CountEnds, OnRegConnected, OnNumeric, OnWelcome, SendOrReport, EmitAll, Tracking.OnEvent, Tracking.NamesDone, Signals;
    var e := w.todo[0].event;
    NoSignals(w.io);
    match w.todo[0].handler
    case RegOnConnected => OnRegConnectedSignals(w.reg, w.io, su.net);
    case RegOnNumeric => OnNumericSignals(w.reg, w.io, su.net, e);
    case RegOnWelcome => OnWelcomeSignals(w.reg, w.io, e);
    case PingOnPing =>
      if e.data.PingData? {
        SendOrReportSignals(w.io, su.net, "PONG", [e.data.server]);
      }
    case ClientOnEvent => NamesDoneSignals(w.io, w.client, e);
    case _ =>
  }

  lemma NoSignals(io: Io)
    ensures Signals(io, io, 0)
  {
  }

  lemma NamesDoneSignals(io: Io, v: Tracking.ClientView, e: Event)
    ensures Signals(io, EmitAll(io, Tracking.NamesDone(v, e)), 0)
  {
    hide Count, CountEnds;
    SignalsEmit(io, Event(NamesComplete, e.message, NoData));
    assert io.queue + [] == io.queue;
  }

  lemma QuietTaskKeeps(su: Setup, w: World, h: History)
    requires Counted(su, w, h) && w.todo != [] && QuietHandler(w.todo[0].handler)
    ensures Counted(su, Next(su, w, RunTask), Observe(su, w, h, RunTask))
  {
    hide Next, Observe, Count, CountTasks, CountEnds;
    TaskHistory(su, w, h);
    QuietTask(su, w);
    PopCounts(w.todo, SaslOnPreEnd);
    PopCounts(w.todo, CapsOnEndReady);
    PopCounts(w.todo, CapsOnEnd);
  }

  lemma ReadyTaskKeeps(su: Setup, w: World, h: History)
    requires Counted(su, w, h) && w.todo != [] && w.todo[0].handler == CapsOnEndReady
    ensures Counted(su, Next(su, w, RunTask), Observe(su, w, h, RunTask))
  {
    hide Observe, Count, CountTasks, CountEnds;
    TaskHistory(su, w, h);
    PopCounts(w.todo, SaslOnPreEnd);
    PopCounts(w.todo, CapsOnEndReady);
    PopCounts(w.todo, CapsOnEnd);
  }

  lemma TaskKeeps(su: Setup, w: World, h: History)
    requires Counted(su, w, h) && Enabled(su, w, RunTask)
    ensures Counted(su, Next(su, w, RunTask), Observe(su, w, h, RunTask))
  {
    hide Next, Observe, CountTasks;
    if SaslHandler(w.todo[0].handler) {
      SaslTaskKeeps(su, w, h);
    } else if w.todo[0].handler in {CapsOnConnected, CapsOnLS, CapsOnACK, CapsOnNAK, CapsOnDEL, CapsOnNEW} {
      CapsTaskKeeps(su, w, h);
    } else {
      PopCounts(w.todo, CapsOnEnd);
      if w.todo[0].handler == CapsOnEndReady {
        ReadyTaskKeeps(su, w, h);
      } else {
        QuietTaskKeeps(su, w, h);
      }
    }
  }

  lemma SignalsAreInternal()
    ensures Internal(CapPreEnd) && Internal(CapEndReady) && Internal(CapEnd)
  {
  }

  lemma LineSignals(io: Io, msg: Message)
    requires EventsOf(msg).Some?
    ensures Signals(io, EmitAll(io, LineEvents(msg)), 0)
  {
    hide EventsOf, LineEvents, Count, CountEnds, Internal;
    LineCannotForge(msg);
    SignalsAreInternal();
    var es := LineEvents(msg);
    CountConcat(io.queue, es, CapPreEnd);
    CountConcat(io.queue, es, CapEndReady);
    CountConcat(io.queue, es, CapEnd);
    CountAbsent(es, CapPreEnd);
    CountAbsent(es, CapEndReady);
    CountAbsent(es, CapEnd);
  }

  lemma LineObserved(su: Setup, w: World, h: History, msg: Message)
    requires EventsOf(msg).Some? && Emitted(w, Next(su, w, ServerLine(msg)), CapPreEnd) == 0
    ensures Observe(su, w, h, ServerLine(msg)) == h.(everPending := h.everPending + Next(su, w, ServerLine(msg)).caps.pending)
  {
    hide Next, Count;
  }

  lemma ServerLineKeeps(su: Setup, w: World, h: History, msg: Message)
    requires Counted(su, w, h) && EventsOf(msg).Some?
    ensures Counted(su, Next(su, w, ServerLine(msg)), Observe(su, w, h, ServerLine(msg)))
  {
    hide Counted, Observe, EventsOf, LineEvents, Count, CountTasks, CountEnds;
    LineSignals(w.io, msg);
    LineObserved(su, w, h, msg);
    CountedFrom(su, w, h, Next(su, w, ServerLine(msg)), Observe(su, w, h, ServerLine(msg)));
  }

  lemma {:induction false} CountAbsent(es: seq<Event>, kind: EventType)
    requires forall e | e in es :: e.kind != kind
    ensures Count(es, kind) == 0
  {
    if es != [] {
      CountAbsent(es[1..], kind);
    }
  }

  lemma {:induction false} BelowSize(n: nat)
    ensures |Below(n)| == n
  {
    if n > 0 {
      BelowSize(n - 1);
      InBelow(n - 1, n - 1);
    }
  }

  lemma AddSize(s: set<nat>, i: nat)
    ensures |s + {i}| == |s| + if i in s then 0 else 1
  {
    if i in s {
      assert s + {i} == s;
    }
  }

  lemma SignalFacts(su: Setup, w: World, h: History, i: nat)
    requires i < su.listeners
    ensures Next(su, w, Signal(i)) == w.(io := Emit(w.io, Plain(CapEndReady)))
    ensures Observe(su, w, h, Signal(i)) ==
            h.(signalled := h.signalled + {i}, repeated := h.repeated || i in h.signalled,
               everPending := h.everPending + w.caps.pending)
  {
    hide Count;
    SignalsEmit(w.io, Plain(CapEndReady));
  }

  lemma SignalKeeps(su: Setup, w: World, h: History, i: nat)
    requires Counted(su, w, h) && i < su.listeners
    ensures Counted(su, Next(su, w, Signal(i)), Observe(su, w, h, Signal(i)))
  {
    hide Next, Observe, Count, CountTasks, CountEnds, Below, WaitersCounted;
    SignalFacts(su, w, h, i);
    SignalsEmit(w.io, Plain(CapEndReady));
    InBelow(i, su.listeners);
    AddSize(h.signalled, i);
  }

  lemma CapEndCounts(c: Caps, io: Io, net: Outcomes)
    ensures var r := OnCapEnd(c, io, net);
            r.io.queue == io.queue && r.caps.tokens == c.tokens && r.caps.waiters == c.waiters
            && CountEnds(r.io.log) == CountEnds(io.log) + 1
  {
    CountEndsSnoc(io.log, Attempt("CAP", ["END"], net(|io.log|)));
  }

  lemma DropKeeps(su: Setup, waiters: seq<Waiter>, i: nat, consumed: nat)
    requires i < |waiters| && WaitersCounted(su, waiters, consumed)
    ensures WaitersCounted(su, waiters[..i] + waiters[i + 1..], consumed)
  {
  }

  lemma FinishObserved(su: Setup, w: World, h: History, step: Step)
    requires Enabled(su, w, step)
    requires step.TimeOutWaiter? || FinishesByReady(su, w, step)
    requires Next(su, w, step).io.queue == w.io.queue
    ensures Observe(su, w, h, step) ==
            h.(consumed := h.consumed + if step.ReadyWaiter? then 1 else 0,
               endedByReady := h.endedByReady || !step.TimeOutWaiter?,
               endedByTimer := h.endedByTimer || step.TimeOutWaiter?,
               everPending := h.everPending + Next(su, w, step).caps.pending)
  {
    hide Next, Count;
  }

  lemma FinishFacts(su: Setup, w: World, h: History, step: Step)
    requires Counted(su, w, h) && Enabled(su, w, step)
    requires step.TimeOutWaiter? || FinishesByReady(su, w, step)
    ensures var w' := Next(su, w, step);
            var taken := if step.ReadyWaiter? then 1 else 0;
            && w'.todo == w.todo && w'.io.queue == w.io.queue && w'.sasl == w.sasl
            && w'.caps.tokens == w.caps.tokens - taken
            && WaitersCounted(su, w'.caps.waiters, h.consumed)
            && Observe(su, w, h, step) ==
               h.(consumed := h.consumed + taken, endedByReady := h.endedByReady || !step.TimeOutWaiter?,
                  endedByTimer := h.endedByTimer || step.TimeOutWaiter?,
                  everPending := h.everPending + w'.caps.pending)
  {
    hide Count, CountTasks, CountEnds, Observe, WaitersCounted;
    var c := if step.ReadyWaiter? then w.caps.(tokens := w.caps.tokens - 1) else w.caps;
    var w' := Next(su, w, step);
    assert w' == WithCaps(w, OnCapEnd(DropWaiter(c, step.i), w.io, su.net));
    FinishObserved(su, w, h, step);
    DropKeeps(su, w.caps.waiters, step.i, h.consumed);
  }

  lemma FinishKeeps(su: Setup, w: World, h: History, step: Step)
    requires Counted(su, w, h) && Enabled(su, w, step)
    requires step.TimeOutWaiter? || FinishesByReady(su, w, step)
    ensures Counted(su, Next(su, w, step), Observe(su, w, h, step))
  {
    hide Next, Observe, Count, CountTasks, CountEnds, Below;
    FinishFacts(su, w, h, step);
    if step.ReadyWaiter? {
      assert h.consumed + 1 >= ListenerCount(su);
    }
    var w' := Next(su, w, step);
    assert WaitersCounted(su, w'.caps.waiters, Observe(su, w, h, step).consumed);
  }

  lemma WaiterObserved(su: Setup, w: World, h: History, step: Step)
    requires Enabled(su, w, step) && !FinishesByReady(su, w, step)
    requires step.StartWaiter? || step.ReadyWaiter? || step.CancelWaiter?
    ensures Next(su, w, step).io == w.io
    ensures Observe(su, w, h, step) ==
            h.(consumed := h.consumed + if step.ReadyWaiter? then 1 else 0,
               everPending := h.everPending + Next(su, w, step).caps.pending)
  {
    hide Count;
  }

  lemma WaiterKeeps(su: Setup, w: World, h: History, step: Step)
    requires Counted(su, w, h) && Enabled(su, w, step)
    requires step.StartWaiter? || step.ReadyWaiter? || step.CancelWaiter?
    requires !FinishesByReady(su, w, step)
    ensures Counted(su, Next(su, w, step), Observe(su, w, h, step))
  {
    hide Count, CountTasks, CountEnds, Observe, Below;
    WaiterObserved(su, w, h, step);
    var w', h' := Next(su, w, step), Observe(su, w, h, step);
    assert WaitersCounted(su, w'.caps.waiters, h'.consumed);
  }

  predicate OutsideStep(step: Step) {
    step.PingTimer? || step in {SaslTimer, RegTimer, SaslAbort, SaslReset, CapsReset, ConnectionUp, ConnectionDown, BadLine}
  }

  lemma BadLineSignals(io: Io)
    ensures Signals(io, EmitAll(io, [Plain(RawIncoming), ErrorEvent("failed to parse message")]), 0)
  {
    hide Count, CountEnds;
    var e := ErrorEvent("failed to parse message");
    SignalsEmit(io, Plain(RawIncoming));
    SignalsEmit(Emit(io, Plain(RawIncoming)), e);
    assert io.queue + [Plain(RawIncoming)] + [e] == io.queue + [Plain(RawIncoming), e];
  }

  lemma OutsideFacts(su: Setup, w: World, step: Step)
    requires Enabled(su, w, step) && OutsideStep(step)
    ensures var w' := Next(su, w, step);
            w'.todo == w.todo && w'.caps.tokens == w.caps.tokens && w'.caps.waiters == w.caps.waiters
            && Signals(w.io, w'.io, 0) && ActiveCount(w'.sasl) <= ActiveCount(w.sasl)
  {
    hide Count, CountEnds, OnTimer, AbortSession, SendOrReport;
    match step
    case SaslTimer => OnTimerPays(w.sasl, w.io);
    case SaslAbort => AbortPays(w.sasl, w.io, su.net);
    case RegTimer => SignalsEmit(w.io, ErrorEvent("registration timeout"));
    case PingTimer(clock) => SendOrReportSignals(w.io, su.net, "PING", ["tithon-" + clock]);
    case ConnectionUp => SignalsEmit(w.io, Internally(Connected, ConnectedData("")));
    case ConnectionDown => SignalsEmit(w.io, Plain(Disconnected));
    case BadLine => BadLineSignals(w.io);
    case SaslReset =>
    case CapsReset =>
  }

  /** A step that neither runs a task nor touches a waiter changes at most these parts of the history. */
  lemma OutsideObserved(su: Setup, w: World, h: History, step: Step)
    requires OutsideStep(step) && Emitted(w, Next(su, w, step), CapPreEnd) == 0
    ensures Observe(su, w, h, step) == h.(everPending := h.everPending + Next(su, w, step).caps.pending)
  {
    hide Next, Count;
  }

  lemma CountedFrom(su: Setup, w: World, h: History, w': World, h': History)
    requires Counted(su, w, h)
    requires w'.todo == w.todo && w'.caps.tokens == w.caps.tokens && w'.caps.waiters == w.caps.waiters
    requires Signals(w.io, w'.io, 0) && ActiveCount(w'.sasl) <= ActiveCount(w.sasl)
    requires h' == h.(everPending := h'.everPending)
    ensures Counted(su, w', h')
  {
    hide Count, CountTasks, CountEnds, WaitersCounted, Below, ActiveCount;
  }

  lemma TimersKeep(su: Setup, w: World, h: History, step: Step)
    requires Counted(su, w, h) && Enabled(su, w, step) && OutsideStep(step)
    ensures Counted(su, Next(su, w, step), Observe(su, w, h, step))
  {
    hide Counted, Next, Observe, Count, CountTasks, CountEnds;
    OutsideFacts(su, w, step);
    OutsideObserved(su, w, h, step);
    CountedFrom(su, w, h, Next(su, w, step), Observe(su, w, h, step));
  }

  lemma StepKeeps(su: Setup, w: World, h: History, step: Step)
    requires Counted(su, w, h)
    ensures Counted(su, Next(su, w, step), Observe(su, w, h, step))
  {
    if !Enabled(su, w, step) {
      IdleKeeps(su, w, h, step);
    } else {
      hide Counted, Next, Observe;
      match step
      case Dispatch => DispatchKeeps(su, w, h);
      case RunTask => TaskKeeps(su, w, h);
      case ServerLine(msg) => ServerLineKeeps(su, w, h, msg);
      case Signal(i) => SignalKeeps(su, w, h, i);
      case TimeOutWaiter(_) => FinishKeeps(su, w, h, step);
      case CancelWaiter(_) => WaiterKeeps(su, w, h, step);
      case StartWaiter(_) =>
        if FinishesByReady(su, w, step) {
          FinishKeeps(su, w, h, step);
        } else {
          WaiterKeeps(su, w, h, step);
        }
      case ReadyWaiter(_) =>
        if FinishesByReady(su, w, step) {
          FinishKeeps(su, w, h, step);
        } else {
          WaiterKeeps(su, w, h, step);
        }
      case _ => TimersKeep(su, w, h, step);
    }
  }

  lemma IdleKeeps(su: Setup, w: World, h: History, step: Step)
    requires Counted(su, w, h) && !Enabled(su, w, step)
    ensures Counted(su, Next(su, w, step), Observe(su, w, h, step))
  {
    hide Count, CountTasks, CountEnds;
  }

  /** Main invariant: the signals are counted in every reachable state. */
  lemma {:induction false} CountedAlways(su: Setup, steps: seq<Step>)
    ensures Counted(su, Run(su, steps), HistoryOf(su, steps))
    decreases |steps|
  {
    if steps != [] {
      var before := steps[..|steps| - 1];
      CountedAlways(su, before);
      StepKeeps(su, Run(su, before), HistoryOf(su, before), steps[|steps| - 1]);
    }
  }

  // ---------- what CAP END guarantees ----------

  /**
   Main result. In every run with at most one CapPreEnd round in which no other listener signals
   twice: if CAP END was sent and no waiter timed out, then every listener has signalled, the SASL
   handler too, and its session is not active.
   */
  lemma {:induction false} CapEndMeansReady(su: Setup, steps: seq<Step>)
    ensures var w, h := Run(su, steps), HistoryOf(su, steps);
            h.rounds <= 1 && !h.repeated && !h.endedByTimer && CountEnds(w.io.log) > 0 ==>
              h.signalled == Below(su.listeners) && (su.hasSasl ==> h.saslSignals == 1 && !Active(w.sasl))
  {
    var w, h := Run(su, steps), HistoryOf(su, steps);
    CountedAlways(su, steps);
    BelowSize(su.listeners);
    if h.rounds <= 1 && !h.repeated && !h.endedByTimer && CountEnds(w.io.log) > 0 {
      SubsetSize(h.signalled, Below(su.listeners));
      assert h.consumed <= h.saslSignals + |h.signalled|;
      assert |h.signalled| == su.listeners;
      SubsetEqual(h.signalled, Below(su.listeners));
    }
  }

  lemma SubsetSize(a: set<nat>, b: set<nat>)
    requires a <= b
    ensures |a| <= |b|
  {
    assert b == a + (b - a);
  }

  lemma SubsetEqual(a: set<nat>, b: set<nat>)
    requires a <= b && |a| == |b|
    ensures a == b
  {
    assert b == a + (b - a);
    assert |b - a| == 0;
  }

  lemma LogGrows(su: Setup, w: World, step: Step)
    ensures CountEnds(Next(su, w, step).io.log) >= CountEnds(w.io.log)
  {
    hide Count, CountEnds;
    if Enabled(su, w, step) {
      if OutsideStep(step) {
        OutsideFacts(su, w, step);
      } else if step == RunTask {
        TaskLogGrows(su, w);
      } else if step.StartWaiter? || step.TimeOutWaiter? {
        CapEndCounts(DropWaiter(w.caps, step.i), w.io, su.net);
      } else if step.ReadyWaiter? {
        CapEndCounts(DropWaiter(w.caps.(tokens := w.caps.tokens - 1), step.i), w.io, su.net);
      }
    }
  }

  lemma TaskLogGrows(su: Setup, w: World)
    requires w.todo != []
    ensures CountEnds(Next(su, w, RunTask).io.log) >= CountEnds(w.io.log)
  {
    hide Count, CountEnds;
    var h := w.todo[0].handler;
    if SaslHandler(h) {
      SaslTask(su, w);
    } else if QuietHandler(h) {
      QuietTask(su, w);
    } else if h == CapsOnEnd {
      CapEndCounts(w.caps, w.io, su.net);
    } else if h != CapsOnEndReady {
      CapsTask(su, w);
    }
  }

  lemma RunSnoc(su: Setup, steps: seq<Step>, step: Step)
    ensures Run(su, steps + [step]) == Next(su, Run(su, steps), step)
    ensures HistoryOf(su, steps + [step]) == Observe(su, Run(su, steps), HistoryOf(su, steps), step)
  {
    assert (steps + [step])[..|steps|] == steps;
  }

  lemma LastStep(su: Setup, steps: seq<Step>, more: seq<Step>)
    requires more != []
    ensures Run(su, steps + more) == Next(su, Run(su, steps + more[..|more| - 1]), more[|more| - 1])
  {
    hide Next;
    var front, last := more[..|more| - 1], more[|more| - 1];
    assert steps + more == (steps + front) + [last];
    RunSnoc(su, steps + front, last);
  }

  lemma {:induction false} EndsPersist(su: Setup, steps: seq<Step>, more: seq<Step>)
    ensures CountEnds(Run(su, steps + more).io.log) >= CountEnds(Run(su, steps).io.log)
    decreases |more|
  {
    hide *;
    if more == [] {
      assert steps + more == steps;
    } else {
      EndsPersist(su, steps, more[..|more| - 1]);
      LogGrows(su, Run(su, steps + more[..|more| - 1]), more[|more| - 1]);
      LastStep(su, steps, more);
    }
  }

  /** ... then or ever after: once CAP END is out, no continuation of the run reactivates SASL. */
  lemma {:induction false} NotActiveEverAfter(su: Setup, steps: seq<Step>, more: seq<Step>)
    requires CountEnds(Run(su, steps).io.log) > 0
    ensures var w, h := Run(su, steps + more), HistoryOf(su, steps + more);
            h.rounds <= 1 && !h.repeated && !h.endedByTimer ==>
              h.signalled == Below(su.listeners) && (su.hasSasl ==> h.saslSignals == 1 && !Active(w.sasl))
  {
    EndsPersist(su, steps, more);
    CapEndMeansReady(su, steps + more);
  }
}
