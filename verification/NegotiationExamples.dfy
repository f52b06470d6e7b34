/**
 Four runs of the library as factory.go configures it, each line a server may send. They show that the
 conditions of the theorems are needed.
 */
module NegotiationExamples {
  import opened GoStrings
  import opened Message
  import opened Events
  import opened Wire
  import opened EventBus
  import opened Io
  import opened Capabilities
  import opened Sasl
  import opened Registration
  import opened Keepalive
  import opened Negotiation
  import opened NegotiationSafety
  import opened RegistrationRuns
  import opened NegotiationSignals
  import opened NegotiationClosed
  import Tracking

  /** Every send succeeds and nobody else listens for CapPreEnd; `hasSasl` says whether there are credentials. */
  function Plainly(codec: Codec, hasSasl: bool): Setup {
    Setup(_ => true, codec, hasSasl, if hasSasl then "u" else "", if hasSasl then "p" else "", REQUESTED,
          Config("n", "u", "r", ""), 0)
  }

  // ---------- CAP lines ----------

  function CapLine(sub: string, text: string): Message {
    Message(map[], "", "CAP", ["*", sub, text], "")
  }

  function CapEvent(kind: EventType, sub: string, text: string): Event {
    Event(kind, Some(CapLine(sub, text)), NoData)
  }

  lemma CapLineEvents(sub: string, text: string, kind: EventType)
    requires (sub == "LS" && kind == CapLS) || (sub == "ACK" && kind == CapACK) || (sub == "NEW" && kind == CapNEW)
    ensures EventsOf(CapLine(sub, text)) == Some([CapEvent(kind, sub, text)])
  {
    var m := CapLine(sub, text);
    var kinds := DetermineEventType(m);
    assert kinds == [kind];
    assert kinds[1..] == [];
    assert EventsFor(kinds[1..], m) == Some([]);
    assert [CapEvent(kind, sub, text)] + [] == [CapEvent(kind, sub, text)];
  }

  lemma {:induction false} WordOfWord(s: string)
    requires forall c | c in s :: !IsSpace(c)
    ensures Word(s) == s
  {
    if s != "" {
      WordOfWord(s[1..]);
    }
  }

  lemma FieldsOfWord(s: string)
    requires s != "" && forall c | c in s :: !IsSpace(c)
    ensures Fields(s) == [s]
  {
    WordOfWord(s);
    assert !IsSpace(s[0]);
    assert Fields(s) == [s] + Fields(s[|s|..]);
  }

  lemma Names()
    ensures Fields("sasl") == ["sasl"] && Fields("batch") == ["batch"]
    ensures NamesOf(["sasl"]) == ["sasl"] && NamesOf(["batch"]) == ["batch"]
  {
    FieldsOfWord("sasl");
    FieldsOfWord("batch");
    assert ["sasl"][1..] == [] && ["batch"][1..] == [];
  }

  lemma Wanted()
    ensures Select(["sasl"], Elements(REQUESTED)) == ["sasl"]
    ensures Select(["batch"], Elements(REQUESTED)) == []
  {
    var wanted := Elements(REQUESTED);
    assert REQUESTED[0] == "sasl" && "sasl" in wanted;
    assert forall x | x in REQUESTED :: |x| != |"batch"|;
    assert "batch" !in wanted;
    assert ["sasl"][1..] == [] && ["batch"][1..] == [];
    assert Select(["sasl"], wanted) == ["sasl"] + Select([], wanted);
    assert Select(["batch"], wanted) == [] + Select([], wanted);
  }

  /** CAP LS that advertises nothing wanted ends the negotiation. */
  lemma NothingWanted(c: Caps, io: Io, net: Outcomes)
    requires c.requested == REQUESTED && c.pending == {} && c.negotiating
    ensures var r := OnLS(c, io, net, CapEvent(CapLS, "LS", "batch"));
            && r.caps == c.(available := r.caps.available, waiters := c.waiters + [Fresh])
            && r.io == Emit(io, Internally(CapPreEnd, CapPreEndData(c.acked.Keys, c.acked)))
  {
    assert forall wanted :: Select([], wanted) == [];
    hide Fields, NamesOf, AddAvailable, Join, Select, Elements;
    Names();
    Wanted();
    assert Trailing(CapEvent(CapLS, "LS", "batch")) == "batch";
  }

  /** Advertising sasl makes the handler request it and nothing else. */
  lemma SaslRequested(c: Caps, io: Io, net: Outcomes)
    requires c.requested == REQUESTED && net(|io.log|)
    ensures var r := ProcessNew(c, io, net, "sasl");
            && r.ok && r.caps == c.(available := c.available["sasl" := ""], pending := c.pending + {"sasl"})
            && r.io == io.(log := io.log + [Attempt("CAP", ["REQ", "sasl"], true)])
  {
    Names();
    Wanted();
    assert ["sasl"][1..] == [];
    assert '=' !in "sasl";
    assert NameOf("sasl") == "sasl" && ValueOf("sasl") == "";
    assert AddAvailable(["sasl"], c.available) == AddAvailable(["sasl"][1..], c.available["sasl" := ""]);
    assert Select(["sasl"], c.available["sasl" := ""].Keys) == ["sasl"];
    assert Elements(["sasl"]) == {"sasl"};
    hide Fields, NamesOf, AddAvailable, Select, Elements;
  }

  // ---------- steps in a row ----------

  /** What a step makes of a run. */
  lemma Step1(su: Setup, steps: seq<Step>, step: Step)
    ensures Run(su, steps + [step]) == Next(su, Run(su, steps), step)
  {
    RunSnoc(su, steps, step);
  }

  /** The oldest event is dispatched to its only handler, which handles it. */
  function Handling(steps: seq<Step>): seq<Step> {
    steps + [Dispatch] + [RunTask]
  }

  lemma Dispatched(su: Setup, w: World, e: Event, rest: seq<Event>, h: Handler)
    requires w.todo == [] && w.io.queue == [e] + rest && HandlersOf(su, w.reg, e.kind) == [h]
    ensures Next(su, w, Dispatch) == w.(io := w.io.(queue := rest), todo := [Task(h, e)])
  {
    hide HandlersOf;
    assert ([e] + rest)[1..] == rest;
    assert TasksOf([h], e) == [Task(h, e)];
  }

  lemma TaskRun(su: Setup, w: World, t: Task)
    requires w.todo == [t]
    ensures Next(su, w, RunTask) == Handle(su, w.(todo := []), t)
  {
    hide Handle;
    assert [t][1..] == [];
  }

  lemma HandledRun(su: Setup, steps: seq<Step>, e: Event, rest: seq<Event>, h: Handler)
    requires var w := Run(su, steps);
             w.todo == [] && w.io.queue == [e] + rest && HandlersOf(su, w.reg, e.kind) == [h]
    ensures var w := Run(su, steps);
            Run(su, Handling(steps)) == Handle(su, w.(io := w.io.(queue := rest)), Task(h, e))
  {
    hide Run, Next, Handle, HandlersOf;
    var w := Run(su, steps);
    Step1(su, steps, Dispatch);
    Dispatched(su, w, e, rest, h);
    Step1(su, steps + [Dispatch], RunTask);
    TaskRun(su, Run(su, steps + [Dispatch]), Task(h, e));
    assert Run(su, steps + [Dispatch]).(todo := []) == w.(io := w.io.(queue := rest));
  }

  predicate Quiet(w: World) {
    w.todo == [] && w.io.queue == []
  }

  function ThenLine(steps: seq<Step>, sub: string, text: string): seq<Step> {
    Handling(Reading(steps, CapLine(sub, text)))
  }

  /** A line, announced; the event it causes is left on the queue. */
  function Reading(steps: seq<Step>, msg: Message): seq<Step> {
    Handling(steps + [ServerLine(msg)])
  }

  lemma LineQueued(su: Setup, w: World, msg: Message, e: Event)
    requires Quiet(w) && EventsOf(msg) == Some([e])
    ensures Next(su, w, ServerLine(msg)) == w.(io := w.io.(queue := [Plain(RawIncoming)] + [e]))
  {
    hide EventsOf;
  }

  lemma RawHandled(su: Setup, w: World, e: Event)
    ensures Handle(su, w.(io := w.io.(queue := [e])), Task(PingOnRaw, Plain(RawIncoming))) ==
            w.(io := w.io.(queue := [e]), ping := OnRaw(w.ping))
  {
  }

  lemma LineRead(su: Setup, steps: seq<Step>, msg: Message, e: Event)
    requires Quiet(Run(su, steps)) && EventsOf(msg) == Some([e])
    ensures var w := Run(su, steps);
            Run(su, Reading(steps, msg)) == w.(io := w.io.(queue := [e]), ping := OnRaw(w.ping))
  {
    hide Run, Next, Handle, EventsOf, Handling;
    var w, line := Run(su, steps), ServerLine(msg);
    LineQueued(su, w, msg, e);
    Step1(su, steps, line);
    var w1 := Run(su, steps + [line]);
    RawOnly(su, w1);
    HandledRun(su, steps + [line], Plain(RawIncoming), [e], PingOnRaw);
    assert w1.(io := w1.io.(queue := [e])) == w.(io := w.io.(queue := [e]));
    RawHandled(su, w, e);
  }

  lemma RawOnly(su: Setup, w: World)
    ensures HandlersOf(su, w.reg, RawIncoming) == [PingOnRaw]
  {
  }

  /** A CAP line that reaches a quiet library: what its handler makes of it. */
  lemma LineRun(su: Setup, steps: seq<Step>, sub: string, text: string, kind: EventType, h: Handler)
    requires Quiet(Run(su, steps)) && HandlersOf(su, Run(su, steps).reg, kind) == [h]
    requires (sub == "LS" && kind == CapLS) || (sub == "ACK" && kind == CapACK) || (sub == "NEW" && kind == CapNEW)
    ensures var w := Run(su, steps);
            Run(su, ThenLine(steps, sub, text)) ==
            Handle(su, w.(ping := OnRaw(w.ping)), Task(h, CapEvent(kind, sub, text)))
  {
    hide Run, Next, Handle, EventsOf, HandlersOf, Handling, Reading, OnRaw, CapLine;
    CapLineEvents(sub, text, kind);
    var w, e, read := Run(su, steps), CapEvent(kind, sub, text), Reading(steps, CapLine(sub, text));
    LineRead(su, steps, CapLine(sub, text), e);
    var w2 := Run(su, read);
    assert w2.io.queue == [e] + [];
    SameHandlersOf(su, w, w2, kind);
    HandledRun(su, read, e, [], h);
    assert w2.(io := w2.io.(queue := [])) == w.(ping := OnRaw(w.ping));
  }

  lemma SameHandlersOf(su: Setup, w: World, w': World, kind: EventType)
    requires w.reg == w'.reg
    ensures HandlersOf(su, w.reg, kind) == HandlersOf(su, w'.reg, kind)
  {
  }

  // ---------- the greeting ----------

  const DIALLED: seq<Step> := [] + [ConnectionUp] + [Dispatch]
  const CAPS_GREETED: seq<Step> := DIALLED + [RunTask]
  const REG_GREETED: seq<Step> := CAPS_GREETED + [RunTask]
  const GREETING: seq<Step> := REG_GREETED + [RunTask]

  const UP := Internally(Connected, ConnectedData(""))

  /** The first three sends are accepted; they are CAP LS, NICK and USER. */
  predicate Accepting(su: Setup) {
    su.net(0) && su.net(1) && su.net(2) && su.config.password == ""
  }

  lemma DialledRun(su: Setup)
    ensures Run(su, DIALLED) ==
            Initial(su).(todo := [Task(CapsOnConnected, UP), Task(RegOnConnected, UP), Task(ClientOnEvent, UP)])
  {
    assert Run(su, []) == Initial(su);
    hide Run;
    Step1(su, [], ConnectionUp);
    Step1(su, [] + [ConnectionUp], Dispatch);
    GreetingUp(su);
    hide Next, Initial;
  }

  lemma GreetingUp(su: Setup)
    ensures Next(su, Next(su, Initial(su), ConnectionUp), Dispatch) ==
            Initial(su).(todo := [Task(CapsOnConnected, UP), Task(RegOnConnected, UP), Task(ClientOnEvent, UP)])
  {
    var w := Next(su, Initial(su), ConnectionUp);
    assert w == Initial(su).(io := Io([UP], []));
    var hs := HandlersOf(su, w.reg, Connected);
    assert hs == [CapsOnConnected, RegOnConnected, ClientOnEvent];
    assert TasksOf(hs, UP) == [Task(CapsOnConnected, UP), Task(RegOnConnected, UP), Task(ClientOnEvent, UP)];
    assert [UP][1..] == [];
    hide Initial, HandlersOf, TasksOf;
  }

  const LS302 := Attempt("CAP", ["LS", "302"], true)

  lemma CapsUp(su: Setup, w: World, rest: seq<Task>)
    requires w.todo == [Task(CapsOnConnected, UP)] + rest && su.net(|w.io.log|)
    ensures Next(su, w, RunTask) ==
            w.(todo := rest, caps := w.caps.(negotiating := true), io := w.io.(log := w.io.log + [LS302]))
  {
    assert w.todo[1..] == rest;
  }

  lemma CapsGreetedRun(su: Setup)
    requires Accepting(su)
    ensures Run(su, CAPS_GREETED) ==
            Initial(su).(todo := [Task(RegOnConnected, UP), Task(ClientOnEvent, UP)], io := Io([], [LS302]),
                         caps := Initial(su).caps.(negotiating := true))
  {
    assert Initial(su).io == Io([], []);
    hide Run, Next, Initial;
    DialledRun(su);
    Step1(su, DIALLED, RunTask);
    var rest := [Task(RegOnConnected, UP), Task(ClientOnEvent, UP)];
    assert Run(su, DIALLED).todo == [Task(CapsOnConnected, UP)] + rest;
    CapsUp(su, Run(su, DIALLED), rest);
    assert [] + [LS302] == [LS302];
  }

  /** A registration without a password, accepted. */
  lemma NickAndUser(r: Reg, io: Io, net: Outcomes)
    requires r.state == RegInactive && r.config.password == "" && net(|io.log|) && net(|io.log| + 1)
    ensures var r' := OnRegConnected(r, io, net);
            && r'.io.queue == io.queue && |r'.io.log| == |io.log| + 2 && CountEnds(r'.io.log) == CountEnds(io.log)
            && r'.reg == r.(state := RegStarted, timerArmed := true)
  {
    OnRegConnectedSignals(r, io, net);
    hide CountEnds, Count;
  }

  lemma RegUp(su: Setup, w: World, rest: seq<Task>)
    requires w.todo == [Task(RegOnConnected, UP)] + rest
    requires w.reg.state == RegInactive && w.reg.config.password == "" && su.net(|w.io.log|) && su.net(|w.io.log| + 1)
    ensures var w' := Next(su, w, RunTask);
            && w'.todo == rest && w'.io.queue == w.io.queue && w'.caps == w.caps && w'.sasl == w.sasl
            && CountEnds(w'.io.log) == CountEnds(w.io.log) && |w'.io.log| == |w.io.log| + 2
            && w'.reg == w.reg.(state := RegStarted, timerArmed := true)
  {
    assert w.todo[1..] == rest;
    NickAndUser(w.reg, w.io, su.net);
    hide CountEnds, OnRegConnected;
  }

  lemma RegGreetedRun(su: Setup)
    requires Accepting(su)
    ensures var w, w0 := Run(su, REG_GREETED), Initial(su);
            && w.todo == [Task(ClientOnEvent, UP)] && w.io.queue == [] && CountEnds(w.io.log) == 0 && |w.io.log| == 3
            && w.caps == w0.caps.(negotiating := true) && w.sasl == w0.sasl
            && w.reg == w0.reg.(state := RegStarted, timerArmed := true)
  {
    var w0 := Initial(su);
    assert w0.reg.state == RegInactive && w0.reg.config == su.config;
    assert CountEnds([LS302]) == 0 by {
      CountEndsSnoc([], LS302);
      assert [] + [LS302] == [LS302] && CountEnds([]) == 0;
    }
    hide Run, Next, Initial, CountEnds;
    CapsGreetedRun(su);
    Step1(su, CAPS_GREETED, RunTask);
    var rest := [Task(ClientOnEvent, UP)];
    assert Run(su, CAPS_GREETED).todo == [Task(RegOnConnected, UP)] + rest;
    RegUp(su, Run(su, CAPS_GREETED), rest);
  }

  lemma ClientUp(su: Setup, w: World)
    requires w.todo == [Task(ClientOnEvent, UP)] && w.io.queue == []
    ensures var w' := Next(su, w, RunTask);
            Quiet(w') && w'.io == w.io && w'.caps == w.caps && w'.sasl == w.sasl && w'.reg == w.reg
  {
    assert [Task(ClientOnEvent, UP)][1..] == [];
    assert Tracking.NamesDone(w.client, UP) == [];
    hide Tracking.OnEvent;
  }

  /** The connection is up and every handler has greeted it. */
  lemma Greeted(su: Setup)
    requires Accepting(su)
    ensures var w, w0 := Run(su, GREETING), Initial(su);
            && Quiet(w) && CountEnds(w.io.log) == 0 && |w.io.log| == 3
            && w.caps == w0.caps.(negotiating := true) && w.sasl == w0.sasl
            && w.reg == w0.reg.(state := RegStarted, timerArmed := true)
  {
    hide Run, Next, Initial, CountEnds;
    RegGreetedRun(su);
    Step1(su, REG_GREETED, RunTask);
    ClientUp(su, Run(su, REG_GREETED));
  }

  // ---------- CAP END twice ----------

  /** A round with no listener, dispatched: the library is quiet again and a waiter is left. */
  function EmptyRound(steps: seq<Step>): seq<Step> {
    ThenLine(steps, "LS", "batch") + [Dispatch]
  }

  lemma EmptyRoundRun(codec: Codec, steps: seq<Step>)
    requires var w := Run(Plainly(codec, false), steps);
             Quiet(w) && w.caps.requested == REQUESTED && w.caps.pending == {} && w.caps.negotiating
    ensures var w, w' := Run(Plainly(codec, false), steps), Run(Plainly(codec, false), EmptyRound(steps));
            && Quiet(w') && w'.io.log == w.io.log
            && w'.caps == w.caps.(available := w'.caps.available, waiters := w.caps.waiters + [Fresh])
  {
    var su := Plainly(codec, false);
    var w := Run(su, steps);
    OnlyHandlers(su, w.reg);
    hide Run, Next, HandlersOf, OnLS;
    LineRun(su, steps, "LS", "batch", CapLS, CapsOnLS);
    NothingWanted(w.caps, w.io, su.net);
    var w1 := Run(su, ThenLine(steps, "LS", "batch"));
    Step1(su, ThenLine(steps, "LS", "batch"), Dispatch);
    PreEndDropped(codec, w1, Internally(CapPreEnd, CapPreEndData(w.caps.acked.Keys, w.caps.acked)));
  }

  lemma OnlyHandlers(su: Setup, reg: Reg)
    ensures HandlersOf(su, reg, CapLS) == [CapsOnLS] && HandlersOf(su, reg, CapACK) == [CapsOnACK]
    ensures HandlersOf(su, reg, CapNEW) == [CapsOnNEW] && HandlersOf(su, reg, CapAdded) == [ClientOnEvent]
    ensures su.listeners == 0 ==> HandlersOf(su, reg, CapPreEnd) == if su.hasSasl then [SaslOnPreEnd] else []
  {
  }

  lemma PreEndDropped(codec: Codec, w: World, e: Event)
    requires w.todo == [] && w.io.queue == [e] && e.kind == CapPreEnd
    ensures Next(Plainly(codec, false), w, Dispatch) == w.(io := w.io.(queue := []))
  {
    OnlyHandlers(Plainly(codec, false), w.reg);
    hide HandlersOf;
    assert [e][1..] == [];
    assert TasksOf([], e) == [];
  }

  lemma WaiterEnds(su: Setup, w: World)
    requires ListenerCount(su) == 0 && w.caps.waiters != [] && w.caps.waiters[0].Fresh? && su.net(|w.io.log|)
    ensures var w' := Next(su, w, StartWaiter(0));
            && w'.todo == w.todo && w'.io.queue == w.io.queue && CountEnds(w'.io.log) == CountEnds(w.io.log) + 1
            && w'.caps == w.caps.(waiters := w.caps.waiters[1..], negotiating := false)
  {
    CapEndCounts(DropWaiter(w.caps, 0), w.io, su.net);
    assert w.caps.waiters[..0] + w.caps.waiters[1..] == w.caps.waiters[1..];
  }

  const TWO_ROUNDS: seq<Step> := EmptyRound(EmptyRound(GREETING)) + [StartWaiter(0)] + [StartWaiter(0)]

  /** Two CAP LS lines that advertise nothing wanted, nothing else out of the ordinary: CAP END goes out twice. */
  lemma CapEndTwice(codec: Codec)
    ensures CountEnds(Run(Plainly(codec, false), TWO_ROUNDS).io.log) == 2
  {
    var su := Plainly(codec, false);
    Greeted(su);
    hide Run, Next, CountEnds;
    EmptyRoundRun(codec, GREETING);
    EmptyRoundRun(codec, EmptyRound(GREETING));
    var steps := EmptyRound(EmptyRound(GREETING));
    var w := Run(su, steps);
    assert w.caps.waiters == [Fresh, Fresh];
    Step1(su, steps, StartWaiter(0));
    WaiterEnds(su, w);
    Step1(su, steps + [StartWaiter(0)], StartWaiter(0));
    WaiterEnds(su, Next(su, w, StartWaiter(0)));
  }

  // ---------- an ACK that comes too late ----------

  const ENDED: seq<Step> := EmptyRound(GREETING) + [StartWaiter(0)]
  const LATE_ACK: seq<Step> := ThenLine(ThenLine(ENDED, "NEW", "sasl"), "ACK", "sasl")

  lemma EndedRun(codec: Codec)
    ensures var w := Run(Plainly(codec, false), ENDED);
            && Quiet(w) && !w.caps.negotiating && w.caps.requested == REQUESTED
            && w.caps.pending == {} && w.caps.acked == map[] && CountEnds(w.io.log) == 1
  {
    var su := Plainly(codec, false);
    Greeted(su);
    hide Run, Next, CountEnds;
    EmptyRoundRun(codec, GREETING);
    Step1(su, EmptyRound(GREETING), StartWaiter(0));
    WaiterEnds(su, Run(su, EmptyRound(GREETING)));
  }

  /**
   CAP END was accepted; CAP NEW then advertises sasl, the library requests it and the server
   acknowledges it. The request stays pending and sasl does not get active, whatever comes, until the
   connection is greeted again.
   */
  lemma LateAckIsLost(codec: Codec, more: seq<Step>)
    requires NeverGreeted(Plainly(codec, false), LATE_ACK, more)
    ensures var caps := Run(Plainly(codec, false), LATE_ACK + more).caps;
            "sasl" in caps.pending && "sasl" !in caps.acked
  {
    LateAckRun(codec);
    hide Run, NeverGreeted;
    AnswersAreIgnored(Plainly(codec, false), LATE_ACK, more);
  }

  lemma LateAckRun(codec: Codec)
    ensures var caps := Run(Plainly(codec, false), LATE_ACK).caps;
            !caps.negotiating && caps.pending == {"sasl"} && caps.acked == map[]
  {
    var su := Plainly(codec, false);
    EndedRun(codec);
    var w := Run(su, ENDED);
    OnlyHandlers(su, w.reg);
    hide Run, Next, HandlersOf, ProcessNew, CountEnds;
    LineRun(su, ENDED, "NEW", "sasl", CapNEW, CapsOnNEW);
    SaslRequested(w.caps, w.io, su.net);
    var requested := ThenLine(ENDED, "NEW", "sasl");
    OnlyHandlers(su, Run(su, requested).reg);
    LineRun(su, requested, "ACK", "sasl", CapACK, CapsOnACK);
  }

  // ---------- a session that ends in silence ----------

  const ASKED: seq<Step> := ThenLine(GREETING, "LS", "sasl")
  const REQUESTING: seq<Step> := ThenLine(ASKED, "ACK", "sasl")
  const STARTED: seq<Step> := Handling(Handling(REQUESTING)) + [StartWaiter(0)]
  const ABORTED: seq<Step> := STARTED + [SaslAbort]

  const SASL_ADDED := Added("sasl")
  const SASL_READY := Internally(CapPreEnd, CapPreEndData({"sasl"}, map["sasl" := ""]))

  lemma AckedSasl(c: Caps, io: Io)
    requires c.negotiating && c.pending == {"sasl"} && c.acked == map[] && "sasl" in c.available && c.available["sasl"] == ""
    ensures var r := OnACK(c, io, CapEvent(CapACK, "ACK", "sasl"));
            && r.caps == c.(pending := {}, acked := map["sasl" := ""], waiters := c.waiters + [Fresh])
            && r.io == io.(queue := io.queue + [SASL_ADDED] + [SASL_READY])
  {
    hide Fields, AckAll, AddedAll;
    Names();
    AckedOne(c);
    assert Trailing(CapEvent(CapACK, "ACK", "sasl")) == "sasl";
    assert {"sasl"} - {"sasl"} == {};
    var acked := AckOne(c, "sasl").acked;
    assert acked == map["sasl" := ""] && acked.Keys == {"sasl"};
  }

  lemma AckedOne(c: Caps)
    ensures AckAll(c, ["sasl"]) == AckOne(c, "sasl") && AddedAll(["sasl"]) == [SASL_ADDED]
  {
    assert ["sasl"][1..] == [];
    assert AddedAll(["sasl"]) == [SASL_ADDED] + AddedAll([]);
    assert AckAll(c, ["sasl"]) == AckAll(AckOne(c, "sasl"), []);
  }

  /** Handling the line that advertises sasl. */
  lemma AskedStep(su: Setup, w: World)
    requires w.caps == Caps(REQUESTED, {}, map[], map[], true, 0, []) && su.net(|w.io.log|)
    ensures Handle(su, w, Task(CapsOnLS, CapEvent(CapLS, "LS", "sasl"))) ==
            w.(caps := w.caps.(available := map["sasl" := ""], pending := {"sasl"}),
               io := w.io.(log := w.io.log + [Attempt("CAP", ["REQ", "sasl"], true)]))
  {
    hide ProcessNew, EndNegotiation;
    SaslRequested(w.caps, w.io, su.net);
    assert {} + {"sasl"} == {"sasl"} && map[]["sasl" := ""] == map["sasl" := ""];
  }

  lemma AskedRun(codec: Codec)
    ensures var w, w0 := Run(Plainly(codec, true), ASKED), Initial(Plainly(codec, true));
            && Quiet(w) && CountEnds(w.io.log) == 0 && w.sasl == w0.sasl
            && w.caps == Caps(REQUESTED, {"sasl"}, map["sasl" := ""], map[], true, 0, [])
  {
    var su := Plainly(codec, true);
    var w, w0 := Run(su, GREETING), Initial(su);
    assert w0.caps == Caps(REQUESTED, {}, map[], map[], false, 0, []);
    hide Run, Next, Initial, HandlersOf, Handle, OnRaw, CountEnds, ThenLine, CapEvent;
    Greeted(su);
    OnlyHandlers(su, w.reg);
    LineRun(su, GREETING, "LS", "sasl", CapLS, CapsOnLS);
    AskedStep(su, w.(ping := OnRaw(w.ping)));
    CountEndsSnoc(w.io.log, Attempt("CAP", ["REQ", "sasl"], true));
  }

  /** Handling its acknowledgement. */
  lemma AckedStep(su: Setup, w: World)
    requires w.caps == Caps(REQUESTED, {"sasl"}, map["sasl" := ""], map[], true, 0, []) && w.io.queue == []
    ensures var w' := Handle(su, w, Task(CapsOnACK, CapEvent(CapACK, "ACK", "sasl")));
            && w' == w.(caps := w'.caps, io := w.io.(queue := [SASL_ADDED] + [SASL_READY]))
            && w'.caps.waiters == [Fresh] && w'.caps.tokens == 0
  {
    hide OnACK;
    AckedSasl(w.caps, w.io);
    assert [] + [SASL_ADDED] + [SASL_READY] == [SASL_ADDED] + [SASL_READY];
  }

  lemma RequestingRun(codec: Codec)
    ensures var w := Run(Plainly(codec, true), REQUESTING);
            && w.todo == [] && w.io.queue == [SASL_ADDED] + [SASL_READY] && CountEnds(w.io.log) == 0
            && w.caps.waiters == [Fresh] && w.caps.tokens == 0 && w.sasl == Initial(Plainly(codec, true)).sasl
  {
    var su := Plainly(codec, true);
    var w := Run(su, ASKED);
    hide Run, Next, Initial, HandlersOf, Handle, OnRaw, CountEnds, ThenLine, CapEvent;
    AskedRun(codec);
    OnlyHandlers(su, w.reg);
    LineRun(su, ASKED, "ACK", "sasl", CapACK, CapsOnACK);
    AckedStep(su, w.(ping := OnRaw(w.ping)));
  }

  lemma SessionStarts(su: Setup, s: Sasl, io: Io)
    requires s == Sasl(Inactive, None, false, [], "u", "p", DEFAULT_CHUNK_SIZE) && su.net(|io.log|)
    ensures var r := OnPreEnd(s, io, su.net, SASL_READY);
            && Active(r.sasl) && r.io == io.(log := io.log + [Attempt("AUTHENTICATE", ["PLAIN"], true)])
  {
    assert "PLAIN" in ["PLAIN"];
  }

  lemma ClientAdds(su: Setup, w: World)
    ensures var w' := Handle(su, w, Task(ClientOnEvent, SASL_ADDED));
            w'.io == w.io && w'.todo == w.todo && w'.caps == w.caps && w'.sasl == w.sasl && w'.reg == w.reg
  {
    assert Tracking.NamesDone(w.client, SASL_ADDED) == [];
    assert w.io.queue + [] == w.io.queue;
    hide Tracking.OnEvent;
  }

  lemma StartedRun(codec: Codec)
    ensures var w := Run(Plainly(codec, true), STARTED);
            && Quiet(w) && CountEnds(w.io.log) == 0 && Active(w.sasl)
            && w.caps.waiters == [Counting(1, 0)] && w.caps.tokens == 0
  {
    var su := Plainly(codec, true);
    RequestingRun(codec);
    var w := Run(su, REQUESTING);
    OnlyHandlers(su, w.reg);
    hide Run, Next, HandlersOf, OnPreEnd, CountEnds, Handling;
    HandledRun(su, REQUESTING, SASL_ADDED, [SASL_READY], ClientOnEvent);
    ClientAdds(su, w.(io := w.io.(queue := [SASL_READY])));
    var w1 := Run(su, Handling(REQUESTING));
    OnlyHandlers(su, w1.reg);
    assert w1.io.queue == [SASL_READY] + [];
    HandledRun(su, Handling(REQUESTING), SASL_READY, [], SaslOnPreEnd);
    SessionStarts(su, w1.sasl, w1.io.(queue := []));
    var w2 := Run(su, Handling(Handling(REQUESTING)));
    CountEndsSnoc(w1.io.log, Attempt("AUTHENTICATE", ["PLAIN"], true));
    Step1(su, Handling(Handling(REQUESTING)), StartWaiter(0));
    WaiterCounts(su, w2);
  }

  lemma WaiterCounts(su: Setup, w: World)
    requires w.caps.waiters == [Fresh] && ListenerCount(su) == 1
    ensures Next(su, w, StartWaiter(0)) == w.(caps := w.caps.(waiters := [Counting(1, 0)]))
  {
  }

  lemma AbortEnds(su: Setup, w: World)
    requires su.hasSasl && Active(w.sasl)
    ensures EndsSilently(su, w, SaslAbort)
    ensures var w' := Next(su, w, SaslAbort);
            && w'.todo == w.todo && w'.io.queue == w.io.queue && w'.caps == w.caps && !Active(w'.sasl)
            && CountEnds(w'.io.log) == CountEnds(w.io.log)
  {
    AbortPays(w.sasl, w.io, su.net);
    hide Count, CountEnds;
  }

  /**
   The session was started and then aborted. The library is at rest, its waiter still counting; and
   however the run goes on, with no second round and nobody signalling twice, CAP END goes out only
   because a waiter's timer fires.
   */
  lemma AbortWaitsForTimer(codec: Codec, more: seq<Step>)
    ensures var w := Run(Plainly(codec, true), ABORTED);
            Quiet(w) && !Active(w.sasl) && w.caps.waiters == [Counting(1, 0)] && w.caps.tokens == 0 && CountEnds(w.io.log) == 0
    ensures var su := Plainly(codec, true);
            var w, h := Run(su, ABORTED + more), HistoryOf(su, ABORTED + more);
            h.rounds <= 1 && !h.repeated && CountEnds(w.io.log) > 0 ==> h.endedByTimer
  {
    var su := Plainly(codec, true);
    StartedRun(codec);
    assert ABORTED[..|ABORTED| - 1] == STARTED;
    Step1(su, STARTED, SaslAbort);
    AbortEnds(su, Run(su, STARTED));
    assert SilentEnds(su, ABORTED) > 0 by {
      hide Run, EndsSilently;
    }
    hide Run, Next, SilentEnds, HistoryOf, CountEnds;
    SilentEndsGrow(su, ABORTED, more);
    SilentEndNeedsTimer(su, ABORTED + more);
  }

  // ---------- a failed registration reported twice ----------

  /** Every send but the fourth succeeds. */
  function Refusing(codec: Codec): Setup {
    Plainly(codec, false).(net := i => i != 3)
  }

  const IN_USE := Message(map[], "", "433", ["*", "n", "Nickname is already in use"], "")
  const NICK_IN_USE := Event(Numeric, Some(IN_USE), NumericData("433", IN_USE.params))

  lemma InUseEvents()
    ensures EventsOf(IN_USE) == Some([NICK_IN_USE])
  {
    var kinds := DetermineEventType(IN_USE);
    assert kinds == [Numeric];
    assert kinds[1..] == [];
    assert EventsFor(kinds[1..], IN_USE) == Some([]);
    assert [NICK_IN_USE] + [] == [NICK_IN_USE];
  }

  const COLLIDED: seq<Step> := Reading(GREETING, IN_USE) + [Dispatch]
  const GIVEN_UP: seq<Step> := COLLIDED + [RunTask] + [RegTimer]

  lemma CollisionDispatched(su: Setup, w: World)
    requires w.todo == [] && w.io.queue == [NICK_IN_USE] && w.reg.state == RegStarted
    ensures var w' := Next(su, w, Dispatch);
            w'.todo == [Task(RegOnNumeric, NICK_IN_USE), Task(ClientOnEvent, NICK_IN_USE)] && w'.reg == w.reg && w'.io.log == w.io.log
  {
    var hs := HandlersOf(su, w.reg, Numeric);
    assert hs == [RegOnNumeric, ClientOnEvent];
    hide HandlersOf;
  }

  lemma CollidedRun(codec: Codec)
    ensures var w := Run(Refusing(codec), COLLIDED);
            w.todo != [] && w.todo[0] == Task(RegOnNumeric, NICK_IN_USE) && w.reg.state == RegStarted && |w.io.log| == 3
  {
    var su := Refusing(codec);
    hide Run, Next, EventsOf, Initial, OnRaw, Reading, CountEnds;
    Greeted(su);
    InUseEvents();
    LineRead(su, GREETING, IN_USE, NICK_IN_USE);
    Step1(su, Reading(GREETING, IN_USE), Dispatch);
    CollisionDispatched(su, Run(su, Reading(GREETING, IN_USE)));
  }

  /**
   PASS, NICK and USER are accepted, the nick is taken, and the NICK that answers is refused. Then the
   timer fires, and the one failure has been reported twice.
   */
  lemma CollisionReportedTwice(codec: Codec)
    ensures !Refused(Refusing(codec), GREETING)
    ensures Reports(Refusing(codec), COLLIDED + [RunTask]) == 1 && Reports(Refusing(codec), GIVEN_UP) == 2
  {
    var su := Refusing(codec);
    assert GIVEN_UP == COLLIDED + [RunTask] + [RegTimer];
    hide *;
    NothingRefused(codec);
    CollidedRun(codec);
    RefusingFourth(codec);
    CollisionRefused(su);
    ReportedOneByOne(su, COLLIDED + [RunTask]);
  }

  lemma RefusingFourth(codec: Codec)
    ensures !Refusing(codec).net(3)
  {
  }

  lemma NothingRefused(codec: Codec)
    ensures !Refused(Refusing(codec), GREETING)
  {
    hide Run, Initial, Refused, TimedOut, Reports, CountEnds;
    Greeted(Refusing(codec));
    ReportsExactly(Refusing(codec), GREETING);
  }

  lemma ReportedOneByOne(su: Setup, steps: seq<Step>)
    requires Refused(su, steps) && !TimedOut(su, steps)
    ensures Reports(su, steps) == 1 && Reports(su, steps + [RegTimer]) == 2
  {
    hide Run, Refused, TimedOut, Reports;
    TimerFiresOnce(su, steps);
    TimerRefusesNothing(su, steps, [RegTimer]);
    ReportsExactly(su, steps);
    ReportsExactly(su, steps + [RegTimer]);
  }

  lemma CollisionRefused(su: Setup)
    requires var w := Run(su, COLLIDED);
             && w.todo != [] && w.todo[0] == Task(RegOnNumeric, NICK_IN_USE) && w.reg.state == RegStarted
             && !su.net(|w.io.log|)
    ensures Refused(su, COLLIDED + [RunTask]) && !TimedOut(su, COLLIDED + [RunTask])
  {
    ReportsExactly(su, COLLIDED);
    hide Run;
    assert (COLLIDED + [RunTask])[..|COLLIDED|] == COLLIDED;
  }
}
