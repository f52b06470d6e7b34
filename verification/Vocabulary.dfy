/** Every line the library sends by itself, over every run, is one of eleven forms. */
module Vocabulary {
  import opened GoStrings
  import opened Message
  import opened Events
  import opened Wire
  import opened EventBus
  import opened Io
  import opened Capabilities
  import opened Sasl
  import opened Registration
  import opened Keepalive
  import opened Negotiation
  import opened EventPayloads
  import Tracking

  /** REQ names something, and only what the configuration asks for. */
  ghost predicate Requests(su: Setup, text: string) {
    exists names: seq<string> :: names != [] && text == Join(names, ' ') && forall n | n in names :: n in su.requested
  }

  ghost predicate Known(su: Setup, command: string, params: seq<string>) {
    match command
    case "CAP" => params == ["LS", "302"] || params == ["END"]
                  || (|params| == 2 && params[0] == "REQ" && Requests(su, params[1]))
    case "AUTHENTICATE" => |params| == 1
    case "PASS" => params == [su.config.password] && su.config.password != ""
    case "NICK" => params == [su.config.nick] || params == [su.config.nick + "_"]
    case "USER" => params == [su.config.username, "0", "*", su.config.realname]
    case "PONG" => |params| == 1
    case "PING" => |params| == 1 && "tithon-" <= params[0]
    case _ => false
  }

  ghost predicate AllKnown(su: Setup, log: seq<Attempt>) {
    forall i | 0 <= i < |log| :: Known(su, log[i].command, log[i].params)
  }

  /** What the configuration says, and only such lines. */
  ghost predicate Speaks(su: Setup, w: World) {
    w.caps.requested == su.requested && w.reg.config == su.config && AllKnown(su, w.io.log)
  }

  lemma SendKnown(su: Setup, io: Io, net: Outcomes, command: string, params: seq<string>)
    requires AllKnown(su, io.log) && Known(su, command, params)
    ensures AllKnown(su, Send(io, net, command, params).log)
  {
    hide Known;
  }

  lemma {:induction false} SendEachKnown(su: Setup, io: Io, net: Outcomes, payloads: seq<string>)
    requires AllKnown(su, io.log)
    ensures AllKnown(su, SendEach(io, net, payloads).0.log)
    decreases |payloads|
  {
    if payloads != [] {
      SendKnown(su, io, net, "AUTHENTICATE", [payloads[0]]);
      hide AllKnown, Known;
      SendEachKnown(su, Send(io, net, "AUTHENTICATE", [payloads[0]]), net, payloads[1..]);
    }
  }

  lemma ProcessNewKnown(su: Setup, c: Caps, io: Io, net: Outcomes, text: string)
    requires c.requested == su.requested && AllKnown(su, io.log)
    ensures var r := ProcessNew(c, io, net, text); r.caps.requested == c.requested && AllKnown(su, r.io.log)
  {
    var words := Fields(text);
    var c' := c.(available := AddAvailable(words, c.available));
    var asked := Select(NamesOf(words), Elements(c.requested));
    var names := Select(asked, c'.available.Keys);
    SelectMeaning(NamesOf(words), Elements(c.requested));
    SelectMeaning(asked, c'.available.Keys);
    if names != [] {
      assert Requests(su, Join(names, ' '));
      SendKnown(su, io, net, "CAP", ["REQ", Join(names, ' ')]);
    }
    hide AllKnown, Known, Requests, Fields, Join, Select, NamesOf, AddAvailable;
  }

  /** The capability handlers keep the request list and send only such lines. */
  ghost predicate CapsSpeak(su: Setup, c: Caps, io: Io) {
    c.requested == su.requested && AllKnown(su, io.log)
  }

  lemma EndNegotiationKnown(su: Setup, c: Caps, io: Io)
    requires CapsSpeak(su, c, io)
    ensures var r := EndNegotiation(c, io); CapsSpeak(su, r.caps, r.io)
  {
    hide AllKnown;
  }

  lemma TextsKnown(su: Setup, c: Caps, io: Io, net: Outcomes, e: Event)
    requires CapsSpeak(su, c, io)
    ensures var r := OnLS(c, io, net, e); CapsSpeak(su, r.caps, r.io)
    ensures var r := OnNEW(c, io, net, e); CapsSpeak(su, r.caps, r.io)
  {
    hide AllKnown, ProcessNew, EndNegotiation;
    ProcessNewKnown(su, c, io, net, Trailing(e));
    var r := ProcessNew(c, io, net, Trailing(e));
    EndNegotiationKnown(su, r.caps, r.io);
  }

  lemma AnswersKnown(su: Setup, c: Caps, io: Io, e: Event)
    requires CapsSpeak(su, c, io)
    ensures var r := OnACK(c, io, e); CapsSpeak(su, r.caps, r.io)
    ensures var r := OnNAK(c, io, e); CapsSpeak(su, r.caps, r.io)
    ensures var r := OnDEL(c, io, e); CapsSpeak(su, r.caps, r.io)
  {
    hide AllKnown, AckAll, AddedAll, RemovedAll, EndNegotiation, Fields;
    var words := Fields(Trailing(e));
    AckAllFields(c, words);
    EndNegotiationKnown(su, AckAll(c, words), EmitAll(io, AddedAll(words)));
    EndNegotiationKnown(su, c.(pending := c.pending - Elements(words)), io);
  }

  lemma EndsKnown(su: Setup, c: Caps, io: Io, net: Outcomes)
    requires CapsSpeak(su, c, io)
    ensures var r := OnConnected(c, io, net); CapsSpeak(su, r.caps, r.io)
    ensures var r := OnCapEnd(c, io, net); CapsSpeak(su, r.caps, r.io)
    ensures OnEndReady(c).requested == su.requested
  {
    assert Known(su, "CAP", ["LS", "302"]) && Known(su, "CAP", ["END"]);
    hide Known, AllKnown;
    SendKnown(su, io, net, "CAP", ["LS", "302"]);
    SendKnown(su, io, net, "CAP", ["END"]);
  }

  lemma CapsTaskKnown(su: Setup, w: World)
    requires Speaks(su, w) && w.todo != []
    requires w.todo[0].handler in {CapsOnConnected, CapsOnLS, CapsOnACK, CapsOnNAK, CapsOnDEL, CapsOnNEW, CapsOnEnd, CapsOnEndReady}
    ensures Speaks(su, Next(su, w, RunTask))
  {
    hide Known, AllKnown, OnConnected, OnLS, OnACK, OnNAK, OnDEL, OnNEW, OnCapEnd, OnEndReady;
    TextsKnown(su, w.caps, w.io, su.net, w.todo[0].event);
    AnswersKnown(su, w.caps, w.io, w.todo[0].event);
    EndsKnown(su, w.caps, w.io, su.net);
  }

  lemma OnPreEndKnown(su: Setup, s: Sasl, io: Io, net: Outcomes, e: Event)
    requires AllKnown(su, io.log)
    ensures AllKnown(su, OnPreEnd(s, io, net, e).io.log)
  {
    assert Known(su, "AUTHENTICATE", ["PLAIN"]);
    SendKnown(su, io, net, "AUTHENTICATE", ["PLAIN"]);
    hide AllKnown, Known, MechanismsIn;
  }

  lemma AbortKnown(su: Setup, s: Sasl, io: Io, net: Outcomes)
    requires AllKnown(su, io.log)
    ensures AllKnown(su, AbortSession(s, io, net).io.log)
  {
    assert Known(su, "AUTHENTICATE", ["*"]);
    SendKnown(su, io, net, "AUTHENTICATE", ["*"]);
    hide AllKnown, Known;
  }

  lemma OnAuthenticateKnown(su: Setup, s: Sasl, io: Io, net: Outcomes, codec: Codec, e: Event)
    requires AllKnown(su, io.log) && s.maxChunk > 0
    ensures AllKnown(su, OnAuthenticate(s, io, net, codec, e).io.log)
  {
    hide AllKnown, Known, SendEach, Payloads, PlainPayload, AbortSession;
    AbortKnown(su, s, io, net);
    AbortKnown(su, s.(state := Authenticating), io, net);
    if s.mechanism.Some? {
      var m := s.mechanism.value;
      SendEachKnown(su, io, net, Payloads(codec.encode(PlainPayload(m.username, m.password)), s.maxChunk));
    }
  }

  lemma SaslTaskKnown(su: Setup, w: World)
    requires Speaks(su, w) && w.todo != []
    requires w.todo[0].handler in {SaslOnPreEnd, SaslAuthenticate, SaslOnSuccess, SaslOnFail}
    ensures Speaks(su, Next(su, w, RunTask))
  {
    var e := w.todo[0].event;
    hide Known, AllKnown, OnPreEnd, OnAuthenticate;
    OnPreEndKnown(su, w.sasl, w.io, su.net, e);
    if w.sasl.maxChunk > 0 {
      OnAuthenticateKnown(su, w.sasl, w.io, su.net, su.codec, e);
    }
  }

  lemma OnRegConnectedKnown(su: Setup, r: Reg, io: Io, net: Outcomes)
    requires AllKnown(su, io.log) && r.config == su.config
    ensures var r' := OnRegConnected(r, io, net); AllKnown(su, r'.io.log) && r'.reg.config == r.config
  {
    var c := su.config;
    assert Known(su, "NICK", [c.nick]) && Known(su, "USER", [c.username, "0", "*", c.realname]);
    assert c.password != "" ==> Known(su, "PASS", [c.password]);
    hide Known, AllKnown;
    var io1 := if c.password == "" then io else Send(io, net, "PASS", [c.password]);
    if c.password != "" {
      SendKnown(su, io, net, "PASS", [c.password]);
    }
    SendKnown(su, io1, net, "NICK", [c.nick]);
    SendKnown(su, Send(io1, net, "NICK", [c.nick]), net, "USER", [c.username, "0", "*", c.realname]);
  }

  lemma RegCallsKnown(su: Setup, r: Reg, io: Io, net: Outcomes, e: Event)
    requires AllKnown(su, io.log) && r.config == su.config
    ensures var r' := OnNumeric(r, io, net, e); AllKnown(su, r'.io.log) && r'.reg.config == r.config
    ensures var r' := OnWelcome(r, io, e); AllKnown(su, r'.io.log) && r'.reg.config == r.config
    ensures AllKnown(su, OnPing(io, net, e).log)
  {
    assert Known(su, "NICK", [su.config.nick + "_"]);
    hide Known, AllKnown;
    SendKnown(su, io, net, "NICK", [su.config.nick + "_"]);
    if e.data.PingData? {
      PongKnown(su, e.data.server);
      SendKnown(su, io, net, "PONG", [e.data.server]);
    }
  }

  lemma OtherTaskKnown(su: Setup, w: World)
    requires Speaks(su, w) && w.todo != []
    requires w.todo[0].handler in {RegOnConnected, RegOnWelcome, RegOnNumeric, PingOnPing, PingOnRaw, PingOnWelcome, ClientOnEvent, SaslCounting}
             || w.todo[0].handler.User?
    ensures Speaks(su, Next(su, w, RunTask))
  {
    hide Known, AllKnown, OnRegConnected, OnNumeric, OnWelcome, OnPing, Tracking.OnEvent, Tracking.NamesDone;
    OnRegConnectedKnown(su, w.reg, w.io, su.net);
    RegCallsKnown(su, w.reg, w.io, su.net, w.todo[0].event);
  }

  lemma PongKnown(su: Setup, server: string)
    ensures Known(su, "PONG", [server]) && Known(su, "PING", ["tithon-" + server])
  {
  }

  lemma WaiterKnown(su: Setup, w: World, step: Step)
    requires Speaks(su, w) && (step.StartWaiter? || step.ReadyWaiter? || step.TimeOutWaiter? || step.CancelWaiter?)
    ensures Speaks(su, Next(su, w, step))
  {
    assert Known(su, "CAP", ["END"]);
    hide Known, AllKnown;
    SendKnown(su, w.io, su.net, "CAP", ["END"]);
  }

  lemma OutsideKnown(su: Setup, w: World, step: Step)
    requires Speaks(su, w) && step != RunTask
    requires !(step.StartWaiter? || step.ReadyWaiter? || step.TimeOutWaiter? || step.CancelWaiter?)
    ensures Speaks(su, Next(su, w, step))
  {
    hide Known, AllKnown, AbortSession, EventsOf, HandlersOf;
    AbortKnown(su, w.sasl, w.io, su.net);
    if step.PingTimer? {
      PongKnown(su, step.clock);
      SendKnown(su, w.io, su.net, "PING", ["tithon-" + step.clock]);
    }
  }

  lemma StepKnown(su: Setup, w: World, step: Step)
    requires Speaks(su, w)
    ensures Speaks(su, Next(su, w, step))
  {
    hide Next, Speaks;
    if step == RunTask {
      if w.todo == [] {
        Nothing(su, w);
      } else if w.todo[0].handler in {CapsOnConnected, CapsOnLS, CapsOnACK, CapsOnNAK, CapsOnDEL, CapsOnNEW, CapsOnEnd, CapsOnEndReady} {
        CapsTaskKnown(su, w);
      } else if w.todo[0].handler in {SaslOnPreEnd, SaslAuthenticate, SaslOnSuccess, SaslOnFail} {
        SaslTaskKnown(su, w);
      } else {
        OtherTaskKnown(su, w);
      }
    } else if step.StartWaiter? || step.ReadyWaiter? || step.TimeOutWaiter? || step.CancelWaiter? {
      WaiterKnown(su, w, step);
    } else {
      OutsideKnown(su, w, step);
    }
  }

  lemma Nothing(su: Setup, w: World)
    requires w.todo == []
    ensures Next(su, w, RunTask) == w
  {
  }

  /** Main result: over every run, nothing else is ever sent, whatever the server writes. */
  lemma {:induction false} SpeaksAlways(su: Setup, steps: seq<Step>)
    ensures AllKnown(su, Run(su, steps).io.log)
    ensures Speaks(su, Run(su, steps))
    decreases |steps|
  {
    if steps == [] {
      assert Run(su, []) == Initial(su);
    } else {
      SpeaksAlways(su, steps[..|steps| - 1]);
      hide Next, AllKnown;
      StepKnown(su, Run(su, steps[..|steps| - 1]), steps[|steps| - 1]);
    }
  }

  /** A PING line, handled, is answered with its last parameter. */
  lemma PingAnswered(m: Message, io: Io, net: Outcomes)
    requires m.command == "PING"
    ensures EventsOf(m).Some? && |EventsOf(m).value| == 1
    ensures var e := EventsOf(m).value[0];
            e.kind == Ping && OnPing(io, net, e).log == io.log + [Attempt("PONG", [Last(m.params)], net(|io.log|))]
  {
    ServerLines(m);
    hide EventsOf;
  }

  /** A failed PING or PONG is reported with one Error event, and an accepted one with none. */
  lemma PingReported(io: Io, net: Outcomes, e: Event, clock: string)
    ensures forall io' | io' == SendOrReport(io, net, "PING", ["tithon-" + clock]) || (e.data.PingData? && io' == OnPing(io, net, e)) ::
              |io'.queue| == |io.queue| + (if net(|io.log|) then 0 else 1) && io.queue <= io'.queue
              && (!net(|io.log|) ==> io'.queue[|io.queue|].kind == Error)
  {
  }

  /** The ping timer: made by the first welcome, running again after every line, elapsed until then. */
  lemma PingTimerSteps(su: Setup, w: World)
    ensures RunsTask(w, RunTask, PingOnRaw) ==>
              Next(su, w, RunTask).ping == if w.ping == NoTimer then NoTimer else Ticking
    ensures RunsTask(w, RunTask, PingOnWelcome) ==>
              Next(su, w, RunTask).ping == if w.ping == NoTimer then Ticking else w.ping
    ensures forall clock :: Next(su, w, PingTimer(clock)).ping == if w.ping == Ticking then Elapsed else w.ping
  {
    hide EventsOf, HandlersOf;
  }

  /** A timer that is not armed does nothing, and one that fires is not armed any more. */
  lemma TimersWhileArmed(su: Setup, w: World, clock: string)
    ensures !(su.hasSasl && w.sasl.timerArmed) ==> Next(su, w, SaslTimer) == w
    ensures su.hasSasl ==> !Next(su, w, SaslTimer).sasl.timerArmed
    ensures !w.reg.timerArmed ==> Next(su, w, RegTimer) == w
    ensures !Next(su, w, RegTimer).reg.timerArmed
    ensures w.ping != Ticking ==> Next(su, w, PingTimer(clock)) == w
    ensures Next(su, w, PingTimer(clock)).ping != Ticking
  {
    hide EventsOf, HandlersOf;
  }
}
