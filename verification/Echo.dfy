/**
 Sending PRIVMSG and NOTICE (parser/parser.go): without the echo-message capability the parser emits
 the events the server's echo would have caused.
 */
module Echo {
  import opened GoStrings
  import opened Utf8
  import opened Message
  import opened CodecTheorems
  import opened Events
  import opened EventPayloads
  import opened Wire
  import opened EventBus
  import opened Io
  import opened Capabilities

  function SourceOf(nick: string, host: string): string {
    nick + "!" + nick + "@" + host
  }

  function FakeMessage(nick: string, host: string, command: string, target: string, text: string): Message {
    Message(map[], SourceOf(nick, host), command, [target, text], "")
  }

  predicate EchoCommand(command: string) {
    command == "PRIVMSG" || command == "NOTICE"
  }

  lemma EchoNeverPanics(m: Message)
    requires EchoCommand(m.command)
    ensures EventsOf(m).Some?
  {
    PanicsExactlyWhen(m);
  }

  function EchoEvents(nick: string, host: string, command: string, target: string, text: string): seq<Event>
    requires EchoCommand(command)
  {
    EchoNeverPanics(FakeMessage(nick, host, command, target, text));
    EventsOf(FakeMessage(nick, host, command, target, text)).value
  }

  /** What one call adds: an attempt to send once registered, and the echo if that worked and no server echo will come. */
  function Said(
    io: Io, net: Outcomes, registered: bool, capabilities: set<string>,
    nick: string, host: string, command: string, target: string, text: string): Io
    requires EchoCommand(command)
  {
    if !registered then io
    else
      var io' := Send(io, net, command, [target, text]);
      if Accepted(io, net) && "echo-message" !in capabilities
      then EmitAll(io', EchoEvents(nick, host, command, target, text))
      else io'
  }

  /** The states of a connection that the code sets. */
  datatype Phase = Offline | Dialling | Online | Welcomed | HangingUp

  /** What the connection knows of itself. */
  datatype Link = Link(phase: Phase, nick: string)

  const NEW_LINK := Link(Offline, "")

  /** The welcome registers the connection, whatever its state, and names it; NICK renames it. */
  function OnMessage(l: Link, msg: Message): Link {
    if msg.command == "001" then Link(Welcomed, if |msg.params| > 0 then msg.params[0] else l.nick)
    else if msg.command == "NICK" && ExtractNick(msg.source) == l.nick then l.(nick := msg.GetParam(0))
    else l
  }

  /** A call of Connect and how it ends, a line, a call of Disconnect and its end, a read or write error. */
  datatype LinkEvent = Dial | DialFailed | DialDone | Read(msg: Message) | HangUp | HungUp | Lost

  function OnLink(l: Link, e: LinkEvent): Link {
    match e
    case Dial => l.(phase := Dialling)
    case DialFailed => l.(phase := Offline)
    case DialDone => l.(phase := Online)
    case Read(msg) => OnMessage(l, msg)
    case HangUp => l.(phase := HangingUp)
    case HungUp => l.(phase := Offline)
    case Lost => if l.phase in {HangingUp, Offline} then l else l.(phase := Offline)
  }

  function LinkAfter(es: seq<LinkEvent>): Link {
    var n := |es|;
    if n == 0 then NEW_LINK else OnLink(LinkAfter(es[..n - 1]), es[n - 1])
  }

  predicate IsWelcome(e: LinkEvent) {
    e.Read? && e.msg.command == "001"
  }

  /** Since some welcome there have been lines only: no new connect, no end, no error. */
  predicate LinesSinceWelcome(es: seq<LinkEvent>) {
    exists i :: 0 <= i < |es| && IsWelcome(es[i]) && forall j | i < j < |es| :: es[j].Read?
  }

  lemma SinceLast(front: seq<LinkEvent>, e: LinkEvent)
    ensures LinesSinceWelcome(front + [e]) <==> IsWelcome(e) || (e.Read? && LinesSinceWelcome(front))
  {
    var es, n := front + [e], |front|;
    assert es[n] == e && forall i | 0 <= i < n :: es[i] == front[i];
    if LinesSinceWelcome(front) && e.Read? {
      var i :| 0 <= i < n && IsWelcome(front[i]) && forall j | i < j < n :: front[j].Read?;
      assert IsWelcome(es[i]);
    }
    if LinesSinceWelcome(es) && !IsWelcome(e) {
      var i :| 0 <= i <= n && IsWelcome(es[i]) && forall j | i < j <= n :: es[j].Read?;
      assert IsWelcome(front[i]) && es[n].Read?;
    }
  }

  /** Over every history of a connection: it is registered if and only if there have been only lines since a welcome. */
  lemma {:induction false} RegisteredExactlyWhen(es: seq<LinkEvent>)
    ensures LinkAfter(es).phase == Welcomed <==> LinesSinceWelcome(es)
    decreases |es|
  {
    var n := |es|;
    if n > 0 {
      RegisteredExactlyWhen(es[..n - 1]);
      assert es == es[..n - 1] + [es[n - 1]];
      SinceLast(es[..n - 1], es[n - 1]);
      hide LinesSinceWelcome, ExtractNick;
    }
  }

  class Parser {
    const bus: EventBus
    const wire: Wire
    const host: string
    var phase: Phase
    var currentNick: string
    const capabilities: CapMap

    /** The map is the one the capability handler is given; the nick is empty until the welcome names it. */
    constructor (bus: EventBus, wire: Wire, host: string)
      ensures this.bus == bus && this.wire == wire && this.host == host
      ensures View() == NEW_LINK && fresh(capabilities) && capabilities.entries == map[]
    {
      this.bus, this.wire, this.host := bus, wire, host;
      phase, currentNick := Offline, "";
      capabilities := new CapMap();
    }

    function View(): Link
      reads this
    {
      Link(phase, currentNick)
    }

    /** Start: the outcome of the dialling is an input. The events of a connection are the session's steps. */
    method Connect(ok: bool)
      modifies this`phase
      ensures View() == OnLink(OnLink(old(View()), Dial), if ok then DialDone else DialFailed)
    {
      phase := Dialling;
      if !ok {
        phase := Offline;
        return;
      }
      phase := Online;
    }

    method Disconnect()
      modifies this`phase
      ensures View() == OnLink(OnLink(old(View()), HangUp), HungUp)
    {
      phase := HangingUp;
      phase := Offline;
    }

    /** After a read or write error; only the first one is announced. */
    method TransitionToDisconnected() returns (moved: bool)
      modifies this`phase
      ensures View() == OnLink(old(View()), Lost)
      ensures moved <==> old(phase) != HangingUp && old(phase) != Offline
    {
      if phase == HangingUp || phase == Offline {
        return false;
      }
      phase := Offline;
      return true;
    }

    method UpdateLink(msg: Message)
      modifies this`phase, this`currentNick
      ensures View() == OnMessage(old(View()), msg)
    {
      if msg.command == "001" {
        phase := Welcomed;
        if |msg.params| > 0 {
          currentNick := msg.params[0];
        }
      } else if msg.command == "NICK" {
        var oldNick := ExtractNick(msg.source);
        if oldNick == currentNick {
          currentNick := msg.GetParam(0);
        }
      }
    }

    /** handleMessage of the connection: its own state first, then the events. */
    method HandleMessage(msg: Message) returns (ok: bool)
      modifies this`phase, this`currentNick, bus`queue
      ensures View() == OnMessage(old(View()), msg) && ok == EventsOf(msg).Some?
      ensures bus.queue == old(bus.queue) + if ok then EventsOf(msg).value else []
    {
      hide ExtractNick, EventsFor, DetermineEventType;
      UpdateLink(msg);
      var events := CreateEventFromMessage(msg);
      ok := events.Some?;
      if ok {
        for i := 0 to |events.value|
          invariant bus.queue == old(bus.queue) + events.value[..i] && View() == OnMessage(old(View()), msg)
        {
          bus.Emit(events.value[i]);
        }
        assert events.value[..|events.value|] == events.value;
      } else {
        assert bus.queue == old(bus.queue) + [];
      }
    }

    method Privmsg(target: string, message: string) returns (ok: bool)
      modifies bus`queue, wire`log
      ensures IoOf(bus, wire) == Said(old(IoOf(bus, wire)), wire.outcome, phase == Welcomed, capabilities.entries.Keys,
                                      currentNick, host, "PRIVMSG", target, message)
      ensures ok <==> phase == Welcomed && Accepted(old(IoOf(bus, wire)), wire.outcome)
    {
      if phase != Welcomed {
        return false;
      }
      ok := wire.Send("PRIVMSG", [target, message]);
      if !ok {
        return;
      }
      if "echo-message" !in capabilities.entries {
        GenerateFakeEcho("PRIVMSG", target, message);
      }
    }

    method Notice(target: string, message: string) returns (ok: bool)
      modifies bus`queue, wire`log
      ensures IoOf(bus, wire) == Said(old(IoOf(bus, wire)), wire.outcome, phase == Welcomed, capabilities.entries.Keys,
                                      currentNick, host, "NOTICE", target, message)
      ensures ok <==> phase == Welcomed && Accepted(old(IoOf(bus, wire)), wire.outcome)
    {
      if phase != Welcomed {
        return false;
      }
      ok := wire.Send("NOTICE", [target, message]);
      if !ok {
        return;
      }
      if "echo-message" !in capabilities.entries {
        GenerateFakeEcho("NOTICE", target, message);
      }
    }

    method GenerateFakeEcho(command: string, target: string, message: string)
      requires EchoCommand(command)
      modifies bus`queue
      ensures bus.queue == old(bus.queue) + EchoEvents(currentNick, host, command, target, message)
    {
      var events := CreateEventFromMessage(FakeMessage(currentNick, host, command, target, message));
      EchoNeverPanics(FakeMessage(currentNick, host, command, target, message));
      for i := 0 to |events.value|
        invariant bus.queue == old(bus.queue) + events.value[..i]
      {
        bus.Emit(events.value[i]);
      }
    }
  }

  // ---------- the faked echo is the real one ----------

  /** What the sender writes for the message. */
  function SentLine(command: string, target: string, text: string): string {
    Print(Message(map[], "", command, [target, text], ""), [])
  }

  /** What the server sends back: the same line, with the source in front. */
  function EchoLine(source: string, command: string, target: string, text: string): string {
    ":" + source + " " + SentLine(command, target, text)
  }

  lemma EchoIsPrinted(m: Message)
    requires m.tags == map[] && m.source != "" && m.raw == ""
    ensures Print(m, []) == ":" + m.source + " " + Print(m.(source := ""), [])
  {
    var bare := m.(source := "");
    var body := [m.command] + PrintParams(m.params);
    assert TagPieces(m, []) == [] && TagPieces(bare, []) == [] && SourcePieces(bare) == [];
    assert TagPieces(bare, []) + SourcePieces(bare) + [m.command] + PrintParams(m.params) == body;
    var pieces := TagPieces(m, []) + SourcePieces(m) + [m.command] + PrintParams(m.params);
    assert pieces == [":" + m.source] + body;
    assert pieces[1..] == body;
    assert Join(pieces, ' ') == ":" + m.source + [' '] + Join(body, ' ');
  }

  /** Same types and payloads, one by one. */
  predicate Alike(a: seq<Event>, b: seq<Event>) {
    |a| == |b| && forall i | 0 <= i < |a| :: a[i].kind == b[i].kind && a[i].data == b[i].data
  }

  /** What a caller can see to: the echo line reads back as the message it was printed from. */
  predicate Echoes(nick: string, host: string, command: string, target: string, text: string) {
    && ' ' !in nick && ' ' !in host
    && MiddleParam(target) && !EndsInCRLF(text)
    && var line := EchoLine(SourceOf(nick, host), command, target, text);
       ValidUtf8(line) && |line| <= MAX_LINE
  }

  lemma UpperCommands()
    ensures ToUpper("PRIVMSG") == "PRIVMSG" && ToUpper("NOTICE") == "NOTICE"
    ensures ' ' !in "PRIVMSG" && ' ' !in "NOTICE"
  {
    hide ToUpper;
  }

  lemma SourceSpaces(nick: string, host: string)
    ensures ' ' in SourceOf(nick, host) <==> ' ' in nick || ' ' in host
  {
    assert SourceOf(nick, host) == nick + (['!'] + nick + ['@']) + host;
  }

  lemma EchoWellFormed(nick: string, host: string, command: string, target: string, text: string)
    requires EchoCommand(command)
    ensures WellFormed(FakeMessage(nick, host, command, target, text)) <==>
            ' ' !in nick && ' ' !in host && MiddleParam(target) && !EndsInCRLF(text)
  {
    var m := FakeMessage(nick, host, command, target, text);
    UpperCommands();
    SourceSpaces(nick, host);
    hide ToUpper, EndsInCRLF, MiddleParam, SourceOf;
    assert GoodParams(m.params) <==> MiddleParam(target) by {
      assert m.params[0] == target;
    }
  }

  /**
   Main result: the faked message and the server's echo line agree in every field exactly when the
   arguments are clean; then the faked events are the real ones, type by type and payload by payload.
   */
  lemma {:induction false} EchoIsReal(nick: string, host: string, command: string, target: string, text: string)
    requires EchoCommand(command)
    ensures var r := Parse(EchoLine(SourceOf(nick, host), command, target, text));
            && (r.Ok? && SameFields(r.msg, FakeMessage(nick, host, command, target, text))
                <==> Echoes(nick, host, command, target, text))
            && (Echoes(nick, host, command, target, text) ==>
                  EventsOf(r.msg).Some? && Alike(EventsOf(r.msg).value, EchoEvents(nick, host, command, target, text)))
  {
    var m := FakeMessage(nick, host, command, target, text);
    hide Parse, Print, ValidUtf8, WellFormed, EventsFor;
    EchoIsPrinted(m);
    EchoWellFormed(nick, host, command, target, text);
    RoundTripExactlyWhen(m, []);
    var r := Parse(EchoLine(SourceOf(nick, host), command, target, text));
    if r.Ok? && SameFields(r.msg, m) {
      SameKinds(r.msg, m);
      EventsForFields(DetermineEventType(m), r.msg, m);
      EchoNeverPanics(m);
    }
  }

  lemma SameKinds(a: Message, b: Message)
    requires SameFields(a, b)
    ensures DetermineEventType(a) == DetermineEventType(b)
  {
  }

  lemma {:induction false} NickBeforeBang(nick: string, rest: string)
    ensures ExtractNick(nick + "!" + rest) == nick <==> '!' !in nick
  {
    var source := nick + "!" + rest;
    if '!' in nick {
      var i := Index(source, '!');
      assert source[|nick|] == '!';
      var j :| 0 <= j < |nick| && nick[j] == '!';
      assert source[j] == '!';
      assert forall k | j < k <= |source| :: source[..k][j] == '!';
      assert |ExtractNick(source)| <= j;
    } else {
      IndexAt(nick, '!', rest);
    }
  }

  lemma EchoKind(m: Message)
    requires EchoCommand(m.command)
    ensures |DetermineEventType(m)| == 1 && DetermineEventType(m)[0] in {Action, Privmsg, Notice}
  {
    hide IsActionMessage;
  }

  lemma EchoData(kind: EventType, m: Message)
    requires kind in {Action, Privmsg, Notice} && |m.params| == 2
    ensures DataFor(kind, m).Some?
    ensures var d := DataFor(kind, m).value;
            && (d.PrivmsgData? || d.NoticeData? || d.ActionData?)
            && d.target == m.params[0] && d.message == m.params[1] && d.nick == ExtractNick(m.source)
  {
    hide IsValidCTCP, ExtractNick;
  }

  /** The sender's nick is read back exactly when it holds no '!'. */
  lemma EchoNick(nick: string, host: string, command: string, target: string, text: string)
    requires EchoCommand(command)
    ensures var es := EchoEvents(nick, host, command, target, text);
            |es| == 1
            && (es[0].data.PrivmsgData? || es[0].data.NoticeData? || es[0].data.ActionData?)
            && es[0].data.target == target && es[0].data.message == text
            && (es[0].data.nick == nick <==> '!' !in nick)
  {
    var m := FakeMessage(nick, host, command, target, text);
    assert m.source == nick + "!" + (nick + "@" + host);
    NickBeforeBang(nick, nick + "@" + host);
    EchoKind(m);
    var kinds := DetermineEventType(m);
    EchoData(kinds[0], m);
    hide DetermineEventType, DataFor;
    assert kinds[1..] == [];
    assert EventsFor(kinds[1..], m) == Some([]);
    assert EventsFor(kinds, m) == After([Event(kinds[0], Some(m), DataFor(kinds[0], m).value)], Some([]));
  }

  /** The message a client with this nick would be seen to send. */
  function SeenAs(nick: string, host: string, command: string, target: string, text: string): Message {
    Message(map[], nick + "!" + nick + "@" + host, command, [target, text], "")
  }

  /** The event it becomes. */
  ghost function SpokenEvent(m: Message, nick: string, target: string, text: string): Event {
    if m.command == "NOTICE" then Event(Notice, Some(m), NoticeData(target, nick, text, SaysCTCP(text)))
    else if exists rest :: rest != "" && text == Quoted("ACTION" + rest)
    then Event(Action, Some(m), ActionData(target, nick, text))
    else Event(Privmsg, Some(m), PrivmsgData(target, nick, text, SaysCTCP(text)))
  }

  /**
   Main result: nothing before the welcome; afterwards one line, command, target and text, and, if it went
   out and no server echo will come, the event that the echo would have caused.
   */
  lemma SaysExactly(
    io: Io, net: Outcomes, registered: bool, capabilities: set<string>,
    nick: string, host: string, command: string, target: string, text: string)
    requires EchoCommand(command) && '!' !in nick
    ensures var io' := Said(io, net, registered, capabilities, nick, host, command, target, text);
            && io'.log == io.log + (if registered then [Attempt(command, [target, text], net(|io.log|))] else [])
            && io'.queue == io.queue + (if registered && net(|io.log|) && "echo-message" !in capabilities
                                        then [SpokenEvent(SeenAs(nick, host, command, target, text), nick, target, text)] else [])
  {
    var m := FakeMessage(nick, host, command, target, text);
    assert m == SeenAs(nick, host, command, target, text) by {
      assert m.source == nick + "!" + nick + "@" + host;
    }
    assert From(m.source, nick) by {
      assert nick + "!" <= m.source;
    }
    TalkLines(m, nick);
    hide From, SaysCTCP, Quoted, EventsOf, FakeMessage, SeenAs;
    assert io.log + [] == io.log && io.queue + [] == io.queue;
  }
}
