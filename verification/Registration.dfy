/** Connection registration (parser/registration.go): PASS, NICK, USER, and the welcome numeric. */
module Registration {
  import opened Events
  import opened Wire
  import opened EventBus
  import opened Io

  datatype RegState = RegInactive | RegStarted | RegComplete | RegFailed

  datatype Config = Config(nick: string, username: string, realname: string, password: string)

  /** `numericID` is the number of the handler's own numeric subscription; 0 means it has none. */
  datatype Reg = Reg(config: Config, state: RegState, timerArmed: bool, numericID: nat)

  datatype RegResult = RegResult(reg: Reg, io: Io)

  predicate RegActive(r: Reg) {
    r.state == RegStarted
  }

  function ErrorEvent(text: string): Event {
    Internally(Error, ErrorData(text))
  }

  function RegFail(r: Reg, io: Io, text: string): RegResult {
    RegResult(r.(state := RegFailed), Emit(io, ErrorEvent(text)))
  }

  function SendUser(r: Reg, io: Io, net: Outcomes): RegResult {
    var io' := Send(io, net, "USER", [r.config.username, "0", "*", r.config.realname]);
    if Accepted(io, net) then RegResult(r, io') else RegFail(r, io', "failed to send USER command")
  }

  function SendNick(r: Reg, io: Io, net: Outcomes): RegResult {
    var io' := Send(io, net, "NICK", [r.config.nick]);
    if Accepted(io, net) then SendUser(r, io', net) else RegFail(r, io', "failed to send NICK command")
  }

  function SendCommands(r: Reg, io: Io, net: Outcomes): RegResult {
    if r.config.password == "" then SendNick(r, io, net)
    else
      var io' := Send(io, net, "PASS", [r.config.password]);
      if Accepted(io, net) then SendNick(r, io', net) else RegFail(r, io', "failed to send PASS command")
  }

  function OnRegConnected(r: Reg, io: Io, net: Outcomes): RegResult {
    if r.state != RegInactive then RegResult(r, io)
    else SendCommands(r.(state := RegStarted, timerArmed := true), io, net)
  }

  function OnNumeric(r: Reg, io: Io, net: Outcomes, e: Event): RegResult {
    if !RegActive(r) || !e.data.NumericData? || e.data.code != "433" then RegResult(r, io)
    else
      var io' := Send(io, net, "NICK", [r.config.nick + "_"]);
      if Accepted(io, net) then RegResult(r, io')
      else RegFail(r, io', "failed to send NICK command for collision")
  }

  /** The re-emitted event carries the server name; `e.message` is set on every event a server line causes. */
  function OnWelcome(r: Reg, io: Io, e: Event): RegResult {
    if !RegActive(r) then RegResult(r, io)
    else
      RegResult(
        r.(state := RegComplete, timerArmed := false),
        if e.message.None? then io
        else Emit(io, Internally(Registered, ConnectedData(e.message.value.source))))
  }

  function OnRegTimer(r: Reg, io: Io): RegResult {
    RegResult(r.(state := RegFailed, timerArmed := false), Emit(io, ErrorEvent("registration timeout")))
  }

  // ---------- what goes out ----------

  datatype Line = Line(command: string, params: seq<string>)

  /** The registration as RFC 2812, section 3.1 orders it. */
  function RegistrationLines(c: Config): seq<Line> {
    (if c.password == "" then [] else [Line("PASS", [c.password])])
    + [Line("NICK", [c.nick])] + [Line("USER", [c.username, "0", "*", c.realname])]
  }

  function Attempts(lines: seq<Line>, ok: bool): seq<Attempt> {
    seq(|lines|, i requires 0 <= i < |lines| => Attempt(lines[i].command, lines[i].params, ok))
  }

  /** How many sends from the n-th on succeed in a row, `most` at most. */
  function InARow(net: Outcomes, n: nat, most: nat): (k: nat)
    ensures k <= most
    ensures forall i | n <= i < n + k :: net(i)
    ensures k < most ==> !net(n + k)
    decreases most
  {
    if most == 0 || !net(n) then 0 else 1 + InARow(net, n + 1, most - 1)
  }

  /** The first `sent` of `lines` were accepted; the next one, if any, was refused. */
  predicate SentUpTo(r: Reg, io: Io, r': RegResult, lines: seq<Line>, sent: nat)
    requires sent <= |lines|
  {
    && LogUpTo(io.log, r'.io.log, lines, sent)
    && (if sent == |lines| then r'.io.queue == io.queue && r'.reg == r
        else |r'.io.queue| == |io.queue| + 1 && io.queue <= r'.io.queue && r'.io.queue[|io.queue|].kind == Error
             && r'.reg == r.(state := RegFailed))
  }

  lemma SendUserExactly(r: Reg, io: Io, net: Outcomes)
    ensures var lines := [Line("USER", [r.config.username, "0", "*", r.config.realname])];
            SentUpTo(r, io, SendUser(r, io, net), lines, InARow(net, |io.log|, 1))
  {
    assert io.log + [] == io.log;
    assert InARow(net, |io.log|, 1) == if net(|io.log|) then 1 else 0;
  }

  lemma AttemptsFirst(line: Line, rest: seq<Line>, n: nat)
    requires n <= |rest|
    ensures Attempts(([line] + rest)[..n + 1], true) == [Attempt(line.command, line.params, true)] + Attempts(rest[..n], true)
    ensures n < |rest| ==> ([line] + rest)[n + 1] == rest[n]
  {
    assert ([line] + rest)[..n + 1] == [line] + rest[..n];
  }

  /** What `SentUpTo` says of the log. */
  predicate LogUpTo(log: seq<Attempt>, log': seq<Attempt>, lines: seq<Line>, sent: nat)
    requires sent <= |lines|
  {
    log' == log + Attempts(lines[..sent], true) + (if sent < |lines| then Attempts([lines[sent]], false) else [])
  }

  lemma LogAccepted(log: seq<Attempt>, log': seq<Attempt>, line: Line, rest: seq<Line>, n: nat)
    requires n <= |rest| && LogUpTo(log + [Attempt(line.command, line.params, true)], log', rest, n)
    ensures LogUpTo(log, log', [line] + rest, n + 1)
  {
    AttemptsFirst(line, rest, n);
    hide Attempts;
    var x, sent := Attempt(line.command, line.params, true), Attempts(rest[..n], true);
    LogAssoc(log, x, sent, if n < |rest| then Attempts([rest[n]], false) else []);
  }

  lemma LineAccepted(r: Reg, io: Io, net: Outcomes, line: Line, after: RegResult, rest: seq<Line>)
    requires net(|io.log|)
    requires SentUpTo(r, Send(io, net, line.command, line.params), after, rest, InARow(net, |io.log| + 1, |rest|))
    ensures SentUpTo(r, io, after, [line] + rest, InARow(net, |io.log|, 1 + |rest|))
  {
    hide Attempts, InARow, LogUpTo;
    var n := InARow(net, |io.log| + 1, |rest|);
    OneMore(net, |io.log|, |rest|);
    LogAccepted(io.log, after.io.log, line, rest, n);
  }

  lemma OneMore(net: Outcomes, n: nat, most: nat)
    ensures net(n) ==> InARow(net, n, 1 + most) == InARow(net, n + 1, most) + 1
  {
  }

  lemma LogAssoc(a: seq<Attempt>, x: Attempt, b: seq<Attempt>, c: seq<Attempt>)
    ensures (a + [x]) + b + c == a + ([x] + b) + c
  {
  }

  lemma LineRefused(r: Reg, io: Io, net: Outcomes, line: Line, text: string, rest: seq<Line>)
    requires !net(|io.log|)
    ensures SentUpTo(r, io, RegFail(r, Send(io, net, line.command, line.params), text), [line] + rest,
                     InARow(net, |io.log|, 1 + |rest|))
  {
    var lines := [line] + rest;
    assert InARow(net, |io.log|, 1 + |rest|) == 0;
    assert lines[..0] == [] && Attempts([], true) == [] && lines[0] == line;
    assert io.log + [] == io.log;
  }

  /** One more line in front: accepted, it is followed by `rest`; refused, it ends the registration. */
  lemma OneLineFirst(r: Reg, io: Io, net: Outcomes, line: Line, text: string, after: RegResult, rest: seq<Line>)
    requires net(|io.log|) ==>
               SentUpTo(r, Send(io, net, line.command, line.params), after, rest, InARow(net, |io.log| + 1, |rest|))
    ensures var io' := Send(io, net, line.command, line.params);
            SentUpTo(r, io, if net(|io.log|) then after else RegFail(r, io', text), [line] + rest,
                     InARow(net, |io.log|, 1 + |rest|))
  {
    hide SentUpTo, InARow;
    if net(|io.log|) {
      LineAccepted(r, io, net, line, after, rest);
    } else {
      LineRefused(r, io, net, line, text, rest);
    }
  }

  /**
   Main result: the lines accepted are a prefix of PASS, NICK, USER, as long as sends succeed; the first
   refused one is the last and causes exactly one Error event, and the registration has failed. The timer
   is armed in either case.
   */
  lemma RegistrationSends(r: Reg, io: Io, net: Outcomes)
    requires r.state == RegInactive
    ensures var lines := RegistrationLines(r.config);
            SentUpTo(r.(state := RegStarted, timerArmed := true), io, OnRegConnected(r, io, net), lines,
                       InARow(net, |io.log|, |lines|))
  {
    var s := r.(state := RegStarted, timerArmed := true);
    hide SentUpTo, InARow;
    var nick, user := Line("NICK", [r.config.nick]), Line("USER", [r.config.username, "0", "*", r.config.realname]);
    var pass := Line("PASS", [r.config.password]);
    var first := if r.config.password == "" then io else Send(io, net, "PASS", pass.params);
    SendUserExactly(s, Send(first, net, "NICK", nick.params), net);
    OneLineFirst(s, first, net, nick, "failed to send NICK command",
                 SendUser(s, Send(first, net, "NICK", nick.params), net), [user]);
    assert [nick] + [user] == [] + [nick] + [user];
    if r.config.password != "" {
      OneLineFirst(s, io, net, pass, "failed to send PASS command", SendNick(s, first, net), [nick] + [user]);
      assert [pass] + ([nick] + [user]) == [pass] + [nick] + [user];
    }
  }

  /**
   The two events in a row: started, and its timer fired, a registration has reported two errors if and
   only if one of its lines was refused, and one otherwise.
   */
  lemma FailureReportedTwice(r: Reg, io: Io, net: Outcomes)
    requires r.state == RegInactive
    ensures var r1 := OnRegConnected(r, io, net);
            && r1.reg.timerArmed
            && var q := OnRegTimer(r1.reg, r1.io).io.queue;
               && ((exists i :: |io.log| <= i < |io.log| + |RegistrationLines(r.config)| && !net(i)) <==> |q| == |io.queue| + 2)
               && (|q| == |io.queue| + 1 || |q| == |io.queue| + 2)
               && (forall i | |io.queue| <= i < |q| :: q[i].kind == Error)
  {
    RegistrationSends(r, io, net);
    hide OnRegConnected, LogUpTo;
  }

  class RegistrationHandler {
    const bus: EventBus
    const wire: Wire
    const config: Config
    var state: RegState
    var timerArmed: bool
    var nickInUseHandlerID: nat

    /** Subscribes to three events; the number of the numeric subscription is kept for the unsubscription. */
    constructor (bus: EventBus, wire: Wire, config: Config)
      modifies bus`handlers, bus`nextID
      ensures this.bus == bus && this.wire == wire
      ensures View() == Reg(config, RegInactive, false, old(bus.nextID) + 2)
      ensures bus.nextID == old(bus.nextID) + 3
      ensures bus.handlers ==
              AddEntry(AddEntry(AddEntry(old(bus.handlers),
                Connected, old(bus.nextID), RegOnConnected),
                Registered, old(bus.nextID) + 1, RegOnWelcome),
                Numeric, old(bus.nextID) + 2, RegOnNumeric)
    {
      this.bus, this.wire, this.config := bus, wire, config;
      state, timerArmed, nickInUseHandlerID := RegInactive, false, 0;
      new;
      var _ := bus.Subscribe(Connected, RegOnConnected);
      var _ := bus.Subscribe(Registered, RegOnWelcome);
      nickInUseHandlerID := bus.Subscribe(Numeric, RegOnNumeric);
    }

    function View(): Reg
      reads this
    {
      Reg(config, state, timerArmed, nickInUseHandlerID)
    }

    method Fail(text: string)
      modifies this`state, bus`queue
      ensures var r := RegFail(old(View()), old(IoOf(bus, wire)), text); View() == r.reg && IoOf(bus, wire) == r.io
    {
      state := RegFailed;
      bus.Emit(ErrorEvent(text));
    }

    method SendRegistrationCommands()
      modifies this`state, bus`queue, wire`log
      ensures var r := SendCommands(old(View()), old(IoOf(bus, wire)), wire.outcome);
              View() == r.reg && IoOf(bus, wire) == r.io
    {
      if config.password != "" {
        var ok := wire.Send("PASS", [config.password]);
        if !ok {
          Fail("failed to send PASS command");
          return;
        }
      }
      var ok := wire.Send("NICK", [config.nick]);
      if !ok {
        Fail("failed to send NICK command");
        return;
      }
      ok := wire.Send("USER", [config.username, "0", "*", config.realname]);
      if !ok {
        Fail("failed to send USER command");
        return;
      }
    }

    method HandleConnected()
      modifies this, bus`queue, wire`log
      ensures var r := OnRegConnected(old(View()), old(IoOf(bus, wire)), wire.outcome);
              View() == r.reg && IoOf(bus, wire) == r.io
    {
      if state == RegInactive {
        state := RegStarted;
        timerArmed := true;
        SendRegistrationCommands();
      }
    }

    method HandleNumeric(event: Event)
      modifies this`state, bus`queue, wire`log
      ensures var r := OnNumeric(old(View()), old(IoOf(bus, wire)), wire.outcome, event);
              View() == r.reg && IoOf(bus, wire) == r.io
    {
      if state != RegStarted || !event.data.NumericData? {
        return;
      }
      if event.data.code == "433" {
        var ok := wire.Send("NICK", [config.nick + "_"]);
        if !ok {
          Fail("failed to send NICK command for collision");
        }
      }
    }

    method HandleWelcome(event: Event)
      modifies this, bus`queue, bus`handlers
      ensures var r := OnWelcome(old(View()), old(IoOf(bus, wire)), event);
              View() == r.reg && IoOf(bus, wire) == r.io
      ensures bus.handlers ==
              if RegActive(old(View())) && nickInUseHandlerID != 0
              then RemoveEntry(old(bus.handlers), Numeric, nickInUseHandlerID)
              else old(bus.handlers)
    {
      if state != RegStarted {
        return;
      }
      state := RegComplete;
      timerArmed := false;
      if nickInUseHandlerID != 0 {
        bus.UnsubscribeByID(Numeric, nickInUseHandlerID);
      }
      if event.message.None? {
        // The Go code dereferences the missing message here; the bus recovers from the panic.
        return;
      }
      bus.Emit(Internally(Registered, ConnectedData(event.message.value.source)));
    }

    /** The callback of the 60 s registration timer. */
    method TimerFired()
      modifies this, bus`queue
      ensures var r := OnRegTimer(old(View()), old(IoOf(bus, wire))); View() == r.reg && IoOf(bus, wire) == r.io
    {
      state := RegFailed;
      timerArmed := false;
      bus.Emit(ErrorEvent("registration timeout"));
    }
  }
}
