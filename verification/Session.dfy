/**
 The library put together as factory.go and NewClient do it: one bus, one wire, the handlers and the
 client, all updated in place. Every method is one step of Negotiation: it takes the view of the objects
 to what Negotiation.Next makes of it, so every theorem about runs is one about these objects.
 */
module Session {
  import opened Message
  import opened Events
  import opened Wire
  import opened EventBus
  import opened Io
  import opened Capabilities
  import opened Sasl
  import opened Registration
  import opened Keepalive
  import opened Echo
  import opened Negotiation
  import opened Factory
  import opened TrackedHeap
  import Subscriptions
  import Tracking

  lemma TaskIsHandled(su: Setup, w: World)
    requires w.todo != []
    ensures Next(su, w, RunTask) == Handle(su, w.(todo := w.todo[1..]), w.todo[0])
  {
    hide Handle;
  }

  lemma DisabledStays(su: Setup, w: World, step: Step)
    ensures !Enabled(su, w, step) ==> Next(su, w, step) == w
  {
    hide Enabled;
  }

  predicate SaslCall(h: Handler) {
    h in {SaslOnPreEnd, SaslAuthenticate, SaslOnSuccess, SaslOnFail}
  }

  predicate WithoutSasl(ts: seq<Task>) {
    forall t | t in ts :: !SaslCall(t.handler)
  }

  lemma TailWithoutSasl(ts: seq<Task>)
    requires ts != [] && WithoutSasl(ts)
    ensures WithoutSasl(ts[1..]) && !SaslCall(ts[0].handler)
  {
    assert ts[0] in ts;
  }

  lemma WelcomeHandled(su: Setup, w: World, t: Task)
    requires t.handler == RegOnWelcome
    ensures var r := OnWelcome(w.reg, w.io, t.event); Handle(su, w, t) == w.(reg := r.reg, io := r.io)
  {
  }

  class Session {
    const bus: EventBus
    const wire: Wire
    const username: string
    const password: string
    const codec: Codec
    const sasl: SASLHandler?
    const caps: CapabilitiesHandler
    const reg: RegistrationHandler
    const ping: PingHandler
    const parser: Parser
    const client: Client
    const listeners: nat
    var todo: seq<Task>
    /** What the client's objects stand for. */
    ghost var tracked: Tracking.ClientView

    constructor (bus: EventBus, wire: Wire, codec: Codec, username: string, password: string, sasl: SASLHandler?,
                 caps: CapabilitiesHandler, reg: RegistrationHandler, ping: PingHandler, parser: Parser, client: Client,
                 listeners: nat)
      ensures this.bus == bus && this.wire == wire && this.codec == codec && this.username == username && this.password == password
      ensures this.sasl == sasl && this.caps == caps && this.reg == reg && this.ping == ping && this.parser == parser
      ensures this.client == client && this.listeners == listeners && todo == [] && tracked == client.state.View()
    {
      tracked := client.state.View();
      this.bus, this.wire, this.codec, this.username, this.password := bus, wire, codec, username, password;
      this.sasl, this.caps, this.reg, this.ping, this.parser, this.client := sasl, caps, reg, ping, parser, client;
      this.listeners, todo := listeners, [];
    }

    function TheSetup(): Setup {
      Setup(wire.outcome, codec, username != "" && password != "", username, password, caps.requestedCaps, reg.config, listeners)
    }

    function SaslBuffers(): set<object>
      reads sasl, if sasl == null then {} else {sasl.mechanism}
    {
      if sasl == null then {} else sasl.Buffers()
    }

    /** Without credentials there is no SASL handler; what it would be never changes then. */
    function SaslView(): Sasl
      reads sasl, if sasl == null then {} else {sasl.mechanism}, SaslBuffers()
    {
      if sasl == null then Sasl(Inactive, None, false, [], username, password, DEFAULT_CHUNK_SIZE) else sasl.View()
    }

    ghost function View(): World
      reads this, bus, wire, caps, caps.ackedCaps, sasl, if sasl == null then {} else {sasl.mechanism}, SaslBuffers(), reg, ping
    {
      World(IoOf(bus, wire), todo, caps.View(), SaslView(), reg.View(), ping.timer, tracked)
    }

    ghost predicate ClientMatches()
      reads this`tracked, client.state, client.state.serverInfo, client.state.channels.Values, client.state.Users()
    {
      client.state.Valid() && client.state.View() == tracked
    }

    ghost function Repr(): set<object>
      reads caps`ackedCaps, sasl, if sasl == null then {} else {sasl.mechanism}
      reads client.state`channels, client.state.channels.Values
    {
      {this, bus, wire, caps, caps.ackedCaps, reg, ping, parser, client.state, client.state.serverInfo}
      + (if sasl == null then {} else {sasl as object}) + SaslBuffers() + client.state.Owned()
    }

    /** The parts are wired together. */
    ghost predicate Wired() {
      && caps.bus == bus && caps.wire == wire && reg.bus == bus && reg.wire == wire
      && ping.bus == bus && ping.wire == wire && parser.bus == bus && parser.wire == wire && client.bus == bus
      && (sasl == null <==> !TheSetup().hasSasl)
      && (sasl != null ==>
            sasl.bus == bus && sasl.wire == wire && sasl.codec == codec && sasl.username == username && sasl.password == password)
    }

    /** ... and the table is the one the steps read. */
    ghost predicate Valid()
      reads this`todo, this`tracked, bus`handlers, reg
      reads client.state, client.state.serverInfo, client.state.channels.Values, client.state.Users()
    {
      Wired() && TableMatches() && NumericMatches() && ClientMatches() && (sasl == null ==> WithoutSasl(todo))
    }

    ghost predicate TableMatches()
      reads bus`handlers, reg
    {
      forall k: EventType :: Subscribed(bus.handlers, k) == HandlersOf(TheSetup(), reg.View(), k)
    }

    /** The kept number is that of the registration's own entry until the welcome; its timer is off afterwards. */
    ghost predicate NumericMatches()
      reads bus`handlers, reg
    {
      && reg.nickInUseHandlerID == NumericID(TheSetup())
      && (reg.state == RegComplete ==> !reg.timerArmed)
      && (reg.state != RegComplete ==> Holds(Entries(bus.handlers, Numeric), reg.nickInUseHandlerID))
    }

    lemma InRepr()
      ensures {this, bus, wire, caps, caps.ackedCaps, reg, ping, parser, client.state, client.state.serverInfo} <= Repr()
      ensures sasl != null ==> sasl in Repr() && (sasl.mechanism != null ==> sasl.mechanism in Repr())
      ensures SaslBuffers() <= Repr() && client.state.Owned() <= Repr()
    {
    }

    // What Repr makes of a change to one of its moving parts.

    twostate lemma SameParts()
      requires caps.ackedCaps == old(caps.ackedCaps) && SaslBuffers() == old(SaslBuffers())
      requires client.state.Owned() == old(client.state.Owned())
      ensures Repr() == old(Repr())
    {
    }

    twostate lemma NewBuffers()
      requires caps.ackedCaps == old(caps.ackedCaps) && client.state.Owned() == old(client.state.Owned())
      requires fresh(SaslBuffers() - old(SaslBuffers()))
      ensures (forall o | o in Repr() :: o in old(Repr()) || fresh(o))
    {
    }

    twostate lemma NewOwned()
      requires caps.ackedCaps == old(caps.ackedCaps) && SaslBuffers() == old(SaslBuffers())
      requires (forall o | o in client.state.Owned() :: o in old(client.state.Owned()) || fresh(o))
      ensures (forall o | o in Repr() :: o in old(Repr()) || fresh(o))
    {
    }

    twostate lemma NewMap()
      requires fresh(caps.ackedCaps) && SaslBuffers() == old(SaslBuffers())
      requires client.state.Owned() == old(client.state.Owned())
      ensures (forall o | o in Repr() :: o in old(Repr()) || fresh(o))
    {
    }

    /** The Parser still reads the map the capability handler writes. */
    predicate Shared()
      reads caps
    {
      caps.ackedCaps == parser.capabilities
    }

    /** The tracked objects are none of the others. */
    lemma Apart(o: object)
      requires !(o is Channel) && !(o is User)
      ensures forall c | c in client.state.channels.Values :: c as object != o
      ensures forall u | u in client.state.Users() :: u as object != o
    {
    }

    lemma ApartBuffers()
      ensures forall o | o in SaslBuffers() :: o is PlainMechanism || o is array<char>
      ensures sasl != null ==> forall o | o in sasl.Buffers() :: o is PlainMechanism || o is array<char>
      ensures forall c | c in client.state.channels.Values :: c as object !in SaslBuffers()
      ensures forall u | u in client.state.Users() :: u as object !in SaslBuffers()
    {
    }

    // ----- steps from outside -----

    method ConnectionUp()
      requires Valid()
      modifies bus`queue, parser`phase
      ensures Repr() == old(Repr())
      ensures Valid() && View() == Next(TheSetup(), old(View()), Step.ConnectionUp)
      ensures parser.View() == OnLink(OnLink(old(parser.View()), Dial), DialDone)
    {
      hide Session.Repr;
      hide Session.TableMatches, Session.NumericMatches, Session.ClientMatches;
      Apart(bus);
      Apart(parser);
      parser.Connect(true);
      bus.Emit(Internally(Connected, ConnectedData("")));
    }

    /** Closed by the application, or lost: either way the connection is off and Disconnected is emitted. */
    method ConnectionDown()
      requires Valid()
      modifies bus`queue, parser`phase
      ensures Repr() == old(Repr())
      ensures Valid() && View() == Next(TheSetup(), old(View()), Step.ConnectionDown)
      ensures parser.View() == OnLink(OnLink(old(parser.View()), HangUp), HungUp)
    {
      hide Session.Repr;
      hide Session.TableMatches, Session.NumericMatches, Session.ClientMatches;
      Apart(bus);
      Apart(parser);
      parser.Disconnect();
      bus.Emit(Plain(Disconnected));
    }

    /** One line of the read loop. */
    method ServerLine(msg: Message)
      requires Valid() && EventsOf(msg).Some?
      modifies bus`queue, parser`phase, parser`currentNick
      ensures Repr() == old(Repr())
      ensures Valid() && View() == Next(TheSetup(), old(View()), Step.ServerLine(msg))
      ensures parser.View() == OnMessage(old(parser.View()), msg)
    {
      hide Session.Repr;
      hide Session.TableMatches, Session.NumericMatches, Session.ClientMatches, EventsFor, DetermineEventType, OnMessage;
      Apart(bus);
      Apart(parser);
      bus.Emit(Plain(RawIncoming));
      var ok := parser.HandleMessage(msg);
    }

    method BadLine()
      requires Valid()
      modifies bus`queue
      ensures Repr() == old(Repr())
      ensures Valid() && View() == Next(TheSetup(), old(View()), Step.BadLine)
    {
      hide Session.Repr;
      hide Session.TableMatches, Session.NumericMatches, Session.ClientMatches;
      Apart(bus);
      bus.Emit(Plain(RawIncoming));
      bus.Emit(ErrorEvent("failed to parse message"));
    }

    method Signal(listener: nat)
      requires Valid() && listener < listeners
      modifies bus`queue
      ensures Repr() == old(Repr())
      ensures Valid() && View() == Next(TheSetup(), old(View()), Step.Signal(listener))
    {
      hide Session.Repr;
      hide Session.TableMatches, Session.NumericMatches, Session.ClientMatches;
      Apart(bus);
      bus.Emit(Plain(CapEndReady));
    }

    // ----- the dispatch loop -----

    method Dispatch()
      requires Valid() && todo == [] && bus.queue != []
      modifies bus`queue, this`todo
      ensures Repr() == old(Repr())
      ensures Valid() && View() == Next(TheSetup(), old(View()), Step.Dispatch)
    {
      hide Session.Repr;
      hide Session.NumericMatches, Session.ClientMatches, HandlersOf;
      Apart(bus);
      Apart(this);
      var event, snapshot := bus.Take();
      assert HandlersIn(snapshot) == Subscribed(bus.handlers, event.kind);
      todo := TasksOf(HandlersIn(snapshot), event);
      NoSaslDispatched(TheSetup(), reg.View(), event);
    }

    /** The next handler call is taken off the list. */
    method Pop() returns (t: Task)
      requires Valid() && todo != []
      modifies this`todo
      ensures Repr() == old(Repr())
      ensures client.state.Owned() == old(client.state.Owned()) && caps.ackedCaps == old(caps.ackedCaps)
      ensures Valid() && t == old(todo)[0] && todo == old(todo)[1..] && (SaslCall(t.handler) ==> sasl != null)
      ensures View() == old(View()).(todo := todo) && SaslBuffers() == old(SaslBuffers())
      ensures Next(TheSetup(), old(View()), RunTask) == Handle(TheSetup(), View(), t)
    {
      hide Session.Repr;
      hide CapabilitiesHandler.View, RegistrationHandler.View, Session.ClientMatches, IoOf, Next, WithoutSasl, SaslCall, Handle;
      hide Session.TableMatches, Session.NumericMatches;
      TaskIsHandled(TheSetup(), View());
      Apart(this);
      if WithoutSasl(todo) {
        TailWithoutSasl(todo);
      }
      t := todo[0];
      todo := todo[1..];
    }

    method RunCapsTask()
      requires Valid() && todo != []
      requires todo[0].handler in {CapsOnConnected, CapsOnLS, CapsOnACK, CapsOnNAK, CapsOnDEL, CapsOnNEW, CapsOnEnd, CapsOnEndReady}
      modifies this`todo, caps, caps.ackedCaps, bus`queue, wire`log
      ensures Repr() == old(Repr())
      ensures Valid() && View() == Next(TheSetup(), old(View()), RunTask) && caps.ackedCaps == old(caps.ackedCaps)
    {
      hide Session.Repr;
      hide Session.View, Session.Valid, Next, Handle;
      var t := Pop();
      HandleCaps(t);
    }

    method HandleCaps(t: Task)
      requires Valid()
      requires t.handler in {CapsOnConnected, CapsOnLS, CapsOnACK, CapsOnNAK, CapsOnDEL, CapsOnNEW, CapsOnEnd, CapsOnEndReady}
      modifies caps, caps.ackedCaps, bus`queue, wire`log
      ensures Repr() == old(Repr())
      ensures Valid() && View() == Handle(TheSetup(), old(View()), t) && caps.ackedCaps == old(caps.ackedCaps)
    {
      hide Session.Repr;
      hide CapabilitiesHandler.View, RegistrationHandler.View, Session.ClientMatches, IoOf, WithoutSasl, Handle;
      hide Session.TableMatches, Session.NumericMatches;
      Apart(bus);
      Apart(wire);
      Apart(caps);
      Apart(caps.ackedCaps);
      CallCaps(t);
    }

    /** The call itself: all it does is to `caps` and `io`. */
    method CallCaps(t: Task)
      requires caps.bus == bus && caps.wire == wire
      requires t.handler in {CapsOnConnected, CapsOnLS, CapsOnACK, CapsOnNAK, CapsOnDEL, CapsOnNEW, CapsOnEnd, CapsOnEndReady}
      modifies caps, caps.ackedCaps, bus`queue, wire`log
      ensures caps.ackedCaps == old(caps.ackedCaps)
      ensures forall su: Setup, w: World | su.net == wire.outcome && w.caps == old(caps.View()) && w.io == old(IoOf(bus, wire)) ::
                Handle(su, w, t) == w.(caps := caps.View(), io := IoOf(bus, wire))
    {
      hide CapabilitiesHandler.View, IoOf;
      hide OnConnected, OnLS, OnACK, OnNAK, OnDEL, OnNEW, OnCapEnd, OnEndReady;
      match t.handler {
        case CapsOnConnected => caps.HandleConnected();
        case CapsOnLS => caps.HandleCapLS(t.event);
        case CapsOnACK => caps.HandleCapACK(t.event);
        case CapsOnNAK => caps.HandleCapNAK(t.event);
        case CapsOnDEL => caps.HandleCapDEL(t.event);
        case CapsOnNEW => caps.HandleCapNEW(t.event);
        case CapsOnEnd => caps.HandleCapEnd();
        case CapsOnEndReady => caps.HandleCapEndReady();
      }
    }

    method RunSaslTask()
      requires Valid() && todo != []
      requires todo[0].handler == SaslOnPreEnd || todo[0].handler == SaslAuthenticate
      modifies this`todo, sasl, if sasl == null then {} else {sasl.mechanism}, SaslBuffers(), bus`queue, wire`log
      ensures client.state.Owned() == old(client.state.Owned()) && caps.ackedCaps == old(caps.ackedCaps)
      ensures Valid() && View() == Next(TheSetup(), old(View()), RunTask)
      ensures fresh(SaslBuffers() - old(SaslBuffers()))
    {
      hide Session.Repr, State.Owned;
      hide Session.View, Session.Valid, Next, Handle;
      var t := Pop();
      HandleSasl(t);
    }

    method HandleSasl(t: Task)
      requires Valid() && sasl != null && (t.handler == SaslOnPreEnd || t.handler == SaslAuthenticate)
      modifies sasl, sasl.mechanism, sasl.Buffers(), bus`queue, wire`log
      ensures client.state.Owned() == old(client.state.Owned()) && caps.ackedCaps == old(caps.ackedCaps)
      ensures Valid() && View() == Handle(TheSetup(), old(View()), t)
      ensures fresh(SaslBuffers() - old(SaslBuffers()))
    {
      hide CapabilitiesHandler.View, RegistrationHandler.View, SASLHandler.View, Session.ClientMatches, IoOf, WithoutSasl, Handle;
      hide Session.TableMatches, Session.NumericMatches, SASLHandler.Buffers;
      Apart(bus);
      Apart(wire);
      Apart(sasl);
      ApartBuffers();
      CallSasl(t);
    }

    method CallSasl(t: Task)
      requires sasl != null && sasl.bus == bus && sasl.wire == wire && (t.handler == SaslOnPreEnd || t.handler == SaslAuthenticate)
      modifies sasl, sasl.mechanism, sasl.Buffers(), bus`queue, wire`log
      ensures fresh(sasl.Buffers() - old(sasl.Buffers()))
      ensures forall su: Setup, w: World |
                su.net == wire.outcome && su.codec == sasl.codec && w.sasl == old(sasl.View()) && w.io == old(IoOf(bus, wire)) ::
                Handle(su, w, t) == w.(sasl := sasl.View(), io := IoOf(bus, wire))
    {
      hide SASLHandler.View, IoOf, OnPreEnd, OnAuthenticate;
      assert sasl.View().maxChunk == sasl.maxChunkSize by {
        SaslChunk();
      }
      if t.handler == SaslOnPreEnd {
        sasl.HandlePreEnd(t.event);
      } else if sasl.maxChunkSize > 0 {
        sasl.HandleAuthenticate(t.event);
      }
    }

    lemma SaslChunk()
      requires sasl != null
      ensures sasl.View().maxChunk == sasl.maxChunkSize
    {
    }

    method RunSaslResultTask()
      requires Valid() && todo != []
      requires todo[0].handler == SaslOnSuccess || todo[0].handler == SaslOnFail
      modifies this`todo, sasl, if sasl == null then {} else {sasl.mechanism}, bus`queue
      ensures client.state.Owned() == old(client.state.Owned()) && caps.ackedCaps == old(caps.ackedCaps)
      ensures Valid() && View() == Next(TheSetup(), old(View()), RunTask)
      ensures SaslBuffers() == old(SaslBuffers())
    {
      hide Session.Repr, State.Owned;
      hide Session.View, Session.Valid, Next, Handle;
      var t := Pop();
      HandleSaslResult(t);
    }

    method HandleSaslResult(t: Task)
      requires Valid() && sasl != null && (t.handler == SaslOnSuccess || t.handler == SaslOnFail)
      modifies sasl, sasl.mechanism, bus`queue
      ensures client.state.Owned() == old(client.state.Owned()) && caps.ackedCaps == old(caps.ackedCaps)
      ensures Valid() && View() == Handle(TheSetup(), old(View()), t)
      ensures SaslBuffers() == old(SaslBuffers())
    {
      hide CapabilitiesHandler.View, RegistrationHandler.View, Session.ClientMatches, IoOf, WithoutSasl;
      hide Session.TableMatches, Session.NumericMatches, OnSuccess, OnFail;
      Apart(bus);
      Apart(sasl);
      ApartBuffers();
      if t.handler == SaslOnSuccess {
        sasl.HandleSASLSuccess();
      } else {
        sasl.HandleSASLFail(t.event);
      }
    }

    method RunRegTask()
      requires Valid() && todo != []
      requires todo[0].handler == RegOnConnected || todo[0].handler == RegOnNumeric
      modifies this`todo, reg, bus`queue, wire`log
      ensures Repr() == old(Repr())
      ensures Valid() && View() == Next(TheSetup(), old(View()), RunTask)
    {
      hide Session.Repr;
      hide Session.View, Session.Valid, Next, Handle;
      var t := Pop();
      HandleReg(t);
    }

    method HandleReg(t: Task)
      requires Valid() && (t.handler == RegOnConnected || t.handler == RegOnNumeric)
      modifies reg, bus`queue, wire`log
      ensures Repr() == old(Repr())
      ensures Valid() && View() == Handle(TheSetup(), old(View()), t)
    {
      hide Session.Repr;
      hide CapabilitiesHandler.View, Session.ClientMatches, IoOf, HandlersOf, Subscribed, Holds, Entries;
      hide OnRegConnected, OnNumeric, WithoutSasl;
      StateKept(reg.View(), IoOf(bus, wire), wire.outcome, t.event);
      Apart(bus);
      Apart(wire);
      Apart(reg);
      ghost var before := reg.View();
      if t.handler == RegOnConnected {
        reg.HandleConnected();
      } else {
        reg.HandleNumeric(t.event);
      }
      SameHandlers(TheSetup(), before, reg.View());
    }

    /** On the welcome the handler takes its own numeric subscription out of the table, and nothing else. */
    method RunWelcomeTask()
      requires Valid() && todo != [] && todo[0].handler == RegOnWelcome
      modifies this`todo, reg, bus`queue, bus`handlers
      ensures Repr() == old(Repr())
      ensures Valid() && View() == Next(TheSetup(), old(View()), RunTask)
      ensures Entries(bus.handlers, Numeric) ==
              if RegActive(old(reg.View())) then Subscriptions.Without(Entries(old(bus.handlers), Numeric), reg.nickInUseHandlerID)
              else Entries(old(bus.handlers), Numeric)
      ensures forall k :: k != Numeric ==> Entries(bus.handlers, k) == Entries(old(bus.handlers), k)
    {
      hide Session.Repr;
      hide Session.View, Session.Valid, Next, Handle, Entries, Subscriptions.Without;
      var t := Pop();
      HandleWelcome(t);
    }

    method HandleWelcome(t: Task)
      requires Valid() && t.handler == RegOnWelcome
      modifies reg, bus`queue, bus`handlers
      ensures Repr() == old(Repr())
      ensures Valid() && View() == Handle(TheSetup(), old(View()), t)
      ensures reg.nickInUseHandlerID == old(reg.nickInUseHandlerID)
      ensures Entries(bus.handlers, Numeric) ==
              if RegActive(old(reg.View())) then Subscriptions.Without(Entries(old(bus.handlers), Numeric), reg.nickInUseHandlerID)
              else Entries(old(bus.handlers), Numeric)
      ensures forall k :: k != Numeric ==> Entries(bus.handlers, k) == Entries(old(bus.handlers), k)
    {
      hide Session.Repr;
      hide CapabilitiesHandler.View, RegistrationHandler.View, Session.ClientMatches, OnWelcome, WithoutSasl;
      hide Entries, Subscriptions.Without, IoOf, Session.TableMatches, Session.NumericMatches, RegActive;
      assert reg.bus == bus && reg.wire == wire && TableMatches() && NumericMatches() && ClientMatches();
      Apart(bus);
      Apart(reg);
      hide Handle, Session.View, Session.Valid, Session.Wired, Session.TheSetup;
      Welcome(t.event);
      WelcomeView(t);
    }

    twostate lemma WelcomeView(t: Task)
      requires old(Valid()) && t.handler == RegOnWelcome && TableMatches() && NumericMatches() && ClientMatches()
      requires todo == old(todo) && tracked == old(tracked) && caps.View() == old(caps.View())
      requires SaslView() == old(SaslView()) && ping.timer == old(ping.timer)
      requires var r := OnWelcome(old(reg.View()), old(IoOf(bus, wire)), t.event); reg.View() == r.reg && IoOf(bus, wire) == r.io
      ensures Valid() && View() == Handle(TheSetup(), old(View()), t)
    {
      WelcomeHandled(TheSetup(), old(View()), t);
      hide Handle, OnWelcome, Session.TableMatches, Session.NumericMatches, Session.ClientMatches, IoOf;
      hide CapabilitiesHandler.View, RegistrationHandler.View, SASLHandler.View, Session.SaslView;
    }

    method Welcome(e: Event)
      requires reg.bus == bus && reg.wire == wire && TableMatches() && NumericMatches()
      modifies reg, bus`queue, bus`handlers
      ensures TableMatches() && NumericMatches() && reg.nickInUseHandlerID == old(reg.nickInUseHandlerID)
      ensures var r := OnWelcome(old(reg.View()), old(IoOf(bus, wire)), e);
              reg.View() == r.reg && IoOf(bus, wire) == r.io
      ensures Entries(bus.handlers, Numeric) ==
              if RegActive(old(reg.View())) then Subscriptions.Without(Entries(old(bus.handlers), Numeric), reg.nickInUseHandlerID)
              else Entries(old(bus.handlers), Numeric)
      ensures forall k :: k != Numeric ==> Entries(bus.handlers, k) == Entries(old(bus.handlers), k)
    {
      hide IoOf, HandlersOf, Entries, RemoveEntry, OnWelcome, HandlersIn, Holds, RemoveLast, Subscriptions.Without;
      WelcomeState(reg.View(), IoOf(bus, wire), e);
      ghost var before, table := reg.View(), bus.handlers;
      if RegActive(before) {
        NumericHandlers(TheSetup(), before);
        OwnEntryRemoved(table, reg.nickInUseHandlerID);
        WelcomeTable(table, reg.nickInUseHandlerID);
      }
      reg.HandleWelcome(e);
      if RegActive(before) {
        WelcomedHandlers(TheSetup(), before, reg.View());
      } else {
        SameHandlers(TheSetup(), before, reg.View());
      }
    }

    method RunPingTask()
      requires Valid() && todo != [] && todo[0].handler in {PingOnPing, PingOnRaw, PingOnWelcome}
      modifies this`todo, ping, bus`queue, wire`log
      ensures Repr() == old(Repr())
      ensures Valid() && View() == Next(TheSetup(), old(View()), RunTask)
    {
      hide Session.Repr;
      hide Session.View, Session.Valid, Next, Handle;
      var t := Pop();
      HandlePing(t);
    }

    method HandlePing(t: Task)
      requires Valid() && t.handler in {PingOnPing, PingOnRaw, PingOnWelcome}
      modifies ping, bus`queue, wire`log
      ensures Repr() == old(Repr())
      ensures Valid() && View() == Handle(TheSetup(), old(View()), t)
    {
      hide Session.Repr;
      hide CapabilitiesHandler.View, RegistrationHandler.View, Session.ClientMatches, IoOf, WithoutSasl, Handle;
      hide Session.TableMatches, Session.NumericMatches;
      Apart(bus);
      Apart(wire);
      Apart(ping);
      CallPing(t);
    }

    method CallPing(t: Task)
      requires ping.bus == bus && ping.wire == wire && t.handler in {PingOnPing, PingOnRaw, PingOnWelcome}
      modifies ping, bus`queue, wire`log
      ensures forall su: Setup, w: World | su.net == wire.outcome && w.ping == old(ping.timer) && w.io == old(IoOf(bus, wire)) ::
                Handle(su, w, t) == w.(ping := ping.timer, io := IoOf(bus, wire))
    {
      hide IoOf, OnPing;
      if t.handler == PingOnPing {
        ping.HandlePing(t.event);
      } else if t.handler == PingOnRaw {
        ping.HandleRaw();
      } else {
        ping.HandleWelcome();
      }
    }

    method RunClientTask()
      requires Valid() && todo != [] && todo[0].handler == ClientOnEvent
      modifies this`todo, this`tracked, client.state, client.state.serverInfo, client.state.Owned(), bus`queue
      ensures SaslBuffers() == old(SaslBuffers()) && caps.ackedCaps == old(caps.ackedCaps)
      ensures Valid() && View() == Next(TheSetup(), old(View()), RunTask)
      ensures (forall o | o in client.state.Owned() :: o in old(client.state.Owned()) || fresh(o))
    {
      hide Session.Repr;
      hide Session.View, Session.Valid, Next, Handle;
      var t := Pop();
      HandleClient(t);
    }

    method HandleClient(t: Task)
      requires Valid() && t.handler == ClientOnEvent
      modifies this`tracked, client.state, client.state.serverInfo, client.state.Owned(), bus`queue
      ensures SaslBuffers() == old(SaslBuffers()) && caps.ackedCaps == old(caps.ackedCaps)
      ensures Valid() && View() == Handle(TheSetup(), old(View()), t)
      ensures (forall o | o in client.state.Owned() :: o in old(client.state.Owned()) || fresh(o))
    {
      hide CapabilitiesHandler.View, RegistrationHandler.View, SASLHandler.View, Session.ClientMatches, State.Owned, WithoutSasl;
      hide Tracking.OnEvent, Tracking.NamesDone, Session.TableMatches, Session.NumericMatches;
      OwnedApart();
      ReceiveEvent(t.event);
    }

    method ReceiveEvent(e: Event)
      requires client.bus == bus && ClientMatches()
      modifies this`tracked, client.state, client.state.serverInfo, client.state.Owned(), bus`queue
      ensures ClientMatches() && tracked == Tracking.OnEvent(old(tracked), e)
      ensures bus.queue == old(bus.queue) + Tracking.NamesDone(old(tracked), e)
      ensures forall o | o in client.state.Owned() :: o in old(client.state.Owned()) || fresh(o)
    {
      hide State.View, State.Valid, Tracking.OnEvent, Tracking.NamesDone;
      client.Receive(e);
      Apart(this);
      tracked := client.state.View();
    }

    lemma OwnedApart()
      ensures forall o | o in client.state.Owned() :: o is Channel || o is User
      ensures forall o | o in SaslBuffers() :: o !in client.state.Owned()
    {
      forall o | o in SaslBuffers() ensures o !in client.state.Owned() {
        Apart(o);
      }
    }

    /** The counting handler and the application's listeners leave the library alone. */
    method RunOtherTask()
      requires Valid() && todo != [] && (todo[0].handler == SaslCounting || todo[0].handler.User?)
      modifies this`todo
      ensures Repr() == old(Repr())
      ensures Valid() && View() == Next(TheSetup(), old(View()), RunTask)
    {
      hide Session.Repr;
      hide Session.View, Session.Valid, Next;
      var _ := Pop();
    }

    // ----- timers, waiters and calls by the application -----

    method SaslTimer()
      requires Valid() && sasl != null && sasl.timerArmed
      modifies sasl, bus`queue
      ensures client.state.Owned() == old(client.state.Owned()) && caps.ackedCaps == old(caps.ackedCaps)
      ensures Valid() && View() == Next(TheSetup(), old(View()), Step.SaslTimer) && SaslBuffers() == old(SaslBuffers())
    {
      hide CapabilitiesHandler.View, RegistrationHandler.View, Session.ClientMatches, WithoutSasl;
      hide Session.TableMatches, Session.NumericMatches, OnTimer;
      Apart(bus);
      Apart(sasl);
      sasl.TimerFired();
    }

    method SaslAbort()
      requires Valid() && sasl != null
      modifies sasl, wire`log
      ensures client.state.Owned() == old(client.state.Owned()) && caps.ackedCaps == old(caps.ackedCaps)
      ensures Valid() && View() == Next(TheSetup(), old(View()), Step.SaslAbort) && SaslBuffers() == old(SaslBuffers())
    {
      hide CapabilitiesHandler.View, RegistrationHandler.View, Session.ClientMatches, WithoutSasl;
      hide Session.TableMatches, Session.NumericMatches, AbortSession;
      Apart(wire);
      Apart(sasl);
      var _ := sasl.Abort();
    }

    method SaslReset()
      requires Valid() && sasl != null
      modifies sasl, sasl.mechanism
      ensures client.state.Owned() == old(client.state.Owned()) && caps.ackedCaps == old(caps.ackedCaps)
      ensures Valid() && View() == Next(TheSetup(), old(View()), Step.SaslReset) && SaslBuffers() == old(SaslBuffers())
    {
      hide CapabilitiesHandler.View, RegistrationHandler.View, Session.ClientMatches, WithoutSasl;
      hide Session.TableMatches, Session.NumericMatches, ResetSasl;
      Apart(sasl);
      ApartBuffers();
      sasl.Reset();
    }

    method RegTimer()
      requires Valid() && reg.timerArmed
      modifies reg, bus`queue
      ensures Repr() == old(Repr())
      ensures Valid() && View() == Next(TheSetup(), old(View()), Step.RegTimer)
    {
      hide Session.Repr;
      hide CapabilitiesHandler.View, Session.ClientMatches, WithoutSasl, HandlersOf, Subscribed, Holds, Entries;
      Apart(bus);
      Apart(reg);
      ghost var before := reg.View();
      reg.TimerFired();
      SameHandlers(TheSetup(), before, reg.View());
    }

    method PingTimer(clock: string)
      requires Valid() && ping.timer == Ticking
      modifies ping, bus`queue, wire`log
      ensures Repr() == old(Repr())
      ensures Valid() && View() == Next(TheSetup(), old(View()), Step.PingTimer(clock))
    {
      hide Session.Repr;
      hide CapabilitiesHandler.View, RegistrationHandler.View, Session.ClientMatches, WithoutSasl;
      hide Session.TableMatches, Session.NumericMatches, SendOrReport;
      Apart(bus);
      Apart(wire);
      Apart(ping);
      ping.TimerFired(clock);
    }

    /** A waiter that can take this step. */
    predicate WaiterReady(step: Step)
      reads caps
    {
      match step
      case StartWaiter(i) => i < |caps.waiters| && caps.waiters[i].Fresh?
      case ReadyWaiter(i) => i < |caps.waiters| && caps.waiters[i].Counting? && caps.ready > 0
      case TimeOutWaiter(i) => i < |caps.waiters| && caps.waiters[i].Counting?
      case CancelWaiter(i) => i < |caps.waiters| && caps.waiters[i].Counting?
      case _ => false
    }

    method StepWaiter(step: Step)
      requires Valid() && WaiterReady(step)
      modifies caps, wire`log
      ensures SaslBuffers() == old(SaslBuffers()) && client.state.Owned() == old(client.state.Owned())
      ensures Valid() && View() == Next(TheSetup(), old(View()), step) && caps.ackedCaps == old(caps.ackedCaps)
    {
      Listeners();
      hide Session.Repr;
      hide CapabilitiesHandler.View, RegistrationHandler.View, Session.ClientMatches, WithoutSasl, IoOf, Next, ListenerCount;
      hide Session.TableMatches, Session.NumericMatches, Session.WaiterReady, Entries, HandlersOf;
      Apart(wire);
      Apart(caps);
      CallWaiter(step, TheSetup(), View());
      hide Session.TheSetup;
    }

    /** The waiter counts what the steps count. */
    lemma Listeners()
      requires TableMatches()
      ensures |Entries(bus.handlers, CapPreEnd)| == ListenerCount(TheSetup())
    {
      assert |Entries(bus.handlers, CapPreEnd)| == |Subscribed(bus.handlers, CapPreEnd)|;
    }

    method CallWaiter(step: Step, ghost su: Setup, ghost w: World)
      requires caps.bus == bus && caps.wire == wire && WaiterReady(step)
      requires su.net == wire.outcome && ListenerCount(su) == |Entries(bus.handlers, CapPreEnd)|
      requires w.caps == caps.View() && w.io == IoOf(bus, wire)
      modifies caps, wire`log
      ensures caps.ackedCaps == old(caps.ackedCaps)
      ensures Next(su, w, step) == w.(caps := caps.View(), io := IoOf(bus, wire))
    {
      hide WaiterStart, WaiterToken, WaiterTimeout, DropWaiter, ListenerCount, Entries;
      match step
      case StartWaiter(i) => caps.StartWaiter(i);
      case ReadyWaiter(i) => caps.ReceiveReady(i);
      case TimeOutWaiter(i) => caps.TimeOut(i);
      case CancelWaiter(i) => caps.Cancel(i);
    }

    /** Reset gives the capability handler a new map: from here on the Parser reads the old one. */
    method CapsReset()
      requires Valid()
      modifies caps
      ensures SaslBuffers() == old(SaslBuffers()) && client.state.Owned() == old(client.state.Owned())
      ensures Valid() && View() == Next(TheSetup(), old(View()), Step.CapsReset)
      ensures fresh(caps.ackedCaps) && !Shared() && parser.capabilities.entries == old(parser.capabilities.entries)
    {
      hide CapabilitiesHandler.View, RegistrationHandler.View, Session.ClientMatches, WithoutSasl, IoOf, ResetCaps;
      hide Session.TableMatches, Session.NumericMatches;
      Apart(caps);
      caps.Reset();
    }

    // ----- whole runs -----

    method Take(step: Step)
      requires Valid()
      modifies Repr()
      ensures Valid() && (forall o | o in Repr() :: o in old(Repr()) || fresh(o))
      ensures View() == Next(TheSetup(), old(View()), step)
      ensures !step.CapsReset? ==> Shared() == old(Shared())
    {
      InRepr();
      hide Next, Session.Valid, Session.View, EventsOf, Enabled;
      hide Session.Repr, Session.SaslBuffers, State.Owned;
      if step.SaslTimer? || step.SaslAbort? || step.SaslReset? {
        TakeSasl(step);
        SameParts();
      } else if step.CapsReset? {
        CapsReset();
        NewMap();
      } else if step.RunTask? {
        TakeTask();
      } else {
        TakeOther(step);
      }
    }

    method TakeSasl(step: Step)
      requires Valid() && (step.SaslTimer? || step.SaslAbort? || step.SaslReset?)
      modifies sasl, if sasl == null then {} else {sasl.mechanism}, bus`queue, wire`log
      ensures client.state.Owned() == old(client.state.Owned()) && caps.ackedCaps == old(caps.ackedCaps)
      ensures Valid() && View() == Next(TheSetup(), old(View()), step) && SaslBuffers() == old(SaslBuffers())
    {
      hide Session.Repr, State.Owned;
      Guards(step);
      hide Next, Session.Valid, Session.View;
      DisabledStays(TheSetup(), View(), step);
      match step
      case SaslTimer => if sasl != null && sasl.timerArmed { SaslTimer(); }
      case SaslAbort => if sasl != null { SaslAbort(); }
      case SaslReset => if sasl != null { SaslReset(); }
    }

    method TakeOther(step: Step)
      requires Valid() && !(step.SaslTimer? || step.SaslAbort? || step.SaslReset? || step.CapsReset? || step.RunTask?)
      modifies this`todo, caps, bus`queue, wire`log, parser, reg, ping
      ensures Valid() && Repr() == old(Repr()) && Shared() == old(Shared())
      ensures View() == Next(TheSetup(), old(View()), step)
    {
      Guards(step);
      hide Next, Session.Valid, Session.View, Session.Repr, EventsOf;
      DisabledStays(TheSetup(), View(), step);
      if step.StartWaiter? || step.ReadyWaiter? || step.TimeOutWaiter? || step.CancelWaiter? {
        if WaiterReady(step) {
          StepWaiter(step);
          SameParts();
        }
      } else if step.RegTimer? || step.PingTimer? || step.Dispatch? {
        TakeClocked(step);
      } else {
        TakeInput(step);
      }
    }

    method TakeClocked(step: Step)
      requires Valid() && (step.RegTimer? || step.PingTimer? || step.Dispatch?)
      modifies this`todo, bus`queue, wire`log, reg, ping
      ensures Valid() && Repr() == old(Repr()) && View() == Next(TheSetup(), old(View()), step)
    {
      Guards(step);
      hide Next, Session.Valid, Session.View, Session.Repr;
      DisabledStays(TheSetup(), View(), step);
      if step.RegTimer? {
        if reg.timerArmed { RegTimer(); }
      } else if step.PingTimer? {
        if ping.timer == Ticking { PingTimer(step.clock); }
      } else if todo == [] && bus.queue != [] {
        Dispatch();
      }
    }

    method TakeInput(step: Step)
      requires Valid() && (step.ConnectionUp? || step.ConnectionDown? || step.ServerLine? || step.BadLine? || step.Signal?)
      modifies bus`queue, parser
      ensures Valid() && Repr() == old(Repr()) && View() == Next(TheSetup(), old(View()), step)
    {
      Guards(step);
      hide Next, Session.Valid, Session.View, Session.Repr, EventsOf;
      DisabledStays(TheSetup(), View(), step);
      if step.ConnectionUp? {
        ConnectionUp();
      } else if step.ConnectionDown? {
        ConnectionDown();
      } else if step.ServerLine? {
        if EventsOf(step.msg).Some? { ServerLine(step.msg); }
      } else if step.BadLine? {
        BadLine();
      } else if step.listener < listeners {
        Signal(step.listener);
      }
    }

    /** The steps are enabled on the objects when they are on the view. */
    lemma Guards(step: Step)
      requires Valid()
      ensures step == Step.Dispatch ==> (Enabled(TheSetup(), View(), step) <==> todo == [] && bus.queue != [])
      ensures step == RunTask ==> (Enabled(TheSetup(), View(), step) <==> todo != [])
      ensures step.Signal? ==> (Enabled(TheSetup(), View(), step) <==> step.listener < listeners)
      ensures step == Step.SaslTimer ==> (Enabled(TheSetup(), View(), step) <==> sasl != null && sasl.timerArmed)
      ensures step == Step.SaslAbort || step == Step.SaslReset ==> (Enabled(TheSetup(), View(), step) <==> sasl != null)
      ensures step == Step.RegTimer ==> (Enabled(TheSetup(), View(), step) <==> reg.timerArmed)
      ensures step.PingTimer? ==> (Enabled(TheSetup(), View(), step) <==> ping.timer == Ticking)
      ensures step.StartWaiter? || step.ReadyWaiter? || step.TimeOutWaiter? || step.CancelWaiter? ==>
                (Enabled(TheSetup(), View(), step) <==> WaiterReady(step))
    {
      if step.StartWaiter? || step.ReadyWaiter? || step.TimeOutWaiter? || step.CancelWaiter? {
        WaiterGuards(step);
      }
      SaslGuards(step);
      hide Session.ClientMatches, Session.TableMatches, Session.NumericMatches, EventsOf, Session.WaiterReady, WithoutSasl;
      hide CapabilitiesHandler.View, SASLHandler.View, Session.SaslView;
    }

    lemma SaslGuards(step: Step)
      requires Valid()
      ensures step == Step.SaslTimer ==> (Enabled(TheSetup(), View(), step) <==> sasl != null && sasl.timerArmed)
      ensures step == Step.SaslAbort || step == Step.SaslReset ==> (Enabled(TheSetup(), View(), step) <==> sasl != null)
    {
      hide Session.ClientMatches, Session.TableMatches, Session.NumericMatches, EventsOf, WithoutSasl, CapabilitiesHandler.View;
    }

    lemma WaiterGuards(step: Step)
      requires step.StartWaiter? || step.ReadyWaiter? || step.TimeOutWaiter? || step.CancelWaiter?
      ensures Enabled(TheSetup(), View(), step) <==> WaiterReady(step)
    {
      hide EventsOf, SASLHandler.View, IoOf;
    }

    method TakeTask()
      requires Valid()
      modifies this`todo, this`tracked, caps, caps.ackedCaps, bus`queue, bus`handlers, wire`log, reg, ping
      modifies sasl, if sasl == null then {} else {sasl.mechanism}, SaslBuffers(), client.state, client.state.serverInfo, client.state.Owned()
      ensures Valid() && (forall o | o in Repr() :: o in old(Repr()) || fresh(o)) && Shared() == old(Shared())
      ensures View() == Next(TheSetup(), old(View()), RunTask)
    {
      Guards(RunTask);
      hide Next, Session.Valid, Session.View, Session.Repr, Session.SaslBuffers, State.Owned, Enabled;
      if todo != [] {
        RunHandler();
      } else {
        DisabledStays(TheSetup(), View(), RunTask);
      }
    }

    method RunHandler()
      requires Valid() && todo != []
      modifies this`todo, this`tracked, caps, caps.ackedCaps, bus`queue, bus`handlers, wire`log, reg, ping
      modifies sasl, if sasl == null then {} else {sasl.mechanism}, SaslBuffers(), client.state, client.state.serverInfo, client.state.Owned()
      ensures Valid() && (forall o | o in Repr() :: o in old(Repr()) || fresh(o)) && Shared() == old(Shared())
      ensures View() == Next(TheSetup(), old(View()), RunTask)
    {
      hide Next, Session.Valid, Session.View, Session.Repr, Session.SaslBuffers, State.Owned;
      var h := todo[0].handler;
      if h == SaslOnPreEnd || h == SaslAuthenticate {
        RunSaslTask();
        NewBuffers();
      } else if h == ClientOnEvent {
        RunClientTask();
        NewOwned();
      } else {
        RunSteadyHandler();
      }
    }

    /** The calls that make nothing new. */
    method RunSteadyHandler()
      requires Valid() && todo != [] && todo[0].handler !in {SaslOnPreEnd, SaslAuthenticate, ClientOnEvent}
      modifies this`todo, caps, caps.ackedCaps, bus`queue, bus`handlers, wire`log, reg, ping, sasl, if sasl == null then {} else {sasl.mechanism}
      ensures Valid() && Repr() == old(Repr()) && caps.ackedCaps == old(caps.ackedCaps)
      ensures View() == Next(TheSetup(), old(View()), RunTask)
    {
      hide Next, Session.Valid, Session.View, Session.Repr;
      var h := todo[0].handler;
      if h == SaslOnSuccess || h == SaslOnFail {
        RunSaslResultTask();
        SameParts();
      } else if h == RegOnWelcome {
        RunWelcomeTask();
      } else if h == RegOnConnected || h == RegOnNumeric {
        RunRegTask();
      } else if h in {PingOnPing, PingOnRaw, PingOnWelcome} {
        RunPingTask();
      } else if h == SaslCounting || h.User? {
        RunOtherTask();
      } else {
        RunCapsTask();
      }
    }

    method TakeAll(steps: seq<Step>)
      requires Valid() && View() == Initial(TheSetup())
      modifies Repr()
      ensures Valid() && (forall o | o in Repr() :: o in old(Repr()) || fresh(o))
      ensures View() == Negotiation.Run(TheSetup(), steps)
      ensures Step.CapsReset !in steps ==> Shared() == old(Shared())
    {
      hide Next, Initial, Session.Valid, Session.View, Session.TheSetup;
      for i := 0 to |steps|
        invariant Valid() && (forall o | o in Repr() :: o in old(Repr()) || fresh(o))
        invariant View() == Negotiation.Run(TheSetup(), steps[..i])
        invariant Step.CapsReset !in steps[..i] ==> Shared() == old(Shared())
      {
        assert steps[..i + 1][..i] == steps[..i] && steps[..i + 1][i] == steps[i];
        Take(steps[i]);
      }
      assert steps[..|steps|] == steps;
    }
  }

  lemma NumericHandlers(su: Setup, r: Reg)
    requires r.state != RegComplete
    ensures HandlersOf(su, r, Numeric) == [RegOnNumeric, ClientOnEvent]
  {
  }

  /** The table after the welcome. */
  lemma WelcomeTable(table: Table, id: nat)
    requires Holds(Entries(table, Numeric), id) && Subscribed(table, Numeric) == [RegOnNumeric, ClientOnEvent]
    ensures Subscribed(RemoveEntry(table, Numeric, id), Numeric) == [ClientOnEvent]
    ensures forall k | k != Numeric :: Subscribed(RemoveEntry(table, Numeric, id), k) == Subscribed(table, k)
  {
    var entries := Entries(table, Numeric);
    var i :| 0 <= i < |entries| && entries[i] == Wrapper(id, RegOnNumeric);
    assert Occurs(entries, id);
    HandlersLeft(entries, id);
    hide HandlersIn, RemoveLast, Holds, Occurs;
  }

  lemma NoSaslDispatched(su: Setup, reg: Reg, e: Event)
    ensures !su.hasSasl ==> WithoutSasl(TasksOf(HandlersOf(su, reg, e.kind), e))
  {
    var hs := HandlersOf(su, reg, e.kind);
    if !su.hasSasl {
      assert forall h | h in hs :: !SaslCall(h);
      forall t | t in TasksOf(hs, e) ensures !SaslCall(t.handler) {
        var i :| 0 <= i < |hs| && TasksOf(hs, e)[i] == t;
        assert hs[i] in hs;
      }
    }
  }

  /** The parts put together, once they are subscribed. */
  method Assemble(
    su: Setup, b: EventBus, w: Wire, s: SASLHandler?, c: CapabilitiesHandler, r: RegistrationHandler, ping: PingHandler,
    p: Parser, client: Client)
    returns (session: Session)
    requires b.queue == [] && w.log == [] && w.outcome == su.net && su.requested == REQUESTED == c.requestedCaps
    requires s != null <==> su.username != "" && su.password != ""
    requires su.hasSasl == (s != null) && r.config == su.config
    requires s != null ==> s.bus == b && s.wire == w && s.codec == su.codec && s.username == su.username && s.password == su.password
                           && s.mechanism == null && s.View() == Initial(su).sasl
    requires c.bus == b && c.wire == w && c.ackedCaps == p.capabilities && c.View() == Initial(su).caps
    requires r.bus == b && r.wire == w && r.View() == Initial(su).reg
    requires ping.bus == b && ping.wire == w && ping.timer == NoTimer && p.bus == b && p.wire == w
    requires client.bus == b && client.state.Valid() && client.state.View() == Initial(su).client && client.state.Owned() == {}
    requires forall k :: Subscribed(b.handlers, k) == HandlersOf(su, r.View(), k)
    requires Holds(Entries(b.handlers, Numeric), r.nickInUseHandlerID)
    ensures session.Valid() && session.View() == Initial(su) && session.TheSetup() == su && session.Shared() && fresh(session)
    ensures forall o | o in session.Repr() ::
              o in {session, b, w, c, c.ackedCaps, r, ping, p, client.state, client.state.serverInfo} || o == s
  {
    hide HandlersOf, Subscribed, Entries, Holds;
    session := new Session(b, w, su.codec, su.username, su.password, s, c, r, ping, p, client, su.listeners);
    assert session.SaslBuffers() == {};
    assert session.TheSetup() == su;
  }

  /** NewParser and NewClient. Without credentials there is no SASL handler. */
  method NewSession(
    net: Outcomes, codec: Codec, username: string, password: string, config: Config, host: string, listeners: nat)
    returns (session: Session)
    ensures session.Valid() && session.View() == Initial(session.TheSetup()) && session.Shared()
    ensures fresh(session) && fresh(session.Repr())
    ensures session.TheSetup() ==
            Setup(net, codec, username != "" && password != "", username, password, REQUESTED, config, listeners)
  {
    hide HandlersOf, Subscribed, Entries, NumericID, Holds, State.View, State.Valid, Session.View, Session.Valid, Session.TheSetup, Session.Repr;
    var b := new EventBus();
    var w := new Wire(net);
    var p := new Parser(b, w, host);
    var s: SASLHandler? := null;
    if username != "" && password != "" {
      s := new SASLHandler(b, w, codec, username, password);
    }
    var c := new CapabilitiesHandler(b, w, p.capabilities, REQUESTED);
    var ping := new PingHandler(b, w);
    var su := Setup(net, codec, username != "" && password != "", username, password, REQUESTED, config, listeners);
    var r := SubscribeAll(b, w, su);
    var client := new Client(b, config.nick);
    session := Assemble(su, b, w, s, c, r, ping, p, client);
  }

  /** Main result: whatever steps are taken, the objects end up where the transition system does. */
  method Play(
    net: Outcomes, codec: Codec, username: string, password: string, config: Config, host: string, listeners: nat,
    steps: seq<Step>)
    returns (s: Session)
    ensures s.Valid()
    ensures s.View() ==
            Negotiation.Run(Setup(net, codec, username != "" && password != "", username, password, REQUESTED, config, listeners),
                            steps)
    ensures Step.CapsReset !in steps ==> s.Shared()
  {
    hide Next, Initial, Session.Valid, Session.View, Session.TheSetup, Session.Repr;
    s := NewSession(net, codec, username, password, config, host, listeners);
    s.TakeAll(steps);
  }
}
