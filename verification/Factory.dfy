/**
 Who subscribes to what, in the order of factory.go and NewClient, and the table this gives.
 */
module Factory {
  import opened Events
  import opened Wire
  import opened EventBus
  import opened Io
  import opened Registration
  import opened Negotiation
  import Subscriptions

  /** The handlers of the entries, in order. */
  function HandlersIn(entries: seq<Wrapper>): seq<Handler> {
    seq(|entries|, i requires 0 <= i < |entries| => entries[i].handler)
  }

  function Subscribed(table: Table, kind: EventType): seq<Handler> {
    HandlersIn(Entries(table, kind))
  }

  function Then(before: seq<Handler>, more: seq<Handler>): seq<Handler> {
    if more == [] then before else before + more
  }

  function SaslSubscriptions(k: EventType): seq<Handler> {
    match k
    case SASLAuth => [SaslAuthenticate]
    case SASLSuccess => [SaslOnSuccess]
    case SASLFail => [SaslOnFail]
    case CapPreEnd => [SaslOnPreEnd]
    case CapEndReady => [SaslCounting]
    case _ => []
  }

  function CapsSubscriptions(k: EventType): seq<Handler> {
    match k
    case Connected => [CapsOnConnected]
    case CapEnd => [CapsOnEnd]
    case CapEndReady => [CapsOnEndReady]
    case _ => ReplySubscriptions(k)
  }

  function ReplySubscriptions(k: EventType): seq<Handler> {
    match k
    case CapLS => [CapsOnLS]
    case CapACK => [CapsOnACK]
    case CapNAK => [CapsOnNAK]
    case CapDEL => [CapsOnDEL]
    case CapNEW => [CapsOnNEW]
    case _ => []
  }

  function RegSubscriptions(k: EventType): seq<Handler> {
    match k
    case Connected => [RegOnConnected]
    case Registered => [RegOnWelcome]
    case Numeric => [RegOnNumeric]
    case _ => []
  }

  function PingSubscriptions(k: EventType): seq<Handler> {
    match k
    case Ping => [PingOnPing]
    case RawIncoming => [PingOnRaw]
    case Registered => [PingOnWelcome]
    case _ => []
  }

  /** What NewClient subscribes to. */
  const CLIENT_KINDS: seq<EventType> :=
    [Connected, Disconnected, Registered, Nick, Mode, Join_, Part, Quit, Kick, Topic, Numeric, CapAdded, CapRemoved]

  function ClientSubscriptions(k: EventType): seq<Handler> {
    if k in CLIENT_KINDS then [ClientOnEvent] else []
  }

  function UserSubscriptions(k: EventType, listeners: nat): seq<Handler> {
    if k == CapPreEnd then Users(listeners) else []
  }

  function DefaultSubscriptions(hasSasl: bool, k: EventType): seq<Handler> {
    Then(Then(Then(if hasSasl then SaslSubscriptions(k) else [], CapsSubscriptions(k)), RegSubscriptions(k)), PingSubscriptions(k))
  }

  /** In the order of the subscriptions this is the table the steps read. */
  lemma AllSubscriptions(su: Setup, r: Reg)
    requires r.state != RegComplete
    ensures forall k ::
              HandlersOf(su, r, k) ==
              Then(Then(DefaultSubscriptions(su.hasSasl, k), ClientSubscriptions(k)), UserSubscriptions(k, su.listeners))
  {
    forall k
      ensures HandlersOf(su, r, k) ==
              Then(Then(DefaultSubscriptions(su.hasSasl, k), ClientSubscriptions(k)), UserSubscriptions(k, su.listeners))
    {
      SubscriptionsOf(su, r, k);
    }
  }

  lemma SubscriptionsOf(su: Setup, r: Reg, k: EventType)
    requires r.state != RegComplete
    ensures HandlersOf(su, r, k) ==
            Then(Then(DefaultSubscriptions(su.hasSasl, k), ClientSubscriptions(k)), UserSubscriptions(k, su.listeners))
  {
    ClientKinds(k);
    hide ClientSubscriptions, ClientKind, DefaultSubscriptions, HandlersOf;
    if ClientKind(k) {
      OnlyTheClient(su, k);
    } else if k in {Connected, Registered, Numeric} {
      TheClientToo(su, r, k);
    } else {
      NotTheClient(su, r, k);
    }
  }

  lemma TheClientToo(su: Setup, r: Reg, k: EventType)
    requires r.state != RegComplete && k in {Connected, Registered, Numeric}
    ensures HandlersOf(su, r, k) == DefaultSubscriptions(su.hasSasl, k) + [ClientOnEvent]
  {
    SharedDefaults(su.hasSasl, k);
    hide DefaultSubscriptions, ClientKind;
  }

  lemma SharedDefaults(hasSasl: bool, k: EventType)
    ensures k == Connected ==> DefaultSubscriptions(hasSasl, k) == [CapsOnConnected, RegOnConnected]
    ensures k == Registered ==> DefaultSubscriptions(hasSasl, k) == [RegOnWelcome, PingOnWelcome]
    ensures k == Numeric ==> DefaultSubscriptions(hasSasl, k) == [RegOnNumeric]
  {
  }

  lemma NotTheClient(su: Setup, r: Reg, k: EventType)
    requires !ClientKind(k) && k !in {Connected, Registered, Numeric}
    ensures HandlersOf(su, r, k) == Then(DefaultSubscriptions(su.hasSasl, k), UserSubscriptions(k, su.listeners))
  {
    hide Users;
    if k == CapPreEnd {
      ListenersOnly(su);
      hide DefaultSubscriptions;
    } else if k in {CapLS, CapACK, CapNAK, CapDEL, CapNEW} {
      RepliesOnly(su, r, k);
      hide DefaultSubscriptions;
    } else {
      hide ReplySubscriptions;
      NoReply(k);
    }
  }

  lemma ListenersOnly(su: Setup)
    ensures DefaultSubscriptions(su.hasSasl, CapPreEnd) == IfSasl(su, SaslOnPreEnd)
  {
  }

  lemma RepliesOnly(su: Setup, r: Reg, k: EventType)
    requires k in {CapLS, CapACK, CapNAK, CapDEL, CapNEW}
    ensures DefaultSubscriptions(su.hasSasl, k) == HandlersOf(su, r, k)
  {
  }

  lemma NoReply(k: EventType)
    requires k !in {CapLS, CapACK, CapNAK, CapDEL, CapNEW}
    ensures ReplySubscriptions(k) == []
  {
  }

  lemma ClientKinds(k: EventType)
    ensures ClientSubscriptions(k) == if ClientKind(k) || k in {Connected, Registered, Numeric} then [ClientOnEvent] else []
  {
  }

  lemma OnlyTheClient(su: Setup, k: EventType)
    requires ClientKind(k)
    ensures DefaultSubscriptions(su.hasSasl, k) == [] && k != CapPreEnd
    ensures forall r :: HandlersOf(su, r, k) == [ClientOnEvent]
  {
    NoDefaults(su.hasSasl, k);
    hide DefaultSubscriptions;
  }

  lemma NoDefaults(hasSasl: bool, k: EventType)
    requires ClientKind(k)
    ensures DefaultSubscriptions(hasSasl, k) == []
  {
  }

  /** The SASL handler's subscriptions, in its constructor's order. */
  method SubscribeSasl(bus: EventBus)
    modifies bus`handlers, bus`nextID
    ensures bus.nextID == old(bus.nextID) + 5
    ensures forall k :: Subscribed(bus.handlers, k) == Then(Subscribed(old(bus.handlers), k), SaslSubscriptions(k))
    ensures Entries(bus.handlers, Numeric) == Entries(old(bus.handlers), Numeric)
  {
    hide Subscribed, Entries, SaslSubscriptions;
    var _ := SubscribeOne(bus, SASLAuth, SaslAuthenticate);
    var _ := SubscribeOne(bus, SASLSuccess, SaslOnSuccess);
    var _ := SubscribeOne(bus, SASLFail, SaslOnFail);
    var _ := SubscribeOne(bus, CapPreEnd, SaslOnPreEnd);
    var _ := SubscribeOne(bus, CapEndReady, SaslCounting);
    SaslTable();
  }

  lemma SaslTable()
    ensures forall k :: SaslSubscriptions(k) ==
                        if k == SASLAuth then [SaslAuthenticate]
                        else if k == SASLSuccess then [SaslOnSuccess]
                        else if k == SASLFail then [SaslOnFail]
                        else if k == CapPreEnd then [SaslOnPreEnd]
                        else if k == CapEndReady then [SaslCounting]
                        else []
  {
  }

  /** The capability handler's subscriptions. */
  method SubscribeCaps(bus: EventBus)
    modifies bus`handlers, bus`nextID
    ensures bus.nextID == old(bus.nextID) + 8
    ensures forall k :: Subscribed(bus.handlers, k) == Then(Subscribed(old(bus.handlers), k), CapsSubscriptions(k))
    ensures Entries(bus.handlers, Numeric) == Entries(old(bus.handlers), Numeric)
  {
    hide Subscribed, Entries;
    var _ := SubscribeOne(bus, Connected, CapsOnConnected);
    SubscribeReplies(bus);
    var _ := SubscribeOne(bus, CapEnd, CapsOnEnd);
    var _ := SubscribeOne(bus, CapEndReady, CapsOnEndReady);
  }

  method SubscribeReplies(bus: EventBus)
    modifies bus`handlers, bus`nextID
    ensures bus.nextID == old(bus.nextID) + 5
    ensures forall k :: Subscribed(bus.handlers, k) == Then(Subscribed(old(bus.handlers), k), ReplySubscriptions(k))
    ensures Entries(bus.handlers, Numeric) == Entries(old(bus.handlers), Numeric)
  {
    hide Subscribed, Entries, ReplySubscriptions;
    var _ := SubscribeOne(bus, CapLS, CapsOnLS);
    var _ := SubscribeOne(bus, CapACK, CapsOnACK);
    var _ := SubscribeOne(bus, CapNAK, CapsOnNAK);
    var _ := SubscribeOne(bus, CapDEL, CapsOnDEL);
    var _ := SubscribeOne(bus, CapNEW, CapsOnNEW);
    ReplyTable();
  }

  lemma ReplyTable()
    ensures forall k :: ReplySubscriptions(k) ==
                        if k == CapLS then [CapsOnLS]
                        else if k == CapACK then [CapsOnACK]
                        else if k == CapNAK then [CapsOnNAK]
                        else if k == CapDEL then [CapsOnDEL]
                        else if k == CapNEW then [CapsOnNEW]
                        else []
  {
  }

  method SubscribeOne(bus: EventBus, kind: EventType, handler: Handler) returns (id: nat)
    modifies bus`handlers, bus`nextID
    ensures id == old(bus.nextID) && bus.nextID == old(bus.nextID) + 1
    ensures forall k :: Subscribed(bus.handlers, k) ==
                        if k == kind then Subscribed(old(bus.handlers), k) + [handler] else Subscribed(old(bus.handlers), k)
    ensures Entries(bus.handlers, Numeric) ==
            Entries(old(bus.handlers), Numeric) + if kind == Numeric then [Wrapper(id, handler)] else []
  {
    id := bus.Subscribe(kind, handler);
  }

  method SubscribeReg(bus: EventBus, wire: Wire, config: Config) returns (reg: RegistrationHandler)
    modifies bus`handlers, bus`nextID
    ensures fresh(reg) && reg.bus == bus && reg.wire == wire
    ensures bus.nextID == old(bus.nextID) + 3
    ensures reg.View() == Reg(config, RegInactive, false, old(bus.nextID) + 2)
    ensures forall k :: Subscribed(bus.handlers, k) == Then(Subscribed(old(bus.handlers), k), RegSubscriptions(k))
    ensures Entries(bus.handlers, Numeric) == Entries(old(bus.handlers), Numeric) + [Wrapper(reg.nickInUseHandlerID, RegOnNumeric)]
  {
    reg := new RegistrationHandler(bus, wire, config);
  }

  method SubscribePing(bus: EventBus)
    modifies bus`handlers, bus`nextID
    ensures bus.nextID == old(bus.nextID) + 3
    ensures forall k :: Subscribed(bus.handlers, k) == Then(Subscribed(old(bus.handlers), k), PingSubscriptions(k))
    ensures Entries(bus.handlers, Numeric) == Entries(old(bus.handlers), Numeric)
  {
    hide Subscribed, Entries;
    var _ := SubscribeOne(bus, Ping, PingOnPing);
    var _ := SubscribeOne(bus, RawIncoming, PingOnRaw);
    var _ := SubscribeOne(bus, Registered, PingOnWelcome);
  }

  /** SetupDefaultHandlers: SASL only with credentials, then capabilities, registration and PING. */
  method SetupDefaultHandlers(bus: EventBus, wire: Wire, hasSasl: bool, config: Config) returns (reg: RegistrationHandler)
    requires bus.handlers == map[] && bus.nextID == 0
    modifies bus`handlers, bus`nextID
    ensures fresh(reg) && reg.bus == bus && reg.wire == wire
    ensures reg.View() == Reg(config, RegInactive, false, (if hasSasl then 5 else 0) + 10)
    ensures bus.nextID == reg.nickInUseHandlerID + 4
    ensures forall k :: Subscribed(bus.handlers, k) == DefaultSubscriptions(hasSasl, k)
    ensures Entries(bus.handlers, Numeric) == [Wrapper(reg.nickInUseHandlerID, RegOnNumeric)]
  {
    EmptyTable();
    hide Subscribed, Entries, CapsSubscriptions, RegSubscriptions, SaslSubscriptions, PingSubscriptions;
    if hasSasl {
      SubscribeSasl(bus);
    }
    assert forall k :: Subscribed(bus.handlers, k) == if hasSasl then SaslSubscriptions(k) else [];
    hide Then;
    SubscribeCaps(bus);
    reg := SubscribeReg(bus, wire, config);
    SubscribePing(bus);
  }

  lemma EmptyTable()
    ensures forall k :: Subscribed(map[], k) == [] && Entries(map[], k) == []
  {
  }

  lemma KindsDistinct(i: nat)
    requires i < |CLIENT_KINDS|
    ensures CLIENT_KINDS[i] !in CLIENT_KINDS[..i]
    ensures forall k :: k in CLIENT_KINDS[..i + 1] <==> k in CLIENT_KINDS[..i] || k == CLIENT_KINDS[i]
  {
    assert CLIENT_KINDS[..i + 1] == CLIENT_KINDS[..i] + [CLIENT_KINDS[i]];
    forall j | 0 <= j < i ensures CLIENT_KINDS[j] != CLIENT_KINDS[i] {
      Ranked(j);
      Ranked(i);
    }
  }

  function Rank(k: EventType): nat {
    match k
    case Connected => 0 case Disconnected => 1 case Registered => 2 case Nick => 3 case Mode => 4 case Join_ => 5
    case Part => 6 case Quit => 7 case Kick => 8 case Topic => 9 case Numeric => 10 case CapAdded => 11 case _ => 12
  }

  lemma Ranked(i: nat)
    requires i < |CLIENT_KINDS|
    ensures Rank(CLIENT_KINDS[i]) == i
  {
  }

  /** setupEventHandlers: the client comes last, so its numeric entry is behind the registration's. */
  method SubscribeClient(bus: EventBus)
    modifies bus`handlers, bus`nextID
    ensures forall k :: Subscribed(bus.handlers, k) == Then(Subscribed(old(bus.handlers), k), ClientSubscriptions(k))
    ensures exists id | id >= old(bus.nextID) ::
              Entries(bus.handlers, Numeric) == Entries(old(bus.handlers), Numeric) + [Wrapper(id, ClientOnEvent)]
  {
    hide Subscribed, Entries;
    ghost var own: nat := bus.nextID;
    for i := 0 to |CLIENT_KINDS|
      invariant bus.nextID >= old(bus.nextID) && own >= old(bus.nextID)
      invariant forall k :: Subscribed(bus.handlers, k) ==
                            Then(Subscribed(old(bus.handlers), k), if k in CLIENT_KINDS[..i] then [ClientOnEvent] else [])
      invariant Entries(bus.handlers, Numeric) ==
                Entries(old(bus.handlers), Numeric) + if Numeric in CLIENT_KINDS[..i] then [Wrapper(own, ClientOnEvent)] else []
    {
      KindsDistinct(i);
      var id := SubscribeOne(bus, CLIENT_KINDS[i], ClientOnEvent);
      if CLIENT_KINDS[i] == Numeric {
        own := id;
      }
    }
    assert CLIENT_KINDS[..|CLIENT_KINDS|] == CLIENT_KINDS;
    assert Numeric in CLIENT_KINDS;
  }

  /** The application's own listeners. */
  method SubscribeUsers(bus: EventBus, listeners: nat)
    modifies bus`handlers, bus`nextID
    ensures forall k :: Subscribed(bus.handlers, k) == Then(Subscribed(old(bus.handlers), k), UserSubscriptions(k, listeners))
    ensures Entries(bus.handlers, Numeric) == Entries(old(bus.handlers), Numeric)
  {
    hide Subscribed, Entries;
    for i := 0 to listeners
      invariant forall k :: Subscribed(bus.handlers, k) == Then(Subscribed(old(bus.handlers), k), UserSubscriptions(k, i))
      invariant Entries(bus.handlers, Numeric) == Entries(old(bus.handlers), Numeric)
    {
      assert Users(i + 1) == Users(i) + [User(i)];
      var _ := SubscribeOne(bus, CapPreEnd, User(i));
    }
  }

  /** A table in which the registration's number `id` stands for its numeric handler and for nothing else. */
  ghost predicate Holds(entries: seq<Wrapper>, id: nat) {
    Subscriptions.DistinctEntries(entries) && Wrapper(id, RegOnNumeric) in entries
  }

  /** Every subscription, in the source's order. */
  method SubscribeAll(bus: EventBus, wire: Wire, su: Setup) returns (reg: RegistrationHandler)
    requires bus.handlers == map[] && bus.nextID == 0
    modifies bus`handlers, bus`nextID
    ensures fresh(reg) && reg.bus == bus && reg.wire == wire
    ensures reg.View() == Reg(su.config, RegInactive, false, NumericID(su))
    ensures forall k :: Subscribed(bus.handlers, k) == HandlersOf(su, reg.View(), k)
    ensures Holds(Entries(bus.handlers, Numeric), reg.nickInUseHandlerID)
  {
    hide HandlersOf, Subscribed, Entries, Then, DefaultSubscriptions, ClientSubscriptions, UserSubscriptions;
    reg := SetupDefaultHandlers(bus, wire, su.hasSasl, su.config);
    ghost var own := Wrapper(reg.nickInUseHandlerID, RegOnNumeric);
    SubscribeClient(bus);
    ghost var id :| id > reg.nickInUseHandlerID && Entries(bus.handlers, Numeric) == [own] + [Wrapper(id, ClientOnEvent)];
    SubscribeUsers(bus, su.listeners);
    AllSubscriptions(su, reg.View());
  }

  // ---------- the unsubscription on welcome ----------

  lemma {:induction false} RemovedIsWithout(entries: seq<Wrapper>, id: nat)
    requires Subscriptions.DistinctEntries(entries)
    ensures RemoveLast(entries, id) == Subscriptions.Without(entries, id)
  {
    if i :| 0 <= i < |entries| && entries[i].id == id {
      RemoveLastAt(entries, id, i);
      Subscriptions.WithoutOne(entries, id, i);
    } else {
      Subscriptions.WithoutNone(entries, id);
      RemoveNone(entries, id);
    }
  }

  lemma {:induction false} RemoveNone(entries: seq<Wrapper>, id: nat)
    requires !Occurs(entries, id)
    ensures RemoveLast(entries, id) == entries
  {
    var n := |entries|;
    if n > 0 {
      var front := entries[..n - 1];
      assert entries[n - 1].id != id;
      assert forall i | 0 <= i < |front| :: front[i] == entries[i];
      RemoveNone(front, id);
    }
  }

  /**
   Main result: whatever else listens for numerics, the welcome takes exactly the registration's own
   entry out of the table; the rest keep their order, and no other type is touched.
   */
  lemma OwnEntryRemoved(table: Table, id: nat)
    requires Holds(Entries(table, Numeric), id)
    ensures var entries, entries' := Entries(table, Numeric), Entries(RemoveEntry(table, Numeric, id), Numeric);
            && entries' == Subscriptions.Without(entries, id)
            && |entries'| == |entries| - 1 && !Occurs(entries', id)
            && (forall w | w in entries && w != Wrapper(id, RegOnNumeric) :: w in entries')
    ensures forall k | k != Numeric :: Entries(RemoveEntry(table, Numeric, id), k) == Entries(table, k)
  {
    var entries := Entries(table, Numeric);
    var i :| 0 <= i < |entries| && entries[i] == Wrapper(id, RegOnNumeric);
    assert Occurs(entries, id);
    RemovedIsWithout(entries, id);
    RemoveLastAt(entries, id, i);
    var entries' := entries[..i] + entries[i + 1..];
    forall j | 0 <= j < |entries'| ensures entries'[j].id != id {
      assert entries'[j] == entries[if j < i then j else j + 1];
    }
    forall w | w in entries && w != entries[i] ensures w in entries' {
      var j :| 0 <= j < |entries| && entries[j] == w;
      assert entries'[if j < i then j else j - 1] == w;
    }
  }

  /** With the registration's handler first, what is left is the rest. */
  lemma HandlersLeft(entries: seq<Wrapper>, id: nat)
    requires Holds(entries, id) && HandlersIn(entries) == [RegOnNumeric, ClientOnEvent]
    ensures HandlersIn(RemoveLast(entries, id)) == [ClientOnEvent]
    ensures Subscriptions.DistinctEntries(RemoveLast(entries, id))
  {
    var i :| 0 <= i < |entries| && entries[i] == Wrapper(id, RegOnNumeric);
    assert |entries| == |HandlersIn(entries)| == 2;
    assert entries[1].handler == HandlersIn(entries)[1] && i == 0;
    RemoveLastAt(entries, id, 0);
    assert entries[..0] + entries[1..] == [entries[1]];
  }

  lemma SameHandlers(su: Setup, r: Reg, r': Reg)
    requires r.state == RegComplete <==> r'.state == RegComplete
    ensures forall k :: HandlersOf(su, r, k) == HandlersOf(su, r', k)
  {
  }

  lemma WelcomedHandlers(su: Setup, r: Reg, r': Reg)
    requires r'.state == RegComplete
    ensures forall k :: HandlersOf(su, r', k) == if k == Numeric then [ClientOnEvent] else HandlersOf(su, r, k)
  {
  }

  /** Neither PASS, NICK, USER nor the collision NICK completes a registration or reopens a complete one. */
  lemma StateKept(r: Reg, io: Io, net: Outcomes, e: Event)
    ensures forall r' | r' in {OnRegConnected(r, io, net).reg, OnNumeric(r, io, net, e).reg} ::
              (r'.state == RegComplete <==> r.state == RegComplete) && r'.numericID == r.numericID
              && (r.state == RegComplete ==> r'.timerArmed == r.timerArmed)
  {
  }

  lemma WelcomeState(r: Reg, io: Io, e: Event)
    ensures var r' := OnWelcome(r, io, e).reg;
            r'.numericID == r.numericID
            && if RegActive(r) then r'.state == RegComplete && !r'.timerArmed else r' == r
  {
  }
}
