/**
 Events and how an IRC message becomes events (parser/events.go). The enumeration is Go's list of
 EventType constants; `Data` is the union of the payload structs.
 */
module Events {
  import opened GoStrings
  import opened Message

  datatype EventType =
    | Connected | Disconnected | Incoming | Ping | Pong | Error
    | CapLS | CapACK | CapNAK | CapDEL | CapNEW | CapAdded | CapRemoved | CapPreEnd | CapEndReady | CapEnd
    | SASLAuth | SASLSuccess | SASLFail | Registered
    | Nick | Join_ | Part | Quit | Kick | Mode | Topic | Privmsg | Notice | Invite
    | Whois | Who | List | Names | NamesComplete | CTCP | CTCPReply | Action
    | Numeric | RawIncoming | RawOutgoing | Unknown

  datatype Data =
    | NoData
    | ConnectedData(serverName: string)
    | PingData(server: string)
    | PongData(server: string)
    | ErrorData(message: string)
    | CapAddedData(capability: string)
    | CapRemovedData(capability: string)
    | CapPreEndData(activeCaps: set<string>, capValues: map<string, string>)
    | SASLData(mechanism: string, data: string)
    | NickData(oldNick: string, newNick: string)
    | JoinData(channel: string, nick: string)
    | PartData(channel: string, nick: string, reason: string)
    | QuitData(nick: string, reason: string)
    | KickData(channel: string, nick: string, kicked: string, reason: string)
    | ModeData(target: string, modes: string, args: seq<string>)
    | TopicData(channel: string, topic: string, nick: string)
    | PrivmsgData(target: string, nick: string, message: string, isCTCP: bool)
    | NoticeData(target: string, nick: string, message: string, isCTCP: bool)
    | InviteData(channel: string, nick: string, target: string)
    | ActionData(target: string, nick: string, message: string)
    | NumericData(code: string, params: seq<string>)

  datatype Event = Event(kind: EventType, message: Option<Message>, data: Data)

  const CTCP_DELIMITER := 1 as char
  const MIN_CTCP_LENGTH := 2

  /** The nick of a nick!user@host source. */
  function ExtractNick(source: string): string {
    var i := Index(source, '!');
    if i != -1 then source[..i] else source
  }

  predicate HasCTCPDelimiters(message: string)
    requires |message| >= MIN_CTCP_LENGTH
  {
    message[0] == CTCP_DELIMITER && message[|message| - 1] == CTCP_DELIMITER
  }

  predicate IsValidCTCP(message: string) {
    if |message| < MIN_CTCP_LENGTH || !HasCTCPDelimiters(message) then false
    else
      var parts := Fields(message[1..|message| - 1]);
      parts != [] && ToUpper(parts[0]) != "ACTION" && parts[0] != ""
  }

  predicate IsActionMessage(message: string) {
    |message| >= 9 && HasCTCPDelimiters(message) && "ACTION" <= message[1..|message| - 1]
  }

  function DetermineEventType(msg: Message): seq<EventType> {
    var c := msg.command;
    if c == "PING" then [Ping]
    else if c == "PONG" then [Pong]
    else if c == "ERROR" then [Error]
    else if c == "NICK" then [Nick]
    else if c == "JOIN" then [Join_]
    else if c == "PART" then [Part]
    else if c == "QUIT" then [Quit]
    else if c == "KICK" then [Kick]
    else if c == "MODE" then [Mode]
    else if c == "TOPIC" then [Topic]
    else if c == "PRIVMSG" then
      if |msg.params| >= 2 && IsActionMessage(msg.GetTrailing()) then [Action] else [Privmsg]
    else if c == "NOTICE" then [Notice]
    else if c == "INVITE" then [Invite]
    else if c == "CAP" then
      if |msg.params| < 2 then [Unknown]
      else if msg.params[1] == "LS" then [CapLS]
      else if msg.params[1] == "ACK" then [CapACK]
      else if msg.params[1] == "NAK" then [CapNAK]
      else if msg.params[1] == "DEL" then [CapDEL]
      else if msg.params[1] == "NEW" then [CapNEW]
      else [Unknown]
    else if c == "AUTHENTICATE" then [SASLAuth]
    else if c in ["900", "903"] then [SASLSuccess]
    else if c in ["901", "902", "904", "905", "906", "907", "908"] then [SASLFail]
    else if c == "001" then [Registered, Numeric]
    else if c in ["311", "312", "313", "317", "318", "319"] then [Whois]
    else if c in ["352", "315"] then [Who]
    else if c in ["321", "322", "323"] then [List]
    else if c in ["353", "366"] then [Names, Numeric]
    else if msg.IsNumeric() then [Numeric]
    else [Unknown]
  }

  /** The payload; None where the Go code slices out of range and panics. */
  function DataFor(kind: EventType, msg: Message): Option<Data> {
    var trailing, nick := msg.GetTrailing(), ExtractNick(msg.source);
    match kind
    case Ping => Some(PingData(trailing))
    case Pong => Some(PongData(trailing))
    case Error => Some(ErrorData(trailing))
    case Nick => Some(NickData(nick, msg.GetParam(0)))
    case Join_ => Some(JoinData(msg.GetParam(0), nick))
    case Part => Some(PartData(msg.GetParam(0), nick, trailing))
    case Quit => Some(QuitData(nick, trailing))
    case Kick => Some(KickData(msg.GetParam(0), nick, msg.GetParam(1), trailing))
    case Mode =>
      if |msg.params| < 2 then None else Some(ModeData(msg.GetParam(0), msg.GetParam(1), msg.params[2..]))
    case Topic => Some(TopicData(msg.GetParam(0), trailing, nick))
    case Privmsg => Some(PrivmsgData(msg.GetParam(0), nick, trailing, IsValidCTCP(trailing)))
    case Notice => Some(NoticeData(msg.GetParam(0), nick, trailing, IsValidCTCP(trailing)))
    case Invite => Some(InviteData(trailing, nick, msg.GetParam(0)))
    case Action => Some(ActionData(msg.GetParam(0), nick, trailing))
    case Numeric => Some(NumericData(msg.command, msg.params))
    case _ => Some(NoData)
  }

  function After(events: seq<Event>, rest: Option<seq<Event>>): Option<seq<Event>> {
    if rest.None? then None else Some(events + rest.value)
  }

  function EventsFor(kinds: seq<EventType>, msg: Message): Option<seq<Event>> {
    if kinds == [] then Some([])
    else
      match DataFor(kinds[0], msg)
      case None => None
      case Some(d) => After([Event(kinds[0], Some(msg), d)], EventsFor(kinds[1..], msg))
  }

  /** The events of a message; None when building them panics. */
  function EventsOf(msg: Message): Option<seq<Event>> {
    EventsFor(DetermineEventType(msg), msg)
  }

  lemma AfterSteps(events: seq<Event>, e: Event, rest: Option<seq<Event>>)
    ensures After([], rest) == rest
    ensures After(events, After([e], rest)) == After(events + [e], rest)
    ensures After(events, Some([])) == Some(events)
  {
    if rest.Some? {
      assert [] + rest.value == rest.value;
      assert events + ([e] + rest.value) == events + [e] + rest.value;
    }
    assert events + [] == events;
  }

  method CreateEventFromMessage(msg: Message) returns (r: Option<seq<Event>>)
    ensures r == EventsOf(msg)
  {
    var kinds := DetermineEventType(msg);
    var events: seq<Event> := [];
    assert kinds[0..] == kinds;
    AfterSteps([], Event(Unknown, None, NoData), EventsOf(msg));
    for i := 0 to |kinds|
      invariant EventsOf(msg) == After(events, EventsFor(kinds[i..], msg))
    {
      assert kinds[i..][0] == kinds[i] && kinds[i..][1..] == kinds[i + 1..];
      var data := DataFor(kinds[i], msg);
      if data.None? {
        return None;
      }
      var e := Event(kinds[i], Some(msg), data.value);
      AfterSteps(events, e, EventsFor(kinds[i + 1..], msg));
      events := events + [e];
    }
    assert kinds[|kinds|..] == [];
    AfterSteps(events, Event(Unknown, None, NoData), None);
    return Some(events);
  }

  // ---------- properties ----------

  lemma {:induction false} EventsForKinds(kinds: seq<EventType>, msg: Message)
    ensures EventsFor(kinds, msg).None? <==> (Mode in kinds && |msg.params| < 2)
    ensures EventsFor(kinds, msg).Some? ==>
              var es := EventsFor(kinds, msg).value;
              |es| == |kinds| &&
              forall i | 0 <= i < |es| :: es[i].kind == kinds[i] && es[i].message == Some(msg)
  {
    if kinds != [] {
      EventsForKinds(kinds[1..], msg);
    }
  }

  /** Building the events panics exactly for a MODE message with fewer than two parameters. */
  lemma PanicsExactlyWhen(msg: Message)
    ensures EventsOf(msg).None? <==> (msg.command == "MODE" && |msg.params| < 2)
  {
    EventsForKinds(DetermineEventType(msg), msg);
  }

  /** The events that only the library itself may emit. */
  predicate Internal(kind: EventType) {
    kind in {Connected, Disconnected, CapAdded, CapRemoved, CapPreEnd, CapEndReady, CapEnd, NamesComplete}
  }

  /** No line a server can send produces an internal event, a ready signal in particular. */
  lemma ServerCannotForge(msg: Message)
    requires EventsOf(msg).Some?
    ensures forall e | e in EventsOf(msg).value :: !Internal(e.kind) && e.message == Some(msg)
    ensures |EventsOf(msg).value| <= 2
  {
    KindsAreExternal(msg);
    hide DetermineEventType, EventsFor, Internal;
    var kinds := DetermineEventType(msg);
    EventsForKinds(kinds, msg);
    forall e | e in EventsOf(msg).value ensures !Internal(e.kind) && e.message == Some(msg) {
      var i :| 0 <= i < |EventsOf(msg).value| && EventsOf(msg).value[i] == e;
      assert kinds[i] in kinds;
    }
  }

  lemma KindsAreExternal(msg: Message)
    ensures |DetermineEventType(msg)| <= 2
    ensures forall k | k in DetermineEventType(msg) :: !Internal(k)
  {
  }

  /** The events' types and payloads depend on source, command and parameters only. */
  lemma {:induction false} EventsForFields(kinds: seq<EventType>, a: Message, b: Message)
    requires a.source == b.source && a.command == b.command && a.params == b.params
    ensures EventsFor(kinds, a).Some? <==> EventsFor(kinds, b).Some?
    ensures EventsFor(kinds, a).Some? ==>
              var ea, eb := EventsFor(kinds, a).value, EventsFor(kinds, b).value;
              |ea| == |eb| && forall i | 0 <= i < |ea| :: ea[i].kind == eb[i].kind && ea[i].data == eb[i].data
  {
    if kinds != [] {
      EventsForFields(kinds[1..], a, b);
      assert DataFor(kinds[0], a) == DataFor(kinds[0], b);
    }
  }
}
