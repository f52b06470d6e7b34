/**
 Which event each line becomes, and with what payload, in terms of its source, command and parameters.
 */
module EventPayloads {
  import opened GoStrings
  import opened Message
  import opened Events

  // ---------- the parts of a line ----------

  /** The i-th parameter, or nothing. */
  function At(params: seq<string>, i: nat): string {
    if i < |params| then params[i] else ""
  }

  function Last(params: seq<string>): string {
    if params == [] then "" else params[|params| - 1]
  }

  /** The source is that of `nick`: the nick alone, or up to the first exclamation mark. */
  predicate From(source: string, nick: string) {
    '!' !in nick && (source == nick || nick + "!" <= source)
  }

  lemma FromExactly(source: string, nick: string)
    ensures From(source, nick) <==> ExtractNick(source) == nick
  {
    var i := Index(source, '!');
    if From(source, nick) && source != nick {
      var rest := source[|nick| + 1..];
      assert source == nick + ['!'] + rest;
      IndexAt(nick, '!', rest);
    }
    if i != -1 && nick == source[..i] {
      assert source[..i] + "!" <= source;
    }
  }

  /** The line becomes this one event. */
  predicate Becomes(m: Message, kind: EventType, data: Data) {
    EventsOf(m) == Some([Event(kind, Some(m), data)])
  }

  lemma OneEvent(m: Message, kind: EventType, data: Data)
    requires DetermineEventType(m) == [kind] && DataFor(kind, m) == Some(data)
    ensures Becomes(m, kind, data)
  {
    hide DetermineEventType, DataFor;
    assert [kind][1..] == [] && EventsFor([], m) == Some([]);
    var e := Event(kind, Some(m), data);
    assert [e] + [] == [e];
  }

  lemma TwoEvents(m: Message, kind: EventType, data: Data)
    requires DetermineEventType(m) == [kind, Numeric] && DataFor(kind, m) == Some(data)
    ensures EventsOf(m) == Some([Event(kind, Some(m), data), Event(Numeric, Some(m), NumericData(m.command, m.params))])
  {
    assert DataFor(Numeric, m) == Some(NumericData(m.command, m.params));
    hide DetermineEventType, DataFor;
    assert [kind, Numeric][1..] == [Numeric] && [Numeric][1..] == [] && EventsFor([], m) == Some([]);
    var e := Event(Numeric, Some(m), NumericData(m.command, m.params));
    assert [e] + [] == [e];
    assert EventsFor([Numeric], m) == Some([e]);
    assert [Event(kind, Some(m), data)] + [e] == [Event(kind, Some(m), data), e];
  }

  // ---------- users and channels ----------

  /** Main result: what the lines about membership become, whoever they are from. */
  lemma MembershipLines(m: Message, nick: string)
    requires From(m.source, nick)
    ensures m.command == "JOIN" ==> Becomes(m, Join_, JoinData(At(m.params, 0), nick))
    ensures m.command == "PART" ==> Becomes(m, Part, PartData(At(m.params, 0), nick, Last(m.params)))
    ensures m.command == "QUIT" ==> Becomes(m, Quit, QuitData(nick, Last(m.params)))
    ensures m.command == "KICK" ==> Becomes(m, Kick, KickData(At(m.params, 0), nick, At(m.params, 1), Last(m.params)))
    ensures m.command == "NICK" ==> Becomes(m, Nick, NickData(nick, At(m.params, 0)))
  {
    FromExactly(m.source, nick);
    hide ExtractNick, Becomes, EventsFor, From;
    match m.command {
      case "JOIN" => OneEvent(m, Join_, JoinData(At(m.params, 0), nick));
      case "PART" => OneEvent(m, Part, PartData(At(m.params, 0), nick, Last(m.params)));
      case "QUIT" => OneEvent(m, Quit, QuitData(nick, Last(m.params)));
      case "KICK" => OneEvent(m, Kick, KickData(At(m.params, 0), nick, At(m.params, 1), Last(m.params)));
      case "NICK" => OneEvent(m, Nick, NickData(nick, At(m.params, 0)));
      case _ =>
    }
  }

  /** Main result: what the lines about channels become. */
  lemma ChannelLines(m: Message, nick: string)
    requires From(m.source, nick)
    ensures m.command == "MODE" && |m.params| >= 2 ==> Becomes(m, Mode, ModeData(m.params[0], m.params[1], m.params[2..]))
    ensures m.command == "TOPIC" ==> Becomes(m, Topic, TopicData(At(m.params, 0), Last(m.params), nick))
    ensures m.command == "INVITE" ==> Becomes(m, Invite, InviteData(Last(m.params), nick, At(m.params, 0)))
  {
    FromExactly(m.source, nick);
    hide ExtractNick, Becomes, EventsFor, From;
    match m.command {
      case "MODE" => if |m.params| >= 2 { OneEvent(m, Mode, ModeData(m.params[0], m.params[1], m.params[2..])); }
      case "TOPIC" => OneEvent(m, Topic, TopicData(At(m.params, 0), Last(m.params), nick));
      case "INVITE" => OneEvent(m, Invite, InviteData(Last(m.params), nick, At(m.params, 0)));
      case _ =>
    }
  }

  // ---------- what people say ----------

  function Quoted(body: string): string {
    [CTCP_DELIMITER] + body + [CTCP_DELIMITER]
  }

  lemma ActionExactly(text: string)
    ensures IsActionMessage(text) <==> exists rest :: rest != "" && text == Quoted("ACTION" + rest)
  {
    if IsActionMessage(text) {
      var rest := text[7..|text| - 1];
      assert text[1..|text| - 1][..6] == "ACTION";
      assert text == Quoted("ACTION" + rest);
    }
    forall rest | rest != "" && text == Quoted("ACTION" + rest) ensures IsActionMessage(text) {
      assert text[1..|text| - 1] == "ACTION" + rest;
    }
  }

  /** A CTCP message quotes something whose first word is not ACTION. */
  ghost predicate SaysCTCP(text: string) {
    exists body :: text == Quoted(body) && Fields(body) != [] && ToUpper(Fields(body)[0]) != "ACTION"
  }

  lemma {:induction false} FieldsNotEmpty(s: string)
    ensures forall f | f in Fields(s) :: f != ""
    decreases |s|
  {
    if s != "" {
      if IsSpace(s[0]) {
        FieldsNotEmpty(s[1..]);
      } else {
        FieldsNotEmpty(s[|Word(s)|..]);
      }
    }
  }

  lemma CTCPExactly(text: string)
    ensures IsValidCTCP(text) <==> SaysCTCP(text)
  {
    hide ToUpper, Fields;
    if |text| >= 2 {
      FieldsNotEmpty(text[1..|text| - 1]);
    }
    if IsValidCTCP(text) {
      assert text == Quoted(text[1..|text| - 1]);
    }
    forall body | text == Quoted(body) && Fields(body) != [] && ToUpper(Fields(body)[0]) != "ACTION" ensures IsValidCTCP(text) {
      assert text[1..|text| - 1] == body;
      FieldsNotEmpty(body);
      assert Fields(body)[0] in Fields(body);
    }
  }

  /** Main result: PRIVMSG, its actions, and NOTICE. */
  lemma TalkLines(m: Message, nick: string)
    requires From(m.source, nick)
    ensures m.command == "PRIVMSG" ==>
              if |m.params| >= 2 && exists rest :: rest != "" && Last(m.params) == Quoted("ACTION" + rest)
              then Becomes(m, Action, ActionData(At(m.params, 0), nick, Last(m.params)))
              else Becomes(m, Privmsg, PrivmsgData(At(m.params, 0), nick, Last(m.params), SaysCTCP(Last(m.params))))
    ensures m.command == "NOTICE" ==>
              Becomes(m, Notice, NoticeData(At(m.params, 0), nick, Last(m.params), SaysCTCP(Last(m.params))))
  {
    FromExactly(m.source, nick);
    ActionExactly(Last(m.params));
    CTCPExactly(Last(m.params));
    hide ExtractNick, Becomes, EventsFor, From, IsActionMessage, IsValidCTCP, SaysCTCP, Quoted;
    if m.command == "PRIVMSG" {
      if |m.params| >= 2 && IsActionMessage(Last(m.params)) {
        OneEvent(m, Action, ActionData(At(m.params, 0), nick, Last(m.params)));
      } else {
        OneEvent(m, Privmsg, PrivmsgData(At(m.params, 0), nick, Last(m.params), IsValidCTCP(Last(m.params))));
      }
    } else if m.command == "NOTICE" {
      OneEvent(m, Notice, NoticeData(At(m.params, 0), nick, Last(m.params), IsValidCTCP(Last(m.params))));
    }
  }

  // ---------- the server ----------

  /** PING, PONG, ERROR, AUTHENTICATE. */
  lemma ServerLines(m: Message)
    ensures m.command == "PING" ==> Becomes(m, Ping, PingData(Last(m.params)))
    ensures m.command == "PONG" ==> Becomes(m, Pong, PongData(Last(m.params)))
    ensures m.command == "ERROR" ==> Becomes(m, Error, ErrorData(Last(m.params)))
    ensures m.command == "AUTHENTICATE" ==> Becomes(m, SASLAuth, NoData)
  {
    hide ExtractNick, Becomes, EventsFor;
    match m.command {
      case "PING" => OneEvent(m, Ping, PingData(Last(m.params)));
      case "PONG" => OneEvent(m, Pong, PongData(Last(m.params)));
      case "ERROR" => OneEvent(m, Error, ErrorData(Last(m.params)));
      case "AUTHENTICATE" => OneEvent(m, SASLAuth, NoData);
      case _ =>
    }
  }

  /** The event of a CAP subcommand, the second parameter. */
  function CapKind(sub: string): EventType {
    match sub
    case "LS" => CapLS
    case "ACK" => CapACK
    case "NAK" => CapNAK
    case "DEL" => CapDEL
    case "NEW" => CapNEW
    case _ => Unknown
  }

  lemma CapLines(m: Message)
    requires m.command == "CAP"
    ensures Becomes(m, CapKind(At(m.params, 1)), NoData)
  {
    hide ExtractNick, Becomes, EventsFor;
    OneEvent(m, CapKind(At(m.params, 1)), NoData);
  }

  predicate ThreeDigits(s: string) {
    |s| == 3 && forall c | c in s :: '0' <= c <= '9'
  }

  const SASL_SUCCEEDED: set<string> := {"900", "903"}
  const SASL_FAILED: set<string> := {"901", "902", "904", "905", "906", "907", "908"}
  const WHOIS: set<string> := {"311", "312", "313", "317", "318", "319"}
  const WHO: set<string> := {"352", "315"}
  const LIST: set<string> := {"321", "322", "323"}
  const NAMES: set<string> := {"353", "366"}

  lemma DigitsExactly(m: Message)
    ensures m.IsNumeric() <==> ThreeDigits(m.command)
  {
    if m.IsNumeric() {
      forall c | c in m.command ensures '0' <= c <= '9' {
        var i :| 0 <= i < |m.command| && m.command[i] == c;
      }
    }
    if ThreeDigits(m.command) {
      assert forall i | 0 <= i < 3 :: m.command[i] in m.command;
    }
  }

  lemma NumericType(m: Message)
    requires ThreeDigits(m.command)
    ensures DetermineEventType(m) ==
            if m.command in SASL_SUCCEEDED then [SASLSuccess]
            else if m.command in SASL_FAILED then [SASLFail]
            else if m.command in WHOIS then [Whois]
            else if m.command in WHO then [Who]
            else if m.command in LIST then [List]
            else if m.command == "001" then [Registered, Numeric]
            else if m.command in NAMES then [Names, Numeric]
            else [Numeric]
  {
    DigitsExactly(m);
    hide IsActionMessage, ThreeDigits;
  }

  /** Main result: the numerics of SASL. */
  lemma SaslNumerics(m: Message)
    ensures m.command in SASL_SUCCEEDED ==> Becomes(m, SASLSuccess, NoData)
    ensures m.command in SASL_FAILED ==> Becomes(m, SASLFail, NoData)
  {
    hide Becomes, EventsFor;
    if m.command in SASL_SUCCEEDED {
      assert ThreeDigits(m.command);
      NumericType(m);
      hide DetermineEventType;
      OneEvent(m, SASLSuccess, NoData);
    } else if m.command in SASL_FAILED {
      assert ThreeDigits(m.command);
      NumericType(m);
      hide DetermineEventType;
      OneEvent(m, SASLFail, NoData);
    }
  }

  /** Main result: the other numerics; only these four families are not passed on with their parameters. */
  lemma OtherNumerics(m: Message)
    requires ThreeDigits(m.command) && m.command !in SASL_SUCCEEDED + SASL_FAILED
    ensures m.command in WHOIS ==> Becomes(m, Whois, NoData)
    ensures m.command in WHO ==> Becomes(m, Who, NoData)
    ensures m.command in LIST ==> Becomes(m, List, NoData)
    ensures m.command == "001" ==>
              EventsOf(m) == Some([Event(Registered, Some(m), NoData), Event(Numeric, Some(m), NumericData("001", m.params))])
    ensures m.command in NAMES ==>
              EventsOf(m) == Some([Event(Names, Some(m), NoData), Event(Numeric, Some(m), NumericData(m.command, m.params))])
    ensures m.command !in WHOIS + WHO + LIST + NAMES + {"001"} ==> Becomes(m, Numeric, NumericData(m.command, m.params))
  {
    hide Becomes, EventsFor, DetermineEventType, ThreeDigits, ExtractNick, IsValidCTCP;
    NumericType(m);
    if m.command in WHOIS {
      OneEvent(m, Whois, NoData);
    } else if m.command in WHO {
      OneEvent(m, Who, NoData);
    } else if m.command in LIST {
      OneEvent(m, List, NoData);
    } else if m.command == "001" {
      TwoEvents(m, Registered, NoData);
    } else if m.command in NAMES {
      TwoEvents(m, Names, NoData);
    } else {
      OneEvent(m, Numeric, NumericData(m.command, m.params));
    }
  }

  const COMMANDS: set<string> :=
    {"PING", "PONG", "ERROR", "NICK", "JOIN", "PART", "QUIT", "KICK", "MODE", "TOPIC", "PRIVMSG", "NOTICE", "INVITE", "CAP", "AUTHENTICATE"}

  /** Everything else is unknown. */
  lemma OtherLines(m: Message)
    requires m.command !in COMMANDS && !ThreeDigits(m.command)
    ensures Becomes(m, Unknown, NoData)
  {
    hide ExtractNick, Becomes, EventsFor, IsActionMessage;
    OtherType(m);
    hide DetermineEventType;
    OneEvent(m, Unknown, NoData);
  }

  lemma OtherType(m: Message)
    requires m.command !in COMMANDS && !ThreeDigits(m.command)
    ensures DetermineEventType(m) == [Unknown]
  {
    DigitsExactly(m);
    hide IsActionMessage, ThreeDigits;
  }
}
