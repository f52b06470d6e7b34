/**
 What the client knows (client/client.go, client/state.go, parser/types.go), as plain values, and what
 each event handler makes of it.
 */
module Tracking {
  import opened GoStrings
  import opened Utf8
  import opened Events
  import opened Modes
  import opened Prefixes

  datatype UserView = UserView(nick: string, modes: seq<ModeEntry>)

  datatype ChannelView = ChannelView(name: string, modes: seq<ModeEntry>, users: map<string, UserView>)

  datatype ConnectionState = Down | Up | OnServer

  datatype ClientView = ClientView(
    connection: ConnectionState,
    nick: string,
    modes: seq<ModeEntry>,
    prefixes: PrefixMap,
    capabilities: map<string, string>,
    channels: map<string, ChannelView>)

  function InitialView(nick: string): ClientView {
    ClientView(Down, nick, [], DEFAULT_PREFIXES, map[], map[])
  }

  // ---------- one channel ----------

  function EmptyChannel(name: string): ChannelView {
    ChannelView(name, [], map[])
  }

  function WithUser(c: ChannelView, nick: string, modes: seq<ModeEntry>): ChannelView {
    c.(users := c.users[nick := UserView(nick, modes)])
  }

  function WithoutUser(c: ChannelView, nick: string): ChannelView {
    c.(users := c.users - {nick})
  }

  /** RenameUser, in the order of the code: the new key is written, then the old key deleted. */
  function Renamed(c: ChannelView, old_: string, new_: string): ChannelView {
    if old_ in c.users then c.(users := c.users[new_ := c.users[old_].(nick := new_)] - {old_}) else c
  }

  function UserChanged(c: ChannelView, change: Change): ChannelView {
    if change.parameter != "" && change.parameter in c.users then
      var u := c.users[change.parameter];
      c.(users := c.users[change.parameter := u.(modes := Apply(u.modes, change.(parameter := "")))])
    else c
  }

  function ChannelChanged(c: ChannelView, change: Change): ChannelView {
    UserChanged(c.(modes := Apply(c.modes, change)), change)
  }

  function ChannelChangedAll(c: ChannelView, changes: seq<Change>): ChannelView
    decreases |changes|
  {
    if changes == [] then c else ChannelChangedAll(ChannelChanged(c, changes[0]), changes[1..])
  }

  function Named(c: ChannelView, entries: seq<string>, prefixes: PrefixMap): ChannelView {
    var n := |entries|;
    if n == 0 then c
    else
      var before, nick := Named(c, entries[..n - 1], prefixes), CleanNick(entries[n - 1], prefixes);
      if nick == "" then before else WithUser(before, nick, EntryModes(entries[n - 1], prefixes))
  }

  // ---------- the handlers ----------

  function RenamedAll(channels: map<string, ChannelView>, old_: string, new_: string): map<string, ChannelView> {
    map k | k in channels :: Renamed(channels[k], old_, new_)
  }

  function OnNick(v: ClientView, old_: string, new_: string): ClientView {
    v.(nick := if old_ == v.nick then new_ else v.nick,
       channels := RenamedAll(v.channels, old_, new_))
  }

  predicate IsChannelTarget(target: string) {
    "#" <= target || "&" <= target
  }

  function OnChange(v: ClientView, target: string, change: Change): ClientView {
    if IsChannelTarget(target) then
      if target in v.channels
      then v.(channels := v.channels[target := ChannelChanged(v.channels[target], change)])
      else v
    else if target == v.nick then v.(modes := Apply(v.modes, change))
    else v
  }

  function OnChanges(v: ClientView, target: string, changes: seq<Change>): ClientView
    decreases |changes|
  {
    if changes == [] then v else OnChanges(OnChange(v, target, changes[0]), target, changes[1..])
  }

  function OnMode(v: ClientView, target: string, modes: string, args: seq<string>): ClientView {
    OnChanges(v, target, Changes(Runes(modes), true, args))
  }

  function OnJoin(v: ClientView, channel: string, nick: string): ClientView {
    if nick == v.nick then v.(channels := v.channels[channel := WithUser(EmptyChannel(channel), nick, [])])
    else if channel in v.channels then v.(channels := v.channels[channel := WithUser(v.channels[channel], nick, [])])
    else v
  }

  /** PART, and KICK with the kicked nick. */
  function OnLeave(v: ClientView, channel: string, nick: string): ClientView {
    if nick == v.nick then v.(channels := v.channels - {channel})
    else if channel in v.channels then v.(channels := v.channels[channel := WithoutUser(v.channels[channel], nick)])
    else v
  }

  function OnQuit(v: ClientView, nick: string): ClientView {
    v.(channels := map k | k in v.channels :: WithoutUser(v.channels[k], nick))
  }

  function OnNames(v: ClientView, params: seq<string>): ClientView {
    if |params| < 4 then v
    else
      var c := if params[2] in v.channels then v.channels[params[2]] else EmptyChannel(params[2]);
      v.(channels := v.channels[params[2] := Named(c, Fields(params[3]), v.prefixes)])
  }

  /** One ISUPPORT token; of the keys only PREFIX matters here. */
  function OnToken(prefixes: PrefixMap, token: string): PrefixMap {
    if '=' in token && Cut(token, '=').0 == "PREFIX" then
      match ParsePrefixes(Cut(token, '=').1)
      case None => prefixes
      case Some(m) => m
    else prefixes
  }

  function OnTokens(prefixes: PrefixMap, tokens: seq<string>): PrefixMap {
    var n := |tokens|;
    if n == 0 then prefixes else OnToken(OnTokens(prefixes, tokens[..n - 1]), tokens[n - 1])
  }

  /** Neither the first parameter nor the last one is a token. */
  function OnISupport(v: ClientView, params: seq<string>): ClientView {
    if |params| < 2 then v else v.(prefixes := OnTokens(v.prefixes, params[1..|params| - 1]))
  }

  function OnNumericReply(v: ClientView, d: Data): ClientView {
    if !d.NumericData? then v
    else if d.code == "005" then OnISupport(v, d.params)
    else if d.code == "353" then OnNames(v, d.params)
    else v
  }

  /** What the handlers subscribed to the event's type do to the view. */
  function OnEvent(v: ClientView, e: Event): ClientView {
    match e.kind
    case Connected => v.(connection := Up)
    case Disconnected => v.(connection := Down, channels := map[])
    case Registered => v.(connection := OnServer)
    case CapAdded => OnCapAdded(v, e.data)
    case CapRemoved => OnCapRemoved(v, e.data)
    case Numeric => OnNumericReply(v, e.data)
    case _ => OnMembership(v, e)
  }

  function OnCapAdded(v: ClientView, d: Data): ClientView {
    if d.CapAddedData? then v.(capabilities := v.capabilities[d.capability := ""]) else v
  }

  function OnCapRemoved(v: ClientView, d: Data): ClientView {
    if d.CapRemovedData? then v.(capabilities := v.capabilities - {d.capability}) else v
  }

  function OnMembership(v: ClientView, e: Event): ClientView {
    match e.data
    case NickData(old_, new_) => if e.kind == Nick then OnNick(v, old_, new_) else v
    case ModeData(target, modes, args) => if e.kind == Mode then OnMode(v, target, modes, args) else v
    case JoinData(channel, nick) => if e.kind == Join_ then OnJoin(v, channel, nick) else v
    case PartData(channel, nick, _) => if e.kind == Part then OnLeave(v, channel, nick) else v
    case QuitData(nick, _) => if e.kind == Quit then OnQuit(v, nick) else v
    case KickData(channel, _, kicked, _) => if e.kind == Kick then OnLeave(v, channel, kicked) else v
    case _ => v
  }

  /** handleNamesEnd: the end of the NAMES reply of a tracked channel is announced. */
  function NamesDone(v: ClientView, e: Event): seq<Event> {
    if e.kind == Numeric && e.data.NumericData? && e.data.code == "366" && |e.data.params| >= 2 && e.data.params[1] in v.channels
    then [Event(NamesComplete, e.message, NoData)]
    else []
  }

  /** What the client announces while it handles the events. */
  function Announced(v: ClientView, es: seq<Event>): seq<Event> {
    var n := |es|;
    if n == 0 then [] else Announced(v, es[..n - 1]) + NamesDone(OnEvents(v, es[..n - 1]), es[n - 1])
  }

  function OnEvents(v: ClientView, es: seq<Event>): ClientView {
    var n := |es|;
    if n == 0 then v else OnEvent(OnEvents(v, es[..n - 1]), es[n - 1])
  }
}
