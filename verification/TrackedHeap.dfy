/**
 The tracked objects: users in channels in the client's state, updated in place. Every handler is
 proved to make of the heap what its function in Tracking makes of the view, and to keep the
 ownership of users.
 */
module TrackedHeap {
  import opened GoStrings
  import opened Utf8
  import opened Events
  import opened Modes
  import opened Prefixes
  import opened Tracking
  import opened EventBus

  class User {
    var nick: string
    var modes: seq<ModeEntry>

    constructor (nick: string)
      ensures View() == UserView(nick, [])
    {
      this.nick, modes := nick, [];
    }

    function View(): UserView
      reads this
    {
      UserView(nick, modes)
    }

    method HasMode(mode: char) returns (has: bool)
      ensures has == Lookup(modes, mode).Some?
    {
      LookupFinds(modes, mode);
      for i := 0 to |modes|
        invariant forall j | 0 <= j < i :: modes[j].letter != mode
      {
        if modes[i].letter == mode {
          assert Letters(modes)[i] == mode;
          return true;
        }
      }
      return false;
    }

    method AddMode(mode: char, parameter: string)
      modifies this`modes
      ensures modes == WithMode(old(modes), mode, parameter)
    {
      for i := 0 to |modes|
        invariant modes == old(modes)
        invariant forall j | 0 <= j < i :: modes[j].letter != mode
      {
        if modes[i].letter == mode {
          WithModeAt(modes, mode, parameter, i);
          modes := modes[i := ModeEntry(mode, parameter)];
          return;
        }
      }
      WithModeAbsent(modes, mode, parameter);
      modes := modes + [ModeEntry(mode, parameter)];
    }

    method RemoveMode(mode: char)
      modifies this`modes
      ensures modes == WithoutMode(old(modes), mode)
    {
      for i := 0 to |modes|
        invariant modes == old(modes)
        invariant forall j | 0 <= j < i :: modes[j].letter != mode
      {
        if modes[i].letter == mode {
          WithoutModeAt(modes, mode, i);
          modes := modes[..i] + modes[i + 1..];
          return;
        }
      }
      WithModeAbsent(modes, mode, "");
    }

    /** The reverse map is filled in an order the caller does not control. */
    method GetPrefixString(prefixToMode: PrefixMap) returns (s: string)
      ensures exists reverse :: Reverses(reverse, prefixToMode) && s == Render(modes, reverse)
    {
      var modeToPrefix: map<char, char> := map[];
      var todo := prefixToMode.Keys;
      while todo != {}
        invariant todo <= prefixToMode.Keys
        invariant modeToPrefix.Keys == set p | p in prefixToMode.Keys - todo :: prefixToMode[p]
        invariant forall m | m in modeToPrefix :: modeToPrefix[m] in prefixToMode && prefixToMode[modeToPrefix[m]] == m
      {
        var p :| p in todo;
        modeToPrefix := modeToPrefix[prefixToMode[p] := p];
        todo := todo - {p};
      }
      assert modeToPrefix.Keys == prefixToMode.Values;
      assert Reverses(modeToPrefix, prefixToMode);
      s := "";
      for i := 0 to |modes|
        invariant s == Render(modes[..i], modeToPrefix)
      {
        assert modes[..i + 1][..i] == modes[..i];
        if modes[i].letter in modeToPrefix {
          s := s + EncodeRune(modeToPrefix[modes[i].letter]);
        }
      }
      assert modes[..|modes|] == modes;
    }
  }

  class Channel {
    const name: string
    var users: map<string, User>
    var modes: seq<ModeEntry>

    constructor (name: string)
      ensures this.name == name && users == map[] && modes == []
    {
      this.name := name;
      users, modes := map[], [];
    }

    function View(): ChannelView
      reads this, users.Values
    {
      ChannelView(name, modes, map n | n in users :: users[n].View())
    }

    /** Keys are nicks; hence no user is filed under two keys. */
    ghost predicate Valid()
      reads this, users.Values
    {
      forall n | n in users :: users[n].nick == n
    }

    method AddUser(user: User)
      requires Valid()
      modifies this`users
      ensures Valid() && users == old(users)[user.nick := user]
      ensures View() == WithUser(old(View()), user.nick, user.modes)
    {
      users := users[user.nick := user];
    }

    method RemoveUser(nick: string)
      requires Valid()
      modifies this`users
      ensures Valid() && users == old(users) - {nick}
      ensures View() == WithoutUser(old(View()), nick)
    {
      users := users - {nick};
    }

    method RenameUser(oldNick: string, newNick: string)
      requires Valid()
      modifies this`users, users.Values
      ensures Valid() && users.Values <= old(users.Values)
      ensures View() == Renamed(old(View()), oldNick, newNick)
    {
      if oldNick in users {
        var user := users[oldNick];
        user.nick := newNick;
        users := users[newNick := user];
        users := users - {oldNick};
      }
    }

    method AddMode(mode: char, parameter: string)
      modifies this`modes
      ensures modes == WithMode(old(modes), mode, parameter)
    {
      for i := 0 to |modes|
        invariant modes == old(modes)
        invariant forall j | 0 <= j < i :: modes[j].letter != mode
      {
        if modes[i].letter == mode {
          WithModeAt(modes, mode, parameter, i);
          modes := modes[i := ModeEntry(mode, parameter)];
          return;
        }
      }
      WithModeAbsent(modes, mode, parameter);
      modes := modes + [ModeEntry(mode, parameter)];
    }

    method RemoveMode(mode: char)
      modifies this`modes
      ensures modes == WithoutMode(old(modes), mode)
    {
      for i := 0 to |modes|
        invariant modes == old(modes)
        invariant forall j | 0 <= j < i :: modes[j].letter != mode
      {
        if modes[i].letter == mode {
          WithoutModeAt(modes, mode, i);
          modes := modes[..i] + modes[i + 1..];
          return;
        }
      }
      WithModeAbsent(modes, mode, "");
    }

    /** One letter of a MODE message for this channel: the channel's list, and the named user's. */
    method ApplyChange(adding: bool, letter: char, parameter: string)
      requires Valid()
      modifies this`modes, users.Values
      ensures Valid() && users == old(users)
      ensures View() == ChannelChanged(old(View()), Change(adding, letter, parameter))
    {
      ghost var change := Change(adding, letter, parameter);
      if adding {
        AddMode(letter, parameter);
      } else {
        RemoveMode(letter);
      }
      if parameter != "" && parameter in users {
        var user := users[parameter];
        if adding {
          user.AddMode(letter, "");
        } else {
          user.RemoveMode(letter);
        }
      }
    }
  }

  class ServerInfo {
    var channelPrefixes: PrefixMap
    var capabilities: map<string, string>

    constructor ()
      ensures channelPrefixes == DEFAULT_PREFIXES && capabilities == map[]
    {
      channelPrefixes, capabilities := DEFAULT_PREFIXES, map[];
    }

    method SetISupport(key: string, value: string)
      modifies this`channelPrefixes
      ensures channelPrefixes ==
              if key == "PREFIX" && ParsePrefixes(value).Some? then ParsePrefixes(value).value else old(channelPrefixes)
    {
      if key == "PREFIX" {
        ParseChannelPrefixes(value);
      }
    }

    method ParseChannelPrefixes(value: string)
      modifies this`channelPrefixes
      ensures channelPrefixes == if ParsePrefixes(value).Some? then ParsePrefixes(value).value else old(channelPrefixes)
    {
      if |value| == 0 {
        return;
      }
      var close := Index(value, ')');
      if close == -1 || !("(" <= value) {
        return;
      }
      var modes, prefixes := value[1..close], value[close + 1..];
      if |modes| != |prefixes| {
        return;
      }
      channelPrefixes := map[];
      for i := 0 to |modes|
        invariant channelPrefixes == Zip(prefixes[..i], modes[..i])
      {
        assert prefixes[..i + 1][..i] == prefixes[..i] && modes[..i + 1][..i] == modes[..i];
        channelPrefixes := channelPrefixes[prefixes[i] := modes[i]];
      }
      assert prefixes[..|modes|] == prefixes && modes[..|modes|] == modes;
    }

    method SetCapability(key: string, value: string)
      modifies this`capabilities
      ensures capabilities == old(capabilities)[key := value]
    {
      capabilities := capabilities[key := value];
    }

    method RemoveCapability(key: string)
      modifies this`capabilities
      ensures capabilities == old(capabilities) - {key}
    {
      capabilities := capabilities - {key};
    }
  }

  class State {
    var connection: ConnectionState
    var currentNick: string
    var userModes: seq<ModeEntry>
    const serverInfo: ServerInfo
    var channels: map<string, Channel>

    constructor ()
      ensures Valid() && View() == InitialView("") && fresh(serverInfo) && channels == map[]
    {
      connection, currentNick, userModes, channels := Down, "", [], map[];
      serverInfo := new ServerInfo();
    }

    function Users(): set<User>
      reads this`channels, channels.Values
    {
      set k, n | k in channels && n in channels[k].users :: channels[k].users[n]
    }

    /** The tracked objects. */
    function Owned(): set<object>
      reads this`channels, channels.Values
    {
      channels.Values + Users()
    }

    /** Keys are names; each channel owns its users. */
    ghost predicate Valid()
      reads this`channels, channels.Values, Users()
    {
      && (forall k | k in channels :: channels[k].name == k && channels[k].Valid())
      && (forall j, k | j in channels && k in channels && j != k :: channels[j].users.Values !! channels[k].users.Values)
    }

    /** No User object is filed twice, under two keys or in two channels. */
    lemma NotShared(j: string, m: string, k: string, n: string)
      requires Valid() && j in channels && m in channels[j].users && k in channels && n in channels[k].users
      requires channels[j].users[m] == channels[k].users[n]
      ensures j == k && m == n
    {
      assert channels[j].users[m] in channels[j].users.Values && channels[k].users[n] in channels[k].users.Values;
      assert channels[j].Valid() && channels[k].Valid();
    }

    function ChannelViews(): map<string, ChannelView>
      reads this`channels, channels.Values, Users()
    {
      map k | k in channels :: channels[k].View()
    }

    function View(): ClientView
      reads this, serverInfo, channels.Values, Users()
    {
      ClientView(connection, currentNick, userModes, serverInfo.channelPrefixes, serverInfo.capabilities, ChannelViews())
    }

    /** Nothing but the channel filed under `name` differs: it was updated in place, added or replaced. */
    twostate predicate OnlyChannel(name: string, new c: Channel)
      requires old(Valid())
      reads this`channels, channels.Values, Users(), c, c.users.Values
    {
      && channels == old(channels)[name := c]
      && (forall k | k in old(channels) && k != name ::
            k in channels && unchanged(channels[k]) && forall u | u in channels[k].users.Values :: unchanged(u))
    }

    /** Every tracked object is new or was tracked before. */
    twostate predicate NothingForeign()
      reads this`channels, channels.Values
    {
      && (forall k | k in channels :: fresh(channels[k]) || channels[k] in old(channels.Values))
      && (forall k, n | k in channels && n in channels[k].users ::
            fresh(channels[k].users[n]) || channels[k].users[n] in old(Users()))
    }

    twostate lemma NothingForeignOwned()
      requires NothingForeign()
      ensures fresh(Owned() - old(Owned()))
    {
    }

    twostate lemma SameOwned()
      requires channels == old(channels) && Users() == old(Users())
      ensures NothingForeign()
    {
      forall k, n | k in channels && n in channels[k].users ensures channels[k].users[n] in old(Users()) {
        assert channels[k].users[n] in Users();
      }
    }

    twostate lemma OneChannel(name: string, new c: Channel)
      requires old(Valid()) && OnlyChannel(name, c)
      requires c.name == name && c.Valid()
      requires fresh(c) || (name in old(channels) && old(channels[name]) == c)
      requires forall u | u in c.users.Values ::
                 fresh(u) || (name in old(channels) && old(channels[name]) == c && u in old(channels[name].users.Values))
      ensures Valid() && NothingForeign()
      ensures ChannelViews() == old(ChannelViews())[name := c.View()]
    {
      AllValid(name, c);
      OthersOwned(name, c);
      OneView(name, c);
      hide *;
    }

    twostate lemma AllValid(name: string, new c: Channel)
      requires old(Valid()) && OnlyChannel(name, c)
      requires c.name == name && c.Valid()
      requires forall u | u in c.users.Values ::
                 fresh(u) || (name in old(channels) && old(channels[name]) == c && u in old(channels[name].users.Values))
      ensures Valid()
    {
      OthersSame(name, c);
      OthersApart(name, c);
      assert channels == old(channels)[name := c];
      hide Channel.View, Channel.Valid, OnlyChannel;
    }

    twostate lemma OneView(name: string, new c: Channel)
      requires old(Valid()) && OnlyChannel(name, c)
      ensures ChannelViews() == old(ChannelViews())[name := c.View()]
    {
      OthersSame(name, c);
      assert channels == old(channels)[name := c];
      hide Channel.View, Channel.Valid, Valid, OnlyChannel;
    }

    twostate lemma OthersSame(name: string, new c: Channel)
      requires old(Valid()) && OnlyChannel(name, c)
      ensures forall k | k in channels && k != name ::
                && k in old(channels) && channels[k].View() == old(channels[k].View())
                && channels[k].name == k && channels[k].Valid()
                && channels[k].users == old(channels[k].users)
    {
      forall k | k in channels && k != name
        ensures channels[k].View() == old(channels[k].View())
        ensures channels[k].name == k && channels[k].Valid()
      {
        assert old(channels[k].Valid());
      }
    }

    twostate lemma OthersApart(name: string, new c: Channel)
      requires old(Valid()) && OnlyChannel(name, c)
      requires forall u | u in c.users.Values ::
                 fresh(u) || (name in old(channels) && old(channels[name]) == c && u in old(channels[name].users.Values))
      ensures forall j, k | j in channels && k in channels && j != k :: channels[j].users.Values !! channels[k].users.Values
    {
      hide Channel.View, Channel.Valid;
      OthersSame(name, c);
    }

    twostate lemma OthersOwned(name: string, new c: Channel)
      requires old(Valid()) && OnlyChannel(name, c)
      requires fresh(c) || (name in old(channels) && old(channels[name]) == c)
      requires forall u | u in c.users.Values ::
                 fresh(u) || (name in old(channels) && old(channels[name]) == c && u in old(channels[name].users.Values))
      ensures NothingForeign()
    {
      OthersSame(name, c);
      hide Channel.View, Channel.Valid, Valid;
      forall k, n | k in channels && n in channels[k].users
        ensures fresh(channels[k].users[n]) || channels[k].users[n] in old(Users())
      {
        assert channels[k].users[n] in channels[k].users.Values;
      }
    }

    /** Every channel stays where it is and gains no user. */
    twostate lemma EveryChannel()
      requires old(Valid()) && Valid() && channels == old(channels)
      requires forall k | k in channels :: channels[k].users.Values <= old(channels[k].users.Values)
      ensures NothingForeign()
    {
      forall k, n | k in channels && n in channels[k].users
        ensures channels[k].users[n] in old(Users())
      {
        assert channels[k].users[n] in channels[k].users.Values;
      }
    }

    /** The other channels as they were. */
    twostate predicate OthersKept(k: string)
      reads this`channels, channels.Values, Users()
    {
      forall j | j in channels && j != k :: j in old(channels) ==>
        channels[j].View() == old(channels[j].View()) && channels[j].users == old(channels[j].users)
    }

    method RenameIn(k: string, oldNick: string, newNick: string)
      requires Valid() && k in channels
      modifies channels[k], channels[k].users.Values
      ensures Valid() && OthersKept(k)
      ensures channels[k].users.Values <= old(channels[k].users.Values)
      ensures channels[k].View() == Renamed(old(channels[k].View()), oldNick, newNick)
    {
      hide Renamed;
      channels[k].RenameUser(oldNick, newNick);
    }

    method RemoveIn(k: string, nick: string)
      requires Valid() && k in channels
      modifies channels[k]
      ensures Valid() && OthersKept(k)
      ensures channels[k].users.Values <= old(channels[k].users.Values)
      ensures channels[k].View() == WithoutUser(old(channels[k].View()), nick)
    {
      hide WithoutUser;
      channels[k].RemoveUser(nick);
    }

    method ApplyIn(k: string, adding: bool, letter: char, parameter: string)
      requires Valid() && k in channels
      modifies channels[k], channels[k].users.Values
      ensures Valid() && OthersKept(k) && channels[k].users == old(channels[k].users)
      ensures channels[k].View() == ChannelChanged(old(channels[k].View()), Change(adding, letter, parameter))
    {
      hide ChannelChanged;
      channels[k].ApplyChange(adding, letter, parameter);
    }

    /** The same users are filed in the same places. */
    twostate lemma SameFiling(k: string)
      requires channels == old(channels) && k in channels
      requires OthersKept(k) && channels[k].users == old(channels[k].users)
      ensures Users() == old(Users())
      ensures ChannelViews() == old(ChannelViews())[k := channels[k].View()]
    {
      hide Channel.View;
      assert forall j | j in channels :: channels[j].users == old(channels[j].users);
    }

    method AddUserMode(mode: char, parameter: string)
      modifies this`userModes
      ensures userModes == WithMode(old(userModes), mode, parameter)
    {
      for i := 0 to |userModes|
        invariant userModes == old(userModes)
        invariant forall j | 0 <= j < i :: userModes[j].letter != mode
      {
        if userModes[i].letter == mode {
          WithModeAt(userModes, mode, parameter, i);
          userModes := userModes[i := ModeEntry(mode, parameter)];
          return;
        }
      }
      WithModeAbsent(userModes, mode, parameter);
      userModes := userModes + [ModeEntry(mode, parameter)];
    }

    method RemoveUserMode(mode: char)
      modifies this`userModes
      ensures userModes == WithoutMode(old(userModes), mode)
    {
      for i := 0 to |userModes|
        invariant userModes == old(userModes)
        invariant forall j | 0 <= j < i :: userModes[j].letter != mode
      {
        if userModes[i].letter == mode {
          WithoutModeAt(userModes, mode, i);
          userModes := userModes[..i] + userModes[i + 1..];
          return;
        }
      }
      WithModeAbsent(userModes, mode, "");
    }

    method AddChannel(channel: Channel)
      modifies this`channels
      ensures channels == old(channels)[channel.name := channel]
    {
      channels := channels[channel.name := channel];
    }

    method RemoveChannel(name: string)
      requires Valid()
      modifies this`channels
      ensures channels == old(channels) - {name}
      ensures Valid() && NothingForeign() && ChannelViews() == old(ChannelViews()) - {name}
    {
      hide Channel.View, Channel.Valid, State.NothingForeign;
      channels := channels - {name};
      FewerOwned();
      FewerViews(name);
    }

    twostate lemma FewerViews(name: string)
      requires channels == old(channels) - {name}
      requires forall k | k in channels :: channels[k].View() == old(channels[k].View())
      ensures ChannelViews() == old(ChannelViews()) - {name}
    {
      hide Channel.View, Channel.Valid;
    }

    twostate lemma FewerOwned()
      requires forall k | k in channels :: k in old(channels) && channels[k] == old(channels[k]) && channels[k].users == old(channels[k].users)
      ensures NothingForeign()
    {
    }
  }

  class Client {
    const bus: EventBus
    const state: State

    constructor (bus: EventBus, nick: string)
      ensures this.bus == bus && state.Valid() && state.View() == InitialView(nick)
      ensures fresh(state) && fresh(state.serverInfo) && state.Owned() == {}
    {
      this.bus := bus;
      state := new State();
      new;
      state.currentNick := nick;
    }

    method HandleConnected()
      requires state.Valid()
      modifies state`connection
      ensures state.Valid() && state.NothingForeign()
      ensures state.View() == old(state.View()).(connection := Up)
    {
      state.connection := Up;
      state.SameOwned();
    }

    method HandleRegistered()
      requires state.Valid()
      modifies state`connection
      ensures state.Valid() && state.NothingForeign()
      ensures state.View() == old(state.View()).(connection := OnServer)
    {
      state.connection := OnServer;
      state.SameOwned();
    }

    method HandleCapAdded(data: Data)
      requires state.Valid()
      modifies state.serverInfo`capabilities
      ensures state.Valid() && state.NothingForeign()
      ensures state.View() == OnCapAdded(old(state.View()), data)
    {
      if data.CapAddedData? {
        state.serverInfo.SetCapability(data.capability, "");
      }
      state.SameOwned();
    }

    method HandleCapRemoved(data: Data)
      requires state.Valid()
      modifies state.serverInfo`capabilities
      ensures state.Valid() && state.NothingForeign()
      ensures state.View() == OnCapRemoved(old(state.View()), data)
    {
      if data.CapRemovedData? {
        state.serverInfo.RemoveCapability(data.capability);
      }
      state.SameOwned();
    }

    method HandleDisconnected()
      requires state.Valid()
      modifies state
      ensures state.Valid() && state.NothingForeign()
      ensures state.View() == old(state.View()).(connection := Down, channels := map[])
    {
      state.connection := Down;
      state.channels := map[];
    }

    method HandleNick(oldNick: string, newNick: string)
      requires state.Valid()
      modifies state`currentNick, state.channels.Values, state.Users()
      ensures state.Valid() && state.NothingForeign()
      ensures state.View() == OnNick(old(state.View()), oldNick, newNick)
    {
      if oldNick == state.currentNick {
        state.currentNick := newNick;
      }
      RenameEverywhere(oldNick, newNick);
    }

    /** The loop over the channels, in any order. */
    method RenameEverywhere(oldNick: string, newNick: string)
      requires state.Valid()
      modifies state.channels.Values, state.Users()
      ensures state.Valid() && state.NothingForeign()
      ensures state.ChannelViews() == RenamedAll(old(state.ChannelViews()), oldNick, newNick)
    {
      hide Renamed, Channel.View, Channel.Valid, State.NothingForeign;
      var todo := state.channels.Keys;
      while todo != {}
        invariant todo <= state.channels.Keys
        invariant state.Valid()
        invariant forall k | k in state.channels :: state.channels[k].users.Values <= old(state.channels[k].users.Values)
        invariant forall k | k in todo :: state.channels[k].View() == old(state.channels[k].View())
        invariant forall k | k in state.channels.Keys - todo ::
                    state.channels[k].View() == Renamed(old(state.channels[k].View()), oldNick, newNick)
      {
        var k :| k in todo;
        state.RenameIn(k, oldNick, newNick);
        todo := todo - {k};
      }
      state.EveryChannel();
    }

    method HandleQuit(nick: string)
      requires state.Valid()
      modifies state.channels.Values
      ensures state.Valid() && state.NothingForeign()
      ensures state.View() == OnQuit(old(state.View()), nick)
    {
      hide WithoutUser, Channel.View, Channel.Valid, State.NothingForeign, State.Valid;
      var todo := state.channels.Keys;
      while todo != {}
        invariant todo <= state.channels.Keys
        invariant state.Valid()
        invariant forall k | k in state.channels :: state.channels[k].users.Values <= old(state.channels[k].users.Values)
        invariant forall k | k in todo :: state.channels[k].View() == old(state.channels[k].View())
        invariant forall k | k in state.channels.Keys - todo ::
                    state.channels[k].View() == WithoutUser(old(state.channels[k].View()), nick)
      {
        var k :| k in todo;
        state.RemoveIn(k, nick);
        todo := todo - {k};
      }
      state.EveryChannel();
    }

    method HandleJoin(channelName: string, nick: string)
      requires state.Valid()
      modifies state`channels, state.channels.Values
      ensures state.Valid() && state.NothingForeign()
      ensures state.View() == OnJoin(old(state.View()), channelName, nick)
    {
      if nick == state.currentNick {
        TrackNew(channelName, nick);
      } else {
        if channelName in state.channels {
          AddOther(channelName, nick);
        } else {
          state.SameOwned();
        }
      }
    }

    method AddOther(channelName: string, nick: string)
      requires state.Valid() && channelName in state.channels
      modifies state.channels.Values
      ensures state.Valid() && state.NothingForeign()
      ensures state.ChannelViews() ==
              old(state.ChannelViews())[channelName := WithUser(old(state.ChannelViews())[channelName], nick, [])]
    {
      hide WithUser;
      var channel := state.channels[channelName];
      var user := new User(nick);
      channel.AddUser(user);
      state.OneChannel(channelName, channel);
    }

    /** One's own JOIN starts a new Channel object, also for a channel that is tracked already. */
    method TrackNew(channelName: string, nick: string)
      requires state.Valid()
      modifies state`channels
      ensures state.Valid() && state.NothingForeign()
      ensures state.ChannelViews() == old(state.ChannelViews())[channelName := WithUser(EmptyChannel(channelName), nick, [])]
    {
      var channel := new Channel(channelName);
      state.AddChannel(channel);
      var user := new User(nick);
      channel.AddUser(user);
      state.OneChannel(channelName, channel);
    }

    /** handlePart, and handleKick with the kicked nick. */
    method HandleLeave(channelName: string, nick: string)
      requires state.Valid()
      modifies state`channels, state.channels.Values
      ensures state.Valid() && state.NothingForeign()
      ensures state.View() == OnLeave(old(state.View()), channelName, nick)
    {
      hide WithoutUser, Channel.View, Channel.Valid;
      if nick == state.currentNick {
        state.RemoveChannel(channelName);
      } else {
        if channelName in state.channels {
          var channel := state.channels[channelName];
          channel.RemoveUser(nick);
          state.OneChannel(channelName, channel);
        }
      }
    }

    method HandleMode(target: string, modes: string, args: seq<string>)
      requires state.Valid()
      modifies state`userModes, state.channels.Values, state.Users()
      ensures state.Valid() && state.NothingForeign()
      ensures state.View() == OnMode(old(state.View()), target, modes, args)
    {
      hide OnChange, ArgAt, DecodeRune, State.Valid, State.View, State.NothingForeign;
      var adding, argIndex, rest := true, 0, modes;
      ghost var all := OnMode(state.View(), target, modes, args);
      assert args[0..] == args;
      while rest != ""
        invariant 0 <= argIndex <= |args|
        invariant state.Valid() && state.channels == old(state.channels) && state.Users() == old(state.Users())
        invariant all == OnChanges(state.View(), target, Changes(Runes(rest), adding, args[argIndex..]))
        decreases |rest|
      {
        var (rune, size) := DecodeRune(rest);
        rest := rest[size..];
        if rune == '+' {
          adding := true;
        } else if rune == '-' {
          adding := false;
        } else {
          var parameter := "";
          NextArgument(args, argIndex);
          if argIndex < |args| {
            parameter := args[argIndex];
            argIndex := argIndex + 1;
          }
          ApplyLetter(target, adding, rune, parameter);
        }
      }
      state.SameOwned();
    }

    /** One mode letter of a MODE message. */
    method ApplyLetter(target: string, adding: bool, letter: char, parameter: string)
      requires state.Valid()
      modifies state`userModes, state.channels.Values, state.Users()
      ensures state.Valid() && state.channels == old(state.channels) && state.Users() == old(state.Users())
      ensures state.View() == OnChange(old(state.View()), target, Change(adding, letter, parameter))
    {
      if IsChannelTarget(target) {
        if target in state.channels {
          state.ApplyIn(target, adding, letter, parameter);
          state.SameFiling(target);
        }
      } else if target == state.currentNick {
        if adding {
          state.AddUserMode(letter, parameter);
        } else {
          state.RemoveUserMode(letter);
        }
      }
    }

    method HandleNames(params: seq<string>)
      requires state.Valid()
      modifies state`channels, state.channels.Values
      ensures state.Valid() && state.NothingForeign()
      ensures state.View() == OnNames(old(state.View()), params)
    {
      if |params| < 4 {
        state.SameOwned();
        return;
      }
      var channelName, nicks := params[2], Fields(params[3]);
      var channel: Channel;
      if channelName in state.channels {
        channel := state.channels[channelName];
      } else {
        channel := new Channel(channelName);
        state.AddChannel(channel);
      }
      AddNamed(channel, nicks);
      state.OneChannel(channelName, channel);
    }

    method AddNamed(channel: Channel, nicks: seq<string>)
      requires channel.Valid()
      modifies channel`users
      ensures channel.Valid() && channel.View() == Named(old(channel.View()), nicks, state.serverInfo.channelPrefixes)
      ensures forall u | u in channel.users.Values :: u in old(channel.users.Values) || fresh(u)
    {
      ghost var prefixes := state.serverInfo.channelPrefixes;
      for i := 0 to |nicks|
        invariant channel.Valid() && channel.View() == Named(old(channel.View()), nicks[..i], prefixes)
        invariant forall u | u in channel.users.Values :: u in old(channel.users.Values) || fresh(u)
      {
        assert nicks[..i + 1][..i] == nicks[..i];
        var user := NamedUser(nicks[i]);
        if user != null {
          channel.AddUser(user);
        }
      }
      assert nicks[..|nicks|] == nicks;
    }

    /** The user of one NAMES entry; null when the entry holds prefixes only. */
    method NamedUser(entry: string) returns (user: User?)
      ensures user == null <==> CleanNick(entry, state.serverInfo.channelPrefixes) == ""
      ensures user != null ==>
                fresh(user) && user.View() == UserView(CleanNick(entry, state.serverInfo.channelPrefixes),
                                                       EntryModes(entry, state.serverInfo.channelPrefixes))
    {
      hide Leading, WithMode;
      var cleanNick, userModes := SplitEntry(entry);
      if cleanNick == "" {
        return null;
      }
      user := new User(cleanNick);
      for i := 0 to |userModes|
        invariant fresh(user) && user.View() == UserView(cleanNick, AddModes([], userModes[..i]))
      {
        assert userModes[..i + 1][..i] == userModes[..i];
        user.AddMode(userModes[i], "");
      }
      assert userModes[..|userModes|] == userModes;
    }

    method SplitEntry(entry: string) returns (cleanNick: string, userModes: seq<char>)
      ensures var m := state.serverInfo.channelPrefixes;
              cleanNick == CleanNick(entry, m) && userModes == ModesOf(Leading(entry, m), m)
    {
      var prefixes := state.serverInfo.channelPrefixes;
      hide Leading, CleanNick, ModesOf;
      cleanNick, userModes := entry, [];
      while |cleanNick| > 0
        invariant CleanNick(entry, prefixes) == CleanNick(cleanNick, prefixes)
        invariant ModesOf(Leading(entry, prefixes), prefixes) == userModes + ModesOf(Leading(cleanNick, prefixes), prefixes)
        decreases |cleanNick|
      {
        LeadingStep(cleanNick, prefixes);
        if cleanNick[0] !in prefixes {
          return;
        }
        userModes := userModes + [prefixes[cleanNick[0]]];
        cleanNick := cleanNick[1..];
      }
      LeadingStep(cleanNick, prefixes);
    }

    lemma EmptyRefused()
      ensures ParsePrefixes("").None?
    {
    }

    method HandleToken(token: string)
      modifies state.serverInfo`channelPrefixes
      ensures state.serverInfo.channelPrefixes == OnToken(old(state.serverInfo.channelPrefixes), token)
    {
      EmptyRefused();
      hide ParsePrefixes;
      if '=' in token {
        var (key, value) := Cut(token, '=');
        state.serverInfo.SetISupport(key, value);
      } else {
        state.serverInfo.SetISupport(token, "");
      }
    }

    method HandleISupport(params: seq<string>)
      modifies state.serverInfo`channelPrefixes
      ensures state.View() == OnISupport(old(state.View()), params)
    {
      hide OnToken;
      ghost var tokens := if |params| < 2 then [] else params[1..|params| - 1];
      var i := 1;
      while i < |params| - 1
        invariant 1 <= i && (|params| >= 2 ==> i <= |params| - 1)
        invariant |params| >= 2 ==>
                    state.serverInfo.channelPrefixes == OnTokens(old(state.serverInfo.channelPrefixes), tokens[..i - 1])
        invariant |params| < 2 ==> state.serverInfo.channelPrefixes == old(state.serverInfo.channelPrefixes)
      {
        assert tokens[..i][..i - 1] == tokens[..i - 1] && tokens[..i][i - 1] == params[i];
        HandleToken(params[i]);
        i := i + 1;
      }
      if |params| >= 2 {
        assert tokens[..|tokens|] == tokens;
      }
    }

    /** The handlers setupEventHandlers subscribes, by event type. */
    method Handle(e: Event)
      requires state.Valid()
      modifies state, state.serverInfo, state.channels.Values, state.Users()
      ensures state.Valid() && state.NothingForeign()
      ensures state.View() == OnEvent(old(state.View()), e)
    {
      hide State.View, State.Valid, State.NothingForeign;
      hide OnMembership, OnNumericReply, OnCapAdded, OnCapRemoved;
      match e.kind
      case Connected => HandleConnected();
      case Disconnected => HandleDisconnected();
      case Registered => HandleRegistered();
      case CapAdded => HandleCapAdded(e.data);
      case CapRemoved => HandleCapRemoved(e.data);
      case Numeric => HandleNumeric(e.data);
      case _ => HandleMembership(e);
    }

    /** Any sequence of events, one after the other. */
    method HandleAll(es: seq<Event>)
      requires state.Valid()
      modifies state, state.serverInfo, state.Owned(), bus`queue
      ensures state.Valid() && fresh(state.Owned() - old(state.Owned()))
      ensures state.View() == OnEvents(old(state.View()), es)
      ensures bus.queue == old(bus.queue) + Announced(old(state.View()), es)
    {
      hide State.View, State.Valid, State.NothingForeign, OnEvent, NamesDone;
      for i := 0 to |es|
        invariant state.Valid() && fresh(state.Owned() - old(state.Owned()))
        invariant state.View() == OnEvents(old(state.View()), es[..i])
        invariant bus.queue == old(bus.queue) + Announced(old(state.View()), es[..i])
      {
        assert es[..i + 1][..i] == es[..i];
        Receive(es[i]);
      }
      assert es[..|es|] == es;
    }

    /** One event: the end of a NAMES reply is announced, and the state follows. */
    method Receive(e: Event)
      requires state.Valid()
      modifies state, state.serverInfo, state.Owned(), bus`queue
      ensures state.Valid() && fresh(state.Owned() - old(state.Owned()))
      ensures state.View() == OnEvent(old(state.View()), e)
      ensures bus.queue == old(bus.queue) + NamesDone(old(state.View()), e)
    {
      hide OnEvent, State.View, State.Valid, NamesDone;
      HandleNamesEnd(e);
      label before:
      Handle(e);
      state.NothingForeignOwned@before();
    }

    method HandleNamesEnd(e: Event)
      modifies bus`queue
      ensures bus.queue == old(bus.queue) + NamesDone(state.View(), e)
    {
      if e.kind == Numeric && e.data.NumericData? && e.data.code == "366" && |e.data.params| >= 2 {
        if e.data.params[1] in state.channels {
          bus.Emit(Event(NamesComplete, e.message, NoData));
        }
      }
    }

    method HandleMembership(e: Event)
      requires state.Valid()
      modifies state`currentNick, state`userModes, state`channels, state.channels.Values, state.Users()
      ensures state.Valid() && state.NothingForeign()
      ensures state.View() == OnMembership(old(state.View()), e)
    {
      hide State.View, State.Valid, State.NothingForeign;
      hide OnNick, OnMode, OnJoin, OnLeave, OnQuit;
      if e.kind == Nick && e.data.NickData? {
        HandleNick(e.data.oldNick, e.data.newNick);
      } else if e.kind == Mode && e.data.ModeData? {
        HandleMode(e.data.target, e.data.modes, e.data.args);
      } else if e.kind == Join_ && e.data.JoinData? {
        HandleJoin(e.data.channel, e.data.nick);
      } else if e.kind == Part && e.data.PartData? {
        HandleLeave(e.data.channel, e.data.nick);
      } else if e.kind == Quit && e.data.QuitData? {
        HandleQuit(e.data.nick);
      } else if e.kind == Kick && e.data.KickData? {
        HandleLeave(e.data.channel, e.data.kicked);
      } else {
        state.SameOwned();
      }
    }

    method HandleNumeric(data: Data)
      requires state.Valid()
      modifies state`channels, state.serverInfo`channelPrefixes, state.channels.Values
      ensures state.Valid() && state.NothingForeign()
      ensures state.View() == OnNumericReply(old(state.View()), data)
    {
      if !data.NumericData? {
        state.SameOwned();
      } else if data.code == "005" {
        HandleISupport(data.params);
        state.SameOwned();
      } else if data.code == "353" {
        HandleNames(data.params);
      } else {
        state.SameOwned();
      }
    }
  }

  lemma NextArgument(args: seq<string>, i: nat)
    requires i <= |args|
    ensures i == |args| ==> args[i..] == [] && ArgAt(args[i..], 0) == ""
    ensures i < |args| ==> args[i..] != [] && ArgAt(args[i..], 0) == args[i] && args[i..][1..] == args[i + 1..]
  {
  }
}
