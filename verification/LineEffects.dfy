/**
 What each line does to the tracked state, end to end: from the source, the command and the parameters to
 every channel, every user and every mode, and what stays as it was.
 */
module LineEffects {
  import opened GoStrings
  import opened Utf8
  import opened Message
  import opened Events
  import opened Modes
  import opened Prefixes
  import opened Tracking
  import opened TrackingTheorems
  import opened EventPayloads
  import opened CapabilityText

  /** The view when the client has handled the events of the line. */
  function AfterLine(v: ClientView, m: Message): ClientView
    requires EventsOf(m).Some?
  {
    OnEvents(v, EventsOf(m).value)
  }

  lemma AfterOne(v: ClientView, m: Message, kind: EventType, data: Data)
    requires Becomes(m, kind, data)
    ensures EventsOf(m).Some? && AfterLine(v, m) == OnEvent(v, Event(kind, Some(m), data))
  {
    hide OnEvent, EventsOf;
    var e := Event(kind, Some(m), data);
    assert [e][..0] == [] && OnEvents(v, [e][..0]) == v;
    assert OnEvents(v, [e]) == OnEvent(OnEvents(v, [e][..0]), e);
  }

  lemma AfterTwo(v: ClientView, m: Message, a: Event, b: Event)
    requires EventsOf(m) == Some([a, b])
    ensures AfterLine(v, m) == OnEvent(OnEvent(v, a), b)
  {
    hide OnEvent, EventsOf;
    var es := [a, b];
    assert es[..1] == [a] && [a][..0] == [];
    assert OnEvents(v, [a]) == OnEvent(OnEvents(v, [a][..0]), a);
  }

  // ---------- who is where ----------

  /** `nick` is gone; the channel and everybody else are as they were. */
  ghost predicate Lost(c: ChannelView, c': ChannelView, nick: string) {
    && c'.name == c.name && c'.modes == c.modes
    && (forall n :: n in c'.users <==> n in c.users && n != nick)
    && (forall n | n in c'.users :: c'.users[n] == c.users[n])
  }

  /** Only `channel` differs. */
  ghost predicate OnlyThere(v: ClientView, v': ClientView, channel: string) {
    && v' == v.(channels := v'.channels)
    && (forall k | k != channel :: (k in v'.channels <==> k in v.channels) && (k in v.channels ==> v'.channels[k] == v.channels[k]))
  }

  ghost predicate Leaves(v: ClientView, v': ClientView, channel: string, nick: string) {
    && OnlyThere(v, v', channel)
    && (if nick == v.nick then channel !in v'.channels
        else (channel in v'.channels <==> channel in v.channels)
             && (channel in v.channels ==> Lost(v.channels[channel], v'.channels[channel], nick)))
  }

  /** `nick` is there, without modes; one's own JOIN starts the channel afresh. */
  ghost predicate Arrives(v: ClientView, v': ClientView, channel: string, nick: string) {
    && OnlyThere(v, v', channel)
    && (channel in v'.channels <==> channel in v.channels || nick == v.nick)
    && (channel in v'.channels ==>
          var c' := v'.channels[channel];
          && nick in c'.users && c'.users[nick] == UserView(nick, [])
          && (if nick == v.nick then c'.name == channel && c'.modes == [] && forall n | n in c'.users :: n == nick
              else
                var c := v.channels[channel];
                c'.name == c.name && c'.modes == c.modes
                && forall n | n != nick :: (n in c'.users <==> n in c.users) && (n in c.users ==> c'.users[n] == c.users[n])))
  }

  /** The user filed under `from` is filed under `to`, with the same modes; nobody else moves. */
  ghost predicate Moves(c: ChannelView, c': ChannelView, from: string, to: string) {
    && c'.name == c.name && c'.modes == c.modes
    && (if from !in c.users then c' == c
        else if from == to then Lost(c, c', from)
        else
          && from !in c'.users && to in c'.users && c'.users[to] == c.users[from].(nick := to)
          && (forall n | n != from && n != to ::
                (n in c'.users <==> n in c.users) && (n in c.users ==> c'.users[n] == c.users[n])))
  }

  lemma LeaveEffect(v: ClientView, channel: string, nick: string)
    ensures Leaves(v, OnLeave(v, channel, nick), channel, nick)
  {
  }

  lemma JoinEffect(v: ClientView, channel: string, nick: string)
    ensures Arrives(v, OnJoin(v, channel, nick), channel, nick)
  {
  }

  /** Main result: JOIN by anybody, at the first parameter. */
  lemma JoinLine(v: ClientView, m: Message, nick: string)
    requires m.command == "JOIN" && From(m.source, nick)
    ensures EventsOf(m).Some? && Arrives(v, AfterLine(v, m), At(m.params, 0), nick)
  {
    MembershipLines(m, nick);
    hide Becomes, EventsOf, OnJoin, Arrives, AfterLine;
    AfterOne(v, m, Join_, JoinData(At(m.params, 0), nick));
    JoinEffect(v, At(m.params, 0), nick);
  }

  /** Main result: PART takes the sender out. */
  lemma PartLine(v: ClientView, m: Message, nick: string)
    requires m.command == "PART" && From(m.source, nick)
    ensures EventsOf(m).Some? && Leaves(v, AfterLine(v, m), At(m.params, 0), nick)
  {
    MembershipLines(m, nick);
    hide Becomes, EventsOf, OnLeave, Leaves, AfterLine;
    AfterOne(v, m, Part, PartData(At(m.params, 0), nick, Last(m.params)));
    LeaveEffect(v, At(m.params, 0), nick);
  }

  /** Main result: KICK takes the second parameter out, whoever sends it. */
  lemma KickLine(v: ClientView, m: Message)
    requires m.command == "KICK"
    ensures EventsOf(m).Some? && Leaves(v, AfterLine(v, m), At(m.params, 0), At(m.params, 1))
  {
    var nick := ExtractNick(m.source);
    FromExactly(m.source, nick);
    hide Becomes, EventsOf, OnLeave, Leaves, AfterLine, ExtractNick, From;
    MembershipLines(m, nick);
    AfterOne(v, m, Kick, KickData(At(m.params, 0), nick, At(m.params, 1), Last(m.params)));
    LeaveEffect(v, At(m.params, 0), At(m.params, 1));
  }

  /** Main result: QUIT takes the sender out everywhere, and stops no tracking. */
  lemma QuitLine(v: ClientView, m: Message, nick: string)
    requires m.command == "QUIT" && From(m.source, nick)
    ensures EventsOf(m).Some?
    ensures var v' := AfterLine(v, m);
            && v' == v.(channels := v'.channels) && v'.channels.Keys == v.channels.Keys
            && forall k | k in v.channels :: Lost(v.channels[k], v'.channels[k], nick)
  {
    MembershipLines(m, nick);
    hide Becomes, EventsOf, AfterLine;
    AfterOne(v, m, Quit, QuitData(nick, Last(m.params)));
  }

  lemma RenameEffect(c: ChannelView, from: string, to: string)
    ensures Moves(c, Renamed(c, from, to), from, to)
  {
  }

  /** Main result: NICK files the sender under the first parameter, everywhere, modes and all. */
  lemma NickLine(v: ClientView, m: Message, nick: string)
    requires m.command == "NICK" && From(m.source, nick)
    ensures EventsOf(m).Some?
    ensures var v', to := AfterLine(v, m), At(m.params, 0);
            && v' == v.(channels := v'.channels, nick := if v.nick == nick then to else v.nick)
            && v'.channels.Keys == v.channels.Keys
            && forall k | k in v.channels :: Moves(v.channels[k], v'.channels[k], nick, to)
  {
    MembershipLines(m, nick);
    hide Becomes, EventsOf, AfterLine, Renamed, Moves;
    AfterOne(v, m, Nick, NickData(nick, At(m.params, 0)));
    forall k | k in v.channels ensures Moves(v.channels[k], Renamed(v.channels[k], nick, At(m.params, 0)), nick, At(m.params, 0)) {
      RenameEffect(v.channels[k], nick, At(m.params, 0));
    }
  }

  // ---------- MODE ----------

  /** The names of channels. */
  predicate LooksLikeChannel(target: string) {
    target != "" && (target[0] == '#' || target[0] == '&')
  }

  lemma TargetExactly(target: string)
    ensures IsChannelTarget(target) <==> LooksLikeChannel(target)
  {
    assert target != "" && target[0] == '#' ==> "#" <= target;
  }

  /** The letters of a list, judged by the last change to each. */
  ghost predicate Judged(before: seq<ModeEntry>, changes: seq<Change>, after: seq<ModeEntry>) {
    forall l :: AfterChanges(Lookup(before, l), LastOf(changes, l), Lookup(after, l))
  }

  /**
   Main result: MODE with its parameters. A tracked channel and its users are judged, or one's own modes;
   any other target has no effect.
   */
  lemma ModeLine(v: ClientView, m: Message)
    requires Tidy(v) && m.command == "MODE" && |m.params| >= 2
    ensures EventsOf(m).Some?
    ensures var v', target, changes := AfterLine(v, m), m.params[0], Changes(Runes(m.params[1]), true, m.params[2..]);
            if LooksLikeChannel(target) && target in v.channels then
              && target in v'.channels && OnlyThere(v, v', target)
              && var c, c' := v.channels[target], v'.channels[target];
              && c'.users.Keys == c.users.Keys
              && Judged(c.modes, changes, c'.modes)
              && (forall n | n in c.users :: Judged(c.users[n].modes, ChangesFor(changes, n), c'.users[n].modes))
            else
              && v' == v.(modes := v'.modes)
              && (if !LooksLikeChannel(target) && target == v.nick then Judged(v.modes, changes, v'.modes) else v' == v)
  {
    var nick := ExtractNick(m.source);
    FromExactly(m.source, nick);
    hide Becomes, EventsOf, AfterLine, ExtractNick, From, OnMode, Changes, Runes, Tidy, AfterChanges, Lookup, LastOf, ChangesFor;
    ChannelLines(m, nick);
    AfterOne(v, m, Mode, ModeData(m.params[0], m.params[1], m.params[2..]));
    TargetExactly(m.params[0]);
    hide IsChannelTarget, LooksLikeChannel;
    if IsChannelTarget(m.params[0]) && m.params[0] in v.channels {
      ChannelModeRule(v, m.params[0], m.params[1], m.params[2..]);
    } else {
      OwnModeRule(v, m.params[0], m.params[1], m.params[2..]);
    }
  }

  // ---------- NAMES ----------

  /** One entry: its prefixes and its nick. */
  datatype Entry = Entry(prefixes: string, nick: string)

  function EntryTexts(entries: seq<Entry>): seq<string> {
    seq(|entries|, i requires 0 <= i < |entries| => entries[i].prefixes + entries[i].nick)
  }

  predicate CleanEntry(e: Entry, m: PrefixMap) {
    (forall c | c in e.prefixes :: c in m) && (e.nick == "" || e.nick[0] !in m)
  }

  /** The last entry for a nick. */
  function LastEntry(entries: seq<Entry>, nick: string): Option<Entry> {
    var n := |entries|;
    if n == 0 then None
    else if entries[n - 1].nick == nick then Some(entries[n - 1])
    else LastEntry(entries[..n - 1], nick)
  }

  lemma {:induction false} EntryRead(prefixes: string, nick: string, m: PrefixMap)
    requires (forall c | c in prefixes :: c in m) && (nick == "" || nick[0] !in m)
    ensures Prefixes.Leading(prefixes + nick, m) == prefixes && CleanNick(prefixes + nick, m) == nick
  {
    if prefixes == "" {
      assert prefixes + nick == nick;
    } else {
      assert prefixes[0] in prefixes && forall c | c in prefixes[1..] :: c in prefixes;
      assert (prefixes + nick)[1..] == prefixes[1..] + nick;
      EntryRead(prefixes[1..], nick, m);
      assert prefixes == [prefixes[0]] + prefixes[1..];
    }
  }

  /** The modes that prefixes stand for: each letter that one of them maps to, without a parameter. */
  ghost predicate HasModes(modes: seq<ModeEntry>, prefixes: string, m: PrefixMap)
    requires forall c | c in prefixes :: c in m
  {
    && Distinct(modes)
    && forall l :: Lookup(modes, l) == if exists c :: c in prefixes && m[c] == l then Some("") else None
  }

  lemma {:induction false} PrefixModes(prefixes: string, m: PrefixMap)
    requires forall c | c in prefixes :: c in m
    ensures HasModes(AddModes([], ModesOf(prefixes, m)), prefixes, m)
    decreases |prefixes|
  {
    var n := |prefixes|;
    if n == 0 {
      assert ModesOf(prefixes, m) == [] && AddModes([], []) == [];
    } else {
      var front, last := prefixes[..n - 1], prefixes[n - 1];
      assert prefixes == front + [last];
      hide AddModes, ModesOf, WithMode, Lookup, Distinct;
      PrefixModes(front, m);
      LeadingModes(prefixes, m);
      AddModeMeaning(AddModes([], ModesOf(front, m)), m[last], "");
    }
  }

  /** What the entries make of a channel. */
  ghost predicate Names(c: ChannelView, c': ChannelView, entries: seq<Entry>, m: PrefixMap) {
    && c'.name == c.name && c'.modes == c.modes
    && forall n :: NamedAs(c, c', n, EntryFor(entries, n), m)
  }

  /** Nobody has the empty nick. */
  function EntryFor(entries: seq<Entry>, n: string): Option<Entry> {
    if n == "" then None else LastEntry(entries, n)
  }

  /** A nick with an entry has the modes of its last one; without, nothing changes. */
  ghost predicate NamedAs(c: ChannelView, c': ChannelView, n: string, e: Option<Entry>, m: PrefixMap) {
    match e
    case None => (n in c'.users <==> n in c.users) && (n in c.users ==> c'.users[n] == c.users[n])
    case Some(entry) =>
      && n in c'.users && c'.users[n].nick == n
      && (forall p | p in entry.prefixes :: p in m) && HasModes(c'.users[n].modes, entry.prefixes, m)
      && c'.users[n].modes == AddModes([], ModesOf(entry.prefixes, m))
  }

  lemma {:induction false} NamedEffect(c: ChannelView, entries: seq<Entry>, m: PrefixMap)
    requires forall e | e in entries :: CleanEntry(e, m)
    ensures Names(c, Named(c, EntryTexts(entries), m), entries, m)
    decreases |entries|
  {
    var n := |entries|;
    if n == 0 {
      assert EntryTexts(entries) == [];
      assert forall k :: EntryFor(entries, k) == None;
      hide HasModes;
    } else {
      var front, last := entries[..n - 1], entries[n - 1];
      assert last in entries && forall e | e in front :: e in entries;
      assert EntryTexts(entries) == EntryTexts(front) + [last.prefixes + last.nick];
      hide EntryTexts, Named, Names, CleanEntry, AddModes, ModesOf, HasModes;
      NamedEffect(c, front, m);
      NamedLast(c, EntryTexts(front), last, m);
      NamesLast(c, Named(c, EntryTexts(front), m), Named(c, EntryTexts(entries), m), entries, m);
    }
  }

  /** One more entry. */
  ghost predicate OneMore(before: ChannelView, after: ChannelView, last: Entry, m: PrefixMap) {
    && (last.nick == "" ==> after == before)
    && (last.nick != "" ==>
          && (forall p | p in last.prefixes :: p in m)
          && after == before.(users := before.users[last.nick := UserView(last.nick, AddModes([], ModesOf(last.prefixes, m)))])
          && HasModes(AddModes([], ModesOf(last.prefixes, m)), last.prefixes, m))
  }

  lemma NamesLast(c: ChannelView, before: ChannelView, after: ChannelView, entries: seq<Entry>, m: PrefixMap)
    requires entries != [] && Names(c, before, entries[..|entries| - 1], m) && OneMore(before, after, entries[|entries| - 1], m)
    ensures Names(c, after, entries, m)
  {
    var n := |entries|;
    hide NamedAs, AddModes, ModesOf, HasModes;
    forall k ensures NamedAs(c, after, k, EntryFor(entries, k), m) {
      assert NamedAs(c, before, k, EntryFor(entries[..n - 1], k), m);
      NamedNext(c, before, after, k, entries, m);
    }
  }

  lemma NamedNext(c: ChannelView, before: ChannelView, after: ChannelView, k: string, entries: seq<Entry>, m: PrefixMap)
    requires entries != [] && OneMore(before, after, entries[|entries| - 1], m)
    requires NamedAs(c, before, k, EntryFor(entries[..|entries| - 1], k), m)
    ensures NamedAs(c, after, k, EntryFor(entries, k), m)
  {
    hide AddModes, ModesOf, HasModes;
  }

  lemma NamedLast(c: ChannelView, front: seq<string>, last: Entry, m: PrefixMap)
    requires CleanEntry(last, m)
    ensures OneMore(Named(c, front, m), Named(c, front + [last.prefixes + last.nick], m), last, m)
  {
    EntryRead(last.prefixes, last.nick, m);
    PrefixModes(last.prefixes, m);
    var entries := front + [last.prefixes + last.nick];
    assert entries[..|front|] == front;
    hide AddModes, ModesOf, HasModes, CleanNick, Prefixes.Leading;
  }

  /**
   Main result: NAMES, with its parameters. The channel is tracked from now on; every nick of the list is
   there with the modes its prefixes stand for, and everybody else, and everything else, is as before.
   */
  lemma NamesLine(v: ClientView, m: Message, entries: seq<Entry>, gaps: seq<string>)
    requires m.command == "353" && |m.params| >= 4 && Lists(m.params[3], EntryTexts(entries), gaps)
    requires forall e | e in entries :: CleanEntry(e, v.prefixes)
    ensures EventsOf(m).Some?
    ensures var v', k := AfterLine(v, m), m.params[2];
            var c := if k in v.channels then v.channels[k] else EmptyChannel(k);
            OnlyThere(v, v', k) && k in v'.channels && Names(c, v'.channels[k], entries, v.prefixes)
  {
    hide EventsOf, AfterLine, Named, Fields, Lists, Names, EntryTexts, CleanEntry;
    NamesEvents(v, m);
    ListsParts(m.params[3], EntryTexts(entries), gaps);
    FieldsOfPadded(EntryTexts(entries), gaps);
    var k := m.params[2];
    NamedEffect(if k in v.channels then v.channels[k] else EmptyChannel(k), entries, v.prefixes);
  }

  lemma NamesReply(m: Message)
    requires m.command == "353"
    ensures EventsOf(m) == Some([Event(EventType.Names, Some(m), NoData), Event(Numeric, Some(m), NumericData("353", m.params))])
  {
    hide EventsOf;
    assert ThreeDigits("353") && "353" in NAMES && "353" !in SASL_SUCCEEDED + SASL_FAILED;
    OtherNumerics(m);
  }

  lemma NamesHandled(v: ClientView, m: Message)
    ensures OnEvent(v, Event(EventType.Names, Some(m), NoData)) == v
    ensures OnEvent(v, Event(Numeric, Some(m), NumericData("353", m.params))) == OnNames(v, m.params)
  {
    hide OnNames, OnISupport;
  }

  lemma NamesEvents(v: ClientView, m: Message)
    requires m.command == "353"
    ensures EventsOf(m).Some? && AfterLine(v, m) == OnNames(v, m.params)
  {
    hide *;
    NamesReply(m);
    NamesHandled(v, m);
    AfterTwo(v, m, Event(EventType.Names, Some(m), NoData), Event(Numeric, Some(m), NumericData("353", m.params)));
  }

  lemma ListsParts(text: string, words: seq<string>, gaps: seq<string>)
    requires Lists(text, words, gaps)
    ensures Separate(words, gaps) && text == Padded(words, gaps)
  {
  }

  /** Main result: for prefixes that lead back, the stored user is shown as the entry was, repeats removed. */
  lemma ShownAsNamed(c: ChannelView, c': ChannelView, entries: seq<Entry>, m: PrefixMap, nick: string, reverse: map<char, char>)
    requires (forall e | e in entries :: CleanEntry(e, m)) && Names(c, c', entries, m)
    requires nick != "" && LastEntry(entries, nick).Some? && LeadsBack(LastEntry(entries, nick).value.prefixes, m, reverse)
    ensures nick in c'.users
    ensures Render(c'.users[nick].modes, reverse) + c'.users[nick].nick == Once(LastEntry(entries, nick).value.prefixes) + nick
  {
    var entry := LastEntry(entries, nick).value;
    assert EntryFor(entries, nick) == Some(entry);
    assert NamedAs(c, c', nick, EntryFor(entries, nick), m);
    hide Names, LastEntry, Render, Once, AddModes, ModesOf, HasModes;
    RenderLeading(entry.prefixes, m, reverse);
  }

  /**
   Main result, end to end: under a sound PREFIX, a user whom NAMES lists is from then on shown with the
   prefixes of the last entry for that nick, repeats removed, whatever the order of the reverse map.
   */
  lemma NamesShown(
    v: ClientView, m: Message, entries: seq<Entry>, gaps: seq<string>, value: string, nick: string, reverse: map<char, char>)
    requires m.command == "353" && |m.params| >= 4 && Lists(m.params[3], EntryTexts(entries), gaps)
    requires forall e | e in entries :: CleanEntry(e, v.prefixes)
    requires Sound(value) && v.prefixes == ParsePrefixes(value).value && Reverses(reverse, v.prefixes)
    requires nick != "" && LastEntry(entries, nick).Some?
    ensures EventsOf(m).Some?
    ensures var v', k := AfterLine(v, m), m.params[2];
            && k in v'.channels && nick in v'.channels[k].users
            && var u := v'.channels[k].users[nick];
               Render(u.modes, reverse) + u.nick == Once(LastEntry(entries, nick).value.prefixes) + nick
  {
    hide EventsOf, AfterLine, Lists, Names, Sound, ParsePrefixes, LeadsBack, EntryTexts, Reverses, LastEntry, Render, Once;
    NamesLine(v, m, entries, gaps);
    var k := m.params[2];
    LastEntryListed(entries, nick);
    SoundLeadsBack(value, LastEntry(entries, nick).value.prefixes, reverse);
    ShownAsNamed(if k in v.channels then v.channels[k] else EmptyChannel(k), AfterLine(v, m).channels[k], entries, v.prefixes, nick, reverse);
  }

  lemma {:induction false} LastEntryListed(entries: seq<Entry>, nick: string)
    requires LastEntry(entries, nick).Some?
    ensures LastEntry(entries, nick).value in entries
  {
    var n := |entries|;
    if entries[n - 1].nick != nick {
      LastEntryListed(entries[..n - 1], nick);
    }
  }

  // ---------- ISUPPORT ----------

  /** The token at `i` sets the prefixes to those of `value`. */
  predicate SetsPrefixes(params: seq<string>, i: nat, value: string)
    requires i < |params|
  {
    params[i] == "PREFIX=" + value && ParsePrefixes(value).Some?
  }

  /** Main result: of the middle parameters of 005 the last accepted PREFIX counts; without one nothing changes. */
  lemma ISupportLine(v: ClientView, m: Message)
    requires m.command == "005"
    ensures EventsOf(m).Some?
    ensures var v' := AfterLine(v, m);
            && v' == v.(prefixes := v'.prefixes)
            && (forall i, value | 1 <= i < |m.params| - 1 && SetsPrefixes(m.params, i, value)
                  && (forall j, other | i < j < |m.params| - 1 :: !SetsPrefixes(m.params, j, other)) ::
                  v'.prefixes == ParsePrefixes(value).value)
            && ((forall i, value | 1 <= i < |m.params| - 1 :: !SetsPrefixes(m.params, i, value)) ==> v' == v)
  {
    hide EventsOf, AfterLine, OnTokens, ParsePrefixes;
    ISupportEvent(v, m);
    if |m.params| >= 2 {
      var tokens := m.params[1..|m.params| - 1];
      assert forall i | 0 <= i < |tokens| :: tokens[i] == m.params[i + 1];
      hide SetsPrefixes;
      forall i, value | 1 <= i < |m.params| - 1 && SetsPrefixes(m.params, i, value)
                        && (forall j, other | i < j < |m.params| - 1 :: !SetsPrefixes(m.params, j, other))
        ensures OnTokens(v.prefixes, tokens) == ParsePrefixes(value).value
      {
        SameTokens(m.params, tokens);
        TokensRead(v.prefixes, tokens, i - 1, value);
      }
      if forall i, value | 1 <= i < |m.params| - 1 :: !SetsPrefixes(m.params, i, value) {
        SameTokens(m.params, tokens);
        TokensNone(v.prefixes, tokens);
      }
    }
  }

  lemma ISupportEvent(v: ClientView, m: Message)
    requires m.command == "005"
    ensures EventsOf(m).Some? && AfterLine(v, m) == OnISupport(v, m.params)
  {
    assert ThreeDigits("005");
    OtherNumerics(m);
    hide EventsOf, AfterLine, Becomes, OnISupport, OnNames;
    AfterOne(v, m, Numeric, NumericData("005", m.params));
  }

  lemma SameTokens(params: seq<string>, tokens: seq<string>)
    requires |params| >= 2 && tokens == params[1..|params| - 1]
    ensures forall i, value | 0 <= i < |tokens| :: SetsPrefixes(tokens, i, value) <==> SetsPrefixes(params, i + 1, value)
  {
  }

  lemma TokenExactly(prefixes: PrefixMap, token: string, value: string)
    ensures token == "PREFIX=" + value && ParsePrefixes(value).Some? ==> OnToken(prefixes, token) == ParsePrefixes(value).value
  {
    if token == "PREFIX=" + value {
      assert token == "PREFIX" + ['='] + value;
      IndexAt("PREFIX", '=', value);
      assert token[..6] == "PREFIX" && token[7..] == value;
    }
    hide ParsePrefixes;
  }

  lemma TokenOther(prefixes: PrefixMap, token: string)
    requires forall value :: token == "PREFIX=" + value ==> ParsePrefixes(value).None?
    ensures OnToken(prefixes, token) == prefixes
  {
    hide ParsePrefixes;
    if '=' in token {
      var (key, value) := Cut(token, '=');
      assert token == key + ['='] + value;
      assert key == "PREFIX" ==> token == "PREFIX=" + value;
    }
  }

  lemma {:induction false} TokensNone(prefixes: PrefixMap, tokens: seq<string>)
    requires forall i, value | 0 <= i < |tokens| :: !SetsPrefixes(tokens, i, value)
    ensures OnTokens(prefixes, tokens) == prefixes
  {
    var n := |tokens|;
    if n > 0 {
      var front := tokens[..n - 1];
      assert forall i, value | 0 <= i < n - 1 :: SetsPrefixes(front, i, value) <==> SetsPrefixes(tokens, i, value);
      hide OnToken, ParsePrefixes;
      TokensNone(prefixes, front);
      forall value ensures tokens[n - 1] == "PREFIX=" + value ==> ParsePrefixes(value).None? {
        assert !SetsPrefixes(tokens, n - 1, value);
      }
      TokenOther(prefixes, tokens[n - 1]);
    }
  }

  lemma {:induction false} TokensRead(prefixes: PrefixMap, tokens: seq<string>, i: nat, value: string)
    requires i < |tokens| && SetsPrefixes(tokens, i, value)
    requires forall j, other | i < j < |tokens| :: !SetsPrefixes(tokens, j, other)
    ensures OnTokens(prefixes, tokens) == ParsePrefixes(value).value
    decreases |tokens|
  {
    var n := |tokens|;
    hide OnToken, ParsePrefixes;
    if i == n - 1 {
      TokenExactly(OnTokens(prefixes, tokens[..n - 1]), tokens[i], value);
    } else {
      var front := tokens[..n - 1];
      assert forall j, other | 0 <= j < n - 1 :: SetsPrefixes(front, j, other) <==> SetsPrefixes(tokens, j, other);
      TokensRead(prefixes, front, i, value);
      forall other ensures tokens[n - 1] == "PREFIX=" + other ==> ParsePrefixes(other).None? {
        assert !SetsPrefixes(tokens, n - 1, other);
      }
      TokenOther(OnTokens(prefixes, front), tokens[n - 1]);
    }
  }

  // ---------- the connection, the capabilities, the end of NAMES ----------

  /** The events about the connection and the capabilities, each with all it does. */
  lemma StateEffects(v: ClientView, e: Event)
    ensures e.kind == Connected ==> OnEvent(v, e) == v.(connection := Up)
    ensures e.kind == Registered ==> OnEvent(v, e) == v.(connection := OnServer)
    ensures e.kind == Disconnected ==> OnEvent(v, e) == v.(connection := Down, channels := map[])
    ensures e.kind == CapAdded && e.data.CapAddedData? ==>
              OnEvent(v, e) == v.(capabilities := v.capabilities[e.data.capability := ""])
    ensures e.kind == CapRemoved && e.data.CapRemovedData? ==>
              OnEvent(v, e) == v.(capabilities := v.capabilities - {e.data.capability})
  {
    hide OnMembership, OnNumericReply;
  }

  /** The events that are none of the client's. */
  lemma IgnoredEvents(v: ClientView, e: Event)
    requires e.kind in {RawIncoming, Ping, Pong, Error, Privmsg, Notice, Action, Invite, Unknown, SASLAuth, SASLSuccess, SASLFail}
    ensures OnEvent(v, e) == v
  {
    hide OnNick, OnMode, OnJoin, OnLeave, OnQuit, OnNumericReply;
  }

  lemma EndReply(m: Message)
    requires m.command == "366"
    ensures EventsOf(m) == Some([Event(EventType.Names, Some(m), NoData), Event(Numeric, Some(m), NumericData("366", m.params))])
  {
    hide EventsOf;
    assert ThreeDigits("366") && "366" in NAMES && "366" !in SASL_SUCCEEDED + SASL_FAILED;
    OtherNumerics(m);
  }

  lemma AnnouncedTwo(v: ClientView, a: Event, b: Event)
    ensures Announced(v, [a, b]) == NamesDone(v, a) + NamesDone(OnEvent(v, a), b)
  {
    hide OnEvent, NamesDone;
    assert [a, b][..1] == [a] && [a][..0] == [];
    assert OnEvents(v, [a]) == OnEvent(OnEvents(v, [a][..0]), a);
    assert Announced(v, [a]) == Announced(v, [a][..0]) + NamesDone(OnEvents(v, [a][..0]), a);
    assert [] + NamesDone(v, a) == NamesDone(v, a);
  }

  /** Main result: a 366 line announces the end of NAMES exactly if its second parameter is tracked. */
  lemma EndOfNamesLine(v: ClientView, m: Message)
    requires m.command == "366"
    ensures EventsOf(m).Some?
    ensures Announced(v, EventsOf(m).value) ==
            if |m.params| >= 2 && m.params[1] in v.channels then [Event(NamesComplete, Some(m), NoData)] else []
  {
    hide EventsOf, OnEvent;
    EndReply(m);
    var a, b := Event(EventType.Names, Some(m), NoData), Event(Numeric, Some(m), NumericData("366", m.params));
    AnnouncedTwo(v, a, b);
    NamesKindKeeps(v, m);
  }

  lemma NamesKindKeeps(v: ClientView, m: Message)
    ensures OnEvent(v, Event(EventType.Names, Some(m), NoData)) == v
  {
  }
}
