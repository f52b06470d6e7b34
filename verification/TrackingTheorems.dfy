/**
 What the tracked state means: it refines a relation between channels and nicks, MODE is a fold
 judged by last occurrences, and the client's own nick is in every channel it tracks.
 */
module TrackingTheorems {
  import opened GoStrings
  import opened Utf8
  import opened Message
  import opened Events
  import opened Modes
  import opened Prefixes
  import opened Tracking

  // ---------- what every run keeps ----------

  predicate TidyUser(nick: string, u: UserView) {
    u.nick == nick && Distinct(u.modes)
  }

  predicate TidyChannel(name: string, c: ChannelView) {
    c.name == name && Distinct(c.modes) && forall n | n in c.users :: TidyUser(n, c.users[n])
  }

  /** Channel keys are names, user keys are nicks, and no mode list has a repeat. */
  predicate Tidy(v: ClientView) {
    Distinct(v.modes) && forall k | k in v.channels :: TidyChannel(k, v.channels[k])
  }

  lemma {:induction false} EntryModesDistinct(letters: seq<char>)
    ensures Distinct(AddModes([], letters))
  {
    var n := |letters|;
    if n > 0 {
      EntryModesDistinct(letters[..n - 1]);
      AddModeMeaning(AddModes([], letters[..n - 1]), letters[n - 1], "");
    }
  }

  lemma {:induction false} NamedTidy(c: ChannelView, entries: seq<string>, prefixes: PrefixMap)
    requires TidyChannel(c.name, c)
    ensures TidyChannel(c.name, Named(c, entries, prefixes))
    ensures Named(c, entries, prefixes).modes == c.modes
  {
    var n := |entries|;
    if n > 0 {
      NamedTidy(c, entries[..n - 1], prefixes);
      EntryModesDistinct(ModesOf(Leading(entries[n - 1], prefixes), prefixes));
    }
  }

  lemma ApplyDistinct(modes: seq<ModeEntry>, c: Change)
    requires Distinct(modes)
    ensures Distinct(Apply(modes, c))
  {
    AddModeMeaning(modes, c.letter, c.parameter);
    RemoveModeMeaning(modes, c.letter);
  }

  lemma ChangeTidy(v: ClientView, target: string, change: Change)
    requires Tidy(v)
    ensures Tidy(OnChange(v, target, change))
  {
    hide Apply, Distinct;
    ApplyDistinct(v.modes, change);
    if target in v.channels {
      var c := v.channels[target];
      ApplyDistinct(c.modes, change);
      if change.parameter in c.users {
        assert TidyUser(change.parameter, c.users[change.parameter]);
        ApplyDistinct(c.users[change.parameter].modes, change.(parameter := ""));
      }
    }
  }

  lemma {:induction false} ChangesTidy(v: ClientView, target: string, changes: seq<Change>)
    requires Tidy(v)
    ensures Tidy(OnChanges(v, target, changes))
    decreases |changes|
  {
    if changes != [] {
      hide Tidy, OnChange;
      ChangeTidy(v, target, changes[0]);
      ChangesTidy(OnChange(v, target, changes[0]), target, changes[1..]);
    }
  }

  lemma NickTidy(v: ClientView, old_: string, new_: string)
    requires Tidy(v)
    ensures Tidy(OnNick(v, old_, new_))
  {
    hide Distinct;
    forall k | k in v.channels ensures TidyChannel(k, Renamed(v.channels[k], old_, new_)) {
      var c := v.channels[k];
      assert TidyChannel(k, c);
      if old_ in c.users {
        assert TidyUser(old_, c.users[old_]);
      }
    }
  }

  lemma MovesTidy(v: ClientView, channel: string, nick: string)
    requires Tidy(v)
    ensures Tidy(OnJoin(v, channel, nick)) && Tidy(OnLeave(v, channel, nick)) && Tidy(OnQuit(v, nick))
  {
    assert Distinct([]);
    hide Distinct;
    assert channel in v.channels ==> TidyChannel(channel, v.channels[channel]);
    forall k | k in v.channels ensures TidyChannel(k, WithoutUser(v.channels[k], nick)) {
      assert TidyChannel(k, v.channels[k]);
    }
  }

  lemma NumericTidy(v: ClientView, d: Data)
    requires Tidy(v)
    ensures Tidy(OnNumericReply(v, d))
  {
    if d.NumericData? && |d.params| >= 4 {
      var name := d.params[2];
      assert name in v.channels ==> TidyChannel(name, v.channels[name]);
      NamedTidy(if name in v.channels then v.channels[name] else EmptyChannel(name), Fields(d.params[3]), v.prefixes);
    }
    hide Named, Fields, OnTokens, TidyChannel;
  }

  lemma ModeTidy(v: ClientView, target: string, modes: string, args: seq<string>)
    requires Tidy(v)
    ensures Tidy(OnMode(v, target, modes, args))
  {
    hide Tidy;
    ChangesTidy(v, target, Changes(Runes(modes), true, args));
  }

  lemma MembershipTidy(v: ClientView, e: Event)
    requires Tidy(v)
    ensures Tidy(OnMembership(v, e))
  {
    hide Tidy, OnNick, OnMode, OnJoin, OnLeave, OnQuit;
    match e.data
    case ModeData(target, modes, args) => ModeTidy(v, target, modes, args);
    case NickData(old_, new_) => NickTidy(v, old_, new_);
    case JoinData(channel, nick) => MovesTidy(v, channel, nick);
    case PartData(channel, nick, _) => MovesTidy(v, channel, nick);
    case QuitData(nick, _) => MovesTidy(v, "", nick);
    case KickData(channel, _, kicked, _) => MovesTidy(v, channel, kicked);
    case _ =>
  }

  lemma EventTidy(v: ClientView, e: Event)
    requires Tidy(v)
    ensures Tidy(OnEvent(v, e))
  {
    MembershipTidy(v, e);
    NumericTidy(v, e.data);
    hide OnMembership, OnNumericReply, TidyChannel;
  }

  /** Main result: over every event sequence keys are names and nicks, and no mode list has a repeat. */
  lemma {:induction false} AlwaysTidy(nick: string, es: seq<Event>)
    ensures Tidy(OnEvents(InitialView(nick), es))
  {
    var n := |es|;
    if n > 0 {
      AlwaysTidy(nick, es[..n - 1]);
      EventTidy(OnEvents(InitialView(nick), es[..n - 1]), es[n - 1]);
    }
  }

  // ---------- MODE ----------

  predicate AfterChanges(before: Option<string>, last: Option<Change>, after: Option<string>) {
    after == match last
             case None => before
             case Some(c) => if c.adding then Some(c.parameter) else None
  }

  lemma {:induction false} ChannelFold(c: ChannelView, changes: seq<Change>)
    ensures var c' := ChannelChangedAll(c, changes);
            && c'.name == c.name && c'.modes == ApplyAll(c.modes, changes) && c'.users.Keys == c.users.Keys
            && forall n | n in c.users ::
                 c'.users[n] == c.users[n].(modes := ApplyAll(c.users[n].modes, ChangesFor(changes, n)))
    decreases |changes|
  {
    if changes != [] {
      var c1 := ChannelChanged(c, changes[0]);
      ChannelFold(c1, changes[1..]);
      forall n | n in c.users
        ensures ApplyAll(c1.users[n].modes, ChangesFor(changes[1..], n)) == ApplyAll(c.users[n].modes, ChangesFor(changes, n))
      {
        UserFold(c.users[n].modes, changes, n);
      }
      hide ApplyAll, ChangesFor, Apply;
    }
  }

  lemma UserFold(modes: seq<ModeEntry>, changes: seq<Change>, nick: string)
    requires changes != []
    ensures var first := changes[0];
            ApplyAll(modes, ChangesFor(changes, nick)) ==
            ApplyAll(if first.parameter == nick && nick != "" then Apply(modes, first.(parameter := "")) else modes,
                     ChangesFor(changes[1..], nick))
  {
    var first, rest := changes[0], ChangesFor(changes[1..], nick);
    if nick != "" && first.parameter == nick {
      assert ([first.(parameter := "")] + rest)[1..] == rest;
    } else if nick == "" {
      assert rest == [];
    } else {
      assert [] + rest == rest;
    }
  }

  lemma {:induction false} ChannelTargetFold(v: ClientView, target: string, changes: seq<Change>)
    requires IsChannelTarget(target) && target in v.channels
    ensures OnChanges(v, target, changes) ==
            v.(channels := v.channels[target := ChannelChangedAll(v.channels[target], changes)])
    decreases |changes|
  {
    if changes == [] {
      assert v.channels[target := v.channels[target]] == v.channels;
    } else {
      var v1 := OnChange(v, target, changes[0]);
      ChannelTargetFold(v1, target, changes[1..]);
      hide ChannelChanged;
    }
  }

  lemma {:induction false} OtherTargetFold(v: ClientView, target: string, changes: seq<Change>)
    requires !(IsChannelTarget(target) && target in v.channels)
    ensures OnChanges(v, target, changes) ==
            if !IsChannelTarget(target) && target == v.nick then v.(modes := ApplyAll(v.modes, changes)) else v
    decreases |changes|
  {
    if changes != [] {
      OtherTargetFold(OnChange(v, target, changes[0]), target, changes[1..]);
    }
  }

  /**
   Main result: MODE on a tracked channel. Judged by the last occurrence of each letter; each named
   user by the letters whose argument is that nick; nobody joins or leaves; nothing else changes.
   */
  lemma ChannelModeRule(v: ClientView, target: string, modes: string, args: seq<string>)
    requires Tidy(v) && IsChannelTarget(target) && target in v.channels
    ensures var v', changes := OnMode(v, target, modes, args), Changes(Runes(modes), true, args);
            && target in v'.channels
            && v' == v.(channels := v.channels[target := v'.channels[target]])
            && var c, c' := v.channels[target], v'.channels[target];
            && c'.users.Keys == c.users.Keys
            && (forall l :: AfterChanges(Lookup(c.modes, l), LastOf(changes, l), Lookup(c'.modes, l)))
            && (forall n, l | n in c.users ::
                  AfterChanges(Lookup(c.users[n].modes, l), LastOf(ChangesFor(changes, n), l), Lookup(c'.users[n].modes, l)))
  {
    var changes, c := Changes(Runes(modes), true, args), v.channels[target];
    assert TidyChannel(target, c);
    ChannelTargetFold(v, target, changes);
    ChannelFold(c, changes);
    LastOccurrenceRule(c.modes, changes);
    hide Changes, OnChanges, ChannelChangedAll, ChangesFor, ApplyAll, Distinct, Lookup, LastOf;
    forall n | n in c.users
      ensures forall l :: AfterChanges(Lookup(c.users[n].modes, l), LastOf(ChangesFor(changes, n), l),
                                       Lookup(ApplyAll(c.users[n].modes, ChangesFor(changes, n)), l))
    {
      assert TidyUser(n, c.users[n]);
      LastOccurrenceRule(c.users[n].modes, ChangesFor(changes, n));
    }
  }

  /** MODE on one's own nick follows the same rule; any other target that is not tracked has no effect. */
  lemma OwnModeRule(v: ClientView, target: string, modes: string, args: seq<string>)
    requires Tidy(v) && !(IsChannelTarget(target) && target in v.channels)
    ensures var v', changes := OnMode(v, target, modes, args), Changes(Runes(modes), true, args);
            && v' == v.(modes := v'.modes)
            && (if !IsChannelTarget(target) && target == v.nick
                then forall l :: AfterChanges(Lookup(v.modes, l), LastOf(changes, l), Lookup(v'.modes, l))
                else v'.modes == v.modes)
  {
    OtherTargetFold(v, target, Changes(Runes(modes), true, args));
    LastOccurrenceRule(v.modes, Changes(Runes(modes), true, args));
  }

  // ---------- the relation ----------

  /** Who is where, without objects. */
  datatype Relation = Relation(nick: string, prefixes: PrefixMap, tracked: set<string>, members: set<(string, string)>)

  function Members(channels: map<string, ChannelView>): set<(string, string)> {
    set k, n | k in channels && n in channels[k].users :: (k, n)
  }

  function Abs(v: ClientView): Relation {
    Relation(v.nick, v.prefixes, v.channels.Keys, Members(v.channels))
  }

  function Outside(members: set<(string, string)>, channel: string): set<(string, string)> {
    set p | p in members && p.0 != channel
  }

  function JoinRel(r: Relation, channel: string, nick: string): Relation {
    if nick == r.nick
    then r.(tracked := r.tracked + {channel}, members := Outside(r.members, channel) + {(channel, nick)})
    else if channel in r.tracked then r.(members := r.members + {(channel, nick)})
    else r
  }

  function LeaveRel(r: Relation, channel: string, nick: string): Relation {
    if nick == r.nick then r.(tracked := r.tracked - {channel}, members := Outside(r.members, channel))
    else r.(members := r.members - {(channel, nick)})
  }

  function QuitRel(r: Relation, nick: string): Relation {
    r.(members := set p | p in r.members && p.1 != nick)
  }

  /** A rename puts the new nick wherever the old one was. */
  function NickRel(r: Relation, old_: string, new_: string): Relation {
    r.(nick := if r.nick == old_ then new_ else r.nick,
       members := set p | p in r.members :: (p.0, if p.1 == old_ then new_ else p.1))
  }

  function CleanNicks(entries: seq<string>, prefixes: PrefixMap): set<string> {
    (set e | e in entries :: CleanNick(e, prefixes)) - {""}
  }

  function NamesRel(r: Relation, params: seq<string>): Relation {
    if |params| < 4 then r
    else
      r.(tracked := r.tracked + {params[2]},
         members := r.members + set n | n in CleanNicks(Fields(params[3]), r.prefixes) :: (params[2], n))
  }

  function EventRel(r: Relation, e: Event): Relation {
    match e.data
    case NickData(old_, new_) => if e.kind == Nick then NickRel(r, old_, new_) else r
    case JoinData(channel, nick) => if e.kind == Join_ then JoinRel(r, channel, nick) else r
    case PartData(channel, nick, _) => if e.kind == Part then LeaveRel(r, channel, nick) else r
    case QuitData(nick, _) => if e.kind == Quit then QuitRel(r, nick) else r
    case KickData(channel, _, kicked, _) => if e.kind == Kick then LeaveRel(r, channel, kicked) else r
    case NumericData(code, params) =>
      if e.kind != Numeric then r
      else if code == "353" then NamesRel(r, params)
      else if code == "005" && |params| >= 2 then r.(prefixes := OnTokens(r.prefixes, params[1..|params| - 1]))
      else r
    case _ => r
  }

  function StepRel(r: Relation, e: Event): Relation {
    if e.kind == Disconnected then r.(tracked := {}, members := {})
    else if e.kind in {Connected, Registered, CapAdded, CapRemoved} then r
    else EventRel(r, e)
  }

  function RunRel(r: Relation, es: seq<Event>): Relation {
    var n := |es|;
    if n == 0 then r else StepRel(RunRel(r, es[..n - 1]), es[n - 1])
  }

  lemma JoinRefines(v: ClientView, channel: string, nick: string)
    ensures Abs(OnJoin(v, channel, nick)) == JoinRel(Abs(v), channel, nick)
  {
    var v', r' := OnJoin(v, channel, nick), JoinRel(Abs(v), channel, nick);
    assert v'.channels.Keys == r'.tracked;
    assert Members(v'.channels) == r'.members;
  }

  lemma LeaveRefines(v: ClientView, channel: string, nick: string)
    ensures Abs(OnLeave(v, channel, nick)) == LeaveRel(Abs(v), channel, nick)
  {
    var v', r' := OnLeave(v, channel, nick), LeaveRel(Abs(v), channel, nick);
    assert v'.channels.Keys == r'.tracked;
    assert Members(v'.channels) == r'.members;
  }

  lemma QuitRefines(v: ClientView, nick: string)
    ensures Abs(OnQuit(v, nick)) == QuitRel(Abs(v), nick)
  {
    assert OnQuit(v, nick).channels.Keys == v.channels.Keys;
    assert Members(OnQuit(v, nick).channels) == QuitRel(Abs(v), nick).members;
  }

  /** Somebody in a tracked channel has this nick. */
  predicate Present(v: ClientView, nick: string) {
    exists k :: k in v.channels && nick in v.channels[k].users
  }

  lemma RenamedKeys(c: ChannelView, old_: string, new_: string)
    ensures Renamed(c, old_, new_).users.Keys ==
            if old_ in c.users then c.users.Keys + {new_} - {old_} else c.users.Keys
  {
  }

  lemma NickMembers(v: ClientView, old_: string, new_: string, k: string, n: string)
    ensures (k, n) in Members(OnNick(v, old_, new_).channels) <==>
            k in v.channels && n in Renamed(v.channels[k], old_, new_).users
    ensures (k, n) in NickRel(Abs(v), old_, new_).members <==>
            k in v.channels && ((n in v.channels[k].users && n != old_) || (n == new_ && old_ in v.channels[k].users))
  {
    if k in v.channels && n in v.channels[k].users && n != old_ {
      assert (k, n) in Members(v.channels);
    }
    if k in v.channels && old_ in v.channels[k].users {
      assert (k, old_) in Members(v.channels);
    }
  }

  /** A rename does what it should, unless somebody present is renamed to the nick they have: that deletes them. */
  lemma NickRefinesExactlyWhen(v: ClientView, old_: string, new_: string)
    ensures Abs(OnNick(v, old_, new_)) == NickRel(Abs(v), old_, new_) <==> !(old_ == new_ && Present(v, old_))
  {
    var v', r' := OnNick(v, old_, new_), NickRel(Abs(v), old_, new_);
    assert v'.channels.Keys == v.channels.Keys;
    if old_ == new_ && Present(v, old_) {
      var k :| k in v.channels && old_ in v.channels[k].users;
      NickMembers(v, old_, new_, k, old_);
      RenamedKeys(v.channels[k], old_, new_);
      assert (k, old_) in r'.members && (k, old_) !in Members(v'.channels);
    } else {
      forall k, n ensures (k, n) in Members(v'.channels) <==> (k, n) in r'.members {
        NickMembers(v, old_, new_, k, n);
        if k in v.channels {
          RenamedKeys(v.channels[k], old_, new_);
        }
      }
      assert Members(v'.channels) == r'.members;
    }
  }

  lemma {:induction false} NamedKeys(c: ChannelView, entries: seq<string>, prefixes: PrefixMap)
    ensures Named(c, entries, prefixes).users.Keys == c.users.Keys + CleanNicks(entries, prefixes)
  {
    var n := |entries|;
    if n == 0 {
      assert CleanNicks(entries, prefixes) == {};
    } else {
      hide CleanNicks, CleanNick, Named;
      var front, last := entries[..n - 1], entries[n - 1];
      assert entries == front + [last];
      NamedKeys(c, front, prefixes);
      NamedOne(c, front, last, prefixes);
      CleanNicksSnoc(front, last, prefixes);
      UnionAssoc(c.users.Keys, CleanNicks(front, prefixes), {CleanNick(last, prefixes)} - {""});
    }
  }

  lemma UnionAssoc(a: set<string>, b: set<string>, c: set<string>)
    ensures a + b + c == a + (b + c)
  {
  }

  lemma NamedOne(c: ChannelView, front: seq<string>, last: string, prefixes: PrefixMap)
    ensures Named(c, front + [last], prefixes).users.Keys ==
            Named(c, front, prefixes).users.Keys + ({CleanNick(last, prefixes)} - {""})
  {
    hide CleanNick, EntryModes, WithUser;
    var nick, before := CleanNick(last, prefixes), Named(c, front, prefixes);
    assert (front + [last])[..|front|] == front;
    WithUserKeys(before, nick, EntryModes(last, prefixes));
  }

  lemma WithUserKeys(c: ChannelView, nick: string, modes: seq<ModeEntry>)
    ensures WithUser(c, nick, modes).users.Keys == c.users.Keys + {nick}
  {
  }

  lemma CleanNicksSnoc(front: seq<string>, last: string, prefixes: PrefixMap)
    ensures CleanNicks(front + [last], prefixes) == CleanNicks(front, prefixes) + ({CleanNick(last, prefixes)} - {""})
  {
    hide CleanNick;
    var entries := front + [last];
    assert entries[|front|] == last;
    assert forall e :: e in entries <==> e in front || e == last;
    assert (set e | e in entries :: CleanNick(e, prefixes)) ==
           (set e | e in front :: CleanNick(e, prefixes)) + {CleanNick(last, prefixes)};
  }

  lemma NamesRefines(v: ClientView, params: seq<string>)
    ensures Abs(OnNames(v, params)) == NamesRel(Abs(v), params)
  {
    if |params| >= 4 {
      var name, entries := params[2], Fields(params[3]);
      var c := if name in v.channels then v.channels[name] else EmptyChannel(name);
      NamedKeys(c, entries, v.prefixes);
      hide Fields, Named, CleanNicks;
      var v', r' := OnNames(v, params), NamesRel(Abs(v), params);
      assert v'.channels.Keys == r'.tracked;
      forall k, n ensures (k, n) in Members(v'.channels) <==> (k, n) in r'.members {
        assert (k, n) in Members(v.channels) <==> k in v.channels && n in v.channels[k].users;
        assert (k, n) in r'.members <==>
               (k, n) in Members(v.channels) || (k == name && n in CleanNicks(entries, v.prefixes));
      }
    }
  }

  lemma ModeRefines(v: ClientView, target: string, modes: string, args: seq<string>)
    ensures Abs(OnMode(v, target, modes, args)) == Abs(v)
  {
    var changes := Changes(Runes(modes), true, args);
    if IsChannelTarget(target) && target in v.channels {
      ChannelTargetFold(v, target, changes);
      ChannelFold(v.channels[target], changes);
      var v' := OnMode(v, target, modes, args);
      assert v'.channels.Keys == v.channels.Keys;
      assert forall k | k in v.channels :: v'.channels[k].users.Keys == v.channels[k].users.Keys;
      SameKeysSameMembers(v.channels, v'.channels);
    } else {
      OtherTargetFold(v, target, changes);
    }
  }

  lemma SameKeysSameMembers(a: map<string, ChannelView>, b: map<string, ChannelView>)
    requires a.Keys == b.Keys && forall k | k in a :: a[k].users.Keys == b[k].users.Keys
    ensures Members(a) == Members(b)
  {
    forall k, n ensures (k, n) in Members(a) <==> (k, n) in Members(b) {
      assert k in a && n in a[k].users <==> k in b && n in b[k].users;
    }
  }

  /** Somebody present is renamed to the nick they have. */
  predicate RenamesInPlace(v: ClientView, e: Event) {
    e.kind == Nick && e.data.NickData? && e.data.oldNick == e.data.newNick && Present(v, e.data.oldNick)
  }

  lemma MembershipRefines(v: ClientView, e: Event)
    requires !e.data.NumericData?
    ensures Abs(OnMembership(v, e)) == EventRel(Abs(v), e) <==> !RenamesInPlace(v, e)
  {
    hide OnNick, OnMode, OnJoin, OnLeave, OnQuit, NickRel, JoinRel, LeaveRel, QuitRel, Present, Abs;
    match e.data
    case NickData(old_, new_) => NickRefinesExactlyWhen(v, old_, new_);
    case ModeData(target, modes, args) => ModeRefines(v, target, modes, args);
    case JoinData(channel, nick) => JoinRefines(v, channel, nick);
    case PartData(channel, nick, _) => LeaveRefines(v, channel, nick);
    case QuitData(nick, _) => QuitRefines(v, nick);
    case KickData(channel, _, kicked, _) => LeaveRefines(v, channel, kicked);
    case _ =>
  }

  lemma NumericRefines(v: ClientView, e: Event)
    requires e.kind == Numeric && e.data.NumericData?
    ensures Abs(OnNumericReply(v, e.data)) == EventRel(Abs(v), e)
  {
    NamesRefines(v, e.data.params);
    hide OnNames, NamesRel, OnTokens, Members;
  }

  lemma Mismatched(v: ClientView, e: Event)
    ensures e.kind != Numeric && e.data.NumericData? ==> OnMembership(v, e) == v && EventRel(Abs(v), e) == Abs(v)
    ensures e.kind == Numeric && !e.data.NumericData? ==> OnNumericReply(v, e.data) == v && EventRel(Abs(v), e) == Abs(v)
  {
    hide Abs;
  }

  lemma StateRefines(v: ClientView, e: Event)
    requires e.kind in {Connected, Disconnected, Registered, CapAdded, CapRemoved}
    ensures Abs(OnEvent(v, e)) == StepRel(Abs(v), e) && !RenamesInPlace(v, e)
  {
    assert Members(map[]) == {};
    hide Members;
  }

  /** Main result: one event does to the tracked objects what it does to the relation, with one exception. */
  lemma RefinesExactlyWhen(v: ClientView, e: Event)
    ensures Abs(OnEvent(v, e)) == StepRel(Abs(v), e) <==> !RenamesInPlace(v, e)
  {
    if e.kind in {Connected, Disconnected, Registered, CapAdded, CapRemoved} {
      StateRefines(v, e);
      return;
    }
    hide OnMembership, OnNumericReply, EventRel, Members, Present;
    if e.data.NumericData? && e.kind == Numeric {
      NumericRefines(v, e);
    } else if e.data.NumericData? || e.kind == Numeric {
      Mismatched(v, e);
    } else {
      MembershipRefines(v, e);
    }
  }

  /** No event of the sequence renames somebody present to the nick they have. */
  predicate NoneInPlace(v: ClientView, es: seq<Event>) {
    forall i | 0 <= i < |es| :: !RenamesInPlace(OnEvents(v, es[..i]), es[i])
  }

  /** Main result: over every event sequence without such a rename the tracked objects are the relation. */
  lemma {:induction false} RunRefines(v: ClientView, es: seq<Event>)
    requires NoneInPlace(v, es)
    ensures Abs(OnEvents(v, es)) == RunRel(Abs(v), es)
  {
    var n := |es|;
    if n > 0 {
      var front := es[..n - 1];
      assert forall i | 0 <= i < n - 1 :: front[..i] == es[..i] && front[i] == es[i];
      RunRefines(v, front);
      RefinesExactlyWhen(OnEvents(v, front), es[n - 1]);
    }
  }

  // ---------- the client's own nick ----------

  predicate OwnNickEverywhere(v: ClientView) {
    forall k | k in v.channels :: v.nick in v.channels[k].users
  }

  /** Events that do not take the own nick out of a tracked channel, or track one without it. */
  predicate Harmless(v: ClientView, e: Event) {
    match e.data
    case NickData(old_, new_) => !(e.kind == Nick && old_ == v.nick && new_ == v.nick && v.channels != map[])
    case QuitData(nick, _) => !(e.kind == Quit && nick == v.nick && v.channels != map[])
    case NumericData(code, params) =>
      e.kind == Numeric && code == "353" && |params| >= 4 ==>
        params[2] in v.channels || v.nick in CleanNicks(Fields(params[3]), v.prefixes)
    case _ => true
  }

  lemma OwnNickRename(v: ClientView, old_: string, new_: string)
    requires OwnNickEverywhere(v)
    ensures OwnNickEverywhere(OnNick(v, old_, new_)) <==> !(old_ == v.nick && new_ == v.nick && v.channels != map[])
  {
    var v' := OnNick(v, old_, new_);
    forall k | k in v.channels
      ensures v'.nick in v'.channels[k].users <==> !(old_ == v.nick && new_ == v.nick)
    {
      RenamedKeys(v.channels[k], old_, new_);
    }
    if v.channels != map[] {
      var k :| k in v.channels;
      assert v'.nick in v'.channels[k].users <==> !(old_ == v.nick && new_ == v.nick);
    }
  }

  lemma OwnNickMode(v: ClientView, target: string, modes: string, args: seq<string>)
    requires OwnNickEverywhere(v)
    ensures OwnNickEverywhere(OnMode(v, target, modes, args))
  {
    var changes := Changes(Runes(modes), true, args);
    if IsChannelTarget(target) && target in v.channels {
      ChannelTargetFold(v, target, changes);
      ChannelFold(v.channels[target], changes);
    } else {
      OtherTargetFold(v, target, changes);
    }
  }

  lemma OwnNickQuit(v: ClientView, nick: string)
    requires OwnNickEverywhere(v)
    ensures OwnNickEverywhere(OnQuit(v, nick)) <==> !(nick == v.nick && v.channels != map[])
  {
    if v.channels != map[] {
      var k :| k in v.channels;
      assert v.nick in v.channels[k].users;
      assert k in OnQuit(v, nick).channels;
    }
  }

  lemma OwnNickNames(v: ClientView, params: seq<string>)
    requires OwnNickEverywhere(v)
    ensures OwnNickEverywhere(OnNames(v, params)) <==>
            (|params| >= 4 ==> params[2] in v.channels || v.nick in CleanNicks(Fields(params[3]), v.prefixes))
  {
    if |params| >= 4 {
      var name, entries := params[2], Fields(params[3]);
      var c := if name in v.channels then v.channels[name] else EmptyChannel(name);
      NamedKeys(c, entries, v.prefixes);
      hide Fields, Named, CleanNicks;
      assert name in OnNames(v, params).channels;
    }
  }

  lemma OwnNickMoves(v: ClientView, channel: string, nick: string)
    requires OwnNickEverywhere(v)
    ensures OwnNickEverywhere(OnJoin(v, channel, nick)) && OwnNickEverywhere(OnLeave(v, channel, nick))
  {
  }

  lemma OwnNickMembership(v: ClientView, e: Event)
    requires OwnNickEverywhere(v) && !e.data.NumericData?
    ensures OwnNickEverywhere(OnMembership(v, e)) <==> Harmless(v, e)
  {
    hide OnNick, OnMode, OnJoin, OnLeave, OnQuit, OwnNickEverywhere;
    match e.data
    case NickData(old_, new_) => OwnNickRename(v, old_, new_);
    case ModeData(target, modes, args) => OwnNickMode(v, target, modes, args);
    case QuitData(nick, _) => OwnNickQuit(v, nick);
    case JoinData(channel, nick) => OwnNickMoves(v, channel, nick);
    case PartData(channel, nick, _) => OwnNickMoves(v, channel, nick);
    case KickData(channel, _, kicked, _) => OwnNickMoves(v, channel, kicked);
    case _ =>
  }

  lemma OwnNickNumeric(v: ClientView, e: Event)
    requires OwnNickEverywhere(v) && e.kind == Numeric && e.data.NumericData?
    ensures OwnNickEverywhere(OnNumericReply(v, e.data)) <==> Harmless(v, e)
  {
    OwnNickNames(v, e.data.params);
    hide OnNames, OnTokens, CleanNicks;
  }

  lemma OwnNickState(v: ClientView, e: Event)
    requires OwnNickEverywhere(v) && e.kind in {Connected, Disconnected, Registered, CapAdded, CapRemoved}
    ensures OwnNickEverywhere(OnEvent(v, e)) && Harmless(v, e)
  {
    hide CleanNicks;
  }

  /** Main result, one event: the own nick stays in every tracked channel exactly when the event is harmless. */
  lemma OwnNickExactlyWhen(v: ClientView, e: Event)
    requires OwnNickEverywhere(v)
    ensures OwnNickEverywhere(OnEvent(v, e)) <==> Harmless(v, e)
  {
    hide OnMembership, OnNumericReply, CleanNicks, Abs, EventRel;
    if e.kind in {Connected, Disconnected, Registered, CapAdded, CapRemoved} {
      hide *;
      OwnNickState(v, e);
    } else if e.data.NumericData? && e.kind == Numeric {
      OwnNickNumeric(v, e);
    } else if e.data.NumericData? || e.kind == Numeric {
      Mismatched(v, e);
    } else {
      OwnNickMembership(v, e);
    }
  }

  predicate AllHarmless(nick: string, es: seq<Event>) {
    forall i | 0 <= i < |es| :: Harmless(OnEvents(InitialView(nick), es[..i]), es[i])
  }

  /** Main result, every run: with harmless events only, the own nick is a member of every tracked channel. */
  lemma {:induction false} OwnNickAlways(nick: string, es: seq<Event>)
    requires AllHarmless(nick, es)
    ensures OwnNickEverywhere(OnEvents(InitialView(nick), es))
  {
    var n := |es|;
    if n > 0 {
      var front := es[..n - 1];
      assert forall i | 0 <= i < n - 1 :: front[..i] == es[..i] && front[i] == es[i];
      OwnNickAlways(nick, front);
      OwnNickExactlyWhen(OnEvents(InitialView(nick), front), es[n - 1]);
    }
  }
}
