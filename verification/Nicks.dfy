/**
 The nick twice: the connection's own (parser/connection.go), which the welcome sets, and the client's
 (client/client.go), which starts as the configured one. NICK lines move both, the welcome only the first.
 */
module Nicks {
  import opened GoStrings
  import opened Message
  import opened Events
  import opened Io
  import opened Echo
  import opened Tracking
  import Modes
  import Utf8

  /** What the client is told of, in order. */
  function Causes(l: Link, e: LinkEvent): seq<Event> {
    match e
    case DialDone => [Internally(Connected, ConnectedData(""))]
    case Read(msg) => if EventsOf(msg).Some? then EventsOf(msg).value else []
    case HungUp => [Plain(Disconnected)]
    case Lost => if OnLink(l, e) == l then [] else [Plain(Disconnected)]
    case _ => []
  }

  /** The client, when it has handled all of it. */
  function ClientAfter(nick: string, es: seq<LinkEvent>): ClientView {
    var n := |es|;
    if n == 0 then InitialView(nick)
    else OnEvents(ClientAfter(nick, es[..n - 1]), Causes(LinkAfter(es[..n - 1]), es[n - 1]))
  }

  predicate Agree(nick: string, es: seq<LinkEvent>) {
    ClientAfter(nick, es).nick == LinkAfter(es).nick
  }

  // ---------- what moves the client's nick ----------

  lemma {:induction false} ChangesKeepNick(v: ClientView, target: string, changes: seq<Modes.Change>)
    ensures OnChanges(v, target, changes).nick == v.nick
    decreases |changes|
  {
    if changes != [] {
      ChangesKeepNick(OnChange(v, target, changes[0]), target, changes[1..]);
    }
  }

  lemma OnlyNickMoves(v: ClientView, e: Event)
    requires e.kind != Nick
    ensures OnEvent(v, e).nick == v.nick
  {
    NumericKeepsNick(v, e.data);
    MembershipKeepsNick(v, e);
    hide OnNumericReply, OnMembership;
  }

  lemma MembershipKeepsNick(v: ClientView, e: Event)
    requires e.kind != Nick
    ensures OnMembership(v, e).nick == v.nick
  {
    if e.data.ModeData? {
      ChangesKeepNick(v, e.data.target, Modes.Changes(Utf8.Runes(e.data.modes), true, e.data.args));
    }
    hide OnChanges, Modes.Changes, Utf8.Runes, OnNick, WithUser, WithoutUser;
  }

  lemma NumericKeepsNick(v: ClientView, d: Data)
    ensures OnNumericReply(v, d).nick == v.nick
  {
    hide Named, OnTokens, Fields;
  }

  lemma {:induction false} OthersMoveNothing(v: ClientView, es: seq<Event>)
    requires forall e | e in es :: e.kind != Nick
    ensures OnEvents(v, es).nick == v.nick
  {
    var n := |es|;
    if n > 0 {
      assert es[n - 1] in es && forall e | e in es[..n - 1] :: e in es;
      hide OnEvent;
      OthersMoveNothing(v, es[..n - 1]);
      OnlyNickMoves(OnEvents(v, es[..n - 1]), es[n - 1]);
    }
  }

  /** `nick`, when its owner or its connection is told of `e`. */
  function Moved(nick: string, e: LinkEvent): string {
    if e.Read? && e.msg.command == "NICK" && ExtractNick(e.msg.source) == nick then e.msg.GetParam(0) else nick
  }

  function RenamingEvent(msg: Message): Event {
    Event(Nick, Some(msg), NickData(ExtractNick(msg.source), msg.GetParam(0)))
  }

  lemma NickEvents(msg: Message)
    requires msg.command == "NICK"
    ensures EventsOf(msg) == Some([RenamingEvent(msg)])
  {
    assert DetermineEventType(msg) == [Nick];
    hide DetermineEventType, ExtractNick;
    var e := RenamingEvent(msg);
    assert DataFor(Nick, msg) == Some(e.data);
    assert [Nick][1..] == [] && EventsFor([], msg) == Some([]);
    assert [e] + [] == [e];
  }

  lemma OtherEvents(msg: Message)
    requires msg.command != "NICK" && EventsOf(msg).Some?
    ensures forall e | e in EventsOf(msg).value :: e.kind != Nick
  {
    hide DetermineEventType, EventsFor;
    NoNickKind(msg);
    var kinds, es := DetermineEventType(msg), EventsOf(msg).value;
    EventsForKinds(kinds, msg);
    forall e | e in es ensures e.kind != Nick {
      var i :| 0 <= i < |es| && es[i] == e;
      assert kinds[i] in kinds;
    }
  }

  lemma NoNickKind(msg: Message)
    requires msg.command != "NICK"
    ensures forall k | k in DetermineEventType(msg) :: k != Nick
  {
  }

  lemma ClientMoves(v: ClientView, l: Link, e: LinkEvent)
    ensures OnEvents(v, Causes(l, e)).nick == Moved(v.nick, e)
  {
    hide EventsOf, OnLink, ExtractNick, OnEvents;
    if e.Read? && e.msg.command == "NICK" {
      NickEvents(e.msg);
      RenamingMoves(v, e.msg);
    } else {
      if e.Read? && EventsOf(e.msg).Some? {
        OtherEvents(e.msg);
      }
      OthersMoveNothing(v, Causes(l, e));
    }
  }

  lemma RenamingMoves(v: ClientView, msg: Message)
    ensures OnEvents(v, [RenamingEvent(msg)]).nick ==
            if ExtractNick(msg.source) == v.nick then msg.GetParam(0) else v.nick
  {
    hide ExtractNick;
    var renaming := RenamingEvent(msg);
    assert [renaming][..0] == [];
    assert OnEvents(v, [renaming]) == OnEvent(OnEvents(v, [renaming][..0]), renaming);
  }

  // ---------- when the two are equal ----------

  /** A welcome that names the connection. */
  predicate NamesSomeone(e: LinkEvent) {
    IsWelcome(e) && e.msg.params != []
  }

  /** A welcome that names `client`, or a NICK that makes one of the two nicks the other. */
  predicate Joins(client: string, connection: string, e: LinkEvent) {
    (NamesSomeone(e) && e.msg.params[0] == client) ||
    (e.Read? && e.msg.command == "NICK" &&
     var from, to := ExtractNick(e.msg.source), e.msg.GetParam(0);
     (from == client && to == connection) || (from == connection && to == client))
  }

  /** A welcome that names somebody else. */
  predicate Parts(client: string, e: LinkEvent) {
    NamesSomeone(e) && e.msg.params[0] != client
  }

  lemma LinkMoves(l: Link, e: LinkEvent)
    ensures OnLink(l, e).nick == if NamesSomeone(e) then e.msg.params[0] else Moved(l.nick, e)
  {
    hide ExtractNick;
  }

  /** One event, from any two nicks. */
  lemma AgreeNext(client: string, connection: string, e: LinkEvent)
    ensures Moved(client, e) == (if NamesSomeone(e) then e.msg.params[0] else Moved(connection, e)) <==>
            Joins(client, connection, e) || (client == connection && !Parts(client, e))
  {
    hide ExtractNick;
  }

  /** At `k` the nicks were made equal, or they were equal from the start. */
  predicate JoinedAt(nick: string, es: seq<LinkEvent>, k: nat)
    requires k <= |es|
  {
    if k == 0 then nick == ""
    else Joins(ClientAfter(nick, es[..k - 1]).nick, LinkAfter(es[..k - 1]).nick, es[k - 1])
  }

  predicate PartedAt(nick: string, es: seq<LinkEvent>, j: nat)
    requires j < |es|
  {
    Parts(ClientAfter(nick, es[..j]).nick, es[j])
  }

  predicate TogetherSince(nick: string, es: seq<LinkEvent>) {
    exists k :: 0 <= k <= |es| && JoinedAt(nick, es, k) && forall j | k <= j < |es| :: !PartedAt(nick, es, j)
  }

  lemma TogetherLast(nick: string, front: seq<LinkEvent>, e: LinkEvent)
    ensures TogetherSince(nick, front + [e]) <==>
            JoinedAt(nick, front + [e], |front| + 1)
            || (TogetherSince(nick, front) && !PartedAt(nick, front + [e], |front|))
  {
    hide JoinedAt, PartedAt;
    var es, n := front + [e], |front|;
    SameBefore(nick, front, e);
    if TogetherSince(nick, front) && !PartedAt(nick, es, n) {
      var k :| 0 <= k <= n && JoinedAt(nick, front, k) && forall j | k <= j < n :: !PartedAt(nick, front, j);
      assert JoinedAt(nick, es, k);
    }
    if TogetherSince(nick, es) && !JoinedAt(nick, es, n + 1) {
      var k :| 0 <= k <= n + 1 && JoinedAt(nick, es, k) && forall j | k <= j < n + 1 :: !PartedAt(nick, es, j);
      assert k <= n && JoinedAt(nick, front, k);
    }
  }

  lemma SameBefore(nick: string, front: seq<LinkEvent>, e: LinkEvent)
    ensures forall k | 0 <= k <= |front| :: JoinedAt(nick, front + [e], k) <==> JoinedAt(nick, front, k)
    ensures forall j | 0 <= j < |front| :: PartedAt(nick, front + [e], j) <==> PartedAt(nick, front, j)
  {
    var es, n := front + [e], |front|;
    hide Joins, Parts, ClientAfter, LinkAfter;
    assert forall i | 0 <= i <= n :: es[..i] == front[..i];
    assert forall i | 0 <= i < n :: es[i] == front[i];
  }

  /**
   Main result: over every history of a connection, once its events are handled, client and connection
   have the same nick if and only if at some point the nicks were made equal, by a welcome that names the
   client or by a NICK that makes one of them the other, and no welcome has named another nick since.
   */
  lemma {:induction false} NicksAgreeExactlyWhen(nick: string, es: seq<LinkEvent>)
    ensures Agree(nick, es) <==> TogetherSince(nick, es)
    decreases |es|
  {
    var n := |es|;
    if n == 0 {
      assert JoinedAt(nick, es, 0) <==> nick == "";
    } else {
      var front, e := es[..n - 1], es[n - 1];
      assert es == front + [e];
      NicksAgreeExactlyWhen(nick, front);
      var v, l := ClientAfter(nick, front), LinkAfter(front);
      hide OnEvents, OnLink, Joins, Parts, TogetherSince;
      ClientMoves(v, l, e);
      LinkMoves(l, e);
      AgreeNext(v.nick, l.nick, e);
      TogetherLast(nick, front, e);
    }
  }

  // ---------- a collision ----------

  /** Neither a welcome that names the connection nor a NICK. */
  predicate NamesNobody(e: LinkEvent) {
    !NamesSomeone(e) && !(e.Read? && e.msg.command == "NICK")
  }

  lemma NickNext(nick: string, es: seq<LinkEvent>, e: LinkEvent)
    ensures ClientAfter(nick, es + [e]).nick == Moved(ClientAfter(nick, es).nick, e)
    ensures LinkAfter(es + [e]).nick == if NamesSomeone(e) then e.msg.params[0] else Moved(LinkAfter(es).nick, e)
  {
    assert (es + [e])[..|es|] == es;
    hide OnEvents, OnLink, Causes, Moved, NamesSomeone;
    ClientMoves(ClientAfter(nick, es), LinkAfter(es), e);
    LinkMoves(LinkAfter(es), e);
  }

  lemma {:induction false} NobodyNamed(nick: string, es: seq<LinkEvent>, more: seq<LinkEvent>)
    requires forall e | e in more :: NamesNobody(e)
    ensures ClientAfter(nick, es + more).nick == ClientAfter(nick, es).nick
    ensures LinkAfter(es + more).nick == LinkAfter(es).nick
    decreases |more|
  {
    hide ClientAfter, LinkAfter, NamesSomeone;
    var n := |more|;
    if n == 0 {
      assert es + more == es;
    } else {
      var front, e := more[..n - 1], more[n - 1];
      assert e in more && forall x | x in front :: x in more;
      NobodyNamed(nick, es, front);
      assert es + more == es + front + [e];
      NickNext(nick, es + front, e);
    }
  }

  /** The nick the registration falls back on is accepted: the client goes on under the configured one. */
  lemma CollisionParts(nick: string, more: seq<LinkEvent>)
    requires forall e | e in more :: NamesNobody(e)
    ensures var welcome := Read(Message(map[], "", "001", [nick + "_", "Welcome"], ""));
            var es := [Dial] + [DialDone] + [welcome] + more;
            ClientAfter(nick, es).nick == nick && LinkAfter(es).nick == nick + "_"
  {
    var welcome := Read(Message(map[], "", "001", [nick + "_", "Welcome"], ""));
    var start := [Dial] + [DialDone];
    hide OnEvents, OnLink, Causes, ExtractNick;
    assert forall e | e in start :: NamesNobody(e);
    NobodyNamed(nick, [], start);
    assert [] + start == start;
    NickNext(nick, start, welcome);
    NobodyNamed(nick, start + [welcome], more);
  }
}
