/**
 The event feedback dies out. Three handlers re-emit the event they subscribe to, the client announces
 the end of NAMES, and every send puts a RawOutgoing event on the queue; yet with no new input, timer or
 user step, every run of dispatches, handler calls and waiter iterations stops: each of them lowers one
 measure.
 */
module NegotiationDrain {
  import opened GoStrings
  import opened Events
  import opened Wire
  import opened EventBus
  import opened Io
  import opened Capabilities
  import opened Sasl
  import opened Registration
  import opened Keepalive
  import Tracking
  import opened Negotiation
  import opened NegotiationEffects
  import opened CapabilityAccounting

  const SASL_SESSION: nat := 6
  const REG_SESSION: nat := 5

  // ---------- weights ----------

  /** How many lines a response takes. */
  function ResponseLines(codec: Codec, username: string, password: string, maxChunk: nat): nat {
    if maxChunk == 0 then 0 else |Payloads(codec.encode(PlainPayload(username, password)), maxChunk)|
  }

  /** The lines of the session that handling CapPreEnd may start. */
  function StartCost(su: Setup, s: Sasl): nat {
    ResponseLines(su.codec, s.username, s.password, s.maxChunk)
  }

  /** The lines the session still has to send. */
  function SessionCost(su: Setup, s: Sasl): nat {
    if s.state == Requesting && s.mechanism.Some?
    then ResponseLines(su.codec, s.mechanism.value.username, s.mechanism.value.password, s.maxChunk)
    else 0
  }

  function PreEndWeight(su: Setup, k: nat): nat {
    9 + k + su.listeners
  }

  function Words(e: Event): nat {
    |Fields(Trailing(e))|
  }

  /** What one handler call may still cause, its sends included; `k` is the cost of a new session. */
  function TaskWeight(su: Setup, k: nat, t: Task): nat {
    match t.handler
    case CapsOnConnected => 2
    case CapsOnLS => 5 + PreEndWeight(su, k)
    case CapsOnNAK => 4 + PreEndWeight(su, k)
    case CapsOnACK => 4 + 3 * Words(t.event) + PreEndWeight(su, k)
    case CapsOnDEL => 1 + 3 * Words(t.event)
    case CapsOnNEW => 2
    case CapsOnEnd => 2
    case CapsOnEndReady => 2
    case SaslOnPreEnd => 8 + k
    case SaslAuthenticate => 4
    case RegOnConnected => 9
    case RegOnNumeric => 3
    case PingOnPing => 3
    case ClientOnEvent => 2
    case _ => 1
  }

  /** An event weighs more than the handler calls it leads to. */
  function EventWeight(su: Setup, k: nat, e: Event): nat {
    match e.kind
    case CapLS => 6 + PreEndWeight(su, k)
    case CapNAK => 5 + PreEndWeight(su, k)
    case CapACK => 5 + 3 * Words(e) + PreEndWeight(su, k)
    case CapDEL => 2 + 3 * Words(e)
    case CapPreEnd => PreEndWeight(su, k)
    case Connected => 14
    case Numeric => 6
    case SASLAuth => 5
    case Registered => 5
    case CapEndReady => 4
    case Ping => 4
    case SASLSuccess => 2
    case SASLFail => 2
    case RawIncoming => 2
    case Error => 1
    case NamesComplete => 1
    case _ => 3
  }

  function QueueWeight(su: Setup, k: nat, q: seq<Event>): nat {
    if q == [] then 0 else EventWeight(su, k, q[0]) + QueueWeight(su, k, q[1..])
  }

  function TasksWeight(su: Setup, k: nat, ts: seq<Task>): nat {
    if ts == [] then 0 else TaskWeight(su, k, ts[0]) + TasksWeight(su, k, ts[1..])
  }

  function WaiterWeight(w: Waiter): nat {
    if w.Fresh? then 3 else 2
  }

  function WaitersWeight(ws: seq<Waiter>): nat {
    if ws == [] then 0 else WaiterWeight(ws[0]) + WaitersWeight(ws[1..])
  }

  function CapsWeight(c: Caps): nat {
    c.tokens + WaitersWeight(c.waiters)
  }

  function SaslWeight(su: Setup, s: Sasl): nat {
    if Active(s) then SASL_SESSION + SessionCost(su, s) else 0
  }

  function RegWeight(r: Reg): nat {
    if RegActive(r) then REG_SESSION else 0
  }

  function Measure(su: Setup, w: World): nat {
    var k := StartCost(su, w.sasl);
    QueueWeight(su, k, w.io.queue) + TasksWeight(su, k, w.todo)
    + CapsWeight(w.caps) + SaslWeight(su, w.sasl) + RegWeight(w.reg)
  }

  /** What is queued, and every line sent or tried so far. */
  function Load(su: Setup, k: nat, io: Io): nat {
    QueueWeight(su, k, io.queue) + |io.log|
  }

  // ---------- weights of what handlers append ----------

  lemma {:induction false} QueueWeightConcat(su: Setup, k: nat, a: seq<Event>, b: seq<Event>)
    ensures QueueWeight(su, k, a + b) == QueueWeight(su, k, a) + QueueWeight(su, k, b)
  {
    hide EventWeight;
    if a == [] {
      assert a + b == b;
    } else {
      QueueWeightConcat(su, k, a[1..], b);
      assert (a + b)[0] == a[0] && (a + b)[1..] == a[1..] + b;
    }
  }

  lemma {:induction false} WaitersWeightConcat(a: seq<Waiter>, b: seq<Waiter>)
    ensures WaitersWeight(a + b) == WaitersWeight(a) + WaitersWeight(b)
  {
    if a == [] {
      assert a + b == b;
    } else {
      WaitersWeightConcat(a[1..], b);
      assert (a + b)[0] == a[0] && (a + b)[1..] == a[1..] + b;
    }
  }

  /** Weight of the event types the session handlers append; these do not depend on the payload. */
  function KindWeight(kind: EventType): nat {
    match kind
    case Registered => 5
    case CapEndReady => 4
    case SASLSuccess => 2
    case SASLFail => 2
    case _ => 1
  }

  function KindsWeight(kinds: seq<EventType>): nat {
    if kinds == [] then 0 else KindWeight(kinds[0]) + KindsWeight(kinds[1..])
  }

  predicate SessionKind(kind: EventType) {
    kind in {CapEndReady, Error, SASLFail, SASLSuccess, Registered, NamesComplete}
  }

  lemma {:induction false} KindsWeighed(su: Setup, k: nat, es: seq<Event>, kinds: seq<EventType>)
    requires |es| == |kinds| && forall i | 0 <= i < |kinds| :: es[i].kind == kinds[i] && SessionKind(kinds[i])
    ensures QueueWeight(su, k, es) == KindsWeight(kinds)
  {
    if es != [] {
      KindsWeighed(su, k, es[1..], kinds[1..]);
    }
  }

  lemma AddsWeight(su: Setup, k: nat, io: Io, io': Io, kinds: seq<EventType>)
    requires Adds(io, io', kinds) && forall i | 0 <= i < |kinds| :: SessionKind(kinds[i])
    ensures QueueWeight(su, k, io'.queue) == QueueWeight(su, k, io.queue) + KindsWeight(kinds)
  {
    var n := |io.queue|;
    var es := io'.queue[n..];
    assert io'.queue == io.queue + es;
    assert forall i | 0 <= i < |kinds| :: es[i] == io'.queue[n + i];
    QueueWeightConcat(su, k, io.queue, es);
    KindsWeighed(su, k, es, kinds);
  }

  lemma OneKind(a: EventType)
    ensures KindsWeight([]) == 0 && KindsWeight([a]) == KindWeight(a)
  {
    assert [a][1..] == [];
  }

  lemma TwoKinds(a: EventType, b: EventType)
    ensures KindsWeight([a, b]) == KindWeight(a) + KindWeight(b)
  {
    assert [a, b][1..] == [b];
    OneKind(b);
  }

  lemma PairWeights()
    ensures KindsWeight([]) == 0
    ensures KindsWeight([CapEndReady]) == 4 && KindsWeight([Error]) == 1 && KindsWeight([SASLFail]) == 2
    ensures KindsWeight([Registered]) == 5 && KindsWeight([NamesComplete]) == 1
    ensures KindsWeight([Error, CapEndReady]) == 5
    ensures KindsWeight([SASLFail, CapEndReady]) == 6 && KindsWeight([SASLSuccess, CapEndReady]) == 6
  {
    hide KindsWeight;
    OneKind(CapEndReady);
    OneKind(Error);
    OneKind(SASLFail);
    OneKind(Registered);
    OneKind(NamesComplete);
    TwoKinds(Error, CapEndReady);
    TwoKinds(SASLFail, CapEndReady);
    TwoKinds(SASLSuccess, CapEndReady);
  }

  // ---------- the SASL handler ----------

  lemma {:induction false} SendEachLines(io: Io, net: Outcomes, payloads: seq<string>)
    ensures |SendEach(io, net, payloads).0.log| <= |io.log| + |payloads|
    decreases |payloads|
  {
    if payloads != [] {
      SendEachLines(Send(io, net, "AUTHENTICATE", [payloads[0]]), net, payloads[1..]);
    }
  }

  /** Handling CapPreEnd sends at most one line, and a session it starts has `StartCost` more to send. */
  lemma OnPreEndSession(su: Setup, s: Sasl, io: Io, net: Outcomes, e: Event)
    ensures var r := OnPreEnd(s, io, net, e);
            && |r.io.log| <= |io.log| + 1
            && SaslWeight(su, r.sasl) <= (if Active(r.sasl) then SASL_SESSION else 0) + SessionCost(su, s) + StartCost(su, s)
            && (Active(r.sasl) && Active(s) ==> SaslWeight(su, r.sasl) <= SaslWeight(su, s) + StartCost(su, s))
  {
    hide ResponseLines, Split;
  }

  lemma OnPreEndWeight(su: Setup, k: nat, s: Sasl, io: Io, net: Outcomes, e: Event)
    requires k == StartCost(su, s)
    ensures var r := OnPreEnd(s, io, net, e);
            Load(su, k, r.io) + SaslWeight(su, r.sasl) <= Load(su, k, io) + SaslWeight(su, s) + 7 + k
  {
    OnPreEndAdds(s, io, net, e);
    OnPreEndSession(su, s, io, net, e);
    PairWeights();
    var r := OnPreEnd(s, io, net, e);
    assert Adds(io, r.io, []) ==> !Active(s) && Active(r.sasl);
    hide OnPreEnd, Adds, QueueWeight, KindsWeight, ResponseLines, StartCost;
    if Adds(io, r.io, []) {
      StartedFrom(su, s, io, net, e);
      AddsWeight(su, k, io, r.io, []);
    } else if Adds(io, r.io, [CapEndReady]) {
      AddsWeight(su, k, io, r.io, [CapEndReady]);
    } else if Adds(io, r.io, [Error, CapEndReady]) {
      AddsWeight(su, k, io, r.io, [Error, CapEndReady]);
    } else {
      AddsWeight(su, k, io, r.io, [SASLFail, CapEndReady]);
    }
  }

  lemma StartedFrom(su: Setup, s: Sasl, io: Io, net: Outcomes, e: Event)
    requires !Active(s) && Active(OnPreEnd(s, io, net, e).sasl)
    ensures SaslWeight(su, OnPreEnd(s, io, net, e).sasl) == SASL_SESSION + StartCost(su, s)
  {
    hide ResponseLines, Split;
  }

  /** AUTHENTICATE spends the session's lines, or ends it with one. */
  lemma OnAuthenticateLines(su: Setup, s: Sasl, io: Io, net: Outcomes, e: Event)
    requires s.maxChunk > 0
    ensures var r := OnAuthenticate(s, io, net, su.codec, e);
            |r.io.log| + SaslWeight(su, r.sasl) <= |io.log| + SaslWeight(su, s) + 1
  {
    hide SendEach, Payloads, PlainPayload;
    if s.mechanism.Some? {
      var m := s.mechanism.value;
      SendEachLines(io, net, Payloads(su.codec.encode(PlainPayload(m.username, m.password)), s.maxChunk));
    }
  }

  lemma OnAuthenticateWeight(su: Setup, k: nat, s: Sasl, io: Io, net: Outcomes, e: Event)
    requires s.maxChunk > 0
    ensures var r := OnAuthenticate(s, io, net, su.codec, e);
            Load(su, k, r.io) + SaslWeight(su, r.sasl) <= Load(su, k, io) + SaslWeight(su, s) + 3
  {
    OnAuthenticateAdds(s, io, net, su.codec, e);
    OnAuthenticateLines(su, s, io, net, e);
    PairWeights();
    var r := OnAuthenticate(s, io, net, su.codec, e);
    hide OnAuthenticate, Adds, QueueWeight, KindsWeight, SaslWeight;
    if Adds(io, r.io, []) {
      AddsWeight(su, k, io, r.io, []);
    } else {
      AddsWeight(su, k, io, r.io, [SASLFail]);
    }
  }

  lemma OnSuccessWeight(su: Setup, k: nat, s: Sasl, io: Io)
    ensures var r := OnSuccess(s, io);
            Load(su, k, r.io) + SaslWeight(su, r.sasl) <= Load(su, k, io) + SaslWeight(su, s)
  {
    OnSuccessAdds(s, io);
    PairWeights();
    var r := OnSuccess(s, io);
    assert r.io.log == io.log;
    hide OnSuccess, Adds, QueueWeight, KindsWeight, SessionCost;
    if Active(s) {
      if Adds(io, r.io, [CapEndReady]) {
        AddsWeight(su, k, io, r.io, [CapEndReady]);
      } else {
        AddsWeight(su, k, io, r.io, [SASLSuccess, CapEndReady]);
      }
    }
  }

  lemma OnFailWeight(su: Setup, k: nat, s: Sasl, io: Io, e: Event)
    ensures var r := OnFail(s, io, e);
            Load(su, k, r.io) + SaslWeight(su, r.sasl) <= Load(su, k, io) + SaslWeight(su, s)
  {
    OnFailAdds(s, io, e);
    PairWeights();
    var r := OnFail(s, io, e);
    assert r.io.log == io.log;
    hide OnFail, Adds, QueueWeight, KindsWeight, SessionCost;
    if Active(s) {
      AddsWeight(su, k, io, r.io, [SASLFail, CapEndReady]);
    }
  }

  // ---------- registration, PING, the client ----------

  lemma OnRegConnectedWeight(su: Setup, k: nat, r: Reg, io: Io, net: Outcomes)
    ensures var r' := OnRegConnected(r, io, net);
            Load(su, k, r'.io) + RegWeight(r'.reg) <= Load(su, k, io) + RegWeight(r) + 8
  {
    OnRegConnectedAdds(r, io, net);
    PairWeights();
    var r' := OnRegConnected(r, io, net);
    RegLines(r, io, net);
    assert Adds(io, r'.io, [Error]) ==> |r'.io.queue| > |io.queue|;
    hide OnRegConnected, Adds, QueueWeight, KindsWeight;
    if Adds(io, r'.io, []) {
      AddsWeight(su, k, io, r'.io, []);
    } else {
      AddsWeight(su, k, io, r'.io, [Error]);
    }
  }

  /** PASS, NICK and USER at most; with an Error event the registration is over. */
  lemma RegLines(r: Reg, io: Io, net: Outcomes)
    ensures var r' := OnRegConnected(r, io, net);
            |r'.io.log| <= |io.log| + 3
            && (|r'.io.queue| > |io.queue| ==> !RegActive(r'.reg))
  {
  }

  lemma OnNumericWeight(su: Setup, k: nat, r: Reg, io: Io, net: Outcomes, e: Event)
    ensures var r' := OnNumeric(r, io, net, e);
            Load(su, k, r'.io) + RegWeight(r'.reg) <= Load(su, k, io) + RegWeight(r) + 2
  {
    OnNumericAdds(r, io, net, e);
    PairWeights();
    var r' := OnNumeric(r, io, net, e);
    assert |r'.io.log| <= |io.log| + 1;
    hide OnNumeric, Adds, QueueWeight, KindsWeight;
    if Adds(io, r'.io, []) {
      AddsWeight(su, k, io, r'.io, []);
    } else {
      AddsWeight(su, k, io, r'.io, [Error]);
    }
  }

  lemma OnWelcomeWeight(su: Setup, k: nat, r: Reg, io: Io, e: Event)
    ensures var r' := OnWelcome(r, io, e);
            Load(su, k, r'.io) + RegWeight(r'.reg) <= Load(su, k, io) + RegWeight(r)
  {
    OnWelcomeAdds(r, io, e);
    PairWeights();
    var r' := OnWelcome(r, io, e);
    assert r'.io.log == io.log;
    hide OnWelcome, Adds, QueueWeight, KindsWeight;
    if RegActive(r) {
      if Adds(io, r'.io, []) {
        AddsWeight(su, k, io, r'.io, []);
      } else {
        AddsWeight(su, k, io, r'.io, [Registered]);
      }
    }
  }

  lemma OnPingWeight(su: Setup, k: nat, io: Io, net: Outcomes, e: Event)
    ensures Load(su, k, OnPing(io, net, e)) <= Load(su, k, io) + 2
  {
    PairWeights();
    var io' := OnPing(io, net, e);
    assert Adds(io, io', []) || Adds(io, io', [Error]);
    assert |io'.log| <= |io.log| + 1;
    hide OnPing, Adds, QueueWeight, KindsWeight;
    if Adds(io, io', []) {
      AddsWeight(su, k, io, io', []);
    } else {
      AddsWeight(su, k, io, io', [Error]);
    }
  }

  lemma NamesDoneWeight(su: Setup, k: nat, io: Io, v: Tracking.ClientView, e: Event)
    ensures Load(su, k, EmitAll(io, Tracking.NamesDone(v, e))) <= Load(su, k, io) + 1
  {
    PairWeights();
    var io' := EmitAll(io, Tracking.NamesDone(v, e));
    assert Adds(io, io', []) || Adds(io, io', [NamesComplete]);
    assert io'.log == io.log;
    hide EmitAll, Adds, QueueWeight, KindsWeight;
    if Adds(io, io', []) {
      AddsWeight(su, k, io, io', []);
    } else {
      AddsWeight(su, k, io, io', [NamesComplete]);
    }
  }

  // ---------- the capability handler ----------

  lemma EndNegotiationWeight(su: Setup, k: nat, c: Caps, io: Io)
    ensures var r := EndNegotiation(c, io);
            Load(su, k, r.io) + CapsWeight(r.caps) <= Load(su, k, io) + CapsWeight(c) + 3 + PreEndWeight(su, k)
  {
    var e := Internally(CapPreEnd, CapPreEndData(c.acked.Keys, c.acked));
    QueueWeightConcat(su, k, io.queue, [e]);
    assert [e][1..] == [];
    WaitersWeightConcat(c.waiters, [Fresh]);
    assert [Fresh][1..] == [];
  }

  lemma {:induction false} CapEventsWeight(su: Setup, k: nat, words: seq<string>)
    ensures QueueWeight(su, k, AddedAll(words)) == 3 * |words| && QueueWeight(su, k, RemovedAll(words)) == 3 * |words|
  {
    if words != [] {
      CapEventsWeight(su, k, words[1..]);
      assert AddedAll(words)[1..] == AddedAll(words[1..]);
      assert RemovedAll(words)[1..] == RemovedAll(words[1..]);
    }
  }

  /** What a handler of the capability handler adds is at most `extra`. */
  predicate Within(su: Setup, k: nat, c: Caps, io: Io, r: Result, extra: int) {
    Load(su, k, r.io) + CapsWeight(r.caps) <= Load(su, k, io) + CapsWeight(c) + extra
  }

  lemma OnACKWeight(su: Setup, k: nat, c: Caps, io: Io, e: Event)
    ensures Within(su, k, c, io, OnACK(c, io, e), 3 + 3 * Words(e) + PreEndWeight(su, k))
  {
    hide Fields, AckAll, AddedAll, EndNegotiation, QueueWeight, WaitersWeight;
    var words := Fields(Trailing(e));
    AckAllFields(c, words);
    CapEventsWeight(su, k, words);
    QueueWeightConcat(su, k, io.queue, AddedAll(words));
    EndNegotiationWeight(su, k, AckAll(c, words), EmitAll(io, AddedAll(words)));
  }

  lemma OnNAKWeight(su: Setup, k: nat, c: Caps, io: Io, e: Event)
    ensures Within(su, k, c, io, OnNAK(c, io, e), 3 + PreEndWeight(su, k))
  {
    hide Fields, EndNegotiation, QueueWeight, WaitersWeight;
    EndNegotiationWeight(su, k, c.(pending := c.pending - Elements(Fields(Trailing(e)))), io);
  }

  lemma OnDELWeight(su: Setup, k: nat, c: Caps, io: Io, e: Event)
    ensures Within(su, k, c, io, OnDEL(c, io, e), 3 * Words(e))
  {
    hide Fields, RemovedAll, QueueWeight, WaitersWeight;
    var words := Fields(Trailing(e));
    CapEventsWeight(su, k, words);
    QueueWeightConcat(su, k, io.queue, RemovedAll(words));
  }

  lemma OnNEWWeight(su: Setup, k: nat, c: Caps, io: Io, net: Outcomes, e: Event)
    ensures Within(su, k, c, io, OnNEW(c, io, net, e), 1)
  {
    hide ProcessNew, QueueWeight, WaitersWeight;
    ProcessNewFrame(c, io, net, Trailing(e));
  }

  lemma OnLSWeight(su: Setup, k: nat, c: Caps, io: Io, net: Outcomes, e: Event)
    ensures Within(su, k, c, io, OnLS(c, io, net, e), 4 + PreEndWeight(su, k))
  {
    hide ProcessNew, EndNegotiation, QueueWeight, WaitersWeight;
    ProcessNewFrame(c, io, net, Trailing(e));
    var r := ProcessNew(c, io, net, Trailing(e));
    EndNegotiationWeight(su, k, r.caps, r.io);
  }

  // ---------- every internal step lowers the measure ----------

  /** The measure and the lines sent: what a step adds to the log it has saved elsewhere. */
  function Total(su: Setup, w: World): nat {
    Measure(su, w) + |w.io.log|
  }

  lemma CapsTaskDecreases(su: Setup, w: World)
    requires w.todo != [] && CapsHandler(w.todo[0].handler)
    ensures Total(su, Next(su, w, RunTask)) < Total(su, w)
  {
    hide QueueWeight, WaitersWeight, Fields, OnLS, OnACK, OnNAK, OnDEL, OnNEW, StartCost, SaslWeight, RegWeight, PreEndWeight;
    var e, k := w.todo[0].event, StartCost(su, w.sasl);
    match w.todo[0].handler
    case CapsOnLS => OnLSWeight(su, k, w.caps, w.io, su.net, e);
    case CapsOnACK => OnACKWeight(su, k, w.caps, w.io, e);
    case CapsOnNAK => OnNAKWeight(su, k, w.caps, w.io, e);
    case CapsOnDEL => OnDELWeight(su, k, w.caps, w.io, e);
    case CapsOnNEW => OnNEWWeight(su, k, w.caps, w.io, su.net, e);
    case CapsOnConnected =>
    case CapsOnEnd =>
    case CapsOnEndReady =>
  }

  lemma SaslTaskDecreases(su: Setup, w: World)
    requires w.todo != [] && w.todo[0].handler in {SaslOnPreEnd, SaslAuthenticate, SaslOnSuccess, SaslOnFail}
    ensures Total(su, Next(su, w, RunTask)) < Total(su, w)
  {
    SameCost(su, w, RunTask);
    hide QueueWeight, CapsWeight, Fields, OnPreEnd, OnAuthenticate, OnSuccess, OnFail, StartCost, SaslWeight, RegWeight, PreEndWeight;
    var e, k := w.todo[0].event, StartCost(su, w.sasl);
    match w.todo[0].handler
    case SaslOnPreEnd => OnPreEndWeight(su, k, w.sasl, w.io, su.net, e);
    case SaslAuthenticate =>
      if w.sasl.maxChunk > 0 {
        OnAuthenticateWeight(su, k, w.sasl, w.io, su.net, e);
      }
    case SaslOnSuccess => OnSuccessWeight(su, k, w.sasl, w.io);
    case SaslOnFail => OnFailWeight(su, k, w.sasl, w.io, e);
  }

  /** The credentials and the chunk size never change. */
  lemma SameCost(su: Setup, w: World, step: Step)
    requires step == RunTask && w.todo != []
    ensures StartCost(su, Next(su, w, step).sasl) == StartCost(su, w.sasl)
  {
    hide OnLS, OnACK, OnNAK, OnDEL, OnNEW, OnRegConnected, OnNumeric, OnWelcome, OnPing, ResponseLines, SendEach, Split;
    hide OnPreEnd, OnAuthenticate, OnSuccess, OnFail, EndNegotiation, Tracking.OnEvent, Tracking.NamesDone;
    CredentialsKept(su, w);
  }

  predicate SameCredentials(s: Sasl, s': Sasl) {
    s'.username == s.username && s'.password == s.password && s'.maxChunk == s.maxChunk
  }

  lemma CredentialsKept(su: Setup, w: World)
    requires w.todo != []
    ensures var e := w.todo[0].event;
            && SameCredentials(w.sasl, OnPreEnd(w.sasl, w.io, su.net, e).sasl)
            && SameCredentials(w.sasl, OnSuccess(w.sasl, w.io).sasl)
            && SameCredentials(w.sasl, OnFail(w.sasl, w.io, e).sasl)
            && (w.sasl.maxChunk > 0 ==> SameCredentials(w.sasl, OnAuthenticate(w.sasl, w.io, su.net, su.codec, e).sasl))
  {
    hide SendEach, Split, Payloads, PlainPayload, Emit, Send;
  }

  lemma OtherTaskDecreases(su: Setup, w: World)
    requires w.todo != [] && !CapsHandler(w.todo[0].handler)
    requires w.todo[0].handler !in {SaslOnPreEnd, SaslAuthenticate, SaslOnSuccess, SaslOnFail}
    ensures Total(su, Next(su, w, RunTask)) < Total(su, w)
  {
    hide QueueWeight, CapsWeight, Fields, OnRegConnected, OnNumeric, OnWelcome, OnPing, EmitAll, Tracking.NamesDone, Tracking.OnEvent;
    hide StartCost, SaslWeight, RegWeight, PreEndWeight;
    var e, k := w.todo[0].event, StartCost(su, w.sasl);
    match w.todo[0].handler
    case RegOnConnected => OnRegConnectedWeight(su, k, w.reg, w.io, su.net);
    case RegOnNumeric => OnNumericWeight(su, k, w.reg, w.io, su.net, e);
    case RegOnWelcome => OnWelcomeWeight(su, k, w.reg, w.io, e);
    case PingOnPing => OnPingWeight(su, k, w.io, su.net, e);
    case ClientOnEvent => NamesDoneWeight(su, k, w.io, w.client, e);
    case _ =>
  }

  lemma {:induction false} UsersWeight(su: Setup, k: nat, hs: seq<Handler>, e: Event)
    requires forall h | h in hs :: h.User?
    ensures TasksWeight(su, k, TasksOf(hs, e)) == |hs|
  {
    if hs != [] {
      assert hs[0] in hs;
      assert TasksOf(hs, e)[1..] == TasksOf(hs[1..], e);
      UsersWeight(su, k, hs[1..], e);
    }
  }

  lemma TasksWeightThree(su: Setup, k: nat, ts: seq<Task>)
    ensures |ts| == 0 ==> TasksWeight(su, k, ts) == 0
    ensures |ts| == 1 ==> TasksWeight(su, k, ts) == TaskWeight(su, k, ts[0])
    ensures |ts| == 2 ==> TasksWeight(su, k, ts) == TaskWeight(su, k, ts[0]) + TaskWeight(su, k, ts[1])
    ensures |ts| == 3 ==>
              TasksWeight(su, k, ts) == TaskWeight(su, k, ts[0]) + TaskWeight(su, k, ts[1]) + TaskWeight(su, k, ts[2])
  {
    hide TaskWeight;
    if |ts| > 0 {
      var a := ts[1..];
      if |ts| > 1 {
        assert a[0] == ts[1];
        var b := a[1..];
        if |ts| > 2 {
          assert b[0] == ts[2];
          assert |ts| == 3 ==> b[1..] == [];
        }
      }
    }
  }

  lemma PreEndDispatched(su: Setup, k: nat, reg: Reg, e: Event)
    requires e.kind == CapPreEnd
    ensures TasksWeight(su, k, TasksOf(HandlersOf(su, reg, e.kind), e)) < EventWeight(su, k, e)
  {
    hide Fields, Trailing;
    var hs, users := HandlersOf(su, reg, e.kind), Users(su.listeners);
    UsersWeight(su, k, users, e);
    if su.hasSasl {
      assert hs == [SaslOnPreEnd] + users;
      assert TasksOf(hs, e)[1..] == TasksOf(users, e);
    } else {
      assert hs == users;
    }
  }

  lemma DispatchedWeight(su: Setup, k: nat, reg: Reg, e: Event)
    ensures TasksWeight(su, k, TasksOf(HandlersOf(su, reg, e.kind), e)) < EventWeight(su, k, e)
  {
    if e.kind == CapPreEnd {
      PreEndDispatched(su, k, reg, e);
    } else {
      var hs := HandlersOf(su, reg, e.kind);
      FewHandlers(su, reg, e.kind);
      TasksWeightThree(su, k, TasksOf(hs, e));
      HandlersWeight(su, k, reg, e);
      hide TasksWeight, TaskWeight, HandlersOf, EventWeight;
    }
  }

  /** What a handler adds for the event `e`. */
  function Weigh(su: Setup, k: nat, e: Event, hs: seq<Handler>, i: nat): nat {
    if i < |hs| then TaskWeight(su, k, Task(hs[i], e)) else 0
  }

  lemma HandlersWeight(su: Setup, k: nat, reg: Reg, e: Event)
    requires e.kind != CapPreEnd
    ensures var hs := HandlersOf(su, reg, e.kind);
            Weigh(su, k, e, hs, 0) + Weigh(su, k, e, hs, 1) + Weigh(su, k, e, hs, 2) < EventWeight(su, k, e)
  {
    hide Words, PreEndWeight;
  }

  lemma FewHandlers(su: Setup, reg: Reg, kind: EventType)
    requires kind != CapPreEnd
    ensures |HandlersOf(su, reg, kind)| <= 3
  {
    hide ClientKind;
  }

  lemma DispatchDecreases(su: Setup, w: World)
    requires Enabled(su, w, Dispatch)
    ensures Total(su, Next(su, w, Dispatch)) < Total(su, w)
  {
    var e := w.io.queue[0];
    DispatchedWeight(su, StartCost(su, w.sasl), w.reg, e);
    hide HandlersOf, TasksOf, EventWeight, CapsWeight, SaslWeight, RegWeight, StartCost;
  }

  lemma WaitersAround(ws: seq<Waiter>, i: nat, x: Waiter)
    requires i < |ws|
    ensures WaitersWeight(ws[..i] + ws[i + 1..]) == WaitersWeight(ws) - WaiterWeight(ws[i])
    ensures WaitersWeight(ws[i := x]) == WaitersWeight(ws) - WaiterWeight(ws[i]) + WaiterWeight(x)
  {
    var tail := ws[i + 1..];
    assert ws == ws[..i] + ([ws[i]] + tail);
    assert ws[i := x] == ws[..i] + ([x] + tail);
    WaitersWeightConcat(ws[..i], [ws[i]] + tail);
    WaitersWeightConcat(ws[..i], [x] + tail);
    WaitersWeightConcat(ws[..i], tail);
    assert ([ws[i]] + tail)[1..] == tail && ([x] + tail)[1..] == tail;
  }

  lemma WaiterDecreases(su: Setup, w: World, step: Step)
    requires Enabled(su, w, step) && (step.StartWaiter? || step.ReadyWaiter?)
    ensures Total(su, Next(su, w, step)) < Total(su, w)
  {
    hide QueueWeight, TasksWeight, SaslWeight, RegWeight, WaitersWeight, StartCost;
    if step.StartWaiter? {
      WaitersAround(w.caps.waiters, step.i, Counting(ListenerCount(su), 0));
    } else {
      WaitersAround(w.caps.waiters, step.i,
                    Counting(w.caps.waiters[step.i].expected, w.caps.waiters[step.i].ready + 1));
    }
  }

  /** Steps the library takes by itself, without input, timers or user handlers. */
  predicate SelfStep(step: Step) {
    step == Dispatch || step == RunTask || step.StartWaiter? || step.ReadyWaiter?
  }

  lemma SelfStepDecreases(su: Setup, w: World, step: Step)
    requires SelfStep(step) && Enabled(su, w, step)
    ensures Total(su, Next(su, w, step)) < Total(su, w)
  {
    hide Next, Total;
    if step == Dispatch {
      DispatchDecreases(su, w);
    } else if step == RunTask {
      if CapsHandler(w.todo[0].handler) {
        CapsTaskDecreases(su, w);
      } else if w.todo[0].handler in {SaslOnPreEnd, SaslAuthenticate, SaslOnSuccess, SaslOnFail} {
        SaslTaskDecreases(su, w);
      } else {
        OtherTaskDecreases(su, w);
      }
    } else {
      WaiterDecreases(su, w, step);
    }
  }

  lemma Stuck(su: Setup, w: World)
    ensures (forall s | SelfStep(s) :: !Enabled(su, w, s)) ==>
              w.io.queue == [] && w.todo == [] && Fresh !in w.caps.waiters
              && (w.caps.tokens == 0 || w.caps.waiters == [])
  {
    if forall s | SelfStep(s) :: !Enabled(su, w, s) {
      assert SelfStep(Dispatch) && SelfStep(RunTask);
      assert !Enabled(su, w, Dispatch) && !Enabled(su, w, RunTask);
      forall i | 0 <= i < |w.caps.waiters|
        ensures !w.caps.waiters[i].Fresh? && w.caps.tokens == 0
      {
        assert SelfStep(StartWaiter(i)) && SelfStep(ReadyWaiter(i));
        assert !Enabled(su, w, StartWaiter(i)) && !Enabled(su, w, ReadyWaiter(i));
      }
      if w.caps.waiters != [] {
        assert !w.caps.waiters[0].Fresh?;
      }
    }
  }

  // ---------- with the announcements of the sends ----------

  /**
   The world and the RawOutgoing events on the queue. The library has no handler for these, so only
   their number matters: dispatching one drops it.
   */
  datatype Noisy = Noisy(world: World, raw: nat)

  /** A step of the library that announces `announced` of its sends, or the dispatch of an announcement. */
  datatype Move = Library(step: Step, announced: nat) | DropRaw

  predicate Can(su: Setup, n: Noisy, m: Move) {
    match m
    case Library(step, announced) =>
      SelfStep(step) && Enabled(su, n.world, step)
      && announced <= |Next(su, n.world, step).io.log| - |n.world.io.log|
    case DropRaw => n.world.todo == [] && n.raw > 0
  }

  function Moved(su: Setup, n: Noisy, m: Move): Noisy {
    match m
    case Library(step, announced) => Noisy(Next(su, n.world, step), n.raw + announced)
    case DropRaw => n.(raw := if n.raw > 0 then n.raw - 1 else 0)
  }

  function NoisyMeasure(su: Setup, n: Noisy): nat {
    Measure(su, n.world) + n.raw
  }

  /** `moves` can be made from `n` one after the other. */
  predicate Runnable(su: Setup, n: Noisy, moves: seq<Move>)
    decreases |moves|
  {
    moves == [] || (Can(su, n, moves[0]) && Runnable(su, Moved(su, n, moves[0]), moves[1..]))
  }

  function After(su: Setup, n: Noisy, moves: seq<Move>): Noisy
    decreases |moves|
  {
    if moves == [] then n else After(su, Moved(su, n, moves[0]), moves[1..])
  }

  lemma MoveDecreases(su: Setup, n: Noisy, m: Move)
    requires Can(su, n, m)
    ensures NoisyMeasure(su, Moved(su, n, m)) < NoisyMeasure(su, n)
  {
    hide Next, Measure, SelfStep;
    if m.Library? {
      SelfStepDecreases(su, n.world, m.step);
    }
  }

  lemma NoMoveLeft(su: Setup, n: Noisy)
    requires forall m :: !Can(su, n, m)
    ensures var w := n.world;
            w.io.queue == [] && n.raw == 0 && w.todo == [] && Fresh !in w.caps.waiters
            && (w.caps.tokens == 0 || w.caps.waiters == [])
  {
    hide Next;
    forall s | SelfStep(s) ensures !Enabled(su, n.world, s) {
      assert !Can(su, n, Library(s, 0));
      LogKept(su, n.world, s);
    }
    Stuck(su, n.world);
    assert !Can(su, n, DropRaw);
  }

  lemma LogKept(su: Setup, w: World, step: Step)
    requires SelfStep(step)
    ensures |Next(su, w, step).io.log| >= |w.io.log|
  {
    if step == RunTask && w.todo != [] {
      TaskLogKept(su, w);
    } else {
      hide HandlersOf;
    }
  }

  lemma {:induction false} SendEachGrows(io: Io, net: Outcomes, payloads: seq<string>)
    ensures |SendEach(io, net, payloads).0.log| >= |io.log|
    decreases |payloads|
  {
    if payloads != [] {
      SendEachGrows(Send(io, net, "AUTHENTICATE", [payloads[0]]), net, payloads[1..]);
    }
  }

  lemma CapsTaskLogKept(su: Setup, w: World)
    requires w.todo != [] && CapsHandler(w.todo[0].handler)
    ensures |Next(su, w, RunTask).io.log| >= |w.io.log|
  {
    hide ProcessNew, Fields, AckAll, AddedAll, RemovedAll;
    ProcessNewFrame(w.caps, w.io, su.net, Trailing(w.todo[0].event));
  }

  lemma SaslLogKept(su: Setup, w: World)
    requires w.todo != [] && w.todo[0].handler in {SaslOnPreEnd, SaslAuthenticate, SaslOnSuccess, SaslOnFail}
    ensures |Next(su, w, RunTask).io.log| >= |w.io.log|
  {
    hide SendEach, Payloads, PlainPayload, Split;
    if w.sasl.mechanism.Some? && w.sasl.maxChunk > 0 {
      var m := w.sasl.mechanism.value;
      SendEachGrows(w.io, su.net, Payloads(su.codec.encode(PlainPayload(m.username, m.password)), w.sasl.maxChunk));
    }
  }

  lemma TaskLogKept(su: Setup, w: World)
    requires w.todo != []
    ensures |Next(su, w, RunTask).io.log| >= |w.io.log|
  {
    if CapsHandler(w.todo[0].handler) {
      CapsTaskLogKept(su, w);
    } else if w.todo[0].handler in {SaslOnPreEnd, SaslAuthenticate, SaslOnSuccess, SaslOnFail} {
      SaslLogKept(su, w);
    } else {
      hide Tracking.OnEvent, Tracking.NamesDone;
    }
  }

  /**
   Main result: from any world whatever, no run of the library's own steps and of dispatched
   announcements is longer than the measure, and one that cannot be continued has emptied the queue and
   finished every handler.
   */
  lemma {:induction false} QueueDrains(su: Setup, n: Noisy, moves: seq<Move>)
    requires Runnable(su, n, moves)
    ensures |moves| + NoisyMeasure(su, After(su, n, moves)) <= NoisyMeasure(su, n)
    ensures var n' := After(su, n, moves);
            (forall m :: !Can(su, n', m)) ==>
              n'.world.io.queue == [] && n'.raw == 0 && n'.world.todo == [] && Fresh !in n'.world.caps.waiters
              && (n'.world.caps.tokens == 0 || n'.world.caps.waiters == [])
    decreases |moves|
  {
    hide NoisyMeasure, Moved, Can;
    if moves == [] {
      if forall m :: !Can(su, n, m) {
        NoMoveLeft(su, n);
      }
    } else {
      MoveDecreases(su, n, moves[0]);
      QueueDrains(su, Moved(su, n, moves[0]), moves[1..]);
    }
  }
}
