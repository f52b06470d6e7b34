/**
 SASL from the server's offer to the end of the session, on the wire and on the event queue: when
 AUTHENTICATE PLAIN goes out, what answers a challenge, and how each way of ending is announced.
 */
module SaslOffer {
  import opened GoStrings
  import opened Message
  import opened Events
  import opened Wire
  import opened Io
  import opened Capabilities
  import opened Sasl
  import opened CodecTheorems
  import opened CapabilityText

  const READY := Event(CapEndReady, Option.None, NoData)

  function FailedWith(mechanism: string, reason: string): Event {
    Event(SASLFail, Option.None, SASLData(mechanism, reason))
  }

  /** The mechanisms a capability value offers: a list with commas, or none said, which means PLAIN. */
  predicate Offers(values: map<string, string>, mechanisms: seq<string>) {
    if "sasl" in values && values["sasl"] != ""
    then mechanisms != [] && (forall m | m in mechanisms :: ',' !in m) && values["sasl"] == Join(mechanisms, ',')
    else mechanisms == ["PLAIN"]
  }

  lemma OfferRead(values: map<string, string>, mechanisms: seq<string>)
    requires Offers(values, mechanisms)
    ensures MechanismsIn(values) == mechanisms
  {
    hide Split, Join;
    if "sasl" in values && values["sasl"] != "" {
      SplitAll(mechanisms, ',');
    }
  }

  /**
   Main result: an idle handler with both credentials tries AUTHENTICATE PLAIN if and only if PLAIN is on
   offer. If that goes out the session is open and nothing is announced; otherwise SASL has failed and is
   ready.
   */
  lemma OfferDecides(s: Sasl, io: Io, net: Outcomes, e: Event, mechanisms: seq<string>)
    requires s.state == Inactive && s.username != "" && s.password != ""
    requires e.data.CapPreEndData? && "sasl" in e.data.activeCaps && Offers(e.data.capValues, mechanisms)
    ensures var r := OnPreEnd(s, io, net, e);
            && r.io.log == io.log + (if "PLAIN" in mechanisms then [Attempt("AUTHENTICATE", ["PLAIN"], net(|io.log|))] else [])
            && (if "PLAIN" in mechanisms && net(|io.log|)
                then r.sasl == s.(state := Requesting, timerArmed := true, mechanisms := mechanisms,
                                  mechanism := Some(Mechanism(s.username, s.password, false)))
                     && r.io.queue == io.queue
                else r.sasl.state == (if "PLAIN" in mechanisms then Failed else Inactive)
                     && r.io.queue == io.queue + [FailedWith("unknown", "failed to start SASL"), READY])
  {
    OfferRead(e.data.capValues, mechanisms);
    hide MechanismsIn, Offers;
    assert io.log + [] == io.log;
  }

  /** The cases in which no session is tried: each is ready at once, and only the empty offer of credentials is silent. */
  lemma NoOffer(s: Sasl, io: Io, net: Outcomes, e: Event)
    ensures var r := OnPreEnd(s, io, net, e);
            && (!e.data.CapPreEndData? ==> r.sasl == s && r.io == io.(queue := io.queue + [READY]))
            && (e.data.CapPreEndData? && "sasl" !in e.data.activeCaps ==>
                  r.sasl == s && r.io.log == io.log && |r.io.queue| == |io.queue| + 2 && io.queue <= r.io.queue
                  && r.io.queue[|io.queue|].kind == Error && r.io.queue[|io.queue| + 1] == READY)
            && (e.data.CapPreEndData? && "sasl" in e.data.activeCaps && s.username == "" && s.password == "" ==>
                  r.sasl.state == s.state && r.io == io.(queue := io.queue + [READY]))
            && (e.data.CapPreEndData? && "sasl" in e.data.activeCaps && (s.username == "" <==> s.password != "") ==>
                  r.sasl.state == s.state
                  && r.io == io.(queue := io.queue + [FailedWith("unknown", "failed to start SASL"), READY]))
            && (e.data.CapPreEndData? && "sasl" in e.data.activeCaps && s.username != "" && s.password != "" && s.state != Inactive ==>
                  r.sasl.state == s.state
                  && r.io == io.(queue := io.queue + [FailedWith("unknown", "failed to start SASL"), READY]))
  {
    hide MechanismsIn;
  }

  // ---------- the challenge ----------

  /** What answers the challenge, in pieces, when every send succeeds. */
  predicate Answer(payloads: seq<string>, data: string, chunk: nat) {
    if data == "" then payloads == ["+"]
    else if |data| <= chunk then payloads == [data]
    else
      |payloads| > 1 && payloads[|payloads| - 1] == "+" && Concat(payloads[..|payloads| - 1]) == data
      && forall i | 0 <= i < |payloads| - 1 :: 0 < |payloads[i]| <= chunk
  }

  lemma AnswerShape(data: string, chunk: nat)
    requires chunk > 0
    ensures Answer(Payloads(data, chunk), data, chunk)
  {
    if |data| > chunk {
      PiecesConcat(data, chunk);
      PiecesShape(data, chunk);
      var ps := Pieces(data, chunk);
      assert Concat([]) == "" && ps != [];
      assert Payloads(data, chunk)[..|ps|] == ps;
    }
  }

  lemma {:induction false} AllSent(io: Io, net: Outcomes, payloads: seq<string>)
    requires forall i | |io.log| <= i :: net(i)
    ensures SendEach(io, net, payloads) == (io.(log := io.log + Lines(payloads, true)), true)
    decreases |payloads|
  {
    if payloads == [] {
      assert io.log + [] == io.log;
    } else {
      var io' := Send(io, net, "AUTHENTICATE", [payloads[0]]);
      AllSent(io', net, payloads[1..]);
      assert io'.log + Lines(payloads[1..], true) == io.log + Lines(payloads, true);
    }
  }

  /** The text PLAIN sends: user, user and password with NULs between. */
  function Secret(m: Mechanism): string {
    m.username + ['\0'] + m.username + ['\0'] + m.password
  }

  /**
   Main result: while requesting, the challenge `+` is answered with the whole encoded secret; any other
   challenge, or credentials already used, abort the session with AUTHENTICATE *.
   */
  lemma ChallengeAnswered(s: Sasl, io: Io, net: Outcomes, codec: Codec, e: Event, m: Mechanism)
    requires s.maxChunk > 0 && s.state == Requesting && s.mechanism == Some(m)
    requires e.message.Some? && e.message.value.params != []
    ensures var r, challenge := OnAuthenticate(s, io, net, codec, e), e.message.value.params[|e.message.value.params| - 1];
            if challenge == "+" && m.username != "" && m.password != ""
            then
              ((forall i | |io.log| <= i :: net(i)) ==>
                exists payloads ::
                  && Answer(payloads, codec.encode(Secret(m)), s.maxChunk)
                  && r.io == io.(log := io.log + Lines(payloads, true))
                  && r.sasl == s.(state := Authenticating, mechanism := Some(Mechanism("", "", true))))
            else
              && r.io == io.(log := io.log + [Attempt("AUTHENTICATE", ["*"], net(|io.log|))])
              && r.sasl == s.(state := Failed, timerArmed := false)
  {
    var data := codec.encode(PlainPayload(m.username, m.password));
    assert PlainPayload(m.username, m.password) == Secret(m);
    if Trailing(e) == "+" && m.username != "" && m.password != "" && (forall i | |io.log| <= i :: net(i)) {
      AnswerShape(data, s.maxChunk);
      AllSent(io, net, Payloads(data, s.maxChunk));
    }
    hide Payloads, PlainPayload, SendEach, Lines, Answer, Secret;
  }

  /** Outside that state, or without a mechanism, a challenge is ignored or aborts. */
  lemma ChallengeOtherwise(s: Sasl, io: Io, net: Outcomes, codec: Codec, e: Event)
    requires s.maxChunk > 0
    ensures s.state != Requesting || e.message.None? ==> OnAuthenticate(s, io, net, codec, e) == SaslResult(s, io, true)
    ensures s.state == Requesting && e.message.Some? && s.mechanism.None? ==>
              var r := OnAuthenticate(s, io, net, codec, e);
              && r.io == io.(log := io.log + [Attempt("AUTHENTICATE", ["*"], net(|io.log|))])
              && r.sasl == s.(state := Failed, timerArmed := false)
  {
    hide SendEach, Payloads, PlainPayload;
  }

  // ---------- how a session ends ----------

  /** The reason a failure gives. */
  function Reason(e: Event): string {
    if e.message.Some? && |e.message.value.params| > 1
    then e.message.value.params[|e.message.value.params| - 1] else "authentication failed"
  }

  /** Every way an open session ends: its last state, and what is announced; only results make it ready. */
  lemma Endings(s: Sasl, io: Io, net: Outcomes, e: Event)
    requires Active(s) && s.mechanism.Some?
    ensures var r := OnSuccess(s, io);
            r.sasl == s.(state := Success, timerArmed := false)
            && r.io == io.(queue := io.queue + [Event(SASLSuccess, Option.None, SASLData("PLAIN", "authentication successful")), READY])
    ensures var r := OnFail(s, io, e);
            r.sasl == s.(state := Failed, timerArmed := false, mechanism := Some(s.mechanism.value.(complete := false)))
            && r.io == io.(queue := io.queue + [FailedWith("PLAIN", Reason(e)), READY])
    ensures var r := AbortSession(s, io, net);
            r.sasl == s.(state := Failed, timerArmed := false)
            && r.io == io.(log := io.log + [Attempt("AUTHENTICATE", ["*"], net(|io.log|))])
    ensures var r := OnTimer(s, io);
            r.sasl == s.(state := Failed, timerArmed := false) && r.io == io.(queue := io.queue + [FailedWith("PLAIN", "timeout")])
    ensures ResetSasl(s) == s.(state := Inactive, timerArmed := false, mechanism := Some(s.mechanism.value.(complete := false)))
  {
  }

  /** Once it has ended, no result and no abort changes anything. */
  lemma EndedForGood(s: Sasl, io: Io, net: Outcomes, e: Event)
    requires !Active(s)
    ensures OnSuccess(s, io).sasl == s && OnSuccess(s, io).io == io
    ensures OnFail(s, io, e).sasl == s && OnFail(s, io, e).io == io
    ensures AbortSession(s, io, net).sasl == s && AbortSession(s, io, net).io == io
  {
  }

  // ---------- from the advertisement to AUTHENTICATE ----------

  /**
   Main result, end to end: `sasl` advertised with a list of mechanisms, requested and acknowledged. On the
   CapPreEnd event that follows, AUTHENTICATE PLAIN is tried if and only if PLAIN is in the list.
   */
  lemma OfferReachesServer(
    c: Caps, io: Io, net: Outcomes, ls: Event, ads: seq<Ad>, gaps: seq<string>, ack: Event, gaps': seq<string>,
    s: Sasl, mechanisms: seq<string>)
    requires Granted(c, io, net, ls, ads, gaps, ack, gaps') && "sasl" in c.requested
    requires Advertised(ads, "sasl") == Some(Join(mechanisms, ',')) && Join(mechanisms, ',') != ""
    requires mechanisms != [] && forall m | m in mechanisms :: ',' !in m
    requires s.state == Inactive && s.username != "" && s.password != ""
    ensures var io' := Negotiated(c, io, net, ls, ack).io;
            && io'.queue != []
            && OnPreEnd(s, io', net, io'.queue[|io'.queue| - 1]).io.log ==
               io'.log + if "PLAIN" in mechanisms then [Attempt("AUTHENTICATE", ["PLAIN"], net(|io'.log|))] else []
  {
    hide Negotiated, Granted, OnPreEnd, Advertised, Join;
    ValueReachesPreEnd(c, io, net, ls, ads, gaps, ack, gaps');
    var io' := Negotiated(c, io, net, ls, ack).io;
    OfferDecides(s, io', net, io'.queue[|io'.queue| - 1], mechanisms);
  }
}
