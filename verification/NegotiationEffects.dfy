/** Which events the SASL and registration handlers append, exactly. */
module NegotiationEffects {
  import opened GoStrings
  import opened Events
  import opened Wire
  import opened Io
  import opened Sasl
  import opened Registration

  /** `io'` is `io` after appending events of these types, in this order. */
  predicate Adds(io: Io, io': Io, kinds: seq<EventType>) {
    && |io'.queue| == |io.queue| + |kinds|
    && io.queue <= io'.queue
    && forall i | 0 <= i < |kinds| :: io'.queue[|io.queue| + i].kind == kinds[i]
  }

  lemma {:induction false} SendEachAddsNothing(io: Io, net: Outcomes, payloads: seq<string>)
    ensures SendEach(io, net, payloads).0.queue == io.queue
    decreases |payloads|
  {
    if payloads != [] {
      SendEachAddsNothing(Send(io, net, "AUTHENTICATE", [payloads[0]]), net, payloads[1..]);
    }
  }

  lemma OnPreEndAdds(s: Sasl, io: Io, net: Outcomes, e: Event)
    ensures var r := OnPreEnd(s, io, net, e);
            || (Adds(io, r.io, []) && !Active(s) && Active(r.sasl))
            || ((Adds(io, r.io, [CapEndReady]) || Adds(io, r.io, [Error, CapEndReady]) || Adds(io, r.io, [SASLFail, CapEndReady]))
                && (Active(r.sasl) ==> Active(s)))
  {
    hide Split, StartPlain, MechanismsIn;
    if e.data.CapPreEndData? && "sasl" in e.data.activeCaps && (s.username != "" || s.password != "") {
      StartPlainAdds(s.(mechanisms := MechanismsIn(e.data.capValues)), io, net);
    }
  }

  lemma StartPlainAdds(s: Sasl, io: Io, net: Outcomes)
    ensures var r := StartPlain(s, io, net);
            && r.io.queue == io.queue
            && (if r.ok then !Active(s) && Active(r.sasl) else Active(r.sasl) ==> Active(s))
  {
  }

  lemma OnAuthenticateAdds(s: Sasl, io: Io, net: Outcomes, codec: Codec, e: Event)
    requires s.maxChunk > 0
    ensures var r := OnAuthenticate(s, io, net, codec, e);
            && (Adds(io, r.io, []) || Adds(io, r.io, [SASLFail]))
            && (Active(r.sasl) ==> Active(s)) && r.sasl.maxChunk == s.maxChunk
  {
    hide SendEach, Payloads, PlainPayload;
    if s.mechanism.Some? {
      var m := s.mechanism.value;
      SendEachAddsNothing(io, net, Payloads(codec.encode(PlainPayload(m.username, m.password)), s.maxChunk));
    }
  }

  lemma OnSuccessAdds(s: Sasl, io: Io)
    ensures var r := OnSuccess(s, io);
            if Active(s)
            then (Adds(io, r.io, [CapEndReady]) || Adds(io, r.io, [SASLSuccess, CapEndReady])) && !Active(r.sasl)
            else r == SaslResult(s, io, true)
  {
  }

  lemma OnFailAdds(s: Sasl, io: Io, e: Event)
    ensures var r := OnFail(s, io, e);
            if Active(s) then Adds(io, r.io, [SASLFail, CapEndReady]) && !Active(r.sasl)
            else r == SaslResult(s, io, true)
  {
  }

  lemma OnRegConnectedAdds(r: Reg, io: Io, net: Outcomes)
    ensures var r' := OnRegConnected(r, io, net); Adds(io, r'.io, []) || Adds(io, r'.io, [Error])
  {
  }

  lemma OnNumericAdds(r: Reg, io: Io, net: Outcomes, e: Event)
    ensures var r' := OnNumeric(r, io, net, e);
            (Adds(io, r'.io, []) || Adds(io, r'.io, [Error])) && (RegActive(r'.reg) ==> RegActive(r))
  {
  }

  lemma OnWelcomeAdds(r: Reg, io: Io, e: Event)
    ensures var r' := OnWelcome(r, io, e);
            if RegActive(r) then (Adds(io, r'.io, []) || Adds(io, r'.io, [Registered])) && !RegActive(r'.reg)
            else r' == RegResult(r, io)
  {
  }
}
