/**
 When the end of a SASL session is signalled. A session that ends because of SASLSuccess or SASLFail
 gives its ready signal; one that ends by Abort, Reset, its timer or a failed send gives none.
 */
module NegotiationSignals {
  import opened Message
  import opened Events
  import opened Wire
  import opened EventBus
  import opened Io
  import opened Capabilities
  import opened Sasl
  import opened Registration
  import opened Keepalive
  import opened Negotiation
  import opened NegotiationSafety

  predicate Ends(su: Setup, w: World, step: Step) {
    Active(w.sasl) && !Active(Next(su, w, step).sasl)
  }

  predicate RunsResult(w: World, step: Step) {
    RunsTask(w, step, SaslOnSuccess) || RunsTask(w, step, SaslOnFail)
  }

  predicate EndsSilently(su: Setup, w: World, step: Step) {
    Ends(su, w, step) && !RunsResult(w, step)
  }

  function SilentEnds(su: Setup, steps: seq<Step>): nat {
    if steps == [] then 0
    else
      var before := steps[..|steps| - 1];
      SilentEnds(su, before) + if EndsSilently(su, Run(su, before), steps[|steps| - 1]) then 1 else 0
  }

  // ---------- the handlers, exactly ----------

  /** `ready` signals, and then `active` sessions (0 or 1). */
  predicate Leaves(io: Io, r: SaslResult, ready: int, active: int) {
    Signals(io, r.io, ready) && ActiveCount(r.sasl) == active
  }

  lemma StartPlainLeaves(s: Sasl, io: Io, net: Outcomes)
    ensures var r := StartPlain(s, io, net);
            Leaves(io, r, 0, ActiveCount(s) + (if r.ok then 1 else 0))
  {
    hide Count, CountEnds;
    NoSignals(io);
    SignalsSend(io, net, "AUTHENTICATE", ["PLAIN"]);
    hide Signals;
  }

  /** Handling CapPreEnd gives one signal or starts one session. */
  lemma OnPreEndLeaves(s: Sasl, io: Io, net: Outcomes, e: Event)
    ensures var r := OnPreEnd(s, io, net, e);
            Leaves(io, r, 1, ActiveCount(s)) || Leaves(io, r, 0, ActiveCount(s) + 1)
  {
    hide Count, CountEnds, StartPlain, MechanismsIn;
    SignalsEmit(io, Plain(CapEndReady));
    ErrorThenReady(io, Internally(Error, ErrorData("SASL required but not supported by server")));
    if e.data.CapPreEndData? {
      var s' := s.(mechanisms := MechanismsIn(e.data.capValues));
      var r := StartPlain(s', io, net);
      StartPlainLeaves(s', io, net);
      ErrorThenReady(r.io, FailEvent("unknown", "failed to start SASL"));
    }
  }

  lemma OnResultLeaves(s: Sasl, io: Io, e: Event)
    ensures Leaves(io, OnSuccess(s, io), ActiveCount(s), 0)
    ensures Leaves(io, OnFail(s, io, e), ActiveCount(s), 0)
  {
    hide Count, CountEnds;
    NoSignals(io);
    var success := Internally(SASLSuccess, SASLData("PLAIN", "authentication successful"));
    SignalsEmit(io, success);
    SignalsEmit(io, Plain(CapEndReady));
    SignalsEmit(Emit(io, success), Plain(CapEndReady));
    ErrorThenReady(io, FailEvent(NameOfMechanism(s), FailReason(e)));
  }

  lemma OnAuthenticateLeaves(s: Sasl, io: Io, net: Outcomes, codec: Codec, e: Event)
    requires s.maxChunk > 0
    ensures var r := OnAuthenticate(s, io, net, codec, e);
            Signals(io, r.io, 0) && ActiveCount(r.sasl) <= ActiveCount(s)
  {
    hide Count, CountEnds, PlainPayload, Payloads, SendEach;
    NoSignals(io);
    AbortPays(s, io, net);
    AbortPays(s.(state := Authenticating), io, net);
    if s.mechanism.Some? {
      var m := s.mechanism.value;
      var s2 := s.(state := Authenticating, mechanism := Some(Mechanism("", "", true)));
      var payloads := Payloads(codec.encode(PlainPayload(m.username, m.password)), s.maxChunk);
      SignalsSendEach(io, net, payloads);
      SignalsEmit(SendEach(io, net, payloads).0, FailEvent(NameOfMechanism(s2), "send failed"));
    }
  }

  // ---------- one step ----------

  function Handled(w: World, step: Step): nat {
    if RunsTask(w, step, SaslOnPreEnd) then 1 else 0
  }

  function SaslSignalled(w: World, w': World, step: Step): int {
    if RunsSaslTask(w, step) then Emitted(w, w', CapEndReady) else 0
  }

  /** Every handled CapPreEnd is a signal, a session, or in the end a silent one. */
  predicate Conserved(su: Setup, w: World, step: Step) {
    var w' := Next(su, w, step);
    Handled(w, step) + ActiveCount(w.sasl) ==
    SaslSignalled(w, w', step) + ActiveCount(w'.sasl) + (if EndsSilently(su, w, step) then 1 else 0)
  }

  lemma SaslTaskConserved(su: Setup, w: World)
    requires w.todo != [] && SaslHandler(w.todo[0].handler)
    ensures Conserved(su, w, RunTask)
    ensures w.todo[0].handler == SaslAuthenticate ==> Emitted(w, Next(su, w, RunTask), CapEndReady) == 0
    ensures w.todo[0].handler == SaslOnPreEnd ==> !Ends(su, w, RunTask)
    ensures RunsResult(w, RunTask) ==> Emitted(w, Next(su, w, RunTask), CapEndReady) == ActiveCount(w.sasl)
  {
    hide Count, CountEnds, OnPreEnd, OnAuthenticate, OnSuccess, OnFail;
    var e := w.todo[0].event;
    match w.todo[0].handler
    case SaslOnPreEnd => OnPreEndLeaves(w.sasl, w.io, su.net, e);
    case SaslAuthenticate =>
      if w.sasl.maxChunk > 0 {
        OnAuthenticateLeaves(w.sasl, w.io, su.net, su.codec, e);
      }
    case SaslOnSuccess => OnResultLeaves(w.sasl, w.io, e);
    case SaslOnFail => OnResultLeaves(w.sasl, w.io, e);
  }

  /** Steps outside the SASL handler's calls that can touch its session. */
  predicate SaslCall(step: Step) {
    step in {SaslTimer, SaslAbort, SaslReset}
  }

  lemma SaslCallSignals(su: Setup, w: World, step: Step)
    requires SaslCall(step)
    ensures Emitted(w, Next(su, w, step), CapEndReady) == 0
    ensures ActiveCount(Next(su, w, step).sasl) <= ActiveCount(w.sasl)
  {
    hide Count, CountEnds;
    OnTimerPays(w.sasl, w.io);
    AbortPays(w.sasl, w.io, su.net);
  }

  lemma SessionUntouched(su: Setup, w: World, step: Step)
    requires !SaslCall(step) && !RunsSaslTask(w, step)
    ensures Next(su, w, step).sasl == w.sasl
  {
    hide EventsOf, HandlersOf, OnLS, OnACK, OnNAK, OnDEL, OnNEW, OnConnected, OnCapEnd, OnRegConnected, OnNumeric, OnWelcome, OnPing;
  }

  /**
   Main result, one step, in every world: if the step ends an active session it emits one ready signal
   if it handles SASLSuccess or SASLFail, and none otherwise.
   */
  lemma EndSignalsExactly(su: Setup, w: World, step: Step)
    requires Ends(su, w, step)
    ensures Emitted(w, Next(su, w, step), CapEndReady) == if RunsResult(w, step) then 1 else 0
  {
    hide Next, Count;
    if SaslCall(step) {
      SaslCallSignals(su, w, step);
    } else if RunsSaslTask(w, step) {
      SaslTaskConserved(su, w);
    } else {
      SessionUntouched(su, w, step);
    }
  }

  lemma StepConserved(su: Setup, w: World, step: Step)
    ensures Conserved(su, w, step)
  {
    hide Next, Count;
    if SaslCall(step) {
      SaslCallSignals(su, w, step);
    } else if RunsSaslTask(w, step) {
      SaslTaskConserved(su, w);
    } else {
      SessionUntouched(su, w, step);
    }
  }

  // ---------- whole runs ----------

  lemma SignalsObserved(su: Setup, w: World, h: History, step: Step)
    ensures var h' := Observe(su, w, h, step);
            && h'.handledBySasl == h.handledBySasl + Handled(w, step)
            && h'.saslSignals == h.saslSignals + SaslSignalled(w, Next(su, w, step), step)
  {
    hide Next, Count;
  }

  /** Over every run: the CapPreEnd events handled are the signals given, the open session and the silent ends. */
  lemma {:induction false} SignalsConserved(su: Setup, steps: seq<Step>)
    ensures var w, h := Run(su, steps), HistoryOf(su, steps);
            h.handledBySasl == h.saslSignals + ActiveCount(w.sasl) + SilentEnds(su, steps)
    decreases |steps|
  {
    if steps != [] {
      var before, step := steps[..|steps| - 1], steps[|steps| - 1];
      SignalsConserved(su, before);
      var w, h := Run(su, before), HistoryOf(su, before);
      hide Next, Observe, EndsSilently, Handled, SaslSignalled;
      StepConserved(su, w, step);
      SignalsObserved(su, w, h, step);
    }
  }

  /** Main result: every CapPreEnd got its signal if and only if no session is open and none ended silently. */
  lemma {:induction false} AllSignalledExactlyWhen(su: Setup, steps: seq<Step>)
    ensures var w, h := Run(su, steps), HistoryOf(su, steps);
            h.saslSignals == h.handledBySasl <==> !Active(w.sasl) && SilentEnds(su, steps) == 0
  {
    SignalsConserved(su, steps);
  }

  /**
   Main result: after a silent end, with one round and listeners that signal once, CAP END goes out only
   because a waiter's timer fired.
   */
  lemma {:induction false} SilentEndNeedsTimer(su: Setup, steps: seq<Step>)
    requires su.hasSasl && SilentEnds(su, steps) > 0
    ensures var w, h := Run(su, steps), HistoryOf(su, steps);
            h.rounds <= 1 && !h.repeated && CountEnds(w.io.log) > 0 ==> h.endedByTimer
  {
    SignalsConserved(su, steps);
    CapEndMeansReady(su, steps);
    CountedAlways(su, steps);
    hide Run, HistoryOf, SilentEnds, CountEnds, CountTasks, Count;
  }

  lemma {:induction false} SilentEndsGrow(su: Setup, steps: seq<Step>, more: seq<Step>)
    ensures SilentEnds(su, steps + more) >= SilentEnds(su, steps)
    decreases |more|
  {
    if more == [] {
      assert steps + more == steps;
    } else {
      var front := more[..|more| - 1];
      SilentEndsGrow(su, steps, front);
      assert (steps + more)[..|steps + more| - 1] == steps + front;
      hide Run, EndsSilently;
    }
  }
}
