/**
 Against a well-behaved server the negotiation ends once: EndCapabilityNegotiation passes its guard
 at most once per connection, with nothing pending, so CAP END goes out at most once and only after
 every requested capability was answered.
 */
module NegotiationOnce {
  import opened GoStrings
  import opened Events
  import opened Wire
  import opened EventBus
  import opened Io
  import opened Capabilities
  import opened Sasl
  import opened Registration
  import opened Keepalive
  import opened Negotiation
  import opened NegotiationSafety
  import opened NegotiationRounds
  import opened CapabilityAccounting

  /** The names an ACK or NAK carries. */
  function Named(t: Task): set<string> {
    Elements(Fields(Trailing(t.event)))
  }

  /**
   What a well-behaved connection does: it is made once; CAP LS is one line; no CAP NEW before CAP END
   was accepted; an ACK or NAK names some capability still pending. The application does not reset.
   */
  predicate Allowed(w: World, h: History, step: Step) {
    && !step.CapsReset?
    && (step == RunTask && w.todo != [] ==>
          var t := w.todo[0];
          && (t.handler == CapsOnConnected ==> h.connects == 0)
          && (t.handler == CapsOnLS ==> h.lsHandled == 0)
          && (t.handler == CapsOnNEW ==> !w.caps.negotiating && CountEnds(w.io.log) > 0)
          && (t.handler in {CapsOnACK, CapsOnNAK} && w.caps.negotiating ==>
                t.event.message.Some? && Named(t) * w.caps.pending != {}))
  }

  predicate WellBehaved(su: Setup, steps: seq<Step>) {
    forall i | 0 <= i < |steps| :: Allowed(Run(su, steps[..i]), HistoryOf(su, steps[..i]), steps[i])
  }

  /** One round at most; while it is open nothing is pending. */
  predicate OneRound(w: World, h: History) {
    && |w.caps.waiters| + CountEnds(w.io.log) <= h.rounds <= 1
    && (h.connects == 0 ==> !w.caps.negotiating && h.rounds == 0)
    && (h.lsHandled == 0 ==> h.rounds == 0 && w.caps.pending == {})
    && (h.rounds == 1 && w.caps.negotiating ==> w.caps.pending == {})
    && (w.caps.waiters != [] ==> w.caps.negotiating)
  }

  /** A step that leaves all of this alone. */
  predicate Idle(w: World, w': World) {
    && w'.caps.waiters == w.caps.waiters && w'.caps.negotiating == w.caps.negotiating
    && w'.caps.pending == w.caps.pending
    && CountEnds(w'.io.log) == CountEnds(w.io.log) && Emitted(w, w', CapPreEnd) == 0
  }

  lemma EndNegotiationOnce(c: Caps, io: Io)
    ensures var r := EndNegotiation(c, io);
            && r.caps == c.(waiters := r.caps.waiters) && r.io.log == io.log
            && r.caps.waiters == (if c.negotiating then c.waiters + [Fresh] else c.waiters)
            && Count(r.io.queue, CapPreEnd) == Count(io.queue, CapPreEnd) + if c.negotiating then 1 else 0
  {
    CountEmit(io.queue, Internally(CapPreEnd, CapPreEndData(c.acked.Keys, c.acked)), CapPreEnd);
  }

  /** The round opens, or not: `c` and `io` before the handler call, `r` after. */
  predicate Opens(c: Caps, io: Io, r: Result) {
    && r.caps.negotiating == c.negotiating
    && CountEnds(r.io.log) == CountEnds(io.log)
    && ((r.caps.waiters == c.waiters && Count(r.io.queue, CapPreEnd) == Count(io.queue, CapPreEnd)) ||
        (c.negotiating && r.caps.pending == {} && r.caps.waiters == c.waiters + [Fresh]
         && Count(r.io.queue, CapPreEnd) == Count(io.queue, CapPreEnd) + 1))
  }

  lemma OnLSOpens(c: Caps, io: Io, net: Outcomes, e: Event)
    requires c.pending == {}
    ensures Opens(c, io, OnLS(c, io, net, e))
    ensures !c.negotiating ==> OnLS(c, io, net, e).caps.pending == {}
  {
    hide ProcessNew, EndNegotiation, Count, CountEnds;
    ProcessNewQuiet(c, io, net, Trailing(e));
    ProcessNewFrame(c, io, net, Trailing(e));
    RequestsExactlyTheWanted(c, io, net, Trailing(e));
    var r := ProcessNew(c, io, net, Trailing(e));
    if c.requested == [] {
      ProcessNothing(c, io, net, Trailing(e));
    }
    EndNegotiationOnce(r.caps, r.io);
  }

  lemma ProcessNothing(c: Caps, io: Io, net: Outcomes, text: string)
    requires c.requested == []
    ensures ProcessNew(c, io, net, text).caps.pending == c.pending
  {
  }

  lemma OnACKOpens(c: Caps, io: Io, e: Event)
    requires c.negotiating && e.message.Some?
    ensures Opens(c, io, OnACK(c, io, e))
  {
    hide Fields, AckAll, AddedAll, EndNegotiation, Count, CountEnds;
    var words := Fields(Trailing(e));
    AckAllFields(c, words);
    CapEventsSame(io, words, CapPreEnd);
    EndNegotiationOnce(AckAll(c, words), EmitAll(io, AddedAll(words)));
  }

  lemma OnNAKOpens(c: Caps, io: Io, e: Event)
    requires c.negotiating && e.message.Some?
    ensures Opens(c, io, OnNAK(c, io, e))
  {
    hide Fields, EndNegotiation, Count, CountEnds;
    EndNegotiationOnce(c.(pending := c.pending - Elements(Fields(Trailing(e)))), io);
  }

  /** The history parts that OneRound reads, after a task. */
  lemma TaskObserved(su: Setup, w: World, h: History)
    requires w.todo != []
    ensures var h' := Observe(su, w, h, RunTask);
            && h'.rounds == h.rounds + Emitted(w, Next(su, w, RunTask), CapPreEnd)
            && h'.connects == h.connects + (if w.todo[0].handler == CapsOnConnected then 1 else 0)
            && h'.lsHandled == h.lsHandled + (if w.todo[0].handler == CapsOnLS then 1 else 0)
  {
    hide Next, Count, Answers;
  }

  lemma OpenRound(w: World, h: History, w': World, h': History)
    requires OneRound(w, h) && h.rounds == 0
    requires Opens(w.caps, w.io, Result(w'.caps, w'.io, true))
    requires h'.rounds == h.rounds + Emitted(w, w', CapPreEnd)
    requires h'.connects == h.connects && h'.lsHandled >= h.lsHandled && h'.lsHandled > 0
    ensures OneRound(w', h')
  {
    hide Count, CountEnds;
  }

  lemma IdleKeeps(w: World, h: History, w': World, h': History)
    requires OneRound(w, h) && Idle(w, w')
    requires h'.rounds == h.rounds && h'.connects == h.connects && h'.lsHandled == h.lsHandled
    ensures OneRound(w', h')
  {
    hide Count, CountEnds;
  }

  lemma LSKeeps(su: Setup, w: World, h: History)
    requires OneRound(w, h) && Allowed(w, h, RunTask) && w.todo != [] && w.todo[0].handler == CapsOnLS
    ensures OneRound(Next(su, w, RunTask), Observe(su, w, h, RunTask))
  {
    var w', r := Next(su, w, RunTask), OnLS(w.caps, w.io, su.net, w.todo[0].event);
    assert w'.caps == r.caps && w'.io == r.io;
    hide Next, OnLS, Observe, Count, CountEnds;
    OnLSOpens(w.caps, w.io, su.net, w.todo[0].event);
    TaskObserved(su, w, h);
    OpenRound(w, h, w', Observe(su, w, h, RunTask));
  }

  lemma AnswerKeeps(su: Setup, w: World, h: History)
    requires OneRound(w, h) && Allowed(w, h, RunTask) && w.todo != []
    requires w.todo[0].handler in {CapsOnACK, CapsOnNAK} && w.caps.negotiating
    ensures OneRound(Next(su, w, RunTask), Observe(su, w, h, RunTask))
  {
    var e := w.todo[0].event;
    var w' := Next(su, w, RunTask);
    var r := if w.todo[0].handler == CapsOnACK then OnACK(w.caps, w.io, e) else OnNAK(w.caps, w.io, e);
    assert w'.caps == r.caps && w'.io == r.io;
    hide Next, OnACK, OnNAK, Observe, Count, CountEnds, Named;
    OnACKOpens(w.caps, w.io, e);
    OnNAKOpens(w.caps, w.io, e);
    TaskObserved(su, w, h);
    assert w.caps.pending != {};
    OpenRound(w, h, w', Observe(su, w, h, RunTask));
  }

  lemma ConnectedKeeps(su: Setup, w: World, h: History)
    requires OneRound(w, h) && Allowed(w, h, RunTask) && w.todo != [] && w.todo[0].handler == CapsOnConnected
    ensures OneRound(Next(su, w, RunTask), Observe(su, w, h, RunTask))
  {
    hide Count, CountEnds, Observe;
    OnConnectedQuiet(w.caps, w.io, su.net);
    TaskObserved(su, w, h);
  }

  lemma NewKeeps(su: Setup, w: World, h: History)
    requires OneRound(w, h) && Allowed(w, h, RunTask) && w.todo != [] && w.todo[0].handler == CapsOnNEW
    ensures OneRound(Next(su, w, RunTask), Observe(su, w, h, RunTask))
  {
    hide Count, CountEnds, Observe, ProcessNew;
    var e := w.todo[0].event;
    ProcessNewQuiet(w.caps, w.io, su.net, Trailing(e));
    ProcessNewFrame(w.caps, w.io, su.net, Trailing(e));
    TaskObserved(su, w, h);
  }

  lemma OtherTaskIdle(su: Setup, w: World)
    requires w.todo != []
    requires w.todo[0].handler !in {CapsOnLS, CapsOnConnected, CapsOnNEW, CapsOnEnd}
    requires w.todo[0].handler in {CapsOnACK, CapsOnNAK} ==> !w.caps.negotiating
    ensures Idle(w, Next(su, w, RunTask))
  {
    hide Count, CountEnds, OnACK, OnNAK, OnDEL;
    var h := w.todo[0].handler;
    if SaslHandler(h) {
      SaslTask(su, w);
    } else if QuietHandler(h) {
      QuietTask(su, w);
    } else if h == CapsOnDEL {
      OnDELQuiet(w.caps, w.io, w.todo[0].event);
      DELFrame(w.caps, w.io, w.todo[0].event);
    } else if h in {CapsOnACK, CapsOnNAK} {
      IgnoredAnswer(w.caps, w.io, w.todo[0].event);
    }
  }

  lemma DELFrame(c: Caps, io: Io, e: Event)
    ensures OnDEL(c, io, e).caps == c.(acked := OnDEL(c, io, e).caps.acked)
  {
  }

  lemma IgnoredAnswer(c: Caps, io: Io, e: Event)
    requires !c.negotiating
    ensures OnACK(c, io, e) == Result(c, io, true) && OnNAK(c, io, e) == Result(c, io, true)
  {
  }

  lemma NoEndAtHead(su: Setup, w: World, h: History)
    requires Counted(su, w, h) && w.todo != []
    ensures w.todo[0].handler != CapsOnEnd
  {
    PopCounts(w.todo, CapsOnEnd);
    hide Count, CountEnds, Below, WaitersCounted, ListenerCount, SaslHandler;
  }

  lemma TaskKeepsRound(su: Setup, w: World, h: History)
    requires Counted(su, w, h) && OneRound(w, h) && Allowed(w, h, RunTask) && w.todo != []
    ensures OneRound(Next(su, w, RunTask), Observe(su, w, h, RunTask))
  {
    hide *;
    var k := w.todo[0].handler;
    NoEndAtHead(su, w, h);
    if k == CapsOnLS {
      LSKeeps(su, w, h);
    } else if k == CapsOnConnected {
      ConnectedKeeps(su, w, h);
    } else if k == CapsOnNEW {
      NewKeeps(su, w, h);
    } else if k in {CapsOnACK, CapsOnNAK} && w.caps.negotiating {
      AnswerKeeps(su, w, h);
    } else {
      OtherTaskIdle(su, w);
      TaskObserved(su, w, h);
      IdleEmitsNothing(w, Next(su, w, RunTask));
      IdleKeeps(w, h, Next(su, w, RunTask), Observe(su, w, h, RunTask));
    }
  }

  lemma IdleEmitsNothing(w: World, w': World)
    requires Idle(w, w')
    ensures Emitted(w, w', CapPreEnd) == 0
  {
    hide Count, CountEnds;
  }

  lemma OtherObserved(su: Setup, w: World, h: History, step: Step)
    requires step != RunTask
    ensures var h' := Observe(su, w, h, step);
            && h'.rounds == h.rounds + (if step == Dispatch then 0 else Emitted(w, Next(su, w, step), CapPreEnd))
            && h'.connects == h.connects && h'.lsHandled == h.lsHandled
  {
    hide Next, Count;
  }

  lemma WaiterKeepsRound(su: Setup, w: World, h: History, step: Step)
    requires OneRound(w, h) && WaiterStep(step) && Enabled(su, w, step)
    ensures OneRound(Next(su, w, step), Observe(su, w, h, step))
  {
    hide Count, CountEnds, Observe;
    OtherObserved(su, w, h, step);
    var c := if step.ReadyWaiter? then w.caps.(tokens := w.caps.tokens - 1) else w.caps;
    CapEndCounts(DropWaiter(c, step.i), w.io, su.net);
    assert |w.caps.waiters| == 1;
  }

  lemma OutsideCaps(su: Setup, w: World, step: Step)
    requires OutsideStep(step) && !step.CapsReset?
    ensures Next(su, w, step).caps == w.caps
  {
    hide OnTimer, OnRegTimer, AbortSession, ResetSasl, SendOrReport;
  }

  lemma OtherIdle(su: Setup, w: World, step: Step)
    requires step != RunTask && step != Dispatch && !step.CapsReset?
    requires !(WaiterStep(step) && Enabled(su, w, step))
    ensures Idle(w, Next(su, w, step))
  {
    hide Count, CountEnds, EventsOf, LineEvents;
    if Enabled(su, w, step) {
      if OutsideStep(step) {
        OutsideFacts(su, w, step);
        OutsideCaps(su, w, step);
      } else if step.Signal? {
        SignalsEmit(w.io, Plain(CapEndReady));
      } else {
        LineSignals(w.io, step.msg);
      }
    }
  }

  lemma QueueStepKeepsRound(su: Setup, w: World, h: History, step: Step)
    requires OneRound(w, h) && step in {Dispatch, RunTask} && (step == RunTask ==> w.todo == [])
    ensures OneRound(Next(su, w, step), Observe(su, w, h, step))
  {
    hide Count, CountEnds, HandlersOf, Handle, EventsOf;
  }

  lemma StepKeepsRound(su: Setup, w: World, h: History, step: Step)
    requires Counted(su, w, h) && OneRound(w, h) && Allowed(w, h, step)
    ensures OneRound(Next(su, w, step), Observe(su, w, h, step))
  {
    hide Next, Observe, Count, CountEnds, OneRound, Counted;
    if step == RunTask && w.todo != [] {
      TaskKeepsRound(su, w, h);
    } else if WaiterStep(step) && Enabled(su, w, step) {
      WaiterKeepsRound(su, w, h, step);
    } else if step in {Dispatch, RunTask} {
      QueueStepKeepsRound(su, w, h, step);
    } else {
      assert !step.CapsReset?;
      OtherIdle(su, w, step);
      OtherObserved(su, w, h, step);
      IdleKeeps(w, h, Next(su, w, step), Observe(su, w, h, step));
    }
  }

  lemma {:induction false} OneRoundAlways(su: Setup, steps: seq<Step>)
    requires WellBehaved(su, steps)
    ensures OneRound(Run(su, steps), HistoryOf(su, steps))
    decreases |steps|
  {
    if steps != [] {
      var before := steps[..|steps| - 1];
      assert forall i | 0 <= i < |before| :: before[..i] == steps[..i] && before[i] == steps[i];
      OneRoundAlways(su, before);
      CountedAlways(su, before);
      StepKeepsRound(su, Run(su, before), HistoryOf(su, before), steps[|steps| - 1]);
    }
  }

  /**
   Main result: against a well-behaved server the guard of EndCapabilityNegotiation is passed at most
   once and CAP END is sent at most once; and the step that sends it finds nothing pending and every
   capability ever requested answered by an ACK or NAK.
   */
  lemma {:induction false} EndsOnceAndAnswered(su: Setup, steps: seq<Step>, step: Step)
    requires WellBehaved(su, steps)
    ensures var w, h := Run(su, steps), HistoryOf(su, steps);
            && h.rounds <= 1 && CountEnds(w.io.log) <= 1
            && (CountEnds(Next(su, w, step).io.log) > CountEnds(w.io.log) ==>
                  w.caps.pending == {} && h.everPending <= h.answered)
  {
    var w, h := Run(su, steps), HistoryOf(su, steps);
    OneRoundAlways(su, steps);
    CountedAlways(su, steps);
    PendingAccounted(su, steps);
    if CountEnds(Next(su, w, step).io.log) > CountEnds(w.io.log) {
      OnlyWaitersEnd(su, w, h, step);
    }
  }

  /** CAP END is sent by a waiter and by nothing else. */
  lemma OnlyWaitersEnd(su: Setup, w: World, h: History, step: Step)
    requires Counted(su, w, h)
    requires CountEnds(Next(su, w, step).io.log) > CountEnds(w.io.log)
    ensures WaiterStep(step) && w.caps.waiters != []
  {
    hide Count, CountEnds, CountTasks;
    if step == RunTask && w.todo != [] {
      PopCounts(w.todo, CapsOnEnd);
      TaskEndsNothing(su, w);
    } else if step != Dispatch && step != RunTask && !step.CapsReset? && !(WaiterStep(step) && Enabled(su, w, step)) {
      OtherIdle(su, w, step);
    }
  }

  lemma TaskEndsNothing(su: Setup, w: World)
    requires w.todo != [] && w.todo[0].handler != CapsOnEnd
    ensures CountEnds(Next(su, w, RunTask).io.log) == CountEnds(w.io.log)
  {
    hide Count, CountEnds;
    var h := w.todo[0].handler;
    if SaslHandler(h) {
      SaslTask(su, w);
    } else if QuietHandler(h) {
      QuietTask(su, w);
    } else if h != CapsOnEndReady {
      CapsTask(su, w);
    }
  }

  lemma Prefixed(su: Setup, steps: seq<Step>, step: Step)
    requires WellBehaved(su, steps + [step])
    ensures WellBehaved(su, steps)
  {
    hide Run, HistoryOf, Allowed;
    var all := steps + [step];
    assert forall i | 0 <= i < |steps| :: steps[..i] == all[..i] && steps[i] == all[i];
  }

  /**
   The results together: against a well-behaved server, with listeners that signal at most once, CAP END
   sent before any timer means that every listener is ready, the SASL handler too, and SASL is not
   active; and the step that sends it finds every request answered.
   */
  lemma {:induction false} OrderlyEnd(su: Setup, steps: seq<Step>, step: Step)
    requires WellBehaved(su, steps + [step])
    ensures var w, h := Run(su, steps), HistoryOf(su, steps);
            var w', h' := Run(su, steps + [step]), HistoryOf(su, steps + [step]);
            && (CountEnds(w'.io.log) > 0 && !h'.repeated && !h'.endedByTimer ==>
                  h'.signalled == Below(su.listeners) && (su.hasSasl ==> h'.saslSignals == 1 && !Active(w'.sasl)))
            && (CountEnds(w'.io.log) > CountEnds(w.io.log) ==> w.caps.pending == {} && h.everPending <= h.answered)
  {
    Prefixed(su, steps, step);
    OneRoundAlways(su, steps + [step]);
    CapEndMeansReady(su, steps + [step]);
    EndsOnceAndAnswered(su, steps, step);
    RunSnoc(su, steps, step);
    hide Run, HistoryOf, Next, WellBehaved;
  }
}
