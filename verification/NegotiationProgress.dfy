/**
 Progress. A waiter that nobody cancels and whose timer does not fire is left over only while some
 listener has not signalled; so, when the library has come to rest, CAP END is out exactly if all have.
 */
module NegotiationProgress {
  import opened Message
  import opened Events
  import opened EventBus
  import opened Io
  import opened Capabilities
  import opened Negotiation
  import opened NegotiationSafety
  import opened NegotiationRounds
  import opened NegotiationDrain

  /** No signal is lost: those given are queued, being handled, buffered or received. */
  predicate NoneLost(w: World, h: History) {
    h.consumed + w.caps.tokens + CountTasks(w.todo, CapsOnEndReady) + Count(w.io.queue, CapEndReady)
    >= h.saslSignals + |h.signalled|
  }

  function Ready(x: Waiter): nat {
    if x.Counting? then x.ready else 0
  }

  /** With one round the only waiter has received every token there was. */
  predicate OneReceiver(w: World, h: History) {
    && (w.caps.waiters == [] && CountEnds(w.io.log) == 0 ==> h.consumed == 0)
    && (w.caps.waiters != [] ==> h.consumed <= Ready(w.caps.waiters[0]))
  }

  /** Every waiter counting has not had enough yet. */
  predicate StillCounting(waiters: seq<Waiter>) {
    forall i | 0 <= i < |waiters| && waiters[i].Counting? :: waiters[i].ready < waiters[i].expected
  }

  // ---------- no signal is lost ----------

  lemma SignalsBelowBuffer(su: Setup, w: World, h: History)
    requires Counted(su, w, h) && !h.repeated && h.rounds <= 1 && ListenerCount(su) <= READY_BUFFER
    requires CountTasks(w.todo, CapsOnEndReady) > 0
    ensures w.caps.tokens < READY_BUFFER
  {
    hide CountTasks, Count, CountEnds, WaitersCounted;
    BelowSize(su.listeners);
    SubsetSize(h.signalled, Below(su.listeners));
  }

  lemma TaskLosesNothing(su: Setup, w: World, h: History)
    requires NoneLost(w, h) && w.todo != [] && w.todo[0].handler != CapsOnEnd
    requires w.todo[0].handler == CapsOnEndReady ==> w.caps.tokens < READY_BUFFER
    ensures NoneLost(Next(su, w, RunTask), Observe(su, w, h, RunTask))
  {
    hide Next, Observe, Count, CountTasks, CountEnds;
    TaskHistory(su, w, h);
    PopCounts(w.todo, CapsOnEndReady);
    if SaslHandler(w.todo[0].handler) {
      SaslTask(su, w);
    } else if QuietHandler(w.todo[0].handler) {
      QuietTask(su, w);
    } else if w.todo[0].handler != CapsOnEndReady {
      CapsTask(su, w);
    } else {
      EndReadyTask(su, w);
    }
  }

  lemma EndReadyTask(su: Setup, w: World)
    requires w.todo != [] && w.todo[0].handler == CapsOnEndReady
    ensures var w' := Next(su, w, RunTask);
            w'.todo == w.todo[1..] && w'.io == w.io && w'.caps.waiters == w.caps.waiters
            && w'.caps.tokens == w.caps.tokens + if w.caps.tokens < READY_BUFFER then 1 else 0
  {
  }

  lemma DispatchLosesNothing(su: Setup, w: World, h: History)
    requires NoneLost(w, h) && Enabled(su, w, Dispatch)
    ensures NoneLost(Next(su, w, Dispatch), Observe(su, w, h, Dispatch))
  {
    hide Next, Observe, Count, CountTasks, HandlersOf, TasksOf;
    DispatchFacts(su, w, h);
    CountDispatched(su, w.reg, w.io.queue[0]);
  }

  /** What a waiter's step does to the tokens and what it has received. */
  lemma WaiterStepFacts(su: Setup, w: World, h: History, step: Step)
    requires WaiterStep(step) && Enabled(su, w, step)
    ensures var w', h' := Next(su, w, step), Observe(su, w, h, step);
            var taken := if step.ReadyWaiter? then 1 else 0;
            && w'.todo == w.todo && w'.io.queue == w.io.queue && w'.caps.tokens == w.caps.tokens - taken
            && h'.consumed == h.consumed + taken && h'.saslSignals == h.saslSignals && h'.signalled == h.signalled
  {
    if FinishesByReady(su, w, step) || step.TimeOutWaiter? {
      FinishQueue(su, w, step);
      FinishObserved(su, w, h, step);
      hide Observe;
    } else {
      WaiterObserved(su, w, h, step);
      hide Observe;
    }
  }

  lemma FinishQueue(su: Setup, w: World, step: Step)
    requires Enabled(su, w, step) && WaiterStep(step)
    ensures Next(su, w, step).io.queue == w.io.queue
  {
  }

  /** A step that is none of the library's own calls and no waiter's changes neither side of the count. */
  lemma OutsideLosesNothing(su: Setup, w: World, h: History, step: Step)
    requires NoneLost(w, h) && Enabled(su, w, step) && (OutsideStep(step) || step.ServerLine?)
    ensures NoneLost(Next(su, w, step), Observe(su, w, h, step))
  {
    hide Next, Observe, Count, CountTasks, CountEnds, EventsOf, LineEvents;
    if OutsideStep(step) {
      OutsideFacts(su, w, step);
      OutsideObserved(su, w, h, step);
    } else {
      LineNext(su, w, step.msg);
      LineSignals(w.io, step.msg);
      LineObserved(su, w, h, step.msg);
    }
  }

  lemma LineNext(su: Setup, w: World, msg: Message)
    requires EventsOf(msg).Some?
    ensures Next(su, w, ServerLine(msg)) == w.(io := EmitAll(w.io, LineEvents(msg)))
  {
    hide EventsOf, LineEvents, EmitAll;
  }

  lemma SignalLosesNothing(su: Setup, w: World, h: History, i: nat)
    requires NoneLost(w, h) && i < su.listeners
    ensures NoneLost(Next(su, w, Signal(i)), Observe(su, w, h, Signal(i)))
  {
    hide Next, Observe, Count, CountTasks;
    SignalFacts(su, w, h, i);
    SignalsEmit(w.io, Plain(CapEndReady));
    AddSize(h.signalled, i);
  }

  lemma DisabledObserved(su: Setup, w: World, h: History, step: Step)
    requires !Enabled(su, w, step)
    ensures Next(su, w, step) == w
    ensures var h' := Observe(su, w, h, step);
            h'.consumed == h.consumed && h'.saslSignals == h.saslSignals && h'.signalled == h.signalled
            && h'.rounds == h.rounds && h'.repeated == h.repeated
  {
    hide Count;
  }

  lemma StepLosesNothing(su: Setup, w: World, h: History, step: Step)
    requires Counted(su, w, h) && NoneLost(w, h)
    requires !h.repeated && h.rounds <= 1 && ListenerCount(su) <= READY_BUFFER
    ensures NoneLost(Next(su, w, step), Observe(su, w, h, step))
  {
    if !Enabled(su, w, step) {
      DisabledObserved(su, w, h, step);
      hide *;
    } else if step == RunTask {
      PopCounts(w.todo, CapsOnEnd);
      PopCounts(w.todo, CapsOnEndReady);
      assert w.todo[0].handler != CapsOnEnd;
      hide Next, Observe, NoneLost, Counted;
      if w.todo[0].handler == CapsOnEndReady {
        SignalsBelowBuffer(su, w, h);
      }
      TaskLosesNothing(su, w, h);
    } else if WaiterStep(step) {
      hide Next, Observe, Counted;
      WaiterStepFacts(su, w, h, step);
    } else if step == Dispatch {
      hide *;
      DispatchLosesNothing(su, w, h);
    } else if step.Signal? {
      hide Next, Observe, NoneLost;
      SignalLosesNothing(su, w, h, step.listener);
    } else {
      hide Next, Observe, NoneLost, Counted;
      OutsideLosesNothing(su, w, h, step);
    }
  }

  /** Rounds and repeats only accumulate. */
  lemma HistoryGrows(su: Setup, w: World, h: History, step: Step)
    requires w.todo != [] ==> w.todo[0].handler != CapsOnEnd
    ensures var h' := Observe(su, w, h, step);
            h.rounds <= h'.rounds && (h.repeated ==> h'.repeated) && (h.endedByTimer ==> h'.endedByTimer)
  {
    RoundsObserved(su, w, h, step);
    if step != Dispatch {
      StepBalanced(su, w, step);
    }
    hide Next, Count, Opening, Cancels;
  }

  lemma {:induction false} NoneLostAlways(su: Setup, steps: seq<Step>)
    requires ListenerCount(su) <= READY_BUFFER
    ensures var w, h := Run(su, steps), HistoryOf(su, steps);
            h.rounds <= 1 && !h.repeated ==> NoneLost(w, h)
    decreases |steps|
  {
    if steps != [] {
      var before, step := steps[..|steps| - 1], steps[|steps| - 1];
      NoneLostAlways(su, before);
      var w, h := Run(su, before), HistoryOf(su, before);
      CountedAlways(su, before);
      NoEndTask(su, before);
      HistoryGrows(su, w, h, step);
      hide Next, Observe, NoneLost, Counted;
      if h.rounds <= 1 && !h.repeated {
        StepLosesNothing(su, w, h, step);
      }
    }
  }

  // ---------- one waiter gets them all ----------

  /** Outside the waiters' own steps at most a fresh waiter is added. */
  predicate SameOrFresh(w: World, w': World) {
    (w'.caps.waiters == w.caps.waiters || w'.caps.waiters == w.caps.waiters + [Fresh])
    && CountEnds(w'.io.log) == CountEnds(w.io.log)
  }

  lemma TaskAddsFresh(su: Setup, w: World)
    requires w.todo != [] && w.todo[0].handler != CapsOnEnd
    ensures SameOrFresh(w, Next(su, w, RunTask))
  {
    hide Next, Count, CountEnds;
    if SaslHandler(w.todo[0].handler) {
      SaslTask(su, w);
    } else if QuietHandler(w.todo[0].handler) {
      QuietTask(su, w);
    } else if w.todo[0].handler != CapsOnEndReady {
      CapsTask(su, w);
    } else {
      EndReadyTask(su, w);
    }
  }

  lemma OtherAddsNothing(su: Setup, w: World, step: Step)
    requires step != RunTask && !WaiterStep(step) && Enabled(su, w, step)
    ensures SameOrFresh(w, Next(su, w, step))
  {
    hide Next, Count, CountEnds, EventsOf, LineEvents;
    if OutsideStep(step) {
      OutsideFacts(su, w, step);
    } else if step.ServerLine? {
      LineNext(su, w, step.msg);
    } else if step == Dispatch {
      DispatchSame(su, w);
    } else {
      SignalFacts(su, w, NO_HISTORY, step.listener);
    }
  }

  lemma ConsumedOnlyByWaiters(su: Setup, w: World, h: History, step: Step)
    requires !step.ReadyWaiter?
    ensures Observe(su, w, h, step).consumed == h.consumed
  {
    hide Next, Count;
  }

  lemma FreshKeeps(w: World, h: History, w': World, h': History)
    requires OneReceiver(w, h) && StillCounting(w.caps.waiters)
    requires SameOrFresh(w, w') && h'.consumed == h.consumed && |w'.caps.waiters| + CountEnds(w'.io.log) <= 1
    ensures OneReceiver(w', h') && StillCounting(w'.caps.waiters)
  {
    hide CountEnds;
  }

  lemma WaiterKeepsReceiver(su: Setup, w: World, h: History, step: Step)
    requires OneReceiver(w, h) && StillCounting(w.caps.waiters) && |w.caps.waiters| <= 1
    requires WaiterStep(step) && Enabled(su, w, step) && !step.CancelWaiter?
    ensures OneReceiver(Next(su, w, step), Observe(su, w, h, step)) && StillCounting(Next(su, w, step).caps.waiters)
  {
    hide Count, CountEnds, Observe;
    WaiterStepFacts(su, w, h, step);
    var c := if step.ReadyWaiter? then w.caps.(tokens := w.caps.tokens - 1) else w.caps;
    CapEndCounts(DropWaiter(c, step.i), w.io, su.net);
    assert |w.caps.waiters| == 1 && step.i == 0;
  }

  lemma ReceiverStep(su: Setup, w: World, h: History, step: Step)
    requires OneReceiver(w, h) && StillCounting(w.caps.waiters) && !step.CancelWaiter?
    requires w.todo != [] ==> w.todo[0].handler != CapsOnEnd
    requires |w.caps.waiters| <= 1
    requires var w' := Next(su, w, step); |w'.caps.waiters| + CountEnds(w'.io.log) <= 1
    ensures OneReceiver(Next(su, w, step), Observe(su, w, h, step)) && StillCounting(Next(su, w, step).caps.waiters)
  {
    if !Enabled(su, w, step) {
      DisabledObserved(su, w, h, step);
      hide Next, Observe, CountEnds;
    } else if WaiterStep(step) {
      hide Next, Observe, OneReceiver, StillCounting, CountEnds;
      WaiterKeepsReceiver(su, w, h, step);
    } else {
      hide Next, Observe, OneReceiver, StillCounting, SameOrFresh, CountEnds;
      ConsumedOnlyByWaiters(su, w, h, step);
      if step == RunTask {
        TaskAddsFresh(su, w);
      } else {
        OtherAddsNothing(su, w, step);
      }
      FreshKeeps(w, h, Next(su, w, step), Observe(su, w, h, step));
    }
  }

  lemma {:induction false} ReceiverAlways(su: Setup, steps: seq<Step>)
    requires NoCancel(steps)
    ensures var w, h := Run(su, steps), HistoryOf(su, steps);
            h.rounds <= 1 ==> OneReceiver(w, h) && StillCounting(w.caps.waiters)
    decreases |steps|
  {
    if steps != [] {
      var before, step := steps[..|steps| - 1], steps[|steps| - 1];
      assert NoCancel(before) && !step.CancelWaiter?;
      ReceiverAlways(su, before);
      var w, h := Run(su, before), HistoryOf(su, before);
      NoEndTask(su, before);
      HistoryGrows(su, w, h, step);
      RoundsAreOpenings(su, before);
      RoundsAreOpenings(su, steps);
      NothingCancelled(su, before);
      NothingCancelled(su, steps);
      hide Next, Observe, OneReceiver, StillCounting, Openings, Cancellations, CountEnds;
      if HistoryOf(su, steps).rounds <= 1 {
        ReceiverStep(su, w, h, step);
      }
    }
  }

  // ---------- at rest ----------

  /** The library has nothing left to do by itself. */
  ghost predicate AtRest(su: Setup, w: World) {
    forall s | SelfStep(s) :: !Enabled(su, w, s)
  }

  predicate AllReady(su: Setup, h: History) {
    h.signalled == Below(su.listeners) && (su.hasSasl ==> h.saslSignals >= 1)
  }

  lemma LeftOver(su: Setup, w: World, h: History)
    requires Counted(su, w, h) && NoneLost(w, h) && OneReceiver(w, h) && StillCounting(w.caps.waiters)
    requires w.todo == [] && w.io.queue == [] && w.caps.tokens == 0
    requires w.caps.waiters != [] && w.caps.waiters[0].Counting?
    ensures !AllReady(su, h)
  {
    hide CountEnds;
    BelowSize(su.listeners);
    assert w.caps.waiters[0].expected == ListenerCount(su);
  }

  /**
   Main result: at rest, after one round, without a cancelled waiter or a timeout and with listeners that
   signal once, CAP END has been sent if and only if every listener has signalled, the SASL handler too.
   */
  lemma {:induction false} EndSentExactlyWhenAllReady(su: Setup, steps: seq<Step>)
    requires NoCancel(steps) && ListenerCount(su) <= READY_BUFFER
    ensures var w, h := Run(su, steps), HistoryOf(su, steps);
            AtRest(su, w) && h.rounds == 1 && !h.repeated && !h.endedByTimer ==>
              (CountEnds(w.io.log) == 1 <==> AllReady(su, h))
  {
    var w, h := Run(su, steps), HistoryOf(su, steps);
    RoundsAreOpenings(su, steps);
    NothingCancelled(su, steps);
    CountedAlways(su, steps);
    NoneLostAlways(su, steps);
    ReceiverAlways(su, steps);
    CapEndMeansReady(su, steps);
    Stuck(su, w);
    hide Run, HistoryOf, Openings, Cancellations, CountEnds, Counted, NoneLost, OneReceiver, StillCounting, SelfStep, Enabled;
    if AtRest(su, w) && h.rounds == 1 && !h.repeated && !h.endedByTimer && CountEnds(w.io.log) == 0 {
      assert w.caps.waiters[0] in w.caps.waiters;
      LeftOver(su, w, h);
    }
  }
}
