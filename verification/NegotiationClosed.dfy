/**
 After the negotiation. Once CAP END was accepted, and until the connection is greeted again, an ACK or
 NAK has no effect: what CAP NEW makes the handler request stays pending for ever and never gets active.
 */
module NegotiationClosed {
  import opened GoStrings
  import opened Events
  import opened EventBus
  import opened Io
  import opened Capabilities
  import opened Sasl
  import opened Registration
  import opened Keepalive
  import opened Negotiation
  import opened NegotiationSafety
  import opened NegotiationRounds
  import opened CapabilityAccounting

  lemma AddedAllLength(words: seq<string>)
    ensures |AddedAll(words)| == |words|
  {
  }

  /** An answer takes effect if and only if it is handled while negotiating, with a message that says something. */
  lemma AnswerTakesEffectExactlyWhen(c: Caps, io: Io, e: Event)
    ensures var words := Fields(Trailing(e));
            && (OnACK(c, io, e) != Result(c, io, true) <==>
                c.negotiating && e.message.Some? && (words != [] || c.pending == {}))
            && (OnNAK(c, io, e) != Result(c, io, true) <==>
                c.negotiating && e.message.Some? && (Elements(words) * c.pending != {} || c.pending == {}))
  {
    var words := Fields(Trailing(e));
    hide Fields, AckAll, AddedAll;
    AddedAllLength(words);
    NothingLeft(c.pending, Elements(words));
    if c.negotiating && e.message.Some? {
      var r := OnACK(c, io, e);
      assert |r.io.queue| >= |io.queue| + |words|;
      if words == [] {
        AckNothing(c, io);
        assert Elements(words) == {};
      }
      NakDifference(c.pending, Elements(words));
    }
  }

  lemma AckNothing(c: Caps, io: Io)
    ensures AckAll(c, []) == c && EmitAll(io, AddedAll([])) == io
  {
  }

  lemma NakDifference(a: set<string>, b: set<string>)
    ensures a - b == a <==> b * a == {}
  {
    if a - b == a {
      forall x | x in b ensures x !in b * a {
        assert x in a ==> x in a - b;
      }
    } else {
      var x :| x in a && x !in a - b;
      assert x in b * a;
    }
  }

  /** Nothing becomes active, nothing stops being pending, and the negotiation stays closed. */
  predicate StaysClosed(c: Caps, c': Caps) {
    && !c'.negotiating
    && c'.acked.Keys <= c.acked.Keys && (forall k | k in c'.acked :: c'.acked[k] == c.acked[k])
    && c.pending <= c'.pending
  }

  lemma CapsTaskClosed(su: Setup, w: World)
    requires w.todo != [] && CapsHandler(w.todo[0].handler) && w.todo[0].handler != CapsOnConnected
    requires !w.caps.negotiating
    ensures StaysClosed(w.caps, Next(su, w, RunTask).caps)
  {
    hide Fields, ProcessNew, Elements;
    var e := w.todo[0].event;
    ProcessNewFrame(w.caps, w.io, su.net, Trailing(e));
  }

  lemma {:induction false} ClosedStep(su: Setup, w: World, step: Step)
    requires !w.caps.negotiating && !RunsTask(w, step, CapsOnConnected)
    ensures StaysClosed(w.caps, Next(su, w, step).caps)
  {
    if step == RunTask && w.todo != [] && CapsHandler(w.todo[0].handler) {
      CapsTaskClosed(su, w);
    } else {
      hide Handle, EventsOf, HandlersOf, OnTimer, OnRegTimer, AbortSession, ResetSasl, SendOrReport;
      if step == RunTask && w.todo != [] {
        OtherTaskPending(su, w);
      }
    }
  }

  /** Sending CAP END, when it is accepted, closes the negotiation. */
  lemma {:induction false} AcceptedEndCloses(su: Setup, w: World, step: Step)
    requires CountEnds(Next(su, w, step).io.log) > CountEnds(w.io.log)
    ensures var w' := Next(su, w, step);
            |w'.io.log| == |w.io.log| + 1 && (w'.io.log[|w.io.log|].ok ==> !w'.caps.negotiating)
  {
    hide CountEnds;
    if step == RunTask && w.todo != [] && w.todo[0].handler != CapsOnEnd {
      TaskEnds(su, w);
    } else if step != RunTask && !WaiterStep(step) && step != Dispatch && Enabled(su, w, step) {
      OtherBalanced(su, w, step);
      OtherWaiters(su, w, step);
    }
    hide Handle, HandlersOf, EventsOf, LineEvents;
  }

  lemma TaskEnds(su: Setup, w: World)
    requires w.todo != [] && w.todo[0].handler != CapsOnEnd
    ensures CountEnds(Next(su, w, RunTask).io.log) == CountEnds(w.io.log)
  {
    hide Next, Count, CountEnds;
    if SaslHandler(w.todo[0].handler) {
      SaslTask(su, w);
    } else if QuietHandler(w.todo[0].handler) {
      QuietTask(su, w);
    } else if w.todo[0].handler != CapsOnEndReady {
      CapsTask(su, w);
    } else {
      EndReadyLog(su, w);
    }
  }

  lemma EndReadyLog(su: Setup, w: World)
    requires w.todo != [] && w.todo[0].handler == CapsOnEndReady
    ensures Next(su, w, RunTask).io == w.io
  {
  }

  lemma OtherWaiters(su: Setup, w: World, step: Step)
    requires Enabled(su, w, step) && step != RunTask && step != Dispatch && !WaiterStep(step)
    ensures Next(su, w, step).caps.waiters == w.caps.waiters
  {
    hide OnTimer, OnRegTimer, AbortSession, ResetSasl, SendOrReport, EventsOf;
  }

  // ---------- when a negotiation is open ----------

  lemma CapsTaskOpen(su: Setup, w: World)
    requires w.todo != [] && CapsHandler(w.todo[0].handler)
    requires w.todo[0].handler != CapsOnConnected && w.todo[0].handler != CapsOnEnd
    ensures Next(su, w, RunTask).caps.negotiating == w.caps.negotiating
  {
    hide Fields, ProcessNew, AckAll, Elements;
    var e := w.todo[0].event;
    ProcessNewFrame(w.caps, w.io, su.net, Trailing(e));
    AckAllFields(w.caps, Fields(Trailing(e)));
  }

  lemma EndTaskOpen(su: Setup, w: World)
    requires w.todo != [] && w.todo[0].handler == CapsOnEnd
    ensures var w' := Next(su, w, RunTask);
            CountEnds(w'.io.log) == CountEnds(w.io.log) + 1
            && w'.caps.negotiating == (w.caps.negotiating && !su.net(|w.io.log|))
  {
    CapEndCounts(w.caps, w.io, su.net);
    hide CountEnds;
  }

  lemma WaiterOpen(su: Setup, w: World, step: Step)
    requires WaiterStep(step) && Enabled(su, w, step)
    ensures var w' := Next(su, w, step);
            w'.caps.negotiating == if CountEnds(w'.io.log) > CountEnds(w.io.log) then w.caps.negotiating && !su.net(|w.io.log|)
                                   else w.caps.negotiating
  {
    hide Count, CountEnds;
    var c := if step.ReadyWaiter? then w.caps.(tokens := w.caps.tokens - 1) else w.caps;
    CapEndCounts(DropWaiter(c, step.i), w.io, su.net);
  }

  lemma OutsideOpen(su: Setup, w: World, step: Step)
    requires step != RunTask && !WaiterStep(step) && step != CapsReset
    ensures Next(su, w, step).caps == w.caps
  {
    hide OnTimer, OnRegTimer, AbortSession, ResetSasl, SendOrReport, EventsOf, HandlersOf;
  }

  /**
   Main result, every step of every world: handling Connected opens the negotiation if CAP LS was
   accepted, and closes it if not; CAP END closes it if it was accepted; Reset closes it; nothing else
   touches it.
   */
  lemma OpenExactly(su: Setup, w: World, step: Step)
    ensures var w' := Next(su, w, step);
            w'.caps.negotiating ==
            if RunsTask(w, step, CapsOnConnected) then su.net(|w.io.log|)
            else if step == CapsReset then false
            else if CountEnds(w'.io.log) > CountEnds(w.io.log) then w.caps.negotiating && !su.net(|w.io.log|)
            else w.caps.negotiating
  {
    if RunsTask(w, step, CapsOnConnected) || step == CapsReset {
      hide CountEnds;
    } else if step == RunTask && w.todo != [] {
      hide Next, CountEnds;
      if w.todo[0].handler == CapsOnEnd {
        EndTaskOpen(su, w);
      } else {
        TaskEnds(su, w);
        if CapsHandler(w.todo[0].handler) {
          CapsTaskOpen(su, w);
        } else {
          OtherTaskPending(su, w);
        }
      }
    } else if WaiterStep(step) && Enabled(su, w, step) {
      hide Next, CountEnds;
      WaiterOpen(su, w, step);
    } else {
      UntouchedOpen(su, w, step);
    }
  }

  lemma UntouchedOpen(su: Setup, w: World, step: Step)
    requires step == RunTask ==> w.todo == []
    requires WaiterStep(step) ==> !Enabled(su, w, step)
    requires step != CapsReset
    ensures Next(su, w, step).caps == w.caps
  {
    if step != RunTask && !WaiterStep(step) {
      hide Next;
      OutsideOpen(su, w, step);
    }
  }

  predicate NeverGreeted(su: Setup, steps: seq<Step>, more: seq<Step>) {
    forall i | 0 <= i < |more| :: !RunsTask(Run(su, steps + more[..i]), more[i], CapsOnConnected)
  }

  /**
   Main result: from a closed negotiation on, until Connected is handled again, no run of steps makes a
   capability active or takes a name off pendingCaps.
   */
  lemma {:induction false} AnswersAreIgnored(su: Setup, steps: seq<Step>, more: seq<Step>)
    requires !Run(su, steps).caps.negotiating && NeverGreeted(su, steps, more)
    ensures StaysClosed(Run(su, steps).caps, Run(su, steps + more).caps)
    decreases |more|
  {
    hide Run, Next, RunsTask;
    if more == [] {
      assert steps + more == steps;
    } else {
      var front, last := more[..|more| - 1], more[|more| - 1];
      assert forall i | 0 <= i < |front| :: front[..i] == more[..i] && front[i] == more[i];
      AnswersAreIgnored(su, steps, front);
      LastStep(su, steps, more);
      assert more[..|more| - 1] == front;
      ClosedStep(su, Run(su, steps + front), last);
    }
  }
}
