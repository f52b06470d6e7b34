/**
 Exactly how many rounds a run has. A round is one passage of the guard of EndCapabilityNegotiation; it
 emits CapPreEnd and leaves a waiter, and the waiter sends CAP END unless it is cancelled.
 */
module NegotiationRounds {
  import opened GoStrings
  import opened Events
  import opened Wire
  import opened EventBus
  import opened Io
  import opened Capabilities
  import opened Negotiation
  import opened NegotiationSafety

  // ---------- which steps open a round ----------

  /** CAP LS: nothing was asked for, or nothing is pending and nothing wanted is advertised. */
  predicate OpensAtLS(c: Caps, text: string) {
    c.negotiating &&
    (c.requested == [] || (c.pending == {} && Select(NamesOf(Fields(text)), Elements(c.requested)) == []))
  }

  /** ACK or NAK: it names everything that is pending. */
  predicate OpensAtAnswer(c: Caps, e: Event) {
    c.negotiating && e.message.Some? && c.pending <= Elements(Fields(Trailing(e)))
  }

  predicate Opening(w: World, step: Step) {
    step == RunTask && w.todo != [] &&
    (var t := w.todo[0];
     (t.handler == CapsOnLS && OpensAtLS(w.caps, Trailing(t.event))) ||
     (t.handler in {CapsOnACK, CapsOnNAK} && OpensAtAnswer(w.caps, t.event)))
  }

  function Openings(su: Setup, steps: seq<Step>): nat {
    if steps == [] then 0
    else
      var before := steps[..|steps| - 1];
      Openings(su, before) + if Opening(Run(su, before), steps[|steps| - 1]) then 1 else 0
  }

  predicate Cancels(su: Setup, w: World, step: Step) {
    step.CancelWaiter? && Enabled(su, w, step)
  }

  function Cancellations(su: Setup, steps: seq<Step>): nat {
    if steps == [] then 0
    else
      var before := steps[..|steps| - 1];
      Cancellations(su, before) + if Cancels(su, Run(su, before), steps[|steps| - 1]) then 1 else 0
  }

  predicate WaiterStep(step: Step) {
    step.StartWaiter? || step.ReadyWaiter? || step.TimeOutWaiter? || step.CancelWaiter?
  }

  // ---------- the handlers ----------

  /** `n` rounds opened between `c`, `io` and `r`. */
  predicate Opened(c: Caps, io: Io, r: Result, n: nat) {
    && Count(r.io.queue, CapPreEnd) == Count(io.queue, CapPreEnd) + n
    && |r.caps.waiters| == |c.waiters| + n
    && CountEnds(r.io.log) == CountEnds(io.log)
  }

  lemma EndNegotiationOpens(c: Caps, io: Io)
    ensures Opened(c, io, EndNegotiation(c, io), if c.negotiating then 1 else 0)
  {
    CountEmit(io.queue, Internally(CapPreEnd, CapPreEndData(c.acked.Keys, c.acked)), CapPreEnd);
  }

  /** CAP LS sends REQ exactly if something wanted is advertised; then something is pending. */
  lemma OnLSOpened(c: Caps, io: Io, net: Outcomes, e: Event)
    ensures Opened(c, io, OnLS(c, io, net, e), if OpensAtLS(c, Trailing(e)) then 1 else 0)
  {
    var text := Trailing(e);
    ProcessNewQuiet(c, io, net, text);
    ProcessNewFrame(c, io, net, text);
    ProcessedPending(c, io, net, text);
    var r := ProcessNew(c, io, net, text);
    hide ProcessNew, EndNegotiation, Count, CountEnds, Select, NamesOf, Fields, Elements;
    EndNegotiationOpens(r.caps, r.io);
  }

  lemma ProcessedPending(c: Caps, io: Io, net: Outcomes, text: string)
    ensures var r := ProcessNew(c, io, net, text);
            var chosen := Select(NamesOf(Fields(text)), Elements(c.requested));
            && (c.requested == [] || chosen == [] ==> r.ok && r.caps.pending == c.pending)
            && (c.requested != [] && chosen != [] ==> r.caps.pending != {})
  {
    var words := Fields(text);
    hide Fields, Join;
    var names, wanted := NamesOf(words), Elements(c.requested);
    var chosen := Select(names, wanted);
    SelectMeaning(names, wanted);
    AddAvailableKeys(words, c.available);
    SelectAll(chosen, AddAvailable(words, c.available).Keys);
    if chosen != [] {
      assert chosen[0] in Elements(chosen);
    }
    hide NamesOf, AddAvailable, Select;
  }

  lemma AnswerOpened(c: Caps, io: Io, e: Event)
    ensures Opened(c, io, OnACK(c, io, e), if OpensAtAnswer(c, e) then 1 else 0)
    ensures Opened(c, io, OnNAK(c, io, e), if OpensAtAnswer(c, e) then 1 else 0)
  {
    hide Fields, AckAll, AddedAll, EndNegotiation, Count, CountEnds;
    var words := Fields(Trailing(e));
    AckAllFields(c, words);
    CapEventsSame(io, words, CapPreEnd);
    EndNegotiationOpens(AckAll(c, words), EmitAll(io, AddedAll(words)));
    EndNegotiationOpens(c.(pending := c.pending - Elements(words)), io);
    NothingLeft(c.pending, Elements(words));
    hide Elements;
  }

  lemma NothingLeft(a: set<string>, b: set<string>)
    ensures a - b == {} <==> a <= b
  {
    if a - b == {} {
      forall x | x in a ensures x in b {
        assert x !in a - b;
      }
    }
  }

  lemma OtherOpened(c: Caps, io: Io, net: Outcomes, e: Event)
    ensures Opened(c, io, OnConnected(c, io, net), 0)
    ensures Opened(c, io, OnDEL(c, io, e), 0)
    ensures Opened(c, io, OnNEW(c, io, net, e), 0)
  {
    hide Fields, RemovedAll, ProcessNew, Count, CountEnds;
    OnConnectedQuiet(c, io, net);
    OnDELQuiet(c, io, e);
    ProcessNewQuiet(c, io, net, Trailing(e));
    ProcessNewFrame(c, io, net, Trailing(e));
    CapEventsSame(io, Fields(Trailing(e)), CapPreEnd);
  }

  // ---------- one step ----------

  /** `rounds` more rounds, each with a waiter; a waiter that leaves has sent CAP END or was cancelled. */
  predicate Balanced(w: World, w': World, rounds: nat, cancelled: nat) {
    && Emitted(w, w', CapPreEnd) == rounds
    && |w'.caps.waiters| + CountEnds(w'.io.log) + cancelled == |w.caps.waiters| + CountEnds(w.io.log) + rounds
  }

  lemma CapsTaskBalanced(su: Setup, w: World)
    requires w.todo != []
    requires w.todo[0].handler in {CapsOnConnected, CapsOnLS, CapsOnACK, CapsOnNAK, CapsOnDEL, CapsOnNEW, CapsOnEndReady}
    ensures Balanced(w, Next(su, w, RunTask), if Opening(w, RunTask) then 1 else 0, 0)
  {
    hide Count, CountEnds, OnLS, OnACK, OnNAK, OnDEL, OnNEW, OnConnected, OpensAtLS, OpensAtAnswer;
    var e := w.todo[0].event;
    match w.todo[0].handler
    case CapsOnLS => OnLSOpened(w.caps, w.io, su.net, e);
    case CapsOnACK => AnswerOpened(w.caps, w.io, e);
    case CapsOnNAK => AnswerOpened(w.caps, w.io, e);
    case CapsOnEndReady =>
    case _ => OtherOpened(w.caps, w.io, su.net, e);
  }

  lemma TaskBalanced(su: Setup, w: World)
    requires w.todo != [] && w.todo[0].handler != CapsOnEnd
    ensures Balanced(w, Next(su, w, RunTask), if Opening(w, RunTask) then 1 else 0, 0)
  {
    hide Next, Count, CountEnds, OpensAtLS, OpensAtAnswer;
    if SaslHandler(w.todo[0].handler) {
      SaslTask(su, w);
    } else if QuietHandler(w.todo[0].handler) {
      QuietTask(su, w);
    } else {
      CapsTaskBalanced(su, w);
    }
  }

  lemma WaiterBalanced(su: Setup, w: World, step: Step)
    requires WaiterStep(step) && Enabled(su, w, step)
    ensures Balanced(w, Next(su, w, step), 0, if step.CancelWaiter? then 1 else 0)
  {
    hide Count, CountEnds;
    var c := if step.ReadyWaiter? then w.caps.(tokens := w.caps.tokens - 1) else w.caps;
    CapEndCounts(DropWaiter(c, step.i), w.io, su.net);
  }

  lemma OtherBalanced(su: Setup, w: World, step: Step)
    requires Enabled(su, w, step) && step != RunTask && step != Dispatch && !WaiterStep(step)
    ensures Balanced(w, Next(su, w, step), 0, 0)
  {
    hide Count, CountEnds, EventsOf, LineEvents;
    if OutsideStep(step) {
      OutsideFacts(su, w, step);
    } else if step.Signal? {
      SignalsEmit(w.io, Plain(CapEndReady));
    } else {
      LineSignals(w.io, step.msg);
    }
  }

  /** The law of one step, for every world in which no CapEnd event is being handled. */
  lemma StepBalanced(su: Setup, w: World, step: Step)
    requires w.todo != [] ==> w.todo[0].handler != CapsOnEnd
    requires step != Dispatch
    ensures Balanced(w, Next(su, w, step), if Opening(w, step) then 1 else 0, if Cancels(su, w, step) then 1 else 0)
  {
    hide Balanced, OpensAtLS, OpensAtAnswer;
    if !Enabled(su, w, step) {
      NothingBalanced(w);
    } else if step == RunTask {
      hide Next;
      TaskBalanced(su, w);
    } else if WaiterStep(step) {
      hide Next;
      WaiterBalanced(su, w, step);
    } else {
      hide Next;
      OtherBalanced(su, w, step);
    }
  }

  lemma NothingBalanced(w: World)
    ensures Balanced(w, w, 0, 0)
  {
  }

  // ---------- whole runs ----------

  lemma RoundsObserved(su: Setup, w: World, h: History, step: Step)
    ensures Observe(su, w, h, step).rounds ==
            h.rounds + if step == Dispatch then 0 else Emitted(w, Next(su, w, step), CapPreEnd)
  {
    hide Next, Count;
  }

  lemma DispatchSame(su: Setup, w: World)
    ensures var w' := Next(su, w, Dispatch); w'.caps == w.caps && w'.io.log == w.io.log && w'.sasl == w.sasl
  {
    hide HandlersOf, TasksOf;
  }

  /**
   Main result: over every run the rounds are exactly the opening steps, and each has a waiter, or a
   CAP END, or a cancelled waiter.
   */
  lemma {:induction false} RoundsAreOpenings(su: Setup, steps: seq<Step>)
    ensures var w, h := Run(su, steps), HistoryOf(su, steps);
            && h.rounds == Openings(su, steps)
            && |w.caps.waiters| + CountEnds(w.io.log) + Cancellations(su, steps) == Openings(su, steps)
    decreases |steps|
  {
    if steps != [] {
      var before, step := steps[..|steps| - 1], steps[|steps| - 1];
      RoundsAreOpenings(su, before);
      var w, h := Run(su, before), HistoryOf(su, before);
      NoEndTask(su, before);
      hide Next, Observe, Opening, Cancels, Count, CountEnds;
      RoundsObserved(su, w, h, step);
      if step == Dispatch {
        DispatchSame(su, w);
        DispatchOpensNothing(su, w);
      } else {
        StepBalanced(su, w, step);
      }
    }
  }

  lemma DispatchOpensNothing(su: Setup, w: World)
    ensures !Opening(w, Dispatch) && !Cancels(su, w, Dispatch)
  {
  }

  lemma NoEndTask(su: Setup, steps: seq<Step>)
    ensures var w := Run(su, steps); w.todo != [] ==> w.todo[0].handler != CapsOnEnd
  {
    var w := Run(su, steps);
    CountedAlways(su, steps);
    if w.todo != [] {
      PopCounts(w.todo, CapsOnEnd);
    }
    hide Run, HistoryOf;
  }

  // ---------- at most one CAP END ----------

  predicate NoCancel(steps: seq<Step>) {
    forall i | 0 <= i < |steps| :: !steps[i].CancelWaiter?
  }

  lemma {:induction false} NothingCancelled(su: Setup, steps: seq<Step>)
    requires NoCancel(steps)
    ensures Cancellations(su, steps) == 0
  {
    if steps != [] {
      NothingCancelled(su, steps[..|steps| - 1]);
    }
  }

  /** In a run without cancelled waiters, once no waiter is left, CAP END was sent once for each opening step. */
  lemma {:induction false} EndsAreOpenings(su: Setup, steps: seq<Step>)
    requires NoCancel(steps) && Run(su, steps).caps.waiters == []
    ensures CountEnds(Run(su, steps).io.log) == Openings(su, steps)
  {
    RoundsAreOpenings(su, steps);
    NothingCancelled(su, steps);
  }

  /** The waiters' own steps. */
  predicate WaitersOnly(steps: seq<Step>) {
    forall i | 0 <= i < |steps| :: steps[i].StartWaiter? || steps[i].ReadyWaiter? || steps[i].TimeOutWaiter?
  }

  lemma {:induction false} WaitersOpenNothing(su: Setup, steps: seq<Step>, more: seq<Step>)
    requires WaitersOnly(more)
    ensures Openings(su, steps + more) == Openings(su, steps)
    decreases |more|
  {
    if more == [] {
      assert steps + more == steps;
    } else {
      var front := more[..|more| - 1];
      WaitersOpenNothing(su, steps, front);
      assert (steps + more)[..|steps + more| - 1] == steps + front;
      hide Run, OpensAtLS, OpensAtAnswer;
    }
  }

  function Finish(n: nat): seq<Step> {
    if n == 0 then [] else Finish(n - 1) + [StartWaiter(0), TimeOutWaiter(0)]
  }

  lemma PairFinishes(su: Setup, w: World)
    ensures var w' := Next(su, Next(su, w, StartWaiter(0)), TimeOutWaiter(0));
            |w'.caps.waiters| <= if w.caps.waiters == [] then 0 else |w.caps.waiters| - 1
  {
    hide Send, Emit, ListenerCount;
  }

  lemma {:induction false} FinishWaits(n: nat)
    ensures WaitersOnly(Finish(n))
  {
    if n > 0 {
      FinishWaits(n - 1);
    }
  }

  lemma PairRun(su: Setup, steps: seq<Step>)
    ensures |Run(su, steps + [StartWaiter(0), TimeOutWaiter(0)]).caps.waiters|
            <= if Run(su, steps).caps.waiters == [] then 0 else |Run(su, steps).caps.waiters| - 1
  {
    hide *;
    RunSnoc(su, steps, StartWaiter(0));
    RunSnoc(su, steps + [StartWaiter(0)], TimeOutWaiter(0));
    assert steps + [StartWaiter(0)] + [TimeOutWaiter(0)] == steps + [StartWaiter(0), TimeOutWaiter(0)];
    PairFinishes(su, Run(su, steps));
  }

  lemma {:induction false} FinishLeaves(su: Setup, steps: seq<Step>, n: nat)
    ensures |Run(su, steps + Finish(n)).caps.waiters| <=
            if |Run(su, steps).caps.waiters| <= n then 0 else |Run(su, steps).caps.waiters| - n
  {
    hide Run;
    if n == 0 {
      assert steps + Finish(0) == steps;
    } else {
      FinishLeaves(su, steps, n - 1);
      PairRun(su, steps + Finish(n - 1));
      assert steps + Finish(n) == steps + Finish(n - 1) + [StartWaiter(0), TimeOutWaiter(0)];
    }
  }

  /**
   Main result: whatever the waiters still do, at most one CAP END is sent if and only if the run has
   at most one opening step.
   */
  lemma {:induction false} AtMostOneEndExactlyWhen(su: Setup, steps: seq<Step>)
    requires NoCancel(steps)
    ensures (forall more | WaitersOnly(more) :: CountEnds(Run(su, steps + more).io.log) <= 1)
            <==> Openings(su, steps) <= 1
  {
    hide Run, Openings, CountEnds, Finish;
    forall more | WaitersOnly(more)
      ensures CountEnds(Run(su, steps + more).io.log) <= Openings(su, steps)
    {
      WaitersOpenNothing(su, steps, more);
      RoundsAreOpenings(su, steps + more);
    }
    var n := |Run(su, steps).caps.waiters|;
    FinishWaits(n);
    FinishLeaves(su, steps, n);
    WaitersOpenNothing(su, steps, Finish(n));
    EndsAreOpenings(su, steps + Finish(n));
  }
}
