/**
 How often a registration that fails is reported, over every run. The handler emits an Error event when a
 line of its own is refused and when its timer fires, and a refused line leaves the timer armed.
 */
module RegistrationRuns {
  import opened Message
  import opened Events
  import opened Wire
  import opened EventBus
  import opened Io
  import opened Registration
  import opened Negotiation

  predicate RegTask(w: World, step: Step) {
    RunsTask(w, step, RegOnConnected) || RunsTask(w, step, RegOnNumeric) || RunsTask(w, step, RegOnWelcome)
  }

  /** The timer's callback runs. */
  predicate Fires(w: World, step: Step) {
    step == RegTimer && w.reg.timerArmed
  }

  /** PASS, NICK or USER is refused. */
  predicate RefusesGreeting(r: Reg, io: Io, net: Outcomes) {
    r.state == RegInactive && exists i :: |io.log| <= i < |io.log| + |RegistrationLines(r.config)| && !net(i)
  }

  /** The NICK that answers a collision is refused. */
  predicate RefusesCollision(r: Reg, io: Io, net: Outcomes, e: Event) {
    RegActive(r) && e.data.NumericData? && e.data.code == "433" && !net(|io.log|)
  }

  predicate Refuses(su: Setup, w: World, step: Step) {
    (RunsTask(w, step, RegOnConnected) && RefusesGreeting(w.reg, w.io, su.net)) ||
    (RunsTask(w, step, RegOnNumeric) && RefusesCollision(w.reg, w.io, su.net, w.todo[0].event))
  }

  /** Error events the handler emits in a step. */
  function ReportsIn(su: Setup, w: World, step: Step): int {
    if RegTask(w, step) || step == RegTimer then Emitted(w, Next(su, w, step), Error) else 0
  }

  /** Error events the handler has emitted. */
  function Reports(su: Setup, steps: seq<Step>): int {
    if steps == [] then 0
    else
      var before := steps[..|steps| - 1];
      Reports(su, before) + ReportsIn(su, Run(su, before), steps[|steps| - 1])
  }

  predicate Refused(su: Setup, steps: seq<Step>) {
    steps != [] &&
    (var before := steps[..|steps| - 1];
     Refused(su, before) || Refuses(su, Run(su, before), steps[|steps| - 1]))
  }

  predicate TimedOut(su: Setup, steps: seq<Step>) {
    steps != [] &&
    (var before := steps[..|steps| - 1];
     TimedOut(su, before) || Fires(Run(su, before), steps[|steps| - 1]))
  }

  function One(b: bool): nat {
    if b then 1 else 0
  }

  // ---------- one step ----------

  lemma GreetingReports(r: Reg, io: Io, net: Outcomes)
    ensures var r' := OnRegConnected(r, io, net);
            && Count(r'.io.queue, Error) == Count(io.queue, Error) + One(RefusesGreeting(r, io, net))
            && r'.reg == (if r.state != RegInactive then r
                          else r.(state := if RefusesGreeting(r, io, net) then RegFailed else RegStarted, timerArmed := true))
  {
    if r.state == RegInactive {
      RegistrationSends(r, io, net);
      hide OnRegConnected, LogUpTo, InARow;
      var q := OnRegConnected(r, io, net).io.queue;
      if RefusesGreeting(r, io, net) {
        assert q == io.queue + [q[|io.queue|]];
        CountEmit(io.queue, q[|io.queue|], Error);
      }
    }
  }

  lemma CollisionReports(r: Reg, io: Io, net: Outcomes, e: Event)
    ensures var r', refused := OnNumeric(r, io, net, e), RefusesCollision(r, io, net, e);
            && Count(r'.io.queue, Error) == Count(io.queue, Error) + One(refused)
            && r'.reg == if refused then r.(state := RegFailed) else r
  {
    CountEmit(io.queue, ErrorEvent("failed to send NICK command for collision"), Error);
    hide Count;
  }

  /** A collision is answered with the nick and an underscore, while the registration is active; nothing else is. */
  lemma CollisionAnswered(r: Reg, io: Io, net: Outcomes, e: Event)
    ensures var r' := OnNumeric(r, io, net, e);
            r'.io.log == io.log + if r.state == RegStarted && e.data.NumericData? && e.data.code == "433"
                                  then [Attempt("NICK", [r.config.nick + "_"], net(|io.log|))] else []
  {
    assert io.log + [] == io.log;
  }

  /** The welcome completes an active registration, once, and is passed on with the server's name. */
  lemma WelcomeAnswered(r: Reg, io: Io, e: Event)
    requires e.message.Some?
    ensures var r' := OnWelcome(r, io, e);
            && r'.reg == (if r.state == RegStarted then r.(state := RegComplete, timerArmed := false) else r)
            && r'.io == io.(queue := io.queue + if r.state == RegStarted
                                                then [Event(Registered, Option.None, ConnectedData(e.message.value.source))] else [])
  {
    assert io.queue + [] == io.queue;
  }

  lemma WelcomeReports(r: Reg, io: Io, e: Event)
    ensures var r' := OnWelcome(r, io, e);
            && Count(r'.io.queue, Error) == Count(io.queue, Error)
            && r'.reg == if RegActive(r) then r.(state := RegComplete, timerArmed := false) else r
  {
    if e.message.Some? {
      CountEmit(io.queue, Internally(Registered, ConnectedData(e.message.value.source)), Error);
    }
    hide Count;
  }

  lemma TimerReports(r: Reg, io: Io)
    ensures var r' := OnRegTimer(r, io);
            && Count(r'.io.queue, Error) == Count(io.queue, Error) + 1
            && r'.reg == r.(state := RegFailed, timerArmed := false)
  {
    CountEmit(io.queue, ErrorEvent("registration timeout"), Error);
    hide Count;
  }

  /** What a step makes of the registration. */
  function RegAfter(su: Setup, w: World, step: Step): Reg {
    if Fires(w, step) then w.reg.(state := RegFailed, timerArmed := false)
    else if RunsTask(w, step, RegOnConnected) && w.reg.state == RegInactive
    then w.reg.(state := if Refuses(su, w, step) then RegFailed else RegStarted, timerArmed := true)
    else if RunsTask(w, step, RegOnWelcome) && RegActive(w.reg) then w.reg.(state := RegComplete, timerArmed := false)
    else if Refuses(su, w, step) then w.reg.(state := RegFailed)
    else w.reg
  }

  lemma OtherStep(su: Setup, w: World, step: Step)
    requires !RegTask(w, step) && step != RegTimer
    ensures Next(su, w, step).reg == w.reg
  {
    hide EventsOf, HandlersOf, Capabilities.OnLS, Capabilities.OnACK, Capabilities.OnNAK, Capabilities.OnDEL, Capabilities.OnNEW;
    hide Sasl.OnPreEnd, Sasl.OnAuthenticate, Sasl.OnSuccess, Sasl.OnFail;
  }

  /** One Error event for a refused line, one for the timer, and none otherwise. */
  lemma StepReports(su: Setup, w: World, step: Step)
    ensures ReportsIn(su, w, step) == One(Refuses(su, w, step)) + One(Fires(w, step))
    ensures Next(su, w, step).reg == RegAfter(su, w, step)
  {
    hide Next, RefusesGreeting, RefusesCollision;
    if RegTask(w, step) {
      TaskReports(su, w);
    } else if step == RegTimer {
      TimerStep(su, w);
    } else {
      OtherStep(su, w, step);
    }
  }

  lemma TimerStep(su: Setup, w: World)
    ensures ReportsIn(su, w, RegTimer) == One(w.reg.timerArmed)
    ensures Next(su, w, RegTimer).reg == if w.reg.timerArmed then w.reg.(state := RegFailed, timerArmed := false) else w.reg
  {
    TimerReports(w.reg, w.io);
    hide Count, OnRegTimer;
  }

  lemma TaskReports(su: Setup, w: World)
    requires RegTask(w, RunTask)
    ensures ReportsIn(su, w, RunTask) == One(Refuses(su, w, RunTask))
    ensures Next(su, w, RunTask).reg == RegAfter(su, w, RunTask)
  {
    hide Count, OnRegConnected, OnNumeric, OnWelcome, RefusesGreeting, RefusesCollision;
    GreetingReports(w.reg, w.io, su.net);
    CollisionReports(w.reg, w.io, su.net, w.todo[0].event);
    WelcomeReports(w.reg, w.io, w.todo[0].event);
    GreetingOnce(w.reg, w.io, su.net);
  }

  lemma GreetingOnce(r: Reg, io: Io, net: Outcomes)
    ensures RefusesGreeting(r, io, net) ==> r.state == RegInactive
    ensures forall e :: RefusesCollision(r, io, net, e) ==> RegActive(r)
  {
  }

  // ---------- runs ----------

  /** How the registration stands, by what has happened to it. */
  predicate Stands(r: Reg, refused: bool, timedOut: bool) {
    && (r.state == RegFailed <==> refused || timedOut)
    && (r.timerArmed <==> !timedOut && r.state in {RegStarted, RegFailed})
  }

  /**
   Main result: over every run the handler has emitted one Error event if one of its lines was refused and
   one if its timer fired; the registration has failed exactly if there was any.
   */
  lemma {:induction false} ReportsExactly(su: Setup, steps: seq<Step>)
    ensures Reports(su, steps) == One(Refused(su, steps)) + One(TimedOut(su, steps))
    ensures Stands(Run(su, steps).reg, Refused(su, steps), TimedOut(su, steps))
    ensures Run(su, steps).reg.state == RegFailed <==> Reports(su, steps) > 0
    decreases |steps|
  {
    if steps != [] {
      var before, step := steps[..|steps| - 1], steps[|steps| - 1];
      ReportsExactly(su, before);
      var w := Run(su, before);
      hide Next, ReportsIn, Refuses, Fires, RegAfter, Stands;
      StepReports(su, w, step);
      StandsNext(su, w, step, Refused(su, before), TimedOut(su, before));
    }
    StandsFailed(Run(su, steps).reg, Refused(su, steps), TimedOut(su, steps));
  }

  lemma StandsFailed(r: Reg, refused: bool, timedOut: bool)
    requires Stands(r, refused, timedOut)
    ensures r.state == RegFailed <==> One(refused) + One(timedOut) > 0
  {
  }

  /** Each of the two happens once at most. */
  lemma StandsNext(su: Setup, w: World, step: Step, refused: bool, timedOut: bool)
    requires Stands(w.reg, refused, timedOut)
    ensures Stands(RegAfter(su, w, step), refused || Refuses(su, w, step), timedOut || Fires(w, step))
    ensures !(refused && Refuses(su, w, step)) && !(timedOut && Fires(w, step))
  {
    RefusalEnds(su, w, step);
    hide Refuses;
  }

  lemma RefusalEnds(su: Setup, w: World, step: Step)
    ensures Refuses(su, w, step) ==> w.reg.state in {RegInactive, RegStarted} && !Fires(w, step)
    ensures Refuses(su, w, step) && w.reg.state == RegInactive ==> RunsTask(w, step, RegOnConnected)
    ensures Refuses(su, w, step) && w.reg.state == RegStarted ==> RunsTask(w, step, RegOnNumeric)
  {
  }

  /** A failed registration is reported once, and not twice, if and only if only one of the two happened. */
  lemma {:induction false} ReportedOnceExactlyWhen(su: Setup, steps: seq<Step>)
    ensures Reports(su, steps) <= 1 <==> !(Refused(su, steps) && TimedOut(su, steps))
    ensures Run(su, steps).reg.state == RegFailed ==>
              (Reports(su, steps) == 1 <==> (Refused(su, steps) <==> !TimedOut(su, steps)))
  {
    ReportsExactly(su, steps);
  }

  // ---------- whatever the timer still does ----------

  predicate TimerOnly(steps: seq<Step>) {
    forall i | 0 <= i < |steps| :: steps[i] == RegTimer
  }

  lemma {:induction false} TimerRefusesNothing(su: Setup, steps: seq<Step>, more: seq<Step>)
    requires TimerOnly(more)
    ensures Refused(su, steps + more) <==> Refused(su, steps)
    decreases |more|
  {
    if more == [] {
      assert steps + more == steps;
    } else {
      var front := more[..|more| - 1];
      TimerRefusesNothing(su, steps, front);
      assert (steps + more)[..|steps + more| - 1] == steps + front;
      hide Run;
    }
  }

  /**
   Main result: whatever its timer still does, the handler reports at most one failure if and only if no
   line of the registration was refused in the run.
   */
  lemma {:induction false} NeverTwiceExactlyWhen(su: Setup, steps: seq<Step>)
    ensures (forall more | TimerOnly(more) :: Reports(su, steps + more) <= 1) <==> !Refused(su, steps)
  {
    hide Run, Refused, TimedOut, Reports;
    forall more | TimerOnly(more) ensures Reports(su, steps + more) <= 1 <==> !(Refused(su, steps) && TimedOut(su, steps + more)) {
      TimerRefusesNothing(su, steps, more);
      ReportsExactly(su, steps + more);
    }
    assert TimerOnly([RegTimer]);
    TimerFiresOnce(su, steps);
  }

  lemma TimerFiresOnce(su: Setup, steps: seq<Step>)
    ensures Refused(su, steps) ==> TimedOut(su, steps + [RegTimer])
  {
    ReportsExactly(su, steps);
    hide Run;
    assert (steps + [RegTimer])[..|steps|] == steps;
  }
}
