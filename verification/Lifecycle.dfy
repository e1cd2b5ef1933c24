/** The runner agent's lifecycle as a state machine: one poll loop, any number of
    run and refusal goroutines, a stop signal and any number of aborts, each
    mutex section (and each channel operation) one atomic step. */
module Lifecycle {
  import opened Options

  type Trace = string

  /** A run the server hands out. */
  datatype Assignment = Assignment(trace: Trace, runType: string)

  /** Server-managed settings: a version, a limit when one is set, the run types
      the agent may not run. */
  datatype Settings = Settings(version: int, limit: Option<int>, mask: set<string>)

  datatype Control = Kill(trace: Trace) | Drain | Other

  /** The body of a poll's answer. */
  datatype Body = Body(settings: Option<Settings>, control: seq<Control>, assignment: Option<Assignment>)

  /** Where the poll loop is. `again` is pollOnce's result in the making. */
  datatype Phase =
    | Top
    | Polling
    | Answered(body: Body)
    | Controls(ops: seq<Control>, next: Option<Assignment>, again: bool)
    | Dispatching(next: Option<Assignment>, again: bool)
    | Polled(again: bool)
    | Waiting
    | StopWaiting
    | Joining
    | Returned

  /** The channel sends a finished run's goroutine has still to make. */
  datatype Sends = Sends(idle: bool, freed: bool)

  /** Assignments are numbered as they arrive; `active` maps the trace of each run
      in flight to its number. `leaving` are runs that have left `active` and whose
      goroutine has not ended, `refusing` the refusals still being reported. */
  datatype Runs = Runs(
    active: map<Trace, nat>,
    leaving: map<nat, Sends>,
    refusing: set<nat>,
    received: nat,
    started: set<nat>,
    refused: set<nat>)

  /** `cancelled` are the runs whose context was cancelled, `toCancel` those that an
      abort in progress has still to cancel; `signalled` is the first stop signal. */
  datatype Stop = Stop(
    draining: bool,
    aborted: bool,
    stopping: bool,
    signalled: bool,
    cancelled: set<nat>,
    toCancel: set<nat>)

  datatype Bells = Bells(idle: bool, freed: bool)

  datatype Conf = Conf(limit: int, version: int, mask: set<string>)

  /** What the last poll asked, and how many polls were made at once and settings
      versions applied. */
  datatype Tally = Tally(askedFull: bool, askedNoClaim: bool, askedLimit: int, repolls: nat, applied: nat)

  datatype State = State(phase: Phase, runs: Runs, stop: Stop, bells: Bells, conf: Conf, tally: Tally)

  datatype Step =
    | BeginPoll
    | PollNothing
    | PollAnswer(body: Body)
    | ApplySettings(local: int)
    | DoControl
    | Dispatch
    | EndPass
    | WakeTimer
    | WakeFreed
    | WakeSignal
    | WakeStopping(byIdle: bool)
    | Join
    | Finish(trace: Trace)
    | SendIdle(run: nat)
    | SendFreed(run: nat)
    | Leave(run: nat)
    | RefusalDone(run: nat)
    | Signal
    | AbortBegin
    | AbortCancel(run: nat)

  function Start(limit: int): State {
    State(Top, Runs(map[], map[], {}, 0, {}, {}), Stop(false, false, false, false, {}, {}), Bells(false, false),
          Conf(limit, 0, {}), Tally(false, false, limit, 0, 0))
  }

  /** The concurrency limit in force: the managed one when set and positive. */
  function Effective(managed: Option<int>, local: int): int {
    if managed.Some? && managed.value > 0 then managed.value else local
  }

  predicate Full(s: State) {
    |s.runs.active| >= s.conf.limit
  }

  predicate DrainingDone(s: State) {
    s.stop.draining && s.runs.active == map[]
  }

  /** No goroutine that the agent waits for before it returns. */
  predicate NothingOutstanding(r: Runs) {
    r.active == map[] && r.leaving == map[] && r.refusing == {}
  }

  predicate Enabled(s: State, step: Step) {
    match step
    case BeginPoll => s.phase.Top?
    case PollNothing => s.phase.Polling?
    case PollAnswer(body) => s.phase.Polling? && (body.assignment.Some? ==> body.assignment.value.trace !in s.runs.active)
    case ApplySettings(_) => s.phase.Answered?
    case DoControl => s.phase.Controls?
    case Dispatch => s.phase.Dispatching? && (s.phase.next.Some? ==> s.runs.received > 0)
    case EndPass => s.phase.Polled?
    case WakeTimer => s.phase.Waiting?
    case WakeFreed => s.phase.Waiting? && s.bells.freed
    case WakeSignal => s.phase.Waiting? && s.stop.signalled
    case WakeStopping(byIdle) => s.phase.StopWaiting? && (byIdle ==> s.bells.idle)
    case Join => s.phase.Joining? && NothingOutstanding(s.runs)
    case Finish(trace) => trace in s.runs.active
    case SendIdle(run) => run in s.runs.leaving && s.runs.leaving[run].idle
    case SendFreed(run) => run in s.runs.leaving && s.runs.leaving[run] == Sends(false, true)
    case Leave(run) => run in s.runs.leaving && s.runs.leaving[run] == Sends(false, false)
    case RefusalDone(run) => run in s.runs.refusing
    case Signal => true
    case AbortBegin => true
    case AbortCancel(run) => run in s.stop.toCancel
  }

  /** One control op: a kill cancels the run of that trace if it is in flight. */
  function Obey(stop: Stop, active: map<Trace, nat>, op: Control): Stop {
    match op
    case Kill(trace) => if trace in active then stop.(cancelled := stop.cancelled + {active[trace]}) else stop
    case Drain => stop.(draining := true)
    case Other => stop
  }

  /** Whether dispatch starts an assignment, and otherwise why not. */
  datatype Verdict = Starts | Masked | Stopping | NoSlot

  function Judge(s: State, a: Assignment): Verdict {
    if a.runType in s.conf.mask then Masked
    else if s.stop.draining || s.stop.aborted then Stopping
    else if Full(s) then NoSlot
    else Starts
  }

  function StartRun(r: Runs, trace: Trace): Runs
    requires r.received > 0
  {
    r.(active := r.active[trace := r.received - 1], started := r.started + {r.received - 1})
  }

  function RefuseRun(r: Runs): Runs
    requires r.received > 0
  {
    r.(refusing := r.refusing + {r.received - 1}, refused := r.refused + {r.received - 1})
  }

  function FinishRun(r: Runs, trace: Trace, limit: int): Runs
    requires trace in r.active
  {
    var rest := r.active - {trace};
    r.(active := rest, leaving := r.leaving[r.active[trace] := Sends(rest == map[], |r.active| >= limit)])
  }

  /** A poll goes out: it asks for no work when the agent can take none. */
  function Asked(s: State): State {
    s.(phase := Polling,
       tally := s.tally.(askedFull := Full(s), askedNoClaim := s.stop.stopping || Full(s), askedLimit := s.conf.limit))
  }

  /** The answer's settings are applied, unless they are the version in force. */
  function Configured(s: State, local: int): State
    requires s.phase.Answered?
  {
    var body := s.phase.body;
    if body.settings.Some? && body.settings.value.version != s.conf.version then
      var p := body.settings.value;
      s.(phase := Controls(body.control, body.assignment, true),
         conf := Conf(Effective(p.limit, local), p.version, p.mask),
         tally := s.tally.(applied := s.tally.applied + 1))
    else s.(phase := Controls(body.control, body.assignment, false))
  }

  /** The answer's assignment, if it has one, is started or refused. */
  function Dispatched(s: State): State
    requires s.phase.Dispatching? && (s.phase.next.Some? ==> s.runs.received > 0)
  {
    if s.phase.next.None? then s.(phase := Polled(s.phase.again))
    else if Judge(s, s.phase.next.value).Starts? then
      s.(phase := Polled(true), runs := StartRun(s.runs, s.phase.next.value.trace))
    else s.(phase := Polled(s.phase.again), runs := RefuseRun(s.runs))
  }

  /** A step of the poll loop. */
  function Loop(s: State, step: Step): State
    requires Enabled(s, step) && OfLoop(step)
  {
    match step
    case BeginPoll => Asked(s)
    case PollNothing => s.(phase := Polled(false))
    case PollAnswer(body) =>
      s.(phase := Answered(body),
         runs := if body.assignment.Some? then s.runs.(received := s.runs.received + 1) else s.runs)
    case ApplySettings(local) => Configured(s, local)
    case DoControl =>
      if s.phase.ops == [] then s.(phase := Dispatching(s.phase.next, s.phase.again))
      else s.(phase := Controls(s.phase.ops[1..], s.phase.next, s.phase.again),
              stop := Obey(s.stop, s.runs.active, s.phase.ops[0]))
    case Dispatch => Dispatched(s)
    case EndPass =>
      if DrainingDone(s) then s.(phase := Joining)
      else if s.stop.stopping then s.(phase := StopWaiting)
      else if s.phase.again && !s.stop.signalled then
        s.(phase := Top, tally := s.tally.(repolls := s.tally.repolls + 1))
      else s.(phase := Waiting)
    case WakeTimer => s.(phase := Top)
    case WakeFreed => s.(phase := Top, bells := s.bells.(freed := false))
    case WakeSignal =>
      if s.runs.active == map[] then s.(phase := Joining, stop := s.stop.(draining := true))
      else s.(phase := Top, stop := s.stop.(draining := true, stopping := true))
    case WakeStopping(byIdle) => s.(phase := Top, bells := s.bells.(idle := s.bells.idle && !byIdle))
    case Join => s.(phase := Returned)
  }

  predicate OfLoop(step: Step) {
    match step
    case Finish(_) => false
    case SendIdle(_) => false
    case SendFreed(_) => false
    case Leave(_) => false
    case RefusalDone(_) => false
    case Signal => false
    case AbortBegin => false
    case AbortCancel(_) => false
    case _ => true
  }

  /** A step of a run, of a refusal, or of a stop signal's handler. */
  function Beside(s: State, step: Step): State
    requires Enabled(s, step) && !OfLoop(step)
  {
    match step
    case Finish(trace) => s.(runs := FinishRun(s.runs, trace, s.conf.limit))
    case SendIdle(run) =>
      s.(bells := s.bells.(idle := true),
         runs := s.runs.(leaving := s.runs.leaving[run := s.runs.leaving[run].(idle := false)]))
    case SendFreed(run) =>
      s.(bells := s.bells.(freed := true), runs := s.runs.(leaving := s.runs.leaving[run := Sends(false, false)]))
    case Leave(run) => s.(runs := s.runs.(leaving := s.runs.leaving - {run}))
    case RefusalDone(run) => s.(runs := s.runs.(refusing := s.runs.refusing - {run}))
    case Signal => s.(stop := s.stop.(signalled := true))
    case AbortBegin => s.(stop := s.stop.(aborted := true, toCancel := s.stop.toCancel + s.runs.active.Values))
    case AbortCancel(run) =>
      s.(stop := s.stop.(cancelled := s.stop.cancelled + {run}, toCancel := s.stop.toCancel - {run}))
  }

  function Next(s: State, step: Step): State
    requires Enabled(s, step)
  {
    if OfLoop(step) then Loop(s, step) else Beside(s, step)
  }

  // ----- what every step keeps -----

  /** The assignment the loop holds and has neither started nor refused yet. */
  function NextAssignment(phase: Phase): Option<Assignment> {
    match phase
    case Answered(body) => body.assignment
    case Controls(_, next, _) => next
    case Dispatching(next, _) => next
    case _ => None
  }

  predicate Held(phase: Phase, r: Runs, run: nat) {
    NextAssignment(phase).Some? && run == r.received - 1
  }

  /** Every assignment received is started, refused or in hand, and only one of
      the three; runs in flight are among the started, each under its own number. */
  ghost predicate Accounted(phase: Phase, r: Runs) {
    && (NextAssignment(phase).Some? ==> r.received > 0 && NextAssignment(phase).value.trace !in r.active)
    && (forall n: nat :: n < r.received ==> n in r.started || n in r.refused || Held(phase, r, n))
    && (forall n :: n in r.started ==> n < r.received && n !in r.refused && !Held(phase, r, n))
    && (forall n :: n in r.refused ==> n < r.received && !Held(phase, r, n))
    && (forall t :: t in r.active ==> r.active[t] in r.started && r.active[t] !in r.leaving)
    && (forall t, u :: t in r.active && u in r.active && r.active[t] == r.active[u] ==> t == u)
    && (forall n :: n in r.leaving ==> n in r.started)
    && (forall n :: n in r.refusing ==> n in r.refused)
  }

  /** After an abort, each run in flight is cancelled or on that abort's list. */
  ghost predicate AbortReaches(active: map<Trace, nat>, stop: Stop) {
    stop.aborted ==> forall t :: t in active ==> active[t] in stop.cancelled || active[t] in stop.toCancel
  }

  ghost predicate Stops(s: State) {
    && (s.stop.stopping ==> s.stop.draining && s.stop.signalled)
    && (s.phase.StopWaiting? ==> s.stop.stopping)
    && (s.phase.Joining? || s.phase.Returned? ==> DrainingDone(s))
    && (s.phase.Returned? ==> NothingOutstanding(s.runs))
  }

  /** The loop will poll again without waiting for anything. */
  predicate BoundToPoll(phase: Phase) {
    match phase
    case Top => true
    case Controls(_, _, again) => again
    case Dispatching(_, again) => again
    case Polled(again) => again
    case _ => false
  }

  ghost predicate Waker(freed: bool, leaving: map<nat, Sends>) {
    freed || exists r :: r in leaving && leaving[r].freed
  }

  /** No lost wake-up: while the agent's last poll asked for nothing because it
      was full, a slot that is free now is known to the loop. */
  ghost predicate Woken(s: State) {
    s.tally.askedFull && |s.runs.active| < s.conf.limit && !s.stop.signalled && !s.phase.Joining? && !s.phase.Returned?
    ==> Waker(s.bells.freed, s.runs.leaving) || BoundToPoll(s.phase)
  }

  function Due(phase: Phase): nat {
    match phase
    case Controls(_, _, again) => if again then 1 else 0
    case Dispatching(_, again) => if again then 1 else 0
    case Polled(again) => if again then 1 else 0
    case _ => 0
  }

  /** Polls made at once are paid for by starts and by settings applied. */
  ghost predicate Paid(phase: Phase, started: set<nat>, tally: Tally) {
    tally.repolls + Due(phase) <= |started| + tally.applied
  }

  predicate Asking(phase: Phase) {
    phase.Polling? || phase.Answered? || phase.Controls? || phase.Dispatching?
  }

  /** Since the poll asked, slots have only been freed. */
  ghost predicate Slots(s: State) {
    && (s.phase.Polling? || s.phase.Answered? ==> s.conf.limit == s.tally.askedLimit)
    && (Asking(s.phase) && !s.tally.askedNoClaim ==> |s.runs.active| < s.tally.askedLimit)
  }

  ghost predicate Inv(s: State) {
    && Accounted(s.phase, s.runs)
    && AbortReaches(s.runs.active, s.stop)
    && Stops(s)
    && Woken(s)
    && Paid(s.phase, s.runs.started, s.tally)
    && Slots(s)
  }

  lemma StartIsSafe(limit: int)
    ensures Inv(Start(limit))
  {
  }

  lemma FinishFrees(active: map<Trace, nat>, trace: Trace)
    requires trace in active
    ensures |active - {trace}| == |active| - 1
  {
    assert (active - {trace}).Keys == active.Keys - {trace};
    assert |(active - {trace}).Keys| == |active.Keys| - 1;
  }

  lemma AccountedStart(phase: Phase, r: Runs, trace: Trace, again: bool)
    requires Accounted(phase, r) && phase.Dispatching? && phase.next.Some? && phase.next.value.trace == trace
    ensures Accounted(Polled(again), StartRun(r, trace))
  {
    var run := r.received - 1;
    assert Held(phase, r, run);
    var r' := StartRun(r, trace);
    assert forall t :: t in r'.active ==> t == trace || r'.active[t] == r.active[t];
    forall n: nat | n < r.received ensures n in r'.started || n in r'.refused {
      assert n in r.started || n in r.refused || Held(phase, r, n);
    }
  }

  lemma AccountedRefuse(phase: Phase, r: Runs, again: bool)
    requires Accounted(phase, r) && phase.Dispatching? && phase.next.Some?
    ensures Accounted(Polled(again), RefuseRun(r))
  {
    var run := r.received - 1;
    assert Held(phase, r, run);
    var r' := RefuseRun(r);
    forall n: nat | n < r.received ensures n in r'.started || n in r'.refused {
      assert n in r.started || n in r.refused || Held(phase, r, n);
    }
  }

  /** The phases between an answer and its dispatch keep the assignment in hand. */
  lemma AccountedSame(phase: Phase, phase': Phase, r: Runs)
    requires Accounted(phase, r) && NextAssignment(phase') == NextAssignment(phase)
    ensures Accounted(phase', r)
  {
    assert forall n :: Held(phase', r, n) <==> Held(phase, r, n);
  }

  lemma AccountedAnswer(phase: Phase, body: Body, r: Runs)
    requires Accounted(phase, r) && phase.Polling?
    requires body.assignment.Some? && body.assignment.value.trace !in r.active
    ensures Accounted(Answered(body), r.(received := r.received + 1))
  {
    var r' := r.(received := r.received + 1);
    forall n: nat | n < r'.received
      ensures n in r'.started || n in r'.refused || Held(Answered(body), r', n)
    {
      if n < r.received {
        assert !Held(phase, r, n);
        assert n in r.started || n in r.refused;
      }
    }
  }

  lemma AccountedLoop(s: State, step: Step)
    requires Accounted(s.phase, s.runs)
    requires Enabled(s, step) && OfLoop(step)
    ensures Accounted(Loop(s, step).phase, Loop(s, step).runs)
  {
    var s' := Loop(s, step);
    if step.Dispatch? && s.phase.next.Some? {
      if Judge(s, s.phase.next.value).Starts? {
        AccountedStart(s.phase, s.runs, s.phase.next.value.trace, true);
      } else {
        AccountedRefuse(s.phase, s.runs, s.phase.again);
      }
    } else if step.PollAnswer? && step.body.assignment.Some? {
      AccountedAnswer(s.phase, step.body, s.runs);
    } else {
      AccountedSame(s.phase, s'.phase, s.runs);
    }
  }

  lemma AbortLoop(s: State, step: Step)
    requires AbortReaches(s.runs.active, s.stop)
    requires Enabled(s, step) && OfLoop(step)
    ensures AbortReaches(Loop(s, step).runs.active, Loop(s, step).stop)
  {
  }

  lemma AccountedBeside(s: State, step: Step)
    requires Accounted(s.phase, s.runs) && AbortReaches(s.runs.active, s.stop)
    requires Enabled(s, step) && !OfLoop(step)
    ensures Accounted(s.phase, Beside(s, step).runs)
    ensures AbortReaches(Beside(s, step).runs.active, Beside(s, step).stop)
  {
    if step.AbortBegin? {
      forall t | t in s.runs.active ensures s.runs.active[t] in s.runs.active.Values { }
    }
  }

  lemma StopsStep(s: State, step: Step)
    requires Stops(s) && Enabled(s, step)
    ensures Stops(Next(s, step))
  {
  }

  lemma WokenLoop(s: State, step: Step)
    requires Woken(s) && Stops(s) && Enabled(s, step) && OfLoop(step)
    ensures Woken(Loop(s, step))
  {
  }

  lemma WokenBeside(s: State, step: Step)
    requires Woken(s) && Enabled(s, step) && !OfLoop(step)
    requires Accounted(s.phase, s.runs)
    ensures Woken(Beside(s, step))
  {
    var s' := Beside(s, step);
    if step.Finish? {
      FinishFrees(s.runs.active, step.trace);
      var run := s.runs.active[step.trace];
      assert run in s'.runs.leaving && s'.runs.leaving[run].freed == Full(s);
    }
    if r :| r in s.runs.leaving && s.runs.leaving[r].freed {
      if step != SendFreed(r) { assert r in s'.runs.leaving && s'.runs.leaving[r].freed; }
    }
  }

  /** What the loop alone changes. */
  lemma BesideLeavesTheLoop(s: State, step: Step)
    requires Enabled(s, step) && !OfLoop(step)
    ensures var s' := Beside(s, step);
            && s'.phase == s.phase && s'.conf == s.conf && s'.tally == s.tally
            && s'.runs.started == s.runs.started && s'.runs.received == s.runs.received
    ensures Beside(s, step).runs.active == if step.Finish? then s.runs.active - {step.trace} else s.runs.active
  {
  }

  /** What dispatch alone changes. */
  lemma LoopStartsByDispatch(s: State, step: Step)
    requires Enabled(s, step) && OfLoop(step) && !step.Dispatch?
    ensures Loop(s, step).runs.started == s.runs.started && Loop(s, step).runs.active == s.runs.active
  {
  }

  lemma PaidStep(s: State, step: Step)
    requires Paid(s.phase, s.runs.started, s.tally) && Accounted(s.phase, s.runs) && Enabled(s, step)
    ensures Paid(Next(s, step).phase, Next(s, step).runs.started, Next(s, step).tally)
  {
    if !OfLoop(step) {
      BesideLeavesTheLoop(s, step);
    } else if !step.Dispatch? {
      LoopStartsByDispatch(s, step);
      PaidLoop(s, step);
    } else if s.phase.next.Some? {
      assert Held(s.phase, s.runs, s.runs.received - 1);
    }
  }

  lemma PaidLoop(s: State, step: Step)
    requires Paid(s.phase, s.runs.started, s.tally) && Enabled(s, step) && OfLoop(step) && !step.Dispatch?
    ensures Paid(Loop(s, step).phase, s.runs.started, Loop(s, step).tally)
  {
  }

  lemma SlotsStep(s: State, step: Step)
    requires Slots(s) && Enabled(s, step)
    ensures Slots(Next(s, step))
  {
    if !OfLoop(step) {
      BesideLeavesTheLoop(s, step);
      if step.Finish? { FinishFrees(s.runs.active, step.trace); }
    } else {
      SlotsLoop(s, step);
    }
  }

  lemma SlotsLoop(s: State, step: Step)
    requires Slots(s) && Enabled(s, step) && OfLoop(step)
    ensures Slots(Loop(s, step))
  {
    if !step.Dispatch? { LoopStartsByDispatch(s, step); }
  }

  lemma InvStep(s: State, step: Step)
    requires Inv(s) && Enabled(s, step)
    ensures Inv(Next(s, step))
  {
    if OfLoop(step) {
      AccountedLoop(s, step);
      AbortLoop(s, step);
      WokenLoop(s, step);
    } else {
      AccountedBeside(s, step);
      WokenBeside(s, step);
    }
    StopsStep(s, step);
    PaidStep(s, step);
    SlotsStep(s, step);
  }

  // ----- runs of the machine -----

  ghost predicate Reaches(s: State, steps: seq<Step>, s': State)
    decreases |steps|
  {
    if steps == [] then s == s'
    else Enabled(s, steps[0]) && Reaches(Next(s, steps[0]), steps[1..], s')
  }

  ghost predicate Reachable(s: State) {
    exists limit, steps :: Reaches(Start(limit), steps, s)
  }

  lemma {:induction false} InvReaches(s: State, steps: seq<Step>, s': State)
    requires Inv(s) && Reaches(s, steps, s')
    ensures Inv(s')
    decreases |steps|
  {
    if steps != [] {
      InvStep(s, steps[0]);
      InvReaches(Next(s, steps[0]), steps[1..], s');
    }
  }

  lemma ReachableIsSafe(s: State)
    requires Reachable(s)
    ensures Inv(s)
  {
    var limit, steps :| Reaches(Start(limit), steps, s);
    StartIsSafe(limit);
    InvReaches(Start(limit), steps, s);
  }

  /** Once draining or aborted, no run ever starts again, in any interleaving, and
      an agent that is draining with nothing active stays so. */
  lemma {:induction false} NoStartOnceStopping(s: State, steps: seq<Step>, s': State)
    requires Reaches(s, steps, s') && (s.stop.draining || s.stop.aborted)
    ensures s'.runs.started == s.runs.started
    ensures s.stop.draining ==> s'.stop.draining
    ensures s.stop.aborted ==> s'.stop.aborted
    ensures forall t :: t in s'.runs.active ==> t in s.runs.active
    ensures DrainingDone(s) ==> DrainingDone(s')
    decreases |steps|
  {
    if steps != [] {
      OneStopping(s, steps[0]);
      NoStartOnceStopping(Next(s, steps[0]), steps[1..], s');
    }
  }

  lemma OneStopping(s: State, step: Step)
    requires Enabled(s, step) && (s.stop.draining || s.stop.aborted)
    ensures Next(s, step).runs.started == s.runs.started
    ensures s.stop.draining ==> Next(s, step).stop.draining
    ensures s.stop.aborted ==> Next(s, step).stop.aborted
    ensures forall t :: t in Next(s, step).runs.active ==> t in s.runs.active
    ensures DrainingDone(s) ==> DrainingDone(Next(s, step))
  {
    StopsForGood(s, step);
    if !OfLoop(step) {
      BesideLeavesTheLoop(s, step);
    } else if !step.Dispatch? {
      LoopStartsByDispatch(s, step);
    }
  }

  lemma StopsForGood(s: State, step: Step)
    requires Enabled(s, step)
    ensures s.stop.draining ==> Next(s, step).stop.draining
    ensures s.stop.aborted ==> Next(s, step).stop.aborted
  {
  }

  /** Once an Abort has begun, each run in flight is cancelled, or an Abort that has not
      returned has it still to cancel, an assignment that was on its way back included;
      when they have all returned none is left uncancelled. */
  lemma AbortLeavesNone(s: State)
    requires Reachable(s) && s.stop.aborted
    ensures forall t :: t in s.runs.active ==> s.runs.active[t] in s.stop.cancelled || s.runs.active[t] in s.stop.toCancel
    ensures s.stop.toCancel == {} ==> forall t :: t in s.runs.active ==> s.runs.active[t] in s.stop.cancelled
  {
    ReachableIsSafe(s);
  }

  /** Run returns only when every assignment received has been started and has
      ended, or has been refused and its refusal is over: one or the other, never
      both; and nothing undoes that. */
  lemma ReturnedIsSettled(s: State, steps: seq<Step>, s': State)
    requires Reachable(s) && s.phase.Returned? && Reaches(s, steps, s')
    ensures NothingOutstanding(s'.runs) && s'.phase.Returned?
    ensures s'.runs.received == s.runs.received
    ensures forall n: nat :: n < s'.runs.received ==> (n in s'.runs.started <==> n !in s'.runs.refused)
  {
    ReachableIsSafe(s);
    StaysReturned(s, steps, s');
    InvReaches(s, steps, s');
    assert forall n: nat :: !Held(s'.phase, s'.runs, n);
  }

  lemma {:induction false} StaysReturned(s: State, steps: seq<Step>, s': State)
    requires s.phase.Returned? && NothingOutstanding(s.runs) && Reaches(s, steps, s')
    ensures s'.phase.Returned? && NothingOutstanding(s'.runs) && s'.runs.received == s.runs.received
    decreases |steps|
  {
    if steps != [] {
      assert !OfLoop(steps[0]);
      StaysReturned(Next(s, steps[0]), steps[1..], s');
    }
  }

  /** No lost wake-up: a loop that is waiting, whose last poll asked for no work
      because the agent was full, and a slot free now: then the freed channel holds
      a token or a run's goroutine has still to send one. */
  lemma NoLostWakeup(s: State)
    requires Reachable(s) && s.phase.Waiting? && !s.stop.signalled
    requires s.tally.askedFull && |s.runs.active| < s.conf.limit
    ensures s.bells.freed || exists r :: r in s.runs.leaving && s.runs.leaving[r].freed
  {
    ReachableIsSafe(s);
  }

  lemma StartTakesASlot(s: State, step: Step)
    requires Enabled(s, step)
    ensures Next(s, step).runs.started != s.runs.started ==> |s.runs.active| < s.conf.limit
  {
    if !OfLoop(step) {
      BesideLeavesTheLoop(s, step);
    } else if !step.Dispatch? {
      LoopStartsByDispatch(s, step);
    }
  }

  lemma ActiveGrowsUnderTheLimit(s: State, step: Step)
    requires Enabled(s, step)
    ensures |Next(s, step).runs.active| <= if Full(s) then |s.runs.active| else |s.runs.active| + 1
  {
    if !OfLoop(step) {
      BesideLeavesTheLoop(s, step);
      if step.Finish? { FinishFrees(s.runs.active, step.trace); }
    } else if !step.Dispatch? {
      LoopStartsByDispatch(s, step);
    }
  }

  /** A run starts only with a slot free under the limit in force; with none free,
      the number of runs in flight does not rise. */
  lemma StartsHaveASlot(s: State, step: Step)
    requires Enabled(s, step)
    ensures Next(s, step).runs.started != s.runs.started ==> |s.runs.active| < s.conf.limit
    ensures |Next(s, step).runs.active| <= if Full(s) then |s.runs.active| else |s.runs.active| + 1
  {
    StartTakesASlot(s, step);
    ActiveGrowsUnderTheLimit(s, step);
  }

  ghost predicate FullThroughout(s: State, steps: seq<Step>)
    decreases |steps|
  {
    steps != [] ==> Full(s) && Enabled(s, steps[0]) && FullThroughout(Next(s, steps[0]), steps[1..])
  }

  /** While no slot is free (a limit lowered below the runs in flight), whatever
      happens only ends runs: none is added and none is replaced. */
  lemma {:induction false} OverLimitOnlyShrinks(s: State, steps: seq<Step>, s': State)
    requires Reaches(s, steps, s') && FullThroughout(s, steps)
    ensures s'.runs.started == s.runs.started
    ensures forall t :: t in s'.runs.active ==> t in s.runs.active && s'.runs.active[t] == s.runs.active[t]
    decreases |steps|
  {
    if steps != [] {
      OverLimitOnlyShrinks(Next(s, steps[0]), steps[1..], s');
    }
  }

  /** Against a server that hands no work to a poll that asked for none, the agent
      refuses for want of a slot only when that same answer lowered its limit. */
  lemma NoSlotOnlyAfterALowering(s: State)
    requires Reachable(s) && s.phase.Dispatching? && s.phase.next.Some?
    requires !s.tally.askedNoClaim
    requires Judge(s, s.phase.next.value) == NoSlot
    ensures s.conf.limit < s.tally.askedLimit
  {
    ReachableIsSafe(s);
  }

  /** What a server never does: send a settings version older than one it sent. */
  ghost predicate Forward(s: State, steps: seq<Step>)
    decreases |steps|
  {
    steps != [] && Enabled(s, steps[0]) ==>
      && (steps[0].PollAnswer? && steps[0].body.settings.Some? ==> s.conf.version <= steps[0].body.settings.value.version)
      && Forward(Next(s, steps[0]), steps[1..])
  }

  /** The loop does not spin: the polls it makes at once, without waiting, are at
      most the runs started and the settings versions gone through. */
  lemma ImmediatePollsArePaidFor(limit: int, steps: seq<Step>, s: State)
    requires Reaches(Start(limit), steps, s) && Forward(Start(limit), steps)
    ensures s.tally.repolls <= |s.runs.started| + s.conf.version
  {
    assert Reachable(s);
    ReachableIsSafe(s);
    VersionsCount(Start(limit), steps, s);
  }

  ghost predicate AnswerForward(s: State) {
    s.phase.Answered? && s.phase.body.settings.Some? ==> s.conf.version <= s.phase.body.settings.value.version
  }

  lemma {:induction false} VersionsCount(s: State, steps: seq<Step>, s': State)
    requires Reaches(s, steps, s') && Forward(s, steps)
    requires s.tally.applied <= s.conf.version && AnswerForward(s)
    ensures s'.tally.applied <= s'.conf.version
    decreases |steps|
  {
    if steps != [] {
      VersionsCount(Next(s, steps[0]), steps[1..], s');
    }
  }

  /** The agent's own limit, wherever settings are applied, is one. */
  ghost predicate OwnLimits(steps: seq<Step>) {
    forall i :: 0 <= i < |steps| && steps[i].ApplySettings? ==> steps[i].local > 0
  }

  /** Whatever limits the server sends, zero and below included, the limit in force stays
      above zero: an agent with nothing to do is never full, and asks for work unless it
      is stopping. */
  lemma {:induction false} LimitStaysPositive(s: State, steps: seq<Step>, s': State)
    requires Reaches(s, steps, s') && s.conf.limit > 0 && OwnLimits(steps)
    ensures s'.conf.limit > 0
    ensures s'.runs.active == map[] ==> !Full(s') && Asked(s').tally.askedNoClaim == s'.stop.stopping
    decreases |steps|
  {
    if steps != [] {
      var s1 := Next(s, steps[0]);
      LimitAfterStep(s, steps[0]);
      assert forall i :: 0 <= i < |steps[1..]| ==> steps[1..][i] == steps[i + 1];
      LimitStaysPositive(s1, steps[1..], s');
    }
  }

  lemma LimitAfterStep(s: State, step: Step)
    requires Enabled(s, step) && s.conf.limit > 0 && (step.ApplySettings? ==> step.local > 0)
    ensures Next(s, step).conf.limit > 0
  {
    if !OfLoop(step) { BesideLeavesTheLoop(s, step); }
  }

  lemma {:induction false} ReachesThrough(s: State, before: seq<Step>, m: State, after: seq<Step>, s': State)
    requires Reaches(s, before, m) && Reaches(m, after, s')
    ensures Reaches(s, before + after, s')
    decreases |before|
  {
    if before == [] {
      assert before + after == after;
    } else {
      ReachesThrough(Next(s, before[0]), before[1..], m, after, s');
      assert (before + after)[1..] == before[1..] + after;
    }
  }

  lemma ReachesOne(s: State, before: seq<Step>, m: State, step: Step)
    requires Reaches(s, before, m) && Enabled(m, step)
    ensures Reaches(s, before + [step], Next(m, step))
  {
    assert [step][1..] == [];
    ReachesThrough(s, before, m, [step], Next(m, step));
  }

  /** What the finishing goroutine's steps come to when nothing comes between. */
  function Finished(s: State, trace: Trace): State
    requires trace in s.runs.active
  {
    var rest := s.runs.active - {trace};
    s.(runs := s.runs.(active := rest),
       bells := Bells(s.bells.idle || rest == map[], s.bells.freed || Full(s)))
  }

  function FinishSteps(s: State, trace: Trace): seq<Step>
    requires trace in s.runs.active
  {
    var run := s.runs.active[trace];
    [Finish(trace)]
    + (if s.runs.active - {trace} == map[] then [SendIdle(run)] else [])
    + (if Full(s) then [SendFreed(run)] else [])
    + [Leave(run)]
  }

  /** A goroutine's send on the idle channel, if it owes one. */
  lemma IdleSent(s0: State, steps: seq<Step>, s: State, run: nat)
    requires Reaches(s0, steps, s) && run in s.runs.leaving
    ensures var owes := s.runs.leaving[run];
            var s' := s.(bells := s.bells.(idle := s.bells.idle || owes.idle),
                         runs := s.runs.(leaving := s.runs.leaving[run := Sends(false, owes.freed)]));
            Reaches(s0, steps + (if owes.idle then [SendIdle(run)] else []), s')
  {
    if s.runs.leaving[run].idle {
      ReachesOne(s0, steps, s, SendIdle(run));
    } else {
      assert s.runs.leaving[run := s.runs.leaving[run]] == s.runs.leaving;
      assert steps + [] == steps;
    }
  }

  /** And on the freed channel. */
  lemma FreedSent(s0: State, steps: seq<Step>, s: State, run: nat)
    requires Reaches(s0, steps, s) && run in s.runs.leaving && !s.runs.leaving[run].idle
    ensures var owes := s.runs.leaving[run];
            var s' := s.(bells := s.bells.(freed := s.bells.freed || owes.freed),
                         runs := s.runs.(leaving := s.runs.leaving[run := Sends(false, false)]));
            Reaches(s0, steps + (if owes.freed then [SendFreed(run)] else []), s')
  {
    if s.runs.leaving[run].freed {
      ReachesOne(s0, steps, s, SendFreed(run));
    } else {
      assert s.runs.leaving[run := s.runs.leaving[run]] == s.runs.leaving;
      assert steps + [] == steps;
    }
  }

  lemma FinishedReaches(s: State, trace: Trace)
    requires trace in s.runs.active && s.runs.active[trace] !in s.runs.leaving
    ensures Reaches(s, FinishSteps(s, trace), Finished(s, trace))
  {
    var run := s.runs.active[trace];
    var last := s.runs.active - {trace} == map[];
    var s1 := Beside(s, Finish(trace));
    assert [] + [Finish(trace)] == [Finish(trace)];
    ReachesOne(s, [], s, Finish(trace));
    assert s1.runs.leaving[run] == Sends(last, Full(s));
    IdleSent(s, [Finish(trace)], s1, run);
    var s2 := s1.(bells := s1.bells.(idle := s1.bells.idle || last),
                  runs := s1.runs.(leaving := s1.runs.leaving[run := Sends(false, Full(s))]));
    var two := [Finish(trace)] + (if last then [SendIdle(run)] else []);
    FreedSent(s, two, s2, run);
    var s3 := s2.(bells := s2.bells.(freed := s2.bells.freed || Full(s)),
                  runs := s2.runs.(leaving := s2.runs.leaving[run := Sends(false, false)]));
    var three := two + (if Full(s) then [SendFreed(run)] else []);
    ReachesOne(s, three, s3, Leave(run));
    assert s3.runs.leaving - {run} == s.runs.leaving;
  }

  /** All control ops of one answer, with nothing in between. */
  function ObeyAll(stop: Stop, active: map<Trace, nat>, ops: seq<Control>): Stop
    decreases |ops|
  {
    if ops == [] then stop else ObeyAll(Obey(stop, active, ops[0]), active, ops[1..])
  }

  lemma {:induction false} ObeyAllReaches(s: State)
    requires s.phase.Controls?
    ensures Reaches(s, seq(|s.phase.ops| + 1, _ => DoControl),
                    s.(phase := Dispatching(s.phase.next, s.phase.again),
                       stop := ObeyAll(s.stop, s.runs.active, s.phase.ops)))
    decreases |s.phase.ops|
  {
    var steps := seq(|s.phase.ops| + 1, _ => DoControl);
    if s.phase.ops != [] {
      ObeyAllReaches(Next(s, DoControl));
      assert steps[1..] == seq(|s.phase.ops[1..]| + 1, _ => DoControl);
    } else {
      assert steps[1..] == [];
    }
  }

  /** A whole poll that is answered, with nothing in between. */
  function PassSteps(body: Body, local: int): seq<Step> {
    [BeginPoll, PollAnswer(body), ApplySettings(local)] + seq(|body.control| + 1, _ => DoControl) + [Dispatch]
  }

  /** What the loop makes of an answer with a body. */
  function Replied(s: State, body: Body, local: int): (s': State)
    ensures s'.phase.Polled?
  {
    var s1 := s.(phase := Answered(body),
                 runs := if body.assignment.Some? then s.runs.(received := s.runs.received + 1) else s.runs);
    var s2 := Configured(s1, local);
    var s3 := s2.(phase := Dispatching(s2.phase.next, s2.phase.again),
                  stop := ObeyAll(s2.stop, s2.runs.active, s2.phase.ops));
    Dispatched(s3)
  }

  function Pass(s: State, body: Body, local: int): State {
    Replied(Asked(s), body, local)
  }

  lemma PassReaches(s: State, body: Body, local: int)
    requires s.phase.Top? && (body.assignment.Some? ==> body.assignment.value.trace !in s.runs.active)
    ensures Reaches(s, PassSteps(body, local), Pass(s, body, local))
  {
    ReachesOne(s, [], s, BeginPoll);
    assert [] + [BeginPoll] == [BeginPoll];
    ReachesOne(s, [BeginPoll], Asked(s), PollAnswer(body));
    var s1 := Next(Asked(s), PollAnswer(body));
    assert [BeginPoll] + [PollAnswer(body)] == [BeginPoll, PollAnswer(body)];
    ReachesOne(s, [BeginPoll, PollAnswer(body)], s1, ApplySettings(local));
    var s2 := Configured(s1, local);
    var three := [BeginPoll, PollAnswer(body), ApplySettings(local)];
    assert [BeginPoll, PollAnswer(body)] + [ApplySettings(local)] == three;
    ObeyAllReaches(s2);
    var ops := seq(|body.control| + 1, _ => DoControl);
    var s3 := s2.(phase := Dispatching(s2.phase.next, s2.phase.again),
                  stop := ObeyAll(s2.stop, s2.runs.active, s2.phase.ops));
    ReachesThrough(s, three, s2, ops, s3);
    ReachesOne(s, three + ops, s3, Dispatch);
  }

  // ----- what an assignment, an op and a signal come to, on the fields -----

  /** An assignment is started exactly if its run type is not masked, the agent neither
      drains nor was aborted, and a slot is free under the limit in force; it is refused
      otherwise, and never both. One that is started is followed by another poll. */
  lemma DispatchExactly(s: State, a: Assignment)
    requires Enabled(s, Dispatch) && s.phase.next == Some(a)
    ensures var n, r, r' := s.runs.received - 1, s.runs, Next(s, Dispatch).runs;
            var takes := a.runType !in s.conf.mask && !s.stop.draining && !s.stop.aborted && |s.runs.active| < s.conf.limit;
            && r'.started == (if takes then r.started + {n} else r.started)
            && r'.active == (if takes then r.active[a.trace := n] else r.active)
            && r'.refused == (if takes then r.refused else r.refused + {n})
            && r'.refusing == (if takes then r.refusing else r.refusing + {n})
            && r'.leaving == r.leaving && r'.received == r.received
            && Next(s, Dispatch).phase == Polled(takes || s.phase.again)
    ensures Next(s, Dispatch).stop == s.stop && Next(s, Dispatch).conf == s.conf
  {
  }

  /** The runs that an answer's ops name and that are in flight. */
  function Killed(active: map<Trace, nat>, ops: seq<Control>): set<nat> {
    set t | t in active && Kill(t) in ops :: active[t]
  }

  /** The ops of one answer cancel exactly the runs in flight that they kill, and make the
      agent drain exactly if one says so; they change nothing else. */
  lemma {:induction false} ObeyAllExactly(stop: Stop, active: map<Trace, nat>, ops: seq<Control>)
    ensures ObeyAll(stop, active, ops) ==
            stop.(cancelled := stop.cancelled + Killed(active, ops), draining := stop.draining || Drain in ops)
    decreases |ops|
  {
    if ops != [] {
      ObeyAllExactly(Obey(stop, active, ops[0]), active, ops[1..]);
      assert ops == [ops[0]] + ops[1..];
      match ops[0] {
        case Kill(t) =>
          assert Killed(active, ops) == Killed(active, ops[1..]) + if t in active then {active[t]} else {};
        case _ =>
          assert Killed(active, ops) == Killed(active, ops[1..]);
      }
    }
  }

  /** A poll asks for work exactly if the agent is not stopping and has a slot free. */
  lemma AsksForWorkExactly(s: State)
    requires s.phase.Top?
    ensures !Next(s, BeginPoll).tally.askedNoClaim <==> !s.stop.stopping && |s.runs.active| < s.conf.limit
    ensures Next(s, BeginPoll).phase == Polling
  {
  }

  /** Settings of another version than the one in force are in force at once, and make the
      loop poll again; a limit that is none leaves the agent its own. Any other answer
      leaves them as they are. */
  lemma SettingsExactly(s: State, local: int)
    requires s.phase.Answered?
    ensures var s', sent := Next(s, ApplySettings(local)), s.phase.body.settings;
            var news := sent.Some? && sent.value.version != s.conf.version;
            && s'.phase == Controls(s.phase.body.control, s.phase.body.assignment, news)
            && (news ==> s'.conf.version == sent.value.version && s'.conf.mask == sent.value.mask)
            && (news && sent.value.limit.Some? && sent.value.limit.value > 0 ==> s'.conf.limit == sent.value.limit.value)
            && (news && (sent.value.limit.None? || sent.value.limit.value <= 0) ==> s'.conf.limit == local)
            && (!news ==> s'.conf == s.conf)
            && s'.runs == s.runs && s'.stop == s.stop
  {
  }

  /** After a pass: an agent that drains and has nothing in flight is done, one that stops
      waits for its last run, one that has reason to polls again at once, and any other
      waits. */
  lemma PassEndsExactly(s: State)
    requires s.phase.Polled?
    ensures Next(s, EndPass).phase ==
            if s.stop.draining && s.runs.active == map[] then Joining
            else if s.stop.stopping then StopWaiting
            else if s.phase.again && !s.stop.signalled then Top
            else Waiting
  {
  }

  /** A stop signal makes a waiting agent drain: it is done if nothing is in flight, and
      else polls on, without asking for work. */
  lemma SignalExactly(s: State)
    requires Enabled(s, WakeSignal)
    ensures var s' := Next(s, WakeSignal);
            && s'.stop.draining && s'.runs == s.runs
            && (s.runs.active == map[] ==> s'.phase == Joining)
            && (s.runs.active != map[] ==> s'.phase == Top && Next(s', BeginPoll).tally.askedNoClaim)
  {
  }

  /** A run that ends frees its slot, and owes the loop a word: that it was the last, that
      it was one too many. */
  lemma FinishExactly(s: State, trace: Trace)
    requires Enabled(s, Finish(trace))
    ensures var s' := Next(s, Finish(trace));
            && s'.runs.active == s.runs.active - {trace} && s'.runs.started == s.runs.started && s'.runs.refused == s.runs.refused
            && s'.runs.leaving == s.runs.leaving[s.runs.active[trace] :=
                 Sends(forall t :: t in s.runs.active ==> t == trace, |s.runs.active| >= s.conf.limit)]
  {
    var rest := s.runs.active - {trace};
    if forall t :: t in s.runs.active ==> t == trace {
      assert rest == map[];
    } else {
      var t :| t in s.runs.active && t != trace;
      assert t in rest;
    }
  }

  ghost predicate IdleKnown(s: State) {
    s.phase.StopWaiting? && s.runs.active == map[] ==> s.bells.idle || exists r :: r in s.runs.leaving && s.runs.leaving[r].idle
  }

  lemma IdleBeside(s: State, step: Step)
    requires IdleKnown(s) && Enabled(s, step) && !OfLoop(step)
    ensures IdleKnown(Beside(s, step))
  {
    var s' := Beside(s, step);
    if s.phase.StopWaiting? && s'.runs.active == map[] {
      if step.Finish? {
        assert s.runs.active[step.trace] in s'.runs.leaving && s'.runs.leaving[s.runs.active[step.trace]].idle;
      } else if r :| r in s.runs.leaving && s.runs.leaving[r].idle {
        if step != SendIdle(r) { assert r in s'.runs.leaving && s'.runs.leaving[r].idle; }
      }
    }
  }

  lemma {:induction false} IdleReaches(s: State, steps: seq<Step>, s': State)
    requires Inv(s) && IdleKnown(s) && Reaches(s, steps, s')
    ensures IdleKnown(s')
    decreases |steps|
  {
    if steps != [] {
      InvStep(s, steps[0]);
      if OfLoop(steps[0]) { IdleLoop(s, steps[0]); } else { IdleBeside(s, steps[0]); }
      IdleReaches(Next(s, steps[0]), steps[1..], s');
    }
  }

  lemma IdleLoop(s: State, step: Step)
    requires Stops(s) && IdleKnown(s) && Enabled(s, step) && OfLoop(step)
    ensures IdleKnown(Loop(s, step))
  {
  }

  /** Nor is the end of the last run missed: an agent that stops and waits, with nothing
      left in flight, has the word that it is idle, or a run's goroutine has still to
      send it. */
  lemma NoLostIdle(s: State)
    requires Reachable(s) && s.phase.StopWaiting? && s.runs.active == map[]
    ensures s.bells.idle || exists r :: r in s.runs.leaving && s.runs.leaving[r].idle
  {
    var limit, steps :| Reaches(Start(limit), steps, s);
    StartIsSafe(limit);
    IdleReaches(Start(limit), steps, s);
  }
}
