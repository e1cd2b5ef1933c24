/** The agent's life and its runs' logs together: every assignment it received yields
    one log, told, closed and sent, before the agent is done. */
module Fleet {
  import opened Goroutines
  import E = Executor
  import L = Lifecycle
  import opened LogBuffers
  import opened Options
  import opened Telling
  import opened Upload

  /** What becomes of an assignment: it is started, with its manifest's job or without a
      manifest, or it is refused. */
  datatype Birth =
    | Runs(job: E.Job, enveloping: E.Enveloping)
    | NoManifest(why: Bytes, failure: Bytes)
    | Refusal(why: Bytes, failure: Bytes)
  {
    /** What its goroutines run: the executor's code, or one line and the envelope. */
    function Code(): seq<Action> {
      if Runs? then E.Code(job, enveloping) else [Write(why), Close(failure)]
    }

    function Envelope(): Bytes {
      if Runs? then enveloping(E.ExitOf(job), E.ReasonOf(job)) else failure
    }
  }

  /** The log of one assignment: what became of it, the log and its upload, and how that
      ended, if it has. */
  datatype Log = Log(birth: Birth, w: World, end: Option<Ending>)

  /** A run's upload ends as its retries do; a refusal's after one budget. */
  datatype Ending = Flushed(end: FlushEnd) | OneBudget(out: Outcome)

  datatype State = State(life: L.State, logs: map<nat, Log>)

  /** A step of the life; `birth` is what becomes of the assignment that a dispatch starts
      or refuses. Or a moment of one log: something happens to it, or, once its goroutines
      have ended, it is sent to the end. */
  datatype Step =
    | Life(step: L.Step, birth: Birth)
    | During(run: nat, live: Live)
    | Flushes(run: nat, script: seq<Attempt>, rounds: seq<Round>)
    | SendsOnce(run: nat, script: seq<Attempt>)

  function Start(limit: int): State {
    State(L.Start(limit), map[])
  }

  function Born(birth: Birth): Log {
    Log(birth, Upload.Start(Thread(birth.Code(), [])), None)
  }

  /** Whatever becomes of an assignment, its code joins what it starts and closes its log
      with its envelope. */
  lemma RunsAndRefusalsClose(b: Birth)
    ensures Joins(b.Code(), false, true) && b.Code() != [] && b.Code()[|b.Code()| - 1] == Close(b.Envelope())
  {
    if b.Runs? {
      E.RunJoins(b.job, b.enveloping);
    } else {
      var code := [Write(b.why), Close(b.failure)];
      assert code[1..] == [Close(b.failure)] && code[1..][1..] == [];
    }
  }

  lemma OneLineWrites(b: Birth, q: Path)
    requires !b.Runs?
    ensures WritesOf(CodeAt(b.Code(), q)) == if q == [] then [b.why, b.failure] else []
  {
    var code, last: seq<Action> := [Write(b.why), Close(b.failure)], [Close(b.failure)];
    assert code[1..] == last && last[1..] == [];
    assert Bodies(last) == [] + Bodies(last[1..]) == [];
    assert Bodies(code) == [] + Bodies(code[1..]) == [];
    assert WritesOf(last) == [b.failure] && WritesOf(code) == [b.why, b.failure];
  }

  /** A log of which only the run's own goroutine wrote lines is that goroutine's lines. */
  lemma {:induction false} OneVoice(lines: seq<Bytes>, whose: seq<Path>)
    requires |whose| == |lines| && forall q: Path :: q != [] ==> Said(lines, whose, q) == []
    ensures Said(lines, whose, []) == lines
    decreases |lines|
  {
    if lines != [] {
      var n := |lines| - 1;
      assert Said(lines, whose, whose[n]) != [];
      forall q: Path | q != [] ensures Said(lines[..n], whose[..n], q) == [] {
        assert Said(lines, whose, q) == [];
      }
      OneVoice(lines[..n], whose[..n]);
    }
  }

  /** Whether a dispatch will judge an assignment. */
  predicate Judges(s: L.State, step: L.Step) {
    step.Dispatch? && s.phase.Dispatching? && s.phase.next.Some?
  }

  predicate HasEnded(logs: map<nat, Log>, run: nat) {
    run in logs && logs[run].end.Some?
  }

  ghost predicate Enabled(s: State, step: Step) {
    match step
    case Life(l, birth) =>
      && L.Enabled(s.life, l)
      && (Judges(s.life, l) ==> (birth.Refusal? <==> s.life.runs.received - 1 in L.Next(s.life, l).runs.refused))
      && (l.Finish? ==> HasEnded(s.logs, s.life.runs.active[l.trace]))
      && (l.RefusalDone? ==> HasEnded(s.logs, l.run))
    case During(run, _) => run in s.logs && s.logs[run].end.None? && Valid(s.logs[run].w)
    case Flushes(run, script, rounds) =>
      && run in s.logs && s.logs[run].end.None? && Valid(s.logs[run].w) && Over(s.logs[run].w) && run in s.life.runs.started
      && Flush(s.logs[run].w, script, rounds).1 != StillSending
      && ((exists i :: 0 <= i < |rounds| && rounds[i].cancelled) ==> run in s.life.stop.cancelled)
    case SendsOnce(run, _) =>
      run in s.logs && s.logs[run].end.None? && Valid(s.logs[run].w) && Over(s.logs[run].w) && run in s.life.runs.refused
  }

  ghost function Next(s: State, step: Step): State
    requires Enabled(s, step)
  {
    match step
    case Life(l, birth) =>
      State(L.Next(s.life, l), if Judges(s.life, l) then s.logs[s.life.runs.received - 1 := Born(birth)] else s.logs)
    case During(run, live) =>
      s.(logs := s.logs[run := s.logs[run].(w := LiveOne(s.logs[run].w, live))])
    case Flushes(run, script, rounds) =>
      var (w, end) := Flush(s.logs[run].w, script, rounds);
      s.(logs := s.logs[run := s.logs[run].(w := w, end := Some(Flushed(end)))])
    case SendsOnce(run, script) =>
      var (w, out) := Stream(s.logs[run].w, script, None);
      s.(logs := s.logs[run := s.logs[run].(w := w, end := Some(OneBudget(out)))])
  }

  // ----- what every step keeps -----

  /** How an upload ended is true of what the server holds. */
  ghost predicate EndIsTrue(w: World, end: Ending, cancelled: bool) {
    match end
    case OneBudget(out) => (out == Sent ==> w.persisted == Text(w.told.lines)) && (out == Closed ==> w.closed)
    case Flushed(f) =>
      && (f == Delivered ==> w.persisted == Text(w.told.lines))
      && (f == ClosedByServer ==> w.closed)
      && (f == RefusedForGood ==> FinallyRefused(w))
      && (f == Abandoned ==> cancelled)
      && f != StillSending
  }

  ghost predicate LogIsTrue(log: Log, cancelled: bool) {
    && Safe(log.w) && Tells(log.w, log.birth.Code(), log.birth.Envelope())
    && (log.end.Some? ==> Over(log.w) && EndIsTrue(log.w, log.end.value, cancelled))
  }

  /** There is a log for each assignment judged, as it was judged; and it is over unless
      its run or refusal is still outstanding. */
  ghost predicate Owned(r: L.Runs, logs: map<nat, Log>) {
    && (forall n :: n in logs <==> n in r.started || n in r.refused)
    && (forall n :: n in r.started ==> !logs[n].birth.Refusal? && (n in r.active.Values || HasEnded(logs, n)))
    && (forall n :: n in r.refused ==> logs[n].birth.Refusal? && (n in r.refusing || HasEnded(logs, n)))
  }

  ghost predicate AllTrue(logs: map<nat, Log>, cancelled: set<nat>) {
    forall n :: n in logs ==> LogIsTrue(logs[n], n in cancelled)
  }

  ghost predicate Logged(s: State) {
    Owned(s.life.runs, s.logs) && AllTrue(s.logs, s.life.stop.cancelled)
  }

  // ----- a step of the life -----

  lemma BesideRefusals(s: L.State, step: L.Step)
    requires L.Enabled(s, step) && !L.OfLoop(step)
    ensures var s' := L.Beside(s, step);
            && s'.runs.refused == s.runs.refused && s.stop.cancelled <= s'.stop.cancelled
            && s'.runs.refusing == (if step.RefusalDone? then s.runs.refusing - {step.run} else s.runs.refusing)
  {
  }

  lemma LoopRefusals(s: L.State, step: L.Step)
    requires L.Enabled(s, step) && L.OfLoop(step) && !step.Dispatch?
    ensures var s' := L.Loop(s, step);
            s'.runs.refused == s.runs.refused && s'.runs.refusing == s.runs.refusing && s.stop.cancelled <= s'.stop.cancelled
  {
  }

  /** A step that judges nothing starts and refuses nothing; runs and refusals may end. */
  lemma OtherStep(s: L.State, step: L.Step)
    requires L.Enabled(s, step) && !Judges(s, step)
    ensures var r, s' := s.runs, L.Next(s, step);
            && s'.runs.started == r.started && s'.runs.refused == r.refused && s.stop.cancelled <= s'.stop.cancelled
            && s'.runs.refusing == (if step.RefusalDone? then r.refusing - {step.run} else r.refusing)
            && s'.runs.active == (if step.Finish? then r.active - {step.trace} else r.active)
  {
    if !L.OfLoop(step) {
      L.BesideLeavesTheLoop(s, step);
      BesideRefusals(s, step);
    } else if !step.Dispatch? {
      L.LoopStartsByDispatch(s, step);
      LoopRefusals(s, step);
    }
  }

  /** A dispatch starts or refuses one new assignment. */
  lemma JudgeStep(s: L.State, step: L.Step)
    requires L.Accounted(s.phase, s.runs) && L.Enabled(s, step) && Judges(s, step)
    ensures var n, r, s' := s.runs.received - 1, s.runs, L.Next(s, step);
            && n !in r.started && n !in r.refused && s'.stop == s.stop && s.phase.next.value.trace !in r.active
            && (|| s'.runs == L.StartRun(r, s.phase.next.value.trace)
                || s'.runs == L.RefuseRun(r))
  {
    assert L.Held(s.phase, s.runs, s.runs.received - 1);
  }

  lemma ValuesAfterFinish(active: map<L.Trace, nat>, t: L.Trace)
    requires t in active
    ensures active.Values <= (active - {t}).Values + {active[t]}
  {
    forall n | n in active.Values ensures n in (active - {t}).Values + {active[t]} {
      var u :| u in active && active[u] == n;
      if u != t { assert u in active - {t} && (active - {t})[u] == n; }
    }
  }

  lemma ValuesAfterStart(active: map<L.Trace, nat>, t: L.Trace, n: nat)
    requires t !in active
    ensures active[t := n].Values == active.Values + {n}
  {
    forall m | m in active.Values ensures m in active[t := n].Values {
      var u :| u in active && active[u] == m;
      assert u in active[t := n] && active[t := n][u] == m;
    }
    assert t in active[t := n];
  }

  lemma OwnedOther(s: State, step: Step)
    requires Owned(s.life.runs, s.logs) && step.Life? && Enabled(s, step) && !Judges(s.life, step.step)
    ensures Owned(L.Next(s.life, step.step).runs, s.logs)
  {
    OtherStep(s.life, step.step);
    if step.step.Finish? {
      ValuesAfterFinish(s.life.runs.active, step.step.trace);
    }
  }

  lemma OwnedJudged(r: L.Runs, logs: map<nat, Log>, t: L.Trace, log: Log)
    requires Owned(r, logs) && r.received > 0 && t !in r.active
    requires r.received - 1 !in r.started && r.received - 1 !in r.refused
    ensures !log.birth.Refusal? ==> Owned(L.StartRun(r, t), logs[r.received - 1 := log])
    ensures log.birth.Refusal? ==> Owned(L.RefuseRun(r), logs[r.received - 1 := log])
  {
    ValuesAfterStart(r.active, t, r.received - 1);
  }

  lemma TrueLater(logs: map<nat, Log>, cancelled: set<nat>, more: set<nat>)
    requires AllTrue(logs, cancelled) && cancelled <= more
    ensures AllTrue(logs, more)
  {
    forall n | n in logs ensures LogIsTrue(logs[n], n in more) {
      assert LogIsTrue(logs[n], n in cancelled);
    }
  }

  lemma BornTrue(logs: map<nat, Log>, cancelled: set<nat>, n: nat, birth: Birth)
    requires AllTrue(logs, cancelled)
    ensures AllTrue(logs[n := Born(birth)], cancelled)
  {
    RunsAndRefusalsClose(birth);
    StartTells(birth.Code(), birth.Envelope());
    var logs' := logs[n := Born(birth)];
    forall m | m in logs' ensures LogIsTrue(logs'[m], m in cancelled) {
      if m != n { assert LogIsTrue(logs[m], m in cancelled); }
    }
  }

  lemma OwnedByJudging(s: State, step: Step)
    requires L.Accounted(s.life.phase, s.life.runs) && Owned(s.life.runs, s.logs)
    requires step.Life? && Enabled(s, step) && Judges(s.life, step.step)
    ensures Owned(L.Next(s.life, step.step).runs, s.logs[s.life.runs.received - 1 := Born(step.birth)])
    ensures L.Next(s.life, step.step).stop == s.life.stop
  {
    JudgeStep(s.life, step.step);
    OwnedJudged(s.life.runs, s.logs, s.life.phase.next.value.trace, Born(step.birth));
  }

  lemma LoggedFrom(life: L.State, logs: map<nat, Log>, cancelled: set<nat>)
    requires Owned(life.runs, logs) && AllTrue(logs, cancelled) && life.stop.cancelled == cancelled
    ensures Logged(State(life, logs))
  {
  }

  lemma JudgedNext(s: State, step: Step) returns (life: L.State, logs: map<nat, Log>)
    requires step.Life? && Enabled(s, step) && Judges(s.life, step.step)
    ensures life == L.Next(s.life, step.step)
    ensures logs == s.logs[s.life.runs.received - 1 := Born(step.birth)]
    ensures Next(s, step) == State(life, logs)
  {
    life, logs := L.Next(s.life, step.step), s.logs[s.life.runs.received - 1 := Born(step.birth)];
  }

  lemma LoggedOther(s: State, step: Step)
    requires Logged(s) && step.Life? && Enabled(s, step) && !Judges(s.life, step.step)
    ensures Logged(Next(s, step))
  {
    OtherStep(s.life, step.step);
    OwnedOther(s, step);
    TrueLater(s.logs, s.life.stop.cancelled, L.Next(s.life, step.step).stop.cancelled);
  }

  // ----- a moment of one log -----

  lemma LiveKeeps(log: Log, live: Live, cancelled: bool)
    requires LogIsTrue(log, cancelled) && log.end.None?
    ensures LogIsTrue(log.(w := LiveOne(log.w, live)), cancelled)
  {
    LiveOneTells(log.w, live, log.birth.Code(), log.birth.Envelope());
  }

  lemma FlushKeeps(log: Log, script: seq<Attempt>, rounds: seq<Round>, cancelled: bool)
    requires LogIsTrue(log, cancelled) && Over(log.w)
    requires Flush(log.w, script, rounds).1 != StillSending
    requires (exists i :: 0 <= i < |rounds| && rounds[i].cancelled) ==> cancelled
    ensures var (w, end) := Flush(log.w, script, rounds);
            LogIsTrue(log.(w := w, end := Some(Flushed(end))), cancelled)
  {
    FlushEndsRight(log.w, script, rounds);
    TellsSame(log.w, Flush(log.w, script, rounds).0, log.birth.Code(), log.birth.Envelope());
  }

  lemma SendKeeps(log: Log, script: seq<Attempt>, cancelled: bool)
    requires LogIsTrue(log, cancelled) && Over(log.w)
    ensures var (w, out) := Stream(log.w, script, None);
            LogIsTrue(log.(w := w, end := Some(OneBudget(out))), cancelled)
  {
    StreamIsSafe(log.w, script, None);
    TellsSame(log.w, Stream(log.w, script, None).0, log.birth.Code(), log.birth.Envelope());
  }

  lemma OwnedStill(r: L.Runs, logs: map<nat, Log>, run: nat, log: Log)
    requires Owned(r, logs) && run in logs && (logs[run].end.Some? ==> log.end.Some?) && log.birth == logs[run].birth
    ensures Owned(r, logs[run := log])
  {
    assert forall n :: HasEnded(logs, n) ==> HasEnded(logs[run := log], n);
  }

  lemma TrueStill(logs: map<nat, Log>, cancelled: set<nat>, run: nat, log: Log)
    requires AllTrue(logs, cancelled) && LogIsTrue(log, run in cancelled)
    ensures AllTrue(logs[run := log], cancelled)
  {
    forall n | n in logs[run := log] ensures LogIsTrue(logs[run := log][n], n in cancelled) {
      if n != run { assert LogIsTrue(logs[n], n in cancelled); }
    }
  }

  lemma OneLogChanged(s: State, run: nat, log: Log)
    requires Logged(s) && run in s.logs && (s.logs[run].end.Some? ==> log.end.Some?) && log.birth == s.logs[run].birth
    requires LogIsTrue(log, run in s.life.stop.cancelled)
    ensures Logged(s.(logs := s.logs[run := log]))
  {
    OwnedStill(s.life.runs, s.logs, run, log);
    TrueStill(s.logs, s.life.stop.cancelled, run, log);
  }

  lemma LoggedMoment(s: State, step: Step)
    requires Logged(s) && !step.Life? && Enabled(s, step)
    ensures Logged(Next(s, step))
  {
    var run, cancelled := step.run, step.run in s.life.stop.cancelled;
    var log := s.logs[run];
    assert LogIsTrue(log, cancelled);
    match step
    case During(_, live) =>
      LiveKeeps(log, live, cancelled);
      OneLogChanged(s, run, log.(w := LiveOne(log.w, live)));
    case Flushes(_, script, rounds) =>
      FlushKeeps(log, script, rounds, cancelled);
      OneLogChanged(s, run, Next(s, step).logs[run]);
    case SendsOnce(_, script) =>
      SendKeeps(log, script, cancelled);
      OneLogChanged(s, run, Next(s, step).logs[run]);
  }

  // ----- runs of the agent -----

  ghost predicate Reaches(s: State, steps: seq<Step>, s': State)
    decreases |steps|
  {
    if steps == [] then s == s' else Enabled(s, steps[0]) && Reaches(Next(s, steps[0]), steps[1..], s')
  }

  lemma LoggedStep(s: State, step: Step)
    requires L.Inv(s.life) && Logged(s) && Enabled(s, step)
    ensures L.Inv(Next(s, step).life) && Logged(Next(s, step))
  {
    if !step.Life? {
      LoggedMoment(s, step);
    } else {
      L.InvStep(s.life, step.step);
      if Judges(s.life, step.step) {
        var life, logs := JudgedNext(s, step);
        OwnedByJudging(s, step);
        BornTrue(s.logs, s.life.stop.cancelled, s.life.runs.received - 1, step.birth);
        LoggedFrom(life, logs, s.life.stop.cancelled);
      } else {
        LoggedOther(s, step);
      }
    }
  }

  lemma {:induction false} LoggedReaches(s: State, steps: seq<Step>, s': State)
    requires L.Inv(s.life) && Logged(s) && Reaches(s, steps, s')
    ensures L.Inv(s'.life) && Logged(s')
    decreases |steps|
  {
    if steps != [] {
      LoggedStep(s, steps[0]);
      LoggedReaches(Next(s, steps[0]), steps[1..], s');
    }
  }

  lemma AllOverAtReturn(life: L.State, logs: map<nat, Log>, n: nat)
    requires L.Inv(life) && Owned(life.runs, logs) && life.phase.Returned? && n < life.runs.received
    ensures HasEnded(logs, n) && (n in life.runs.refused <==> logs[n].birth.Refusal?)
  {
    assert n in life.runs.started || n in life.runs.refused || L.Held(life.phase, life.runs, n);
    assert life.runs.active == map[] && life.runs.refusing == {};
  }

  lemma OverIsReported(log: Log, cancelled: bool, q: Path)
    requires LogIsTrue(log, cancelled) && log.end.Some?
    ensures Over(log.w) && EndIsTrue(log.w, log.end.value, cancelled)
    ensures log.w.isSealed && log.w.told.lines != [] && log.w.told.lines[|log.w.told.lines| - 1] == log.birth.Envelope()
    ensures |log.w.told.whose| == |log.w.told.lines|
    ensures Said(log.w.told.lines, log.w.told.whose, q) == WritesOf(CodeAt(log.birth.Code(), q))
    ensures !log.birth.Runs? ==> log.w.told.lines == [log.birth.why, log.birth.failure]
  {
    OverIsTold(log.w, log.birth.Code(), log.birth.Envelope(), q);
    if !log.birth.Runs? {
      forall p: Path | p != [] ensures Said(log.w.told.lines, log.w.told.whose, p) == [] {
        OverIsTold(log.w, log.birth.Code(), log.birth.Envelope(), p);
        OneLineWrites(log.birth, p);
      }
      OverIsTold(log.w, log.birth.Code(), log.birth.Envelope(), []);
      OneLineWrites(log.birth, []);
      OneVoice(log.w.told.lines, log.w.told.whose);
    }
  }

  /** When the agent has returned, every assignment it ever received has one log, closed
      with its envelope as the last line, that tells what its goroutines wrote: of a run
      the executor's code, ended by the envelope of the exit code that comes to, and of a
      refusal, or a run without a manifest, the one line before the envelope. And its
      upload is over, and ended as it says: with everything delivered, with the run closed
      or the log refused by the server, or abandoned, for a run that was cancelled. */
  lemma EveryAssignmentIsReported(limit: int, steps: seq<Step>, s: State, n: nat, q: Path)
    requires Reaches(Start(limit), steps, s) && s.life.phase.Returned? && n < s.life.runs.received
    ensures n in s.logs
    ensures var log := s.logs[n];
            && log.end.Some? && Over(log.w) && log.w.isSealed
            && (n in s.life.runs.refused <==> log.birth.Refusal?)
            && log.w.told.lines != [] && log.w.told.lines[|log.w.told.lines| - 1] == log.birth.Envelope()
            && |log.w.told.whose| == |log.w.told.lines|
            && Said(log.w.told.lines, log.w.told.whose, q) == WritesOf(CodeAt(log.birth.Code(), q))
            && (!log.birth.Runs? ==> log.w.told.lines == [log.birth.why, log.birth.failure])
            && EndIsTrue(log.w, log.end.value, n in s.life.stop.cancelled)
  {
    L.StartIsSafe(limit);
    LoggedReaches(Start(limit), steps, s);
    AllOverAtReturn(s.life, s.logs, n);
    assert LogIsTrue(s.logs[n], n in s.life.stop.cancelled);
    OverIsReported(s.logs[n], n in s.life.stop.cancelled, q);
  }
}
