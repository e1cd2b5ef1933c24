/** The agent's own code for the steps of its lifecycle: the managed settings it
    applies, and the sections of the poll loop, of a run's goroutine and of the
    stop signals that change its fields. */
module AgentRuntime {
  import opened Lifecycle
  import opened Options

  class SettingsStore {
    var acked: int
    var limit: Option<int>
    var mask: set<string>

    constructor ()
      ensures acked == 0 && limit == None && mask == {}
    {
      acked, limit, mask := 0, None, {};
    }

    /** Installs a payload, unless it is the version already applied. */
    method Apply(p: Option<Settings>) returns (advanced: bool)
      modifies this
      ensures advanced <==> p.Some? && p.value.version != old(acked)
      ensures advanced ==> acked == p.value.version && limit == p.value.limit && mask == p.value.mask
      ensures !advanced ==> acked == old(acked) && limit == old(limit) && mask == old(mask)
    {
      if p.None? {
        return false;
      }
      if p.value.version == acked {
        return false;
      }
      limit, mask := p.value.limit, p.value.mask;
      acked := p.value.version;
      return true;
    }

    /** The limit in force: a managed value that is no limit never takes the place of the
        agent's own. */
    method MaxConcurrent(local: int) returns (n: int)
      ensures n == Effective(limit, local)
      ensures local > 0 ==> n > 0
      ensures n != local ==> limit == Some(n)
    {
      if limit.Some? && limit.value > 0 {
        return limit.value;
      }
      return local;
    }

    method Masks(runType: string) returns (b: bool)
      ensures b <==> runType in mask
    {
      return runType in mask;
    }
  }

  /** What a poll comes back with, as the loop distinguishes it: an answer with a
      body, or anything else (no work, no identity, refused, no answer). */
  datatype PollResult = WithBody(body: Body) | Nothing

  class Agent {
    const settings: SettingsStore
    const local: int
    var active: map<Trace, nat>
    var draining: bool
    var aborted: bool
    var stopping: bool
    var idle: bool
    var freed: bool
    var leaving: map<nat, Sends>
    var refusing: set<nat>
    var cancelled: set<nat>
    var received: nat
    /** The poll loop's position, and what the state machine keeps account of. */
    ghost var phase: Phase
    ghost var signalled: bool
    ghost var toCancel: set<nat>
    ghost var started: set<nat>
    ghost var refused: set<nat>
    ghost var tally: Tally

    constructor (local: int)
      ensures fresh(settings) && Abs() == Start(local) && this.local == local
    {
      settings := new SettingsStore();
      this.local := local;
      active, leaving, refusing, cancelled, received := map[], map[], {}, {}, 0;
      draining, aborted, stopping, idle, freed := false, false, false, false, false;
      phase, signalled, toCancel, started, refused := Top, false, {}, {}, {};
      tally := Tally(false, false, local, 0, 0);
    }

    ghost function Abs(): State
      reads this, settings
    {
      State(phase, Runs(active, leaving, refusing, received, started, refused),
            Stop(draining, aborted, stopping, signalled, cancelled, toCancel), Bells(idle, freed),
            Conf(Effective(settings.limit, local), settings.acked, settings.mask), tally)
    }

    method FullNow() returns (b: bool)
      ensures b <==> Full(Abs())
    {
      var limit := settings.MaxConcurrent(local);
      return |active| >= limit;
    }

    method Busy() returns (b: bool)
      ensures b <==> active != map[]
    {
      b := |active| > 0;
      if active != map[] {
        var t :| t in active;
        assert |active.Keys| > 0;
      }
    }

    /** Stops the claiming of new work; says how many runs are in flight. */
    method StartDrain() returns (n: nat)
      modifies this`draining
      ensures draining && n == |active|
    {
      if !draining {
        draining := true;
      }
      return |active|;
    }

    method IsDrainingDone() returns (b: bool)
      ensures b <==> DrainingDone(Abs())
    {
      var busy := Busy();
      return draining && !busy;
    }

    method KillRun(trace: Trace)
      modifies this`cancelled
      ensures Abs().stop == Obey(old(Abs()).stop, active, Kill(trace))
    {
      if trace in active {
        cancelled := cancelled + {active[trace]};
      }
    }

    /** Abort, in two parts as the code has them: under the lock it forbids any
        further start and lists the runs in flight; then it cancels each. */
    method Abort()
      modifies this`aborted, this`cancelled, this`toCancel
      ensures aborted && cancelled == old(cancelled) + active.Values
      ensures toCancel == old(toCancel) - active.Values
      ensures AbortReaches(active, Abs().stop)
    {
      aborted := true;
      toCancel := toCancel + active.Values;
      CancelAll(active.Values);
      assert forall t :: t in active ==> active[t] in active.Values;
    }

    method CancelAll(runs: set<nat>)
      modifies this`cancelled, this`toCancel
      ensures cancelled == old(cancelled) + runs && toCancel == old(toCancel) - runs
    {
      var left := runs;
      while left != {}
        invariant left <= runs
        invariant cancelled == old(cancelled) + (runs - left)
        invariant toCancel == old(toCancel) - (runs - left)
      {
        var run :| run in left;
        cancelled := cancelled + {run};
        toCancel := toCancel - {run};
        left := left - {run};
      }
    }

    /** What a run's goroutine does last: it gives its slot back, and wakes a loop
        that waits for the last run, or for a slot. */
    method FinishedRun(trace: Trace)
      requires trace in active && active[trace] !in leaving
      modifies this`active, this`idle, this`freed
      ensures Abs() == Finished(old(Abs()), trace)
      ensures Reaches(old(Abs()), FinishSteps(old(Abs()), trace), Abs())
    {
      FinishedReaches(Abs(), trace);
      GiveBack(trace);
    }

    method GiveBack(trace: Trace)
      requires trace in active
      modifies this`active, this`idle, this`freed
      ensures Abs() == Finished(old(Abs()), trace)
    {
      var wasFull := FullNow();
      active := active - {trace};
      var busy := Busy();
      if !busy {
        idle := true;
      }
      if wasFull {
        freed := true;
      }
    }

    /** Starts a claimed run, or refuses it. */
    method DispatchRun(a: Assignment, ghost again: bool) returns (wasStarted: bool)
      requires received > 0 && phase == Dispatching(Some(a), again)
      modifies this`active, this`refusing, this`phase, this`started, this`refused
      ensures Abs() == Dispatched(old(Abs()))
      ensures wasStarted <==>
        && a.runType !in settings.mask && !draining && !aborted
        && |old(active)| < if settings.limit.Some? && settings.limit.value > 0 then settings.limit.value else local
      ensures active == (if wasStarted then old(active)[a.trace := received - 1] else old(active))
      ensures started == (if wasStarted then old(started) + {received - 1} else old(started))
      ensures refused == (if wasStarted then old(refused) else old(refused) + {received - 1})
      ensures refusing == (if wasStarted then old(refusing) else old(refusing) + {received - 1})
    {
      var masked := settings.Masks(a.runType);
      if masked {
        Refuse(again);
        return false;
      }
      var full := FullNow();
      if draining || aborted || full {
        assert !Judge(Abs(), a).Starts?;
        Refuse(again);
        return false;
      }
      StartRun(a.trace);
      return true;
    }

    /** Takes the slot: the run is in flight from here on. */
    method StartRun(trace: Trace)
      requires received > 0
      modifies this`active, this`phase, this`started
      ensures Abs() == old(Abs()).(phase := Polled(true), runs := Lifecycle.StartRun(old(Abs()).runs, trace))
    {
      active := active[trace := received - 1];
      started := started + {received - 1};
      phase := Polled(true);
    }

    /** Hands a refused assignment to the goroutine that reports it as failed. */
    method Refuse(ghost again: bool)
      requires received > 0
      modifies this`refusing, this`phase, this`refused
      ensures Abs() == old(Abs()).(phase := Polled(again), runs := RefuseRun(old(Abs()).runs))
    {
      refusing := refusing + {received - 1};
      refused := refused + {received - 1};
      phase := Polled(again);
    }

    /** Applies the control ops of one answer, in order. */
    method HandleControl(ops: seq<Control>)
      modifies this`draining, this`cancelled
      ensures Abs().stop == ObeyAll(old(Abs()).stop, active, ops)
      ensures cancelled == old(cancelled) + (set t | t in active && Kill(t) in ops :: active[t])
      ensures draining <==> old(draining) || Drain in ops
    {
      ObeyAllExactly(Abs().stop, active, ops);
      ghost var all := ObeyAll(Abs().stop, active, ops);
      var i := 0;
      while i < |ops|
        invariant 0 <= i <= |ops|
        invariant ObeyAll(Abs().stop, active, ops[i..]) == all
      {
        assert ops[i..][0] == ops[i] && ops[i..][1..] == ops[i + 1..];
        match ops[i] {
          case Kill(trace) => KillRun(trace);
          case Drain => var _ := StartDrain();
          case Other =>
        }
        i := i + 1;
      }
    }

    /** One poll, with no other goroutine's step in between: what its answer
        changes, and whether another poll is to follow at once. */
    method PollOnce(result: PollResult) returns (again: bool)
      requires phase == Top
      requires result.WithBody? && result.body.assignment.Some? ==> result.body.assignment.value.trace !in active
      modifies this, settings
      ensures phase == Polled(again)
      ensures result.WithBody? ==> Abs() == Pass(old(Abs()), result.body, local)
      ensures result.WithBody? ==> Reaches(old(Abs()), PassSteps(result.body, local), Abs())
      ensures result.Nothing? ==> Abs() == Asked(old(Abs())).(phase := Polled(false))
    {
      if result.WithBody? { PassReaches(Abs(), result.body, local); }
      Ask();
      match result {
        case Nothing =>
          phase := Polled(false);
          return false;
        case WithBody(body) =>
          again := TakeAnswer(body);
      }
    }

    /** The body of an answer: its settings, its control ops, its assignment. */
    method TakeAnswer(body: Body) returns (again: bool)
      requires phase.Polling?
      requires body.assignment.Some? ==> body.assignment.value.trace !in active
      modifies this, settings
      ensures phase == Polled(again) && Abs() == Replied(old(Abs()), body, local)
    {
      received := if body.assignment.Some? then received + 1 else received;
      phase := Answered(body);
      again := ApplyPayload(body.settings);
      Control(body);
      again := DispatchNext(body.assignment, again);
    }

    /** The answer's assignment, if it has one; a run that is started is followed by
        another poll at once. */
    method DispatchNext(next: Option<Assignment>, more: bool) returns (again: bool)
      requires phase == Dispatching(next, more) && (next.Some? ==> received > 0)
      modifies this`active, this`refusing, this`phase, this`started, this`refused
      ensures phase == Polled(again) && Abs() == Dispatched(old(Abs()))
    {
      again := more;
      if next.Some? {
        var wasStarted := DispatchRun(next.value, more);
        if wasStarted {
          again := true;
        }
      } else {
        phase := Polled(again);
      }
    }

    /** The poll's parameters: it asks for no work when the agent can take none. */
    method Ask()
      modifies this`tally, this`phase
      ensures Abs() == Asked(old(Abs()))
    {
      var full := FullNow();
      var limit := settings.MaxConcurrent(local);
      tally := tally.(askedFull := full, askedNoClaim := stopping || full, askedLimit := limit);
      phase := Polling;
    }

    method Control(body: Body)
      requires phase.Controls? && phase.ops == body.control
      modifies this`draining, this`cancelled, this`phase
      ensures Abs() == old(Abs()).(phase := Dispatching(old(phase).next, old(phase).again),
                                   stop := ObeyAll(old(Abs()).stop, active, body.control))
    {
      HandleControl(body.control);
      phase := Dispatching(phase.next, phase.again);
    }

    /** The answer's settings take effect before its assignment is looked at. */
    method ApplyPayload(payload: Option<Settings>) returns (again: bool)
      requires phase.Answered? && phase.body.settings == payload
      modifies this`tally, this`phase, settings
      ensures Abs() == Configured(old(Abs()), local)
      ensures phase == Controls(old(phase).body.control, old(phase).body.assignment, again)
    {
      again := settings.Apply(payload);
      if again {
        tally := tally.(applied := tally.applied + 1);
      }
      phase := Controls(phase.body.control, phase.body.assignment, again);
    }
  }
}
