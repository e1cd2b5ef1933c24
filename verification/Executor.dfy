/** What executing one manifest does to its log: the executor's own goroutine and
    those it starts, by every way through a run. */
module Executor {
  import opened Goroutines
  import opened LogBuffers
  import opened Options

  /** Text in the log's bytes. */
  function Encode(s: string): Bytes {
    seq(|s|, i requires 0 <= i < |s| => (s[i] as int % 256) as byte)
  }

  const NO_HOSTS := Encode("cronomicon: no hosts resolved for this run")
  const HOST_KEY_UNVERIFIED := Encode("host_key_unverified: ")

  /** How a process ended: with a code, or not as a process does. */
  datatype Exit = Exited(code: int) | Broke(problem: Bytes)

  /** One target of a fan-out: never reached (for want of a trusted host key, or for any
      other reason), or run there. Lines are as they come out, under the target's name. */
  datatype Target =
    | Unreached(why: Bytes, scan: Option<Bytes>)
    | Ran(stdout: seq<Bytes>, stderr: seq<Bytes>, end: Exit)

  /** The part of a run between its preparation and its end. */
  datatype Body =
    | NotStarted(notes: seq<Bytes>, problem: Bytes)
    | Local(notes: seq<Bytes>, stdout: seq<Bytes>, stderr: seq<Bytes>, end: Exit)
    | NoTargets(problem: Bytes)
    | FanOut(targets: seq<Target>)

  /** A run as the executor meets it: a problem with its keys or secret files, its
      body, whether its own timeout ended it, and whether the agent did. */
  datatype Job = Job(
    keyProblem: Option<Bytes>,
    fileProblem: Option<Bytes>,
    body: Body,
    timedOut: Option<Bytes>,
    stopped: Option<Bytes>)

  /** The envelope of an exit code and a reason; its times are what they were. */
  type Enveloping = (int, Bytes) -> Bytes

  // ----- the code a run comes to -----

  function Writes(lines: seq<Bytes>): seq<Action> {
    seq(|lines|, i requires 0 <= i < |lines| => Write(lines[i]))
  }

  /** Both streams of a process are read side by side, and both to their end. */
  function Streams(stdout: seq<Bytes>, stderr: seq<Bytes>, end: Exit): seq<Action> {
    [Go(Writes(stdout)), Go(Writes(stderr)), Wait] + (if end.Broke? then [Write(end.problem)] else [])
  }

  function TargetCode(t: Target): seq<Action> {
    match t
    case Unreached(why, _) => [Write(why)]
    case Ran(stdout, stderr, end) => Streams(stdout, stderr, end)
  }

  function Starts(targets: seq<Target>): seq<Action> {
    seq(|targets|, i requires 0 <= i < |targets| => Go(TargetCode(targets[i])))
  }

  function BodyCode(b: Body): seq<Action> {
    match b
    case NotStarted(notes, problem) => Writes(notes) + [Write(problem)]
    case Local(notes, stdout, stderr, end) => Writes(notes) + Streams(stdout, stderr, end)
    case NoTargets(problem) => [Write(problem)]
    case FanOut(targets) => if targets == [] then [Write(NO_HOSTS)] else Starts(targets) + [Wait]
  }

  function Note(line: Option<Bytes>): seq<Action> {
    if line.Some? then [Write(line.value)] else []
  }

  function Code(j: Job, envelope: Enveloping): seq<Action> {
    if j.keyProblem.Some? then [Write(j.keyProblem.value), Close(envelope(-1, []))]
    else if j.fileProblem.Some? then [Write(j.fileProblem.value), Close(envelope(-1, []))]
    else BodyCode(j.body) + Note(j.timedOut) + Note(j.stopped) + [Close(envelope(ExitOf(j), ReasonOf(j)))]
  }

  // ----- the exit code it reports -----

  function ProcessExit(e: Exit): int {
    if e.Exited? then e.code else -1
  }

  predicate Succeeded(t: Target) {
    t.Ran? && t.end == Exited(0)
  }

  /** The exit code of the first target that failed, or one of its own. */
  function Aggregate(targets: seq<Target>): int
    decreases |targets|
  {
    if targets == [] then 0
    else if Succeeded(targets[0]) then Aggregate(targets[1..])
    else if targets[0].Ran? && ProcessExit(targets[0].end) > 0 then ProcessExit(targets[0].end)
    else 1
  }

  function FirstUnverified(targets: seq<Target>): Bytes
    decreases |targets|
  {
    if targets == [] then []
    else if targets[0].Unreached? && targets[0].scan.Some? then HOST_KEY_UNVERIFIED + targets[0].scan.value
    else FirstUnverified(targets[1..])
  }

  function BodyExit(b: Body): int {
    match b
    case NotStarted(_, _) => -1
    case Local(_, _, _, end) => ProcessExit(end)
    case NoTargets(_) => 1
    case FanOut(targets) => if targets == [] then 1 else Aggregate(targets)
  }

  /** A run that something else ended did not succeed. */
  function Noted(line: Option<Bytes>, exit: int): int {
    if line.Some? && exit == 0 then -1 else exit
  }

  function ExitOf(j: Job): int {
    if j.keyProblem.Some? || j.fileProblem.Some? then -1
    else Noted(j.stopped, Noted(j.timedOut, BodyExit(j.body)))
  }

  function ReasonOf(j: Job): Bytes {
    if j.keyProblem.Some? || j.fileProblem.Some? || !j.body.FanOut? then [] else FirstUnverified(j.body.targets)
  }

  /** A run reports success exactly if nothing went wrong before it, nothing else ended
      it, and its process, or its process on every one of its targets, exited with 0. */
  lemma SuccessIsSuccess(j: Job)
    ensures ExitOf(j) == 0 <==>
      (&& j.keyProblem.None? && j.fileProblem.None? && j.timedOut.None? && j.stopped.None?
       && match j.body
          case NotStarted(_, _) => false
          case Local(_, _, _, end) => end == Exited(0)
          case NoTargets(_) => false
          case FanOut(targets) => targets != [] && forall i :: 0 <= i < |targets| ==> Succeeded(targets[i]))
  {
    if j.body.FanOut? {
      AggregateIsZero(j.body.targets);
    }
  }

  lemma {:induction false} AggregateIsZero(targets: seq<Target>)
    ensures Aggregate(targets) == 0 <==> forall i :: 0 <= i < |targets| ==> Succeeded(targets[i])
    decreases |targets|
  {
    if targets != [] {
      AggregateIsZero(targets[1..]);
      assert forall i :: 0 < i < |targets| ==> targets[i] == targets[1..][i - 1];
      assert forall i :: 0 <= i < |targets[1..]| ==> targets[1..][i] == targets[i + 1];
    }
  }

  /** The exit code, by every way through a run. A process's own code is reported as it
      is, whatever else ended the run; only a success that was none becomes one of the
      agent's. A fan-out reports that of its first target that failed if it is above zero,
      and else 1. */
  lemma ExitExactly(j: Job)
    ensures j.keyProblem.Some? || j.fileProblem.Some? ==> ExitOf(j) == -1
    ensures j.keyProblem.None? && j.fileProblem.None? ==>
              var cut := j.timedOut.Some? || j.stopped.Some?;
              && (j.body.NotStarted? ==> ExitOf(j) == -1)
              && (j.body.NoTargets? || j.body == FanOut([]) ==> ExitOf(j) == 1)
              && (j.body.Local? && j.body.end.Broke? ==> ExitOf(j) == -1)
              && (j.body.Local? && j.body.end.Exited? && j.body.end.code != 0 ==> ExitOf(j) == j.body.end.code)
              && (j.body.Local? && j.body.end.Exited? && j.body.end.code == 0 ==> ExitOf(j) == if cut then -1 else 0)
    ensures j.keyProblem.None? && j.fileProblem.None? && j.body.FanOut? ==>
              forall i: nat :: FirstFailed(j.body.targets, i) ==>
                var t := j.body.targets[i];
                ExitOf(j) == if t.Ran? && t.end.Exited? && t.end.code > 0 then t.end.code else 1
  {
    if j.body.FanOut? {
      forall i: nat | FirstFailed(j.body.targets, i)
        ensures var t := j.body.targets[i];
                Aggregate(j.body.targets) == if t.Ran? && t.end.Exited? && t.end.code > 0 then t.end.code else 1
      {
        AggregateExactly(j.body.targets, i);
      }
    }
  }

  /** Target i did not run to an exit with 0, and every one before it did. */
  ghost predicate FirstFailed(targets: seq<Target>, i: nat) {
    && i < |targets| && !(targets[i].Ran? && targets[i].end == Exited(0))
    && forall k :: 0 <= k < i ==> targets[k].Ran? && targets[k].end == Exited(0)
  }

  lemma {:induction false} AggregateExactly(targets: seq<Target>, i: nat)
    requires FirstFailed(targets, i)
    ensures var t := targets[i];
            Aggregate(targets) == if t.Ran? && t.end.Exited? && t.end.code > 0 then t.end.code else 1
    decreases i
  {
    if i > 0 {
      assert FirstFailed(targets[1..], i - 1);
      AggregateExactly(targets[1..], i - 1);
    }
  }

  /** Target i has an unverified host key to scan, and none before it has. */
  ghost predicate FirstToScan(targets: seq<Target>, i: nat) {
    && i < |targets| && targets[i].Unreached? && targets[i].scan.Some?
    && forall k :: 0 <= k < i ==> !(targets[k].Unreached? && targets[k].scan.Some?)
  }

  /** The reason given with it: which host to scan, of the first target that was not
      reached for want of a trusted key; and otherwise none. */
  lemma ReasonExactly(j: Job)
    ensures j.keyProblem.Some? || j.fileProblem.Some? || !j.body.FanOut? ==> ReasonOf(j) == []
    ensures j.keyProblem.None? && j.fileProblem.None? && j.body.FanOut? ==>
              && (forall i: nat :: FirstToScan(j.body.targets, i) ==>
                    ReasonOf(j) == Encode("host_key_unverified: ") + j.body.targets[i].scan.value)
              && ((forall t :: t in j.body.targets ==> !(t.Unreached? && t.scan.Some?)) ==> ReasonOf(j) == [])
  {
    if j.body.FanOut? {
      forall i: nat | FirstToScan(j.body.targets, i)
        ensures FirstUnverified(j.body.targets) == Encode("host_key_unverified: ") + j.body.targets[i].scan.value
      {
        UnverifiedExactly(j.body.targets, i);
      }
      if forall t :: t in j.body.targets ==> !(t.Unreached? && t.scan.Some?) {
        NoneUnverified(j.body.targets);
      }
    }
  }

  lemma {:induction false} UnverifiedExactly(targets: seq<Target>, i: nat)
    requires FirstToScan(targets, i)
    ensures FirstUnverified(targets) == Encode("host_key_unverified: ") + targets[i].scan.value
    decreases i
  {
    if i > 0 {
      assert FirstToScan(targets[1..], i - 1);
      UnverifiedExactly(targets[1..], i - 1);
    }
  }

  lemma {:induction false} NoneUnverified(targets: seq<Target>)
    requires forall t :: t in targets ==> !(t.Unreached? && t.scan.Some?)
    ensures FirstUnverified(targets) == []
    decreases |targets|
  {
    if targets != [] {
      assert targets[0] in targets && forall t :: t in targets[1..] ==> t in targets;
      NoneUnverified(targets[1..]);
    }
  }

  // ----- no writer is left when the log is closed -----

  /** Code without waits or starts, before other code. */
  lemma {:induction false} JoinsAfterWrites(lines: seq<Bytes>, rest: seq<Action>, own: bool)
    requires Joins(rest, false, own)
    ensures Joins(Writes(lines) + rest, false, own)
    decreases |lines|
  {
    var all := Writes(lines) + rest;
    if lines == [] {
      assert all == rest;
    } else {
      assert Writes(lines)[1..] == Writes(lines[1..]);
      assert all[1..] == Writes(lines[1..]) + rest;
      JoinsAfterWrites(lines[1..], rest, own);
    }
  }

  lemma JoinsWrites(lines: seq<Bytes>)
    ensures Joins(Writes(lines), false, false)
  {
    JoinsAfterWrites(lines, [], false);
    assert Writes(lines) + [] == Writes(lines);
  }

  lemma JoinsAfterWrite(line: Bytes, rest: seq<Action>, own: bool)
    requires Joins(rest, false, own)
    ensures Joins([Write(line)] + rest, false, own)
  {
    assert ([Write(line)] + rest)[1..] == rest;
  }

  lemma JoinsAfterGo(body: seq<Action>, rest: seq<Action>, open: bool, own: bool)
    requires Joins(body, false, false) && Joins(rest, true, own)
    ensures Joins([Go(body)] + rest, open, own)
  {
    assert ([Go(body)] + rest)[1..] == rest;
  }

  lemma JoinsAfterWait(rest: seq<Action>, open: bool, own: bool)
    requires Joins(rest, false, own)
    ensures Joins([Wait] + rest, open, own)
  {
    assert ([Wait] + rest)[1..] == rest;
  }

  lemma JoinsAfterNote(line: Option<Bytes>, rest: seq<Action>, own: bool)
    requires Joins(rest, false, own)
    ensures Joins(Note(line) + rest, false, own)
  {
    if line.Some? { JoinsAfterWrite(line.value, rest, own); } else { assert Note(line) + rest == rest; }
  }

  lemma JoinsAfterStreams(stdout: seq<Bytes>, stderr: seq<Bytes>, end: Exit, rest: seq<Action>, own: bool)
    requires Joins(rest, false, own)
    ensures Joins(Streams(stdout, stderr, end) + rest, false, own)
  {
    JoinsWrites(stdout);
    JoinsWrites(stderr);
    var tail := Note(if end.Broke? then Some(end.problem) else None) + rest;
    JoinsAfterNote(if end.Broke? then Some(end.problem) else None, rest, own);
    JoinsAfterWait(tail, true, own);
    JoinsAfterGo(Writes(stderr), [Wait] + tail, true, own);
    JoinsAfterGo(Writes(stdout), [Go(Writes(stderr))] + ([Wait] + tail), false, own);
    assert Streams(stdout, stderr, end) + rest == [Go(Writes(stdout))] + ([Go(Writes(stderr))] + ([Wait] + tail));
  }

  lemma JoinsTarget(t: Target)
    ensures Joins(TargetCode(t), false, false)
  {
    if t.Ran? {
      JoinsAfterStreams(t.stdout, t.stderr, t.end, [], false);
      assert Streams(t.stdout, t.stderr, t.end) + [] == TargetCode(t);
    } else {
      assert TargetCode(t)[1..] == [];
    }
  }

  lemma {:induction false} JoinsAfterStarts(targets: seq<Target>, open: bool, rest: seq<Action>, own: bool)
    requires Joins(rest, false, own)
    ensures Joins(Starts(targets) + [Wait] + rest, open, own)
    decreases |targets|
  {
    var all := Starts(targets) + [Wait] + rest;
    if targets == [] {
      JoinsAfterWait(rest, open, own);
      assert all == [Wait] + rest;
    } else {
      JoinsTarget(targets[0]);
      JoinsAfterStarts(targets[1..], true, rest, own);
      JoinsAfterGo(TargetCode(targets[0]), Starts(targets[1..]) + [Wait] + rest, open, own);
      assert all == [Go(TargetCode(targets[0]))] + (Starts(targets[1..]) + [Wait] + rest);
    }
  }

  lemma JoinsAfterLocal(b: Body, rest: seq<Action>)
    requires (b.NotStarted? || b.Local?) && Joins(rest, false, true)
    ensures Joins(BodyCode(b) + rest, false, true)
  {
    var main := if b.NotStarted? then [Write(b.problem)] else Streams(b.stdout, b.stderr, b.end);
    if b.NotStarted? {
      JoinsAfterWrite(b.problem, rest, true);
    } else {
      JoinsAfterStreams(b.stdout, b.stderr, b.end, rest, true);
    }
    JoinsAfterWrites(b.notes, main + rest, true);
    assert BodyCode(b) + rest == Writes(b.notes) + (main + rest);
  }

  lemma JoinsAfterBody(b: Body, rest: seq<Action>)
    requires Joins(rest, false, true)
    ensures Joins(BodyCode(b) + rest, false, true)
  {
    match b
    case NoTargets(problem) => JoinsAfterWrite(problem, rest, true);
    case FanOut(targets) =>
      if targets == [] {
        JoinsAfterWrite(NO_HOSTS, rest, true);
      } else {
        JoinsAfterStarts(targets, false, rest, true);
      }
    case _ => JoinsAfterLocal(b, rest);
  }

  /** By every way through a run, whatever was started has been waited for, to its last
      line, before the log is closed; and closing it is the last thing done. */
  lemma RunJoins(j: Job, envelope: Enveloping)
    ensures Joins(Code(j, envelope), false, true)
    ensures var code := Code(j, envelope); code[|code| - 1] == Close(envelope(ExitOf(j), ReasonOf(j)))
  {
    var end := [Close(envelope(ExitOf(j), ReasonOf(j)))];
    assert end[1..] == [];
    if j.keyProblem.Some? || j.fileProblem.Some? {
      assert Code(j, envelope)[1..] == end;
    } else {
      JoinsAfterNote(j.stopped, end, true);
      JoinsAfterNote(j.timedOut, Note(j.stopped) + end, true);
      JoinsAfterBody(j.body, Note(j.timedOut) + (Note(j.stopped) + end));
      assert Code(j, envelope) == BodyCode(j.body) + (Note(j.timedOut) + (Note(j.stopped) + end));
    }
  }

  // ----- the executor -----

  /** A goroutine of a run, as its code goes: what it has done so far. */
  class Routine {
    var done: seq<Action>

    constructor ()
      ensures done == []
    {
      done := [];
    }

    method Emit(line: Bytes)
      modifies this
      ensures done == old(done) + [Write(line)]
    {
      done := done + [Write(line)];
    }

    method EmitAll(lines: seq<Bytes>)
      modifies this
      ensures done == old(done) + Writes(lines)
    {
      for i := 0 to |lines|
        invariant done == old(done) + Writes(lines[..i])
      {
        assert Writes(lines[..i + 1]) == Writes(lines[..i]) + [Write(lines[i])];
        Emit(lines[i]);
      }
      assert lines[..|lines|] == lines;
    }

    /** Starts a goroutine that does what this one has done. */
    method Start(g: Routine)
      requires g != this
      modifies this
      ensures done == old(done) + [Go(g.done)]
    {
      done := done + [Go(g.done)];
    }

    method WaitForAll()
      modifies this
      ensures done == old(done) + [Wait]
    {
      done := done + [Wait];
    }

    method Seal(envelope: Bytes)
      modifies this
      ensures done == old(done) + [Close(envelope)]
    {
      done := done + [Close(envelope)];
    }

    /** Reads both streams of a process to their end, then learns how it ended. */
    method ReadStreams(stdout: seq<Bytes>, stderr: seq<Bytes>, end: Exit) returns (exit: int)
      modifies this
      ensures done == old(done) + Streams(stdout, stderr, end) && exit == ProcessExit(end)
      ensures exit == if end.Exited? then end.code else -1
    {
      var one := new Routine();
      one.EmitAll(stdout);
      Start(one);
      var two := new Routine();
      two.EmitAll(stderr);
      Start(two);
      WaitForAll();
      assert one.done == Writes(stdout) && two.done == Writes(stderr);
      assert done == old(done) + [Go(Writes(stdout)), Go(Writes(stderr)), Wait];
      match end {
        case Exited(code) =>
          exit := code;
        case Broke(problem) =>
          Emit(problem);
          exit := -1;
      }
      assert done == old(done) + Streams(stdout, stderr, end);
    }

    method RunTarget(t: Target) returns (exit: int, unverified: Option<Bytes>)
      modifies this
      ensures done == old(done) + TargetCode(t)
      ensures exit == (if t.Ran? then ProcessExit(t.end) else -1)
      ensures unverified == (if t.Unreached? then t.scan else None)
    {
      match t {
        case Unreached(why, scan) =>
          Emit(why);
          return -1, scan;
        case Ran(stdout, stderr, end) =>
          exit := ReadStreams(stdout, stderr, end);
          return exit, None;
      }
    }

    /** Every target in a goroutine of its own; the first that failed gives the code. */
    method RunFanOut(targets: seq<Target>) returns (exit: int, reason: Bytes)
      modifies this
      ensures done == old(done) + BodyCode(FanOut(targets))
      ensures exit == BodyExit(FanOut(targets)) && reason == FirstUnverified(targets)
    {
      if |targets| == 0 {
        Emit(NO_HOSTS);
        return 1, [];
      }
      for i := 0 to |targets|
        invariant done == old(done) + Starts(targets[..i])
      {
        assert Starts(targets[..i + 1]) == Starts(targets[..i]) + [Go(TargetCode(targets[i]))];
        var g := new Routine();
        var _, _ := g.RunTarget(targets[i]);
        assert g.done == TargetCode(targets[i]);
        Start(g);
      }
      assert targets[..|targets|] == targets;
      WaitForAll();
      exit := AggregateExit(targets);
      reason := Unverified(targets);
    }

    static method AggregateExit(targets: seq<Target>) returns (exit: int)
      ensures exit == Aggregate(targets)
    {
      assert targets[0..] == targets;
      for i := 0 to |targets|
        invariant Aggregate(targets[i..]) == Aggregate(targets)
      {
        assert targets[i..][0] == targets[i] && targets[i..][1..] == targets[i + 1..];
        if !Succeeded(targets[i]) {
          if targets[i].Ran? && ProcessExit(targets[i].end) > 0 {
            return ProcessExit(targets[i].end);
          }
          return 1;
        }
      }
      return 0;
    }

    static method Unverified(targets: seq<Target>) returns (reason: Bytes)
      ensures reason == FirstUnverified(targets)
    {
      assert targets[0..] == targets;
      for i := 0 to |targets|
        invariant FirstUnverified(targets[i..]) == FirstUnverified(targets)
      {
        assert targets[i..][0] == targets[i] && targets[i..][1..] == targets[i + 1..];
        if targets[i].Unreached? && targets[i].scan.Some? {
          return HOST_KEY_UNVERIFIED + targets[i].scan.value;
        }
      }
      return [];
    }

    method RunBody(b: Body) returns (exit: int, reason: Bytes)
      modifies this
      ensures done == old(done) + BodyCode(b)
      ensures exit == BodyExit(b) && reason == (if b.FanOut? then FirstUnverified(b.targets) else [])
    {
      reason := [];
      match b {
        case NotStarted(notes, problem) =>
          EmitAll(notes);
          Emit(problem);
          exit := -1;
        case Local(notes, stdout, stderr, end) =>
          EmitAll(notes);
          exit := ReadStreams(stdout, stderr, end);
        case NoTargets(problem) =>
          Emit(problem);
          exit := 1;
        case FanOut(targets) =>
          exit, reason := RunFanOut(targets);
      }
      assert done == old(done) + BodyCode(b);
    }

    /** The executor: every way through a run does to the log exactly this code. */
    method Run(j: Job, envelope: Enveloping) returns (exit: int)
      modifies this
      ensures done == old(done) + Code(j, envelope) && exit == ExitOf(j)
    {
      if j.keyProblem.Some? {
        Emit(j.keyProblem.value);
        Seal(envelope(-1, []));
        return -1;
      }
      if j.fileProblem.Some? {
        Emit(j.fileProblem.value);
        Seal(envelope(-1, []));
        return -1;
      }
      var reason;
      exit, reason := RunBody(j.body);
      if j.timedOut.Some? {
        Emit(j.timedOut.value);
        if exit == 0 {
          exit := -1;
        }
      }
      if j.stopped.Some? {
        Emit(j.stopped.value);
        if exit == 0 {
          exit := -1;
        }
      }
      Seal(envelope(exit, reason));
    }
  }
}
