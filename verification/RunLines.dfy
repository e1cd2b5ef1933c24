/** Which lines a run's log holds: of each of its goroutines, in its order, what the
    executor's code for the job writes. */
module RunLines {
  import opened Executor
  import opened Goroutines
  import opened LogBuffers
  import opened Options
  import opened Telling
  import opened Upload

  function Maybe(line: Option<Bytes>): seq<Bytes> {
    if line.Some? then [line.value] else []
  }

  /** What is said of a process that did not end as one does. */
  function ProblemOf(end: Exit): seq<Bytes> {
    if end.Broke? then [end.problem] else []
  }

  /** The lines of the run's own goroutine before those of how it was ended. */
  function BodyLines(b: Body): seq<Bytes> {
    match b
    case NotStarted(notes, problem) => notes + [problem]
    case Local(notes, _, _, end) => notes + ProblemOf(end)
    case NoTargets(problem) => [problem]
    case FanOut(targets) => if targets == [] then [Encode("cronomicon: no hosts resolved for this run")] else []
  }

  /** All of its lines: a problem before the run, or else what its body says, that its own
      timeout or the agent ended it, and last the envelope. */
  function OwnLines(j: Job, envelope: Enveloping): seq<Bytes> {
    if j.keyProblem.Some? then [j.keyProblem.value, envelope(-1, [])]
    else if j.fileProblem.Some? then [j.fileProblem.value, envelope(-1, [])]
    else BodyLines(j.body) + Maybe(j.timedOut) + Maybe(j.stopped) + [envelope(ExitOf(j), ReasonOf(j))]
  }

  /** The lines of a target's goroutine, and of the two that read its streams. */
  function TargetLines(t: Target, q: Path): seq<Bytes> {
    match t
    case Unreached(why, _) => if q == [] then [why] else []
    case Ran(stdout, stderr, end) => StreamLines(ProblemOf(end), stdout, stderr, q)
  }

  function StreamLines(own: seq<Bytes>, stdout: seq<Bytes>, stderr: seq<Bytes>, q: Path): seq<Bytes> {
    if q == [] then own else if q == [0] then stdout else if q == [1] then stderr else []
  }

  /** The lines of the goroutine at a path, by the job. */
  function LinesAt(j: Job, envelope: Enveloping, q: Path): seq<Bytes> {
    if q == [] then OwnLines(j, envelope)
    else if j.keyProblem.Some? || j.fileProblem.Some? then []
    else
      match j.body
      case Local(_, stdout, stderr, _) => StreamLines([], stdout, stderr, q)
      case FanOut(targets) => if q[0] < |targets| then TargetLines(targets[q[0]], q[1..]) else []
      case _ => []
  }

  // ----- what code writes and starts, part by part -----

  lemma {:induction false} OfBoth(a: seq<Action>, b: seq<Action>)
    ensures WritesOf(a + b) == WritesOf(a) + WritesOf(b) && Bodies(a + b) == Bodies(a) + Bodies(b)
    decreases |a|
  {
    if a == [] {
      assert a + b == b;
    } else {
      assert (a + b)[1..] == a[1..] + b;
      OfBoth(a[1..], b);
    }
  }

  lemma {:induction false} OfWrites(lines: seq<Bytes>)
    ensures WritesOf(Writes(lines)) == lines && Bodies(Writes(lines)) == []
    decreases |lines|
  {
    if lines != [] {
      assert Writes(lines)[1..] == Writes(lines[1..]);
      OfWrites(lines[1..]);
    }
  }

  lemma OfOne(a: Action)
    ensures WritesOf([a]) == (match a case Write(line) => [line] case Close(envelope) => [envelope] case _ => [])
    ensures Bodies([a]) == if a.Go? then [a.body] else []
  {
    assert [a][1..] == [];
  }

  lemma OfNote(line: Option<Bytes>)
    ensures WritesOf(Note(line)) == Maybe(line) && Bodies(Note(line)) == []
  {
    if line.Some? { OfOne(Write(line.value)); }
  }

  lemma OfStreams(stdout: seq<Bytes>, stderr: seq<Bytes>, end: Exit)
    ensures WritesOf(Streams(stdout, stderr, end)) == ProblemOf(end)
    ensures Bodies(Streams(stdout, stderr, end)) == [Writes(stdout), Writes(stderr)]
  {
    var one, two, wait, rest := [Go(Writes(stdout))], [Go(Writes(stderr))], [Wait], Note(if end.Broke? then Some(end.problem) else None);
    OfOne(Go(Writes(stdout)));
    OfOne(Go(Writes(stderr)));
    OfOne(Wait);
    OfNote(if end.Broke? then Some(end.problem) else None);
    OfBoth(wait, rest);
    OfBoth(two, wait + rest);
    OfBoth(one, two + (wait + rest));
    assert Streams(stdout, stderr, end) == one + (two + (wait + rest));
  }

  lemma {:induction false} OfStarts(targets: seq<Target>)
    ensures WritesOf(Starts(targets)) == []
    ensures |Bodies(Starts(targets))| == |targets| && forall i :: 0 <= i < |targets| ==> Bodies(Starts(targets))[i] == TargetCode(targets[i])
    decreases |targets|
  {
    if targets != [] {
      assert Starts(targets)[1..] == Starts(targets[1..]);
      OfStarts(targets[1..]);
      assert Bodies(Starts(targets)) == [TargetCode(targets[0])] + Bodies(Starts(targets[1..]));
    }
  }

  // ----- goroutine by goroutine -----

  lemma NoneInside(code: seq<Action>, q: Path)
    requires Bodies(code) == [] && q != []
    ensures WritesOf(CodeAt(code, q)) == []
  {
  }

  lemma StreamsAt(code: seq<Action>, own: seq<Bytes>, stdout: seq<Bytes>, stderr: seq<Bytes>, q: Path)
    requires WritesOf(code) == own && Bodies(code) == [Writes(stdout), Writes(stderr)]
    ensures WritesOf(CodeAt(code, q)) == StreamLines(own, stdout, stderr, q)
  {
    OfWrites(stdout);
    OfWrites(stderr);
    if q != [] && q[0] < 2 {
      assert q == [q[0]] + q[1..];
      if q[1..] != [] { NoneInside(Bodies(code)[q[0]], q[1..]); }
    }
  }

  lemma TargetAt(t: Target, q: Path)
    ensures WritesOf(CodeAt(TargetCode(t), q)) == TargetLines(t, q)
  {
    match t
    case Unreached(why, _) =>
      OfOne(Write(why));
      if q != [] { NoneInside(TargetCode(t), q); }
    case Ran(stdout, stderr, end) =>
      OfStreams(stdout, stderr, end);
      StreamsAt(TargetCode(t), ProblemOf(end), stdout, stderr, q);
  }

  lemma OfBody(b: Body)
    ensures WritesOf(BodyCode(b)) == BodyLines(b)
    ensures match b
            case Local(_, stdout, stderr, _) => Bodies(BodyCode(b)) == [Writes(stdout), Writes(stderr)]
            case FanOut(targets) => Bodies(BodyCode(b)) == Bodies(Starts(targets))
            case _ => Bodies(BodyCode(b)) == []
  {
    match b
    case NotStarted(notes, problem) =>
      OfWrites(notes);
      OfOne(Write(problem));
      OfBoth(Writes(notes), [Write(problem)]);
    case Local(notes, stdout, stderr, end) =>
      OfWrites(notes);
      OfStreams(stdout, stderr, end);
      OfBoth(Writes(notes), Streams(stdout, stderr, end));
    case NoTargets(problem) =>
      OfOne(Write(problem));
    case FanOut(targets) =>
      OfStarts(targets);
      OfOne(Write(NO_HOSTS));
      OfOne(Wait);
      OfBoth(Starts(targets), [Wait]);
  }

  lemma OfRun(j: Job, envelope: Enveloping)
    requires j.keyProblem.None? && j.fileProblem.None?
    ensures WritesOf(Code(j, envelope)) == OwnLines(j, envelope) && Bodies(Code(j, envelope)) == Bodies(BodyCode(j.body))
  {
    var end := [Close(envelope(ExitOf(j), ReasonOf(j)))];
    OfBody(j.body);
    OfNote(j.timedOut);
    OfNote(j.stopped);
    OfOne(end[0]);
    OfBoth(BodyCode(j.body), Note(j.timedOut));
    OfBoth(BodyCode(j.body) + Note(j.timedOut), Note(j.stopped));
    OfBoth(BodyCode(j.body) + Note(j.timedOut) + Note(j.stopped), end);
  }

  /** The executor's code writes exactly the job's lines: each stream in a goroutine of its
      own, each target in one of its own, and what is said of the run in the run's own. */
  lemma CodeWritesTheJob(j: Job, envelope: Enveloping, q: Path)
    ensures WritesOf(CodeAt(Code(j, envelope), q)) == LinesAt(j, envelope, q)
  {
    var code := Code(j, envelope);
    if j.keyProblem.Some? || j.fileProblem.Some? {
      OfBoth(code[..1], code[1..]);
      assert code == code[..1] + code[1..] && code[..1] == [code[0]] && code[1..] == [code[1]];
      OfOne(code[0]);
      OfOne(code[1]);
      if q != [] { NoneInside(code, q); }
    } else {
      OfRun(j, envelope);
      OfBody(j.body);
      match j.body
      case Local(_, stdout, stderr, _) =>
        StreamsAt(code, OwnLines(j, envelope), stdout, stderr, q);
      case FanOut(targets) =>
        OfStarts(targets);
        if q != [] && q[0] < |targets| { TargetAt(targets[q[0]], q[1..]); }
      case _ =>
        if q != [] { NoneInside(code, q); }
    }
  }

  /** So when a run's goroutines have ended its log holds the job's lines, each goroutine's
      in its order, and the envelope of its exit code last. */
  lemma LogHoldsTheJob(j: Job, envelope: Enveloping, w: World, q: Path)
    requires Tells(w, Code(j, envelope), envelope(ExitOf(j), ReasonOf(j))) && Over(w)
    ensures w.told.lines != [] && w.told.lines[|w.told.lines| - 1] == envelope(ExitOf(j), ReasonOf(j))
    ensures Said(w.told.lines, w.told.whose, q) == LinesAt(j, envelope, q)
  {
    OverIsTold(w, Code(j, envelope), envelope(ExitOf(j), ReasonOf(j)), q);
    CodeWritesTheJob(j, envelope, q);
  }
}
