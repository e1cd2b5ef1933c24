/** A run's log tells exactly what its goroutines wrote: each one's lines in its own
    order, no other, and the envelope last. */
module Telling {
  import opened Goroutines
  import opened LogBuffers
  import opened Options
  import opened Upload

  /** The lines of the goroutine at a path, in the log's order. */
  function Said(lines: seq<Bytes>, whose: seq<Path>, q: Path): seq<Bytes>
    requires |whose| == |lines|
    decreases |lines|
  {
    if lines == [] then []
    else
      var n := |lines| - 1;
      Said(lines[..n], whose[..n], q) + (if whose[n] == q then [lines[n]] else [])
  }

  lemma SaidOneMore(lines: seq<Bytes>, whose: seq<Path>, q: Path, line: Bytes, path: Path)
    requires |whose| == |lines|
    ensures Said(lines + [line], whose + [path], q) == Said(lines, whose, q) + (if path == q then [line] else [])
  {
    assert (lines + [line])[..|lines|] == lines && (whose + [path])[..|lines|] == whose;
  }

  /** The run's goroutines are joined before its log is closed. */
  ghost predicate Orderly(w: World) {
    Proper(w.told.exec, true) && (w.isSealed ==> Over(w))
  }

  /** What each goroutine has written, and has still to write, is what its code writes. */
  ghost predicate Accounted(t: Writers, code: seq<Action>) {
    && |t.whose| == |t.lines|
    && forall q: Path :: Said(t.lines, t.whose, q) + WritesOf(TodoAt(t.exec, q)) == WritesOf(CodeAt(code, q))
  }

  /** The run will close its log with this envelope, or has, and it is the last line. */
  ghost predicate ClosesWith(w: World, envelope: Bytes) {
    if w.isSealed then w.told.lines != [] && w.told.lines[|w.told.lines| - 1] == envelope
    else w.told.exec.todo != [] && w.told.exec.todo[|w.told.exec.todo| - 1] == Close(envelope)
  }

  ghost predicate Tells(w: World, code: seq<Action>, envelope: Bytes) {
    Valid(w) && Orderly(w) && Accounted(w.told, code) && ClosesWith(w, envelope)
  }

  lemma StartTells(code: seq<Action>, envelope: Bytes)
    requires Joins(code, false, true) && code != [] && code[|code| - 1] == Close(envelope)
    ensures Tells(Start(Thread(code, [])), code, envelope)
  {
    assert Text([]) == [];
    StartAccounts(code);
  }

  lemma StartAccounts(code: seq<Action>)
    ensures Accounted(Writers(Thread(code, []), [], []), code)
  {
    forall q: Path ensures Said([], [], q) + WritesOf(TodoAt(Thread(code, []), q)) == WritesOf(CodeAt(code, q)) {
      TodoAtFirst(code, q);
    }
  }

  lemma OrderlyStep(w: World, path: Path)
    requires Valid(w) && Orderly(w)
    ensures Orderly(RunStep(w, path))
    ensures Step(w.told.exec, path).1 != Silent ==> !w.isSealed
  {
    ProperStep(w.told.exec, path, true);
    if w.isSealed { EndedStays(w.told.exec, path); }
  }

  /** The writers after a step of one of them. */
  function WritersStep(t: Writers, path: Path): Writers {
    var (exec, effect) := Step(t.exec, path);
    if effect == Silent then t.(exec := exec)
    else Writers(exec, t.lines + LineOf(effect), t.whose + [path])
  }

  lemma RunStepWrites(w: World, path: Path)
    requires Valid(w) && Orderly(w)
    ensures RunStep(w, path).told == WritersStep(w.told, path)
  {
    OrderlyStep(w, path);
  }

  function LinesBy(path: Path, q: Path, effect: Effect): seq<Bytes> {
    if q == path then LineOf(effect) else []
  }

  lemma SaidAfterStep(t: Writers, path: Path, q: Path)
    requires |t.whose| == |t.lines|
    ensures var t' := WritersStep(t, path);
            && |t'.whose| == |t'.lines|
            && Said(t'.lines, t'.whose, q) == Said(t.lines, t.whose, q) + LinesBy(path, q, Step(t.exec, path).1)
  {
    var effect := Step(t.exec, path).1;
    if effect != Silent {
      SaidOneMore(t.lines, t.whose, q, LineOf(effect)[0], path);
    }
  }

  lemma AccountedOne(t: Writers, path: Path, q: Path)
    requires |t.whose| == |t.lines|
    ensures var t' := WritersStep(t, path);
            && |t'.whose| == |t'.lines|
            && Said(t'.lines, t'.whose, q) + WritesOf(TodoAt(t'.exec, q)) == Said(t.lines, t.whose, q) + WritesOf(TodoAt(t.exec, q))
  {
    var (exec, effect) := Step(t.exec, path);
    SaidAfterStep(t, path, q);
    StepTakesItsLine(t.exec, path, q);
    Regroup(Said(t.lines, t.whose, q), LinesBy(path, q, effect), WritesOf(TodoAt(exec, q)));
  }

  lemma Regroup(a: seq<Bytes>, b: seq<Bytes>, c: seq<Bytes>)
    ensures a + (b + c) == a + b + c
  {
  }

  lemma AccountedStep(w: World, path: Path, code: seq<Action>)
    requires Valid(w) && Orderly(w) && Accounted(w.told, code)
    ensures Accounted(RunStep(w, path).told, code)
  {
    RunStepWrites(w, path);
    forall q: Path
      ensures var t' := WritersStep(w.told, path);
              |t'.whose| == |t'.lines| && Said(t'.lines, t'.whose, q) + WritesOf(TodoAt(t'.exec, q)) == WritesOf(CodeAt(code, q))
    {
      AccountedOne(w.told, path, q);
      assert Said(w.told.lines, w.told.whose, q) + WritesOf(TodoAt(w.told.exec, q)) == WritesOf(CodeAt(code, q));
    }
  }

  lemma ClosesStep(w: World, path: Path, envelope: Bytes)
    requires Valid(w) && Orderly(w) && ClosesWith(w, envelope)
    ensures ClosesWith(RunStep(w, path), envelope)
  {
    OrderlyStep(w, path);
    var (t', effect) := Step(w.told.exec, path);
    ProperStep(w.told.exec, path, true);
    if !w.isSealed && path == [] {
      OwnCloses(w.told.exec, envelope);
    }
  }

  /** The run's own goroutine closes its log with its last action, and no other way. */
  lemma OwnCloses(t: Thread, envelope: Bytes)
    requires Proper(t, true) && t.todo != [] && t.todo[|t.todo| - 1] == Close(envelope)
    ensures var (t', effect) := Step(t, []);
            if effect.Sealed? then effect.envelope == envelope
            else t'.todo != [] && t'.todo[|t'.todo| - 1] == Close(envelope)
  {
  }

  lemma TellsStep(w: World, path: Path, code: seq<Action>, envelope: Bytes)
    requires Tells(w, code, envelope)
    ensures Tells(RunStep(w, path), code, envelope)
  {
    OrderlyStep(w, path);
    AccountedStep(w, path, code);
    ClosesStep(w, path, envelope);
  }

  /** Nothing but the run's goroutines writes to its log. */
  lemma TellsEvent(w: World, e: Event, code: seq<Action>, envelope: Bytes)
    requires Tells(w, code, envelope)
    ensures Tells(Happen(w, e), code, envelope)
  {
    if e.Ran? {
      TellsStep(w, e.path, code, envelope);
    } else {
      assert Happen(w, e).told == w.told && Happen(w, e).isSealed == w.isSealed;
    }
  }

  lemma {:induction false} TellsEvents(w: World, events: seq<Event>, code: seq<Action>, envelope: Bytes)
    requires Tells(w, code, envelope)
    ensures Tells(HappenAll(w, events), code, envelope)
    decreases |events|
  {
    if events != [] {
      TellsEvent(w, events[0], code, envelope);
      TellsEvents(Happen(w, events[0]), events[1..], code, envelope);
    }
  }

  lemma TellsSame(w: World, w': World, code: seq<Action>, envelope: Bytes)
    requires Tells(w, code, envelope) && Valid(w') && w'.told == w.told && w'.isSealed == w.isSealed
    ensures Tells(w', code, envelope)
  {
  }

  lemma TellsTry(w: World, a: Attempt, last: Option<Fault>, code: seq<Action>, envelope: Bytes)
    requires Tells(w, code, envelope)
    ensures Tells(Try(w, a, last).0, code, envelope)
  {
    TellsSame(w, Send(w), code, envelope);
    TellsEvents(Send(w), a.events, code, envelope);
    if !a.over && w.committed != |w.buf| {
      TellsSame(Out(w, a), Try(w, a, last).0, code, envelope);
    }
  }

  lemma {:induction false} TellsStream(w: World, script: seq<Attempt>, last: Option<Fault>, code: seq<Action>, envelope: Bytes)
    requires Tells(w, code, envelope)
    ensures Tells(Stream(w, script, last).0, code, envelope)
    decreases |script|
  {
    if script != [] {
      TellsTry(w, script[0], last, code, envelope);
      var (w1, v) := Try(w, script[0], last);
      if v.Again? {
        TellsStream(w1, script[1..], v.last, code, envelope);
      }
    }
  }

  // ----- the run and the live flusher, side by side -----

  /** While a run lasts: something happens, or the live flusher ticks, and more happens
      while its one attempt is out. */
  datatype Live = Happens(event: Event) | Tick(attempt: Attempt)

  function LiveOne(w: World, step: Live): (w': World)
    requires Valid(w)
    ensures Valid(w')
  {
    match step
    case Happens(e) => Happen(w, e)
    case Tick(a) =>
      StreamValid(w, [a], None);
      Stream(w, [a], None).0
  }

  function LiveAll(w: World, live: seq<Live>): (w': World)
    requires Valid(w)
    ensures Valid(w')
    decreases |live|
  {
    if live == [] then w else LiveAll(LiveOne(w, live[0]), live[1..])
  }

  lemma LiveOneTells(w: World, step: Live, code: seq<Action>, envelope: Bytes)
    requires Safe(w) && Tells(w, code, envelope)
    ensures Safe(LiveOne(w, step)) && Tells(LiveOne(w, step), code, envelope)
  {
    match step
    case Happens(e) =>
      SafeAfterEvent(w, e);
      TellsEvent(w, e, code, envelope);
    case Tick(a) =>
      StreamIsSafe(w, [a], None);
      TellsStream(w, [a], None, code, envelope);
  }

  /** However the run, its flusher, the network and the server interleave: the upload is
      safe, and the log tells what the run's goroutines wrote. */
  lemma {:induction false} LiveTells(w: World, live: seq<Live>, code: seq<Action>, envelope: Bytes)
    requires Safe(w) && Tells(w, code, envelope)
    ensures Safe(LiveAll(w, live)) && Tells(LiveAll(w, live), code, envelope)
    decreases |live|
  {
    if live != [] {
      LiveOneTells(w, live[0], code, envelope);
      LiveTells(LiveOne(w, live[0]), live[1..], code, envelope);
    }
  }

  /** When the run's goroutines have ended its log is closed, with this envelope as its
      last line, and holds of each goroutine exactly its lines in its order. */
  lemma OverIsTold(w: World, code: seq<Action>, envelope: Bytes, q: Path)
    requires Tells(w, code, envelope) && Over(w)
    ensures w.isSealed && w.told.lines != [] && w.told.lines[|w.told.lines| - 1] == envelope
    ensures Said(w.told.lines, w.told.whose, q) == WritesOf(CodeAt(code, q))
  {
    EndedHasWritten(w.told.exec, q);
    assert Said(w.told.lines, w.told.whose, q) + WritesOf(TodoAt(w.told.exec, q)) == WritesOf(CodeAt(code, q));
  }

  /** No goroutine of the run is left when its log is closed, so that whatever is
      scheduled during the terminal upload, nothing is written behind the envelope. */
  lemma ClosedIsOver(w: World, code: seq<Action>, envelope: Bytes, script: seq<Attempt>, rounds: seq<Round>)
    requires Safe(w) && Tells(w, code, envelope) && w.isSealed
    ensures Over(w)
    ensures Flush(w, script, rounds).0.told == w.told && Flush(w, script, rounds).0.buf == w.buf
  {
    FlushEndsRight(w, script, rounds);
  }

  /** Without the wait the same run can write behind its envelope: the log is closed, and
      its last line is not the envelope. */
  lemma LateWithoutTheWait(late: Bytes, envelope: Bytes)
    requires late != envelope
    ensures var code := [Go([Write(late)]), Close(envelope)];
            var w := HappenAll(Start(Thread(code, [])), [Ran([]), Ran([]), Ran([0])]);
            && !Joins(code, false, true)
            && w.isSealed && Over(w) && w.told.lines == [envelope, late]
  {
    var code := [Go([Write(late)]), Close(envelope)];
    var t1 := Thread([Close(envelope)], [Thread([Write(late)], [])]);
    var t2 := Thread([], [Thread([Write(late)], [])]);
    var t3 := Thread([], [Thread([], [])]);
    assert code[1..] == [Close(envelope)] && [Close(envelope)][1..] == [];
    assert [] + [Thread([Write(late)], [])] == t1.kids;
    assert Step(Thread(code, []), []) == (t1, Silent);
    assert Step(t1, []) == (t2, Sealed(envelope));
    assert [Write(late)][1..] == [];
    assert Step(t2.kids[0], []) == (Thread([], []), Wrote(late));
    assert [0][1..] == [] && t2.kids[0 := Thread([], [])] == t3.kids;
    assert Step(t2, [0]) == (t3, Wrote(late));
    var w0 := Start(Thread(code, []));
    var w1 := Happen(w0, Ran([]));
    var w2 := Happen(w1, Ran([]));
    var w3 := Happen(w2, Ran([0]));
    assert w1.told == Writers(t1, [], []);
    assert w2.told == Writers(t2, [envelope], [[]]) && w2.isSealed;
    assert w3.told.exec == t3 && w3.told.lines == [envelope, late];
    var all := [Ran([]), Ran([]), Ran([0])];
    assert all[1..] == [Ran([]), Ran([0])] && all[1..][1..] == [Ran([0])] && [Ran([0])][1..] == [];
    assert HappenAll(w0, all) == HappenAll(w1, all[1..]) == HappenAll(w2, [Ran([0])]) == HappenAll(w3, []) == w3;
  }
}
