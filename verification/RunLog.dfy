/** One run's log from its first line to the end of its upload: the goroutines that
    write it, the live flushes during the run, and the terminal upload. */
module RunLog {
  import opened Executor
  import opened Goroutines
  import opened LogBuffers
  import opened Options
  import opened Telling
  import opened Upload

  function Attempts(budget: int): nat {
    if budget < 1 then 1 else budget
  }

  lemma LiveFrom(w: World, live: seq<Live>, i: nat)
    requires Valid(w) && i < |live|
    ensures LiveAll(w, live[i..]) == LiveAll(LiveOne(w, live[i]), live[i + 1..])
  {
    assert live[i..][0] == live[i] && live[i..][1..] == live[i + 1..];
  }

  class Uploader {
    const log: LogBuffer
    /** The server's side, and the POSTs that the network may still deliver. */
    var persisted: Bytes
    var closed: bool
    var posts: seq<Post>
    var answers: seq<seq<Answer>>
    /** The run's goroutines, and which of them wrote each line. */
    var exec: Thread
    ghost var whose: seq<Path>

    ghost function State(): World
      reads this, log
    {
      World(log.buf, log.committed, log.isSealed, persisted, closed, posts, answers, Writers(exec, log.lines, whose))
    }

    ghost predicate Valid()
      reads this, log
    {
      log.Valid() && Upload.Valid(State()) && Orderly(State())
    }

    constructor ()
      ensures Valid() && fresh(log) && State() == Start(Thread([], []))
    {
      log := new LogBuffer();
      persisted, closed, posts, answers, exec, whose := [], false, [], [], Thread([], []), [];
    }

    // ----- what the others do -----

    /** A goroutine's step. It writes only to a log that is open: when the log is closed
        there is no goroutine left. */
    method RunGoroutine(path: Path)
      requires Valid()
      modifies this`exec, this`whose, log
      ensures Valid() && State() == RunStep(old(State()), path)
    {
      OrderlyStep(State(), path);
      var (t, effect) := Step(exec, path);
      exec := t;
      match effect {
        case Silent =>
        case Wrote(line) =>
          log.WriteLine(line);
          whose := whose + [path];
        case Sealed(envelope) =>
          log.Seal(envelope);
          whose := whose + [path];
      }
    }

    method Answer(k: nat, a: Answer)
      requires Valid() && k < |answers|
      modifies this`answers
      ensures Valid() && State() == Answering(old(State()), k, a)
    {
      answers := answers[k := answers[k] + [a]];
    }

    /** The server meets one delivery of a POST. */
    method Deliver(k: nat)
      requires Valid() && k < |posts|
      modifies this`answers, this`persisted
      ensures Valid() && State() == Serve(old(State()), k)
    {
      if closed {
        Answer(k, RunClosed);
      } else if posts[k].off != |persisted| {
        Answer(k, Mismatch(|persisted|));
      } else {
        persisted := persisted + posts[k].body;
        Answer(k, Accepted);
      }
    }

    /** And one that drops after some bytes. */
    method DeliverCut(k: nat, n: nat)
      requires Valid() && k < |posts|
      modifies this`persisted
      ensures Valid() && State() == ServeCut(old(State()), k, n)
    {
      if !closed && posts[k].off == |persisted| && n <= |posts[k].body| {
        persisted := persisted + posts[k].body[..n];
      }
    }

    method Occur(e: Event)
      requires Valid()
      modifies this, log
      ensures Valid() && State() == Happen(old(State()), e)
    {
      match e {
        case Ran(path) => RunGoroutine(path);
        case Late(k) => if k < |posts| { Deliver(k); }
        case Newest => if |posts| > 0 { Deliver(|posts| - 1); }
        case Cut(k, n) => if k < |posts| { DeliverCut(k, n); }
        case Failed(k, code, refusal) => if k < |posts| { Answer(k, Status(code, refusal)); }
        case ServerClosed => closed := true;
      }
    }

    /** The world's turn: everything that happens before the agent next looks. */
    method Environment(events: seq<Event>)
      requires Valid()
      modifies this, log
      ensures Valid() && State() == HappenAll(old(State()), events)
    {
      ghost var goal := HappenAll(State(), events);
      assert events[0..] == events;
      var i := 0;
      while i < |events|
        invariant 0 <= i <= |events| && Valid()
        invariant HappenAll(State(), events[i..]) == goal
      {
        OneMoreEvent(State(), events, i);
        Occur(events[i]);
        i := i + 1;
      }
    }

    // ----- the upload loop -----

    /** Sends the pending bytes at the given offset and waits for the answer, if
        one comes. */
    method PostLog(off: nat, pending: Bytes, a: Attempt) returns (answer: Option<Answer>)
      requires Valid() && off == log.committed && pending == log.buf[off..]
      modifies this, log
      ensures Valid() && State() == Out(old(State()), a)
      ensures answer == Heard(State(), |old(posts)|, a)
    {
      posts := posts + [Post(|posts|, off, pending)];
      answers := answers + [[]];
      assert State() == Send(old(State()));
      Environment(a.events);
      var mine := |posts| - 1;
      answer := if a.hears < |answers[mine]| then Some(answers[mine][a.hears]) else None;
    }

    /** What the answer to a POST that ends at `end` makes of the log. */
    method Act(end: nat, answer: Option<Answer>, a: Attempt, lastErr: Option<Fault>) returns (v: Verdict)
      requires Valid() && end <= |log.buf|
      modifies log`committed
      ensures Valid() && (State(), v) == Acted(old(State()), end, answer, a, lastErr)
    {
      match answer
      case None =>
        return if a.overInWait then Ends(ContextOver) else Again(Some(Dropped));
      case Some(RunClosed) =>
        return Ends(Closed);
      case Some(Mismatch(at)) =>
        log.SetCommitted(at);
        return Again(lastErr);
      case Some(Accepted) =>
        log.SetCommitted(end);
        return Ends(Sent);
      case Some(Status(code, refusal)) =>
        return if a.overInWait then Ends(ContextOver) else Again(Some(StatusFault(code, refusal)));
    }

    /** One pass of the upload loop. */
    method Pass(a: Attempt, lastErr: Option<Fault>) returns (v: Verdict)
      requires Valid()
      modifies this, log
      ensures Valid() && (State(), v) == Try(old(State()), a, lastErr)
    {
      if a.over {
        return Ends(ContextOver);
      }
      var off := log.CommittedOffset();
      var pending := log.Pending();
      if |pending| == 0 {
        return Ends(Sent);
      }
      assert pending == State().buf[off..];
      CommitWithin(State(), a);
      var answer := PostLog(off, pending, a);
      v := Act(off + |pending|, answer, a, lastErr);
    }

    /** The resumable upload loop, within its budget of attempts. */
    method StreamLogs(budget: int, script: seq<Attempt>) returns (out: Outcome)
      requires Valid() && |script| >= Attempts(budget)
      modifies this, log
      ensures Valid() && (State(), out) == Stream(old(State()), script[..Attempts(budget)], None)
      ensures |posts| - |old(posts)| <= if budget < 1 then 1 else budget
      ensures out.GaveUp? ==> |posts| - |old(posts)| == if budget < 1 then 1 else budget
    {
      var attempts := if budget < 1 then 1 else budget;
      GaveUpMadeAll(State(), script[..attempts], None);
      out := StreamAll(script[..attempts]);
    }

    method StreamAll(script: seq<Attempt>) returns (out: Outcome)
      requires Valid()
      modifies this, log
      ensures Valid() && (State(), out) == Stream(old(State()), script, None)
    {
      var lastErr: Option<Fault> := None;
      ghost var goal := Stream(State(), script, None);
      assert script[0..] == script;
      var attempt := 0;
      while attempt < |script|
        invariant 0 <= attempt <= |script| && Valid()
        invariant Stream(State(), script[attempt..], lastErr) == goal
      {
        assert script[attempt..][0] == script[attempt] && script[attempt..][1..] == script[attempt + 1..];
        var v := Pass(script[attempt], lastErr);
        if v.Ends? {
          return v.out;
        }
        lastErr := v.last;
        attempt := attempt + 1;
      }
      out := GaveUp(lastErr);
    }

    /** The terminal upload of a run's log: the full budget, then one attempt at a time
        until it is settled or the rounds modelled are used up. */
    method FlushTerminal(budget: int, script: seq<Attempt>, rounds: seq<Round>) returns (end: FlushEnd)
      requires Valid() && |script| >= Attempts(budget)
      modifies this, log
      ensures Valid() && (State(), end) == Flush(old(State()), script[..Attempts(budget)], rounds)
      ensures var (w, out) := Stream(old(State()), script[..Attempts(budget)], None);
              && (out == Sent ==> end == Delivered) && (out == Closed ==> end == ClosedByServer)
              && (forall code :: out == GaveUp(Some(StatusFault(code, true))) && code < 500 && code != 429 ==>
                    end == RefusedForGood && State() == w)
    {
      FirstSendDecides(State(), script[..Attempts(budget)], rounds);
      var err := StreamLogs(budget, script);
      ghost var goal := Resend(State(), rounds, err);
      assert rounds[0..] == rounds;
      var n := 0;
      while err != Sent && err != Closed
        invariant 0 <= n <= |rounds| && Valid()
        invariant Resend(State(), rounds[n..], err) == goal
        decreases |rounds| - n
      {
        if !FinalUploadRetryable(err) {
          return RefusedForGood;
        }
        if n == |rounds| {
          return StillSending;
        }
        assert rounds[n..][0] == rounds[n] && rounds[n..][1..] == rounds[n + 1..];
        if rounds[n].cancelled {
          return Abandoned;
        }
        var one := [rounds[n].attempt];
        assert one[..1] == one;
        err := StreamLogs(1, one);
        n := n + 1;
      }
      end := if err == Closed then ClosedByServer else Delivered;
    }

    // ----- an assignment's log -----

    /** A log that is one line and the envelope of a failure: what a refused
        assignment, or a run whose manifest could not be fetched, reports. */
    method OneLine(why: Bytes, envelope: Bytes)
      requires Valid() && State() == Start(Thread([], []))
      modifies log, this`whose
      ensures Valid() && log.isSealed && log.lines == [why, envelope]
      ensures Over(State()) && Safe(State())
    {
      log.WriteLine(why);
      log.Seal(envelope);
      whose := [[], []];
    }

    /** Reports an assignment the agent does not take: one line, one envelope, one
        budget of attempts. */
    method Refuse(why: Bytes, envelope: Bytes, budget: int, script: seq<Attempt>) returns (out: Outcome)
      requires Valid() && State() == Start(Thread([], []))
      requires |script| >= Attempts(budget)
      modifies this, log
      ensures Valid() && log.isSealed && log.lines == [why, envelope]
      ensures Safe(State()) && (out == Sent ==> persisted == Text([why, envelope]))
    {
      OneLine(why, envelope);
      StreamIsSafe(State(), script[..Attempts(budget)], None);
      out := StreamLogs(budget, script);
    }

    /** A run whose manifest could not be fetched: one line and a failure's envelope,
        sent as any run's end is. */
    method ReportNoManifest(why: Bytes, envelope: Bytes, budget: int, script: seq<Attempt>, rounds: seq<Round>)
      returns (end: FlushEnd)
      requires Valid() && State() == Start(Thread([], []))
      requires |script| >= Attempts(budget)
      modifies this, log
      ensures Valid() && log.isSealed && log.lines == [why, envelope]
      ensures Safe(State()) && (end == Delivered ==> persisted == Text([why, envelope]))
      ensures end == ClosedByServer ==> closed
      ensures end == RefusedForGood ==> FinallyRefused(State())
      ensures end == Abandoned ==> exists i :: 0 <= i < |rounds| && rounds[i].cancelled
    {
      OneLine(why, envelope);
      FlushEndsRight(State(), script[..Attempts(budget)], rounds);
      end := FlushTerminal(budget, script, rounds);
    }

    /** Something happens, or the live flusher ticks: one attempt. */
    method LiveStep(step: Live)
      requires Valid()
      modifies this, log
      ensures Valid() && State() == LiveOne(old(State()), step)
    {
      match step {
        case Happens(e) =>
          Occur(e);
        case Tick(a) =>
          assert [a][..1] == [a];
          var _ := StreamLogs(1, [a]);
      }
    }

    /** The run and the live flusher side by side, while the run lasts. */
    method RunLive(live: seq<Live>)
      requires Valid()
      modifies this, log
      ensures Valid() && State() == LiveAll(old(State()), live)
    {
      ghost var goal := LiveAll(State(), live);
      assert live[0..] == live;
      var i := 0;
      while i < |live|
        invariant 0 <= i <= |live| && Valid()
        invariant LiveAll(State(), live[i..]) == goal
      {
        LiveFrom(State(), live, i);
        LiveStep(live[i]);
        i := i + 1;
      }
    }

    /** A whole run. The executor's goroutine does what its code does, in steps that
        interleave with those it starts, with the live flusher and with the world, as
        `live` says; it has returned when the flusher is stopped. Whatever goes on during
        the terminal upload, the log is then what the run's goroutines wrote, each its
        own lines in its order, and last the envelope of the exit code reported. */
    method ExecuteRun(j: Job, envelope: Enveloping, live: seq<Live>, budget: int, script: seq<Attempt>, rounds: seq<Round>)
      returns (exit: int, end: FlushEnd)
      requires Valid() && State() == Start(Thread([], []))
      requires Over(LiveAll(Start(Thread(Code(j, envelope), [])), live))
      requires |script| >= Attempts(budget)
      modifies this, log
      ensures Valid() && Safe(State())
      ensures exit == ExitOf(j)
      ensures log.isSealed && log.lines != [] && log.lines[|log.lines| - 1] == envelope(exit, ReasonOf(j))
      ensures |whose| == |log.lines| && forall q: Path :: Said(log.lines, whose, q) == WritesOf(CodeAt(Code(j, envelope), q))
      ensures end == Delivered ==> persisted == Text(log.lines)
      ensures end == ClosedByServer ==> closed
      ensures end == RefusedForGood ==> FinallyRefused(State())
      ensures end == Abandoned ==>
                && SentInFull(LiveAll(Start(Thread(Code(j, envelope), [])), live), script[..Attempts(budget)])
                && exists i :: 0 <= i < |rounds| && rounds[i].cancelled
    {
      var own := new Routine();
      exit := own.Run(j, envelope);
      exec := Thread(own.done, []);
      assert own.done == Code(j, envelope) && State() == Start(exec);
      RunIsTold(j, envelope, live, script[..Attempts(budget)], rounds);
      RunLive(live);
      end := FlushTerminal(budget, script, rounds);
    }
  }

  lemma OneMoreEvent(w: World, events: seq<Event>, i: nat)
    requires Upload.Valid(w) && i < |events|
    ensures HappenAll(w, events[i..]) == HappenAll(Happen(w, events[i]), events[i + 1..])
  {
    assert events[i..][0] == events[i] && events[i..][1..] == events[i + 1..];
  }

  lemma {:induction false} CommittedStays(w: World, events: seq<Event>)
    requires Upload.Valid(w)
    ensures HappenAll(w, events).committed == w.committed && w.buf <= HappenAll(w, events).buf
    decreases |events|
  {
    if events != [] {
      CommittedStays(Happen(w, events[0]), events[1..]);
    }
  }

  lemma CommitWithin(w: World, a: Attempt)
    requires Upload.Valid(w)
    ensures Out(w, a).committed == w.committed && |w.buf| <= |Out(w, a).buf|
  {
    CommittedStays(Send(w), a.events);
  }

  /** What a whole run comes to, however it interleaves. */
  lemma RunIsTold(j: Job, envelope: Enveloping, live: seq<Live>, script: seq<Attempt>, rounds: seq<Round>)
    requires Over(LiveAll(Start(Thread(Code(j, envelope), [])), live))
    ensures var code := Code(j, envelope);
            var start := Start(Thread(code, []));
            var ran := LiveAll(start, live);
            var (w, end) := Flush(ran, script, rounds);
            && Upload.Valid(start) && Orderly(start) && Safe(w) && Orderly(w)
            && w.isSealed && w.told.lines != [] && w.told.lines[|w.told.lines| - 1] == envelope(ExitOf(j), ReasonOf(j))
            && |w.told.whose| == |w.told.lines|
            && (forall q: Path :: Said(w.told.lines, w.told.whose, q) == WritesOf(CodeAt(code, q)))
            && (end == Delivered ==> w.persisted == Text(w.told.lines))
            && (end == ClosedByServer ==> w.closed)
            && (end == RefusedForGood ==> FinallyRefused(w))
            && (end == Abandoned ==> SentInFull(ran, script) && exists i :: 0 <= i < |rounds| && rounds[i].cancelled)
  {
    var code, last := Code(j, envelope), envelope(ExitOf(j), ReasonOf(j));
    var start := Start(Thread(code, []));
    RunJoins(j, envelope);
    StartTells(code, last);
    LiveTells(start, live, code, last);
    var ran := LiveAll(start, live);
    FlushEndsRight(ran, script, rounds);
    forall q: Path ensures Said(ran.told.lines, ran.told.whose, q) == WritesOf(CodeAt(code, q)) {
      OverIsTold(ran, code, last, q);
    }
    OverIsTold(ran, code, last, []);
  }
}
