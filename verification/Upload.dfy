/** The resumable upload of one run's log, as a protocol between the agent, a
    network that loses, delays, repeats and reorders, and the server. */
module Upload {
  import opened Goroutines
  import opened LogBuffers
  import opened Options

  /** One POST of the log: which attempt made it, from which offset, with what. */
  datatype Post = Post(attempt: nat, off: nat, body: Bytes)

  /** What the server, or a proxy in front of it, can answer. */
  datatype Answer =
    | Accepted
    | Mismatch(at: nat)
    | RunClosed
    | Status(code: int, refusal: bool)

  /** The run's side of its log: the goroutines that write it, the lines they have
      written so far, and which goroutine wrote each. */
  datatype Writers = Writers(exec: Thread, lines: seq<Bytes>, whose: seq<Path>)

  /** Everything the protocol depends on. `posts` never shrinks: a POST that has
      been sent can be delivered any number of times, at any later moment. */
  datatype World = World(
    buf: Bytes,
    committed: nat,
    isSealed: bool,
    persisted: Bytes,
    closed: bool,
    posts: seq<Post>,
    answers: seq<seq<Answer>>,
    told: Writers)

  /** What can happen while an attempt is out: a goroutine of the run takes a step, or
      something happens in the network or the server. Posts are named by attempt;
      `Late` is any earlier one and `Newest` the one just sent. */
  datatype Event =
    | Ran(path: Path)
    | Late(attempt: nat)
    | Newest
    | Cut(attempt: nat, n: nat)
    | Failed(attempt: nat, code: int, refusal: bool)
    | ServerClosed

  /** Nothing written, nothing sent. */
  function Start(exec: Thread): World {
    World([], 0, false, [], false, [], [], Writers(exec, [], []))
  }

  ghost predicate Valid(w: World) {
    && |w.posts| == |w.answers| && w.committed <= |w.buf|
    && w.buf == Text(w.told.lines) && |w.told.whose| == |w.told.lines|
  }

  /** A line at the end of the buffer, whether or not the log is closed. */
  function Appended(w: World, path: Path, line: Bytes): (w': World)
    requires Valid(w)
    ensures Valid(w')
  {
    TextOfOneMore(w.told.lines, line);
    w.(buf := w.buf + line + [NEWLINE], told := w.told.(lines := w.told.lines + [line], whose := w.told.whose + [path]))
  }

  /** A goroutine's step, and what it does to the log. */
  function RunStep(w: World, path: Path): (w': World)
    requires Valid(w)
    ensures Valid(w')
  {
    var (t, effect) := Step(w.told.exec, path);
    var w1 := w.(told := w.told.(exec := t));
    match effect
    case Silent => w1
    case Wrote(line) => Appended(w1, path, line)
    case Sealed(envelope) => if w.isSealed then w1 else Appended(w1, path, envelope).(isSealed := true)
  }

  /** The server's handling of one delivery of a POST: refused for good once the
      run is closed, refused with the true offset unless it starts exactly where
      the persisted log ends, appended otherwise. */
  function Serve(w: World, k: nat): World
    requires |w.posts| == |w.answers| && k < |w.posts|
  {
    var p := w.posts[k];
    if w.closed then Answering(w, k, RunClosed)
    else if p.off != |w.persisted| then Answering(w, k, Mismatch(|w.persisted|))
    else Answering(w.(persisted := w.persisted + p.body), k, Accepted)
  }

  function Answering(w: World, k: nat, a: Answer): World
    requires k < |w.answers|
  {
    w.(answers := w.answers[k := w.answers[k] + [a]])
  }

  /** A connection that drops after n bytes of the body: they may be persisted,
      and nothing is answered. */
  function ServeCut(w: World, k: nat, n: nat): World
    requires k < |w.posts|
  {
    var p := w.posts[k];
    if w.closed || p.off != |w.persisted| || n > |p.body| then w
    else w.(persisted := w.persisted + p.body[..n])
  }

  /** One event; one that names a POST never sent changes nothing. */
  function Happen(w: World, e: Event): (w': World)
    requires Valid(w)
    ensures Valid(w') && |w'.posts| == |w.posts|
  {
    match e
    case Ran(path) => RunStep(w, path)
    case Late(k) => if k < |w.posts| then Serve(w, k) else w
    case Newest => if w.posts != [] then Serve(w, |w.posts| - 1) else w
    case Cut(k, n) => if k < |w.posts| then ServeCut(w, k, n) else w
    case Failed(k, code, refusal) => if k < |w.posts| then Answering(w, k, Status(code, refusal)) else w
    case ServerClosed => w.(closed := true)
  }

  function HappenAll(w: World, events: seq<Event>): (r: World)
    requires Valid(w)
    ensures Valid(r) && |r.posts| == |w.posts|
    decreases |events|
  {
    if events == [] then w else HappenAll(Happen(w, events[0]), events[1..])
  }

  /** The agent sends everything past its committed offset. */
  function Send(w: World): World {
    if w.committed <= |w.buf|
    then w.(posts := w.posts + [Post(|w.posts|, w.committed, w.buf[w.committed..])], answers := w.answers + [[]])
    else w
  }

  // ----- the safety invariant -----

  /** A POST carries exactly the buffer's bytes from its offset, and was sent from
      no later than what the server then held. */
  ghost predicate Carries(w: World, p: Post) {
    && p.off + |p.body| <= |w.buf|
    && p.body == w.buf[p.off..p.off + |p.body|]
    && p.off <= |w.persisted|
  }

  /** An answer tells the truth, and keeps telling it as the server's log grows. */
  ghost predicate Truthful(w: World, p: Post, a: Answer) {
    match a
    case Accepted => p.off + |p.body| <= |w.persisted|
    case Mismatch(at) => p.off < at <= |w.persisted|
    case RunClosed => w.closed
    case Status(_, _) => true
  }

  ghost predicate Safe(w: World) {
    && Valid(w)
    && w.persisted <= w.buf
    && w.committed <= |w.persisted|
    && (forall k :: 0 <= k < |w.posts| ==> Carries(w, w.posts[k]))
    && (forall k, i :: 0 <= k < |w.posts| && 0 <= i < |w.answers[k]| ==> Truthful(w, w.posts[k], w.answers[k][i]))
  }

  /** Every goroutine of the run has ended. */
  predicate Over(w: World) {
    Ended(w.told.exec)
  }

  /** From w to w' nothing the server held or the run wrote was taken back; and if the
      run's goroutines had ended, its log is as it was. */
  ghost predicate Grows(w: World, w': World) {
    && w.buf <= w'.buf
    && w.persisted <= w'.persisted
    && (w.closed ==> w'.closed)
    && w.posts <= w'.posts
    && (w.isSealed ==> w'.isSealed)
    && (Over(w) ==> w'.told == w.told && w'.buf == w.buf && w'.isSealed == w.isSealed)
  }

  lemma StillTrue(w: World, w': World, p: Post)
    requires w.buf <= w'.buf && |w.persisted| <= |w'.persisted| && (w.closed ==> w'.closed)
    ensures Carries(w, p) ==> Carries(w', p)
    ensures forall a :: Truthful(w, p, a) ==> Truthful(w', p, a)
  {
  }

  lemma SafeAfterGrowth(w: World, w': World)
    requires Safe(w) && Valid(w')
    requires w.buf <= w'.buf && w.persisted <= w'.persisted <= w'.buf && (w.closed ==> w'.closed)
    requires w'.committed == w.committed && w'.posts == w.posts && w'.answers == w.answers
    ensures Safe(w')
  {
    forall k | 0 <= k < |w'.posts| ensures Carries(w', w.posts[k]) {
      StillTrue(w, w', w.posts[k]);
    }
    forall k, i | 0 <= k < |w'.posts| && 0 <= i < |w'.answers[k]| ensures Truthful(w', w'.posts[k], w'.answers[k][i]) {
      StillTrue(w, w', w.posts[k]);
    }
  }

  lemma SafeAfterAnswer(w: World, k: nat, a: Answer)
    requires Safe(w) && k < |w.posts| && Truthful(w, w.posts[k], a)
    ensures Safe(Answering(w, k, a))
  {
    var w' := Answering(w, k, a);
    forall j | 0 <= j < |w.posts| ensures Carries(w', w'.posts[j]) {
      StillTrue(w, w', w.posts[j]);
    }
    forall j, i | 0 <= j < |w'.posts| && 0 <= i < |w'.answers[j]| ensures Truthful(w', w'.posts[j], w'.answers[j][i]) {
      StillTrue(w, w', w.posts[j]);
      if j == k && i == |w.answers[k]| {
        assert w'.answers[j][i] == a;
      } else {
        assert w'.answers[j][i] == w.answers[j][i];
      }
    }
  }

  /** Appending a POST's body at the matching offset extends the same prefix. */
  lemma AppendExtends(w: World, k: nat, n: nat)
    requires Safe(w) && k < |w.posts| && w.posts[k].off == |w.persisted| && n <= |w.posts[k].body|
    ensures w.persisted <= w.persisted + w.posts[k].body[..n] <= w.buf
  {
    var p := w.posts[k];
    assert Carries(w, p);
    assert w.persisted == w.buf[..|w.persisted|];
    assert p.body[..n] == w.buf[p.off..p.off + n];
    assert w.buf[..|w.persisted|] + w.buf[p.off..p.off + n] == w.buf[..p.off + n];
  }

  lemma SafeAfterServe(w: World, k: nat)
    requires Safe(w) && k < |w.posts|
    ensures Safe(Serve(w, k)) && Grows(w, Serve(w, k))
  {
    var p := w.posts[k];
    assert Carries(w, p);
    if w.closed {
      SafeAfterAnswer(w, k, RunClosed);
    } else if p.off != |w.persisted| {
      SafeAfterAnswer(w, k, Mismatch(|w.persisted|));
    } else {
      var w' := w.(persisted := w.persisted + p.body);
      AppendExtends(w, k, |p.body|);
      assert p.body[..|p.body|] == p.body;
      SafeAfterGrowth(w, w');
      SafeAfterAnswer(w', k, Accepted);
    }
  }

  lemma RunStepGrows(w: World, path: Path)
    requires Safe(w)
    ensures Safe(RunStep(w, path)) && Grows(w, RunStep(w, path))
  {
    var w' := RunStep(w, path);
    assert w.buf <= w'.buf;
    SafeAfterGrowth(w, w');
    if Over(w) {
      EndedStays(w.told.exec, path);
    }
  }

  lemma SafeAfterCut(w: World, k: nat, n: nat)
    requires Safe(w) && k < |w.posts|
    ensures Safe(ServeCut(w, k, n)) && Grows(w, ServeCut(w, k, n))
  {
    if !w.closed && w.posts[k].off == |w.persisted| && n <= |w.posts[k].body| {
      AppendExtends(w, k, n);
      SafeAfterGrowth(w, ServeCut(w, k, n));
    }
  }

  lemma SafeAfterClose(w: World)
    requires Safe(w)
    ensures Safe(w.(closed := true)) && Grows(w, w.(closed := true))
  {
    SafeAfterGrowth(w, w.(closed := true));
  }

  lemma SafeAfterEvent(w: World, e: Event)
    requires Safe(w)
    ensures Safe(Happen(w, e)) && Grows(w, Happen(w, e))
  {
    match e
    case Ran(path) =>
      RunStepGrows(w, path);
    case Late(k) =>
      if k < |w.posts| { SafeAfterServe(w, k); }
    case Newest =>
      if w.posts != [] { SafeAfterServe(w, |w.posts| - 1); }
    case Cut(k, n) =>
      if k < |w.posts| { SafeAfterCut(w, k, n); }
    case Failed(k, code, refusal) =>
      if k < |w.posts| { SafeAfterAnswer(w, k, Status(code, refusal)); }
    case ServerClosed =>
      SafeAfterClose(w);
  }

  lemma GrowsTransitive(a: World, b: World, c: World)
    requires Grows(a, b) && Grows(b, c)
    ensures Grows(a, c)
  {
  }

  /** Over any events at all, in any order and with any repetition: what the
      server persisted stays a prefix of what the run wrote, and only grows. */
  lemma {:induction false} SafeAfterEvents(w: World, events: seq<Event>)
    requires Safe(w)
    ensures Safe(HappenAll(w, events)) && Grows(w, HappenAll(w, events))
    ensures HappenAll(w, events).committed == w.committed
    decreases |events|
  {
    if events != [] {
      SafeAfterEvent(w, events[0]);
      SafeAfterEvents(Happen(w, events[0]), events[1..]);
      GrowsTransitive(w, Happen(w, events[0]), HappenAll(w, events));
    }
  }

  lemma SafeAfterSend(w: World)
    requires Safe(w)
    ensures Safe(Send(w)) && Grows(w, Send(w))
  {
    var w' := Send(w);
    forall k | 0 <= k < |w'.posts| ensures Carries(w', w'.posts[k]) {
      if k < |w.posts| {
        assert w'.posts[k] == w.posts[k];
        assert Carries(w, w.posts[k]);
      }
    }
    forall k, i | 0 <= k < |w'.posts| && 0 <= i < |w'.answers[k]| ensures Truthful(w', w'.posts[k], w'.answers[k][i]) {
      assert k < |w.posts|;
      assert w'.posts[k] == w.posts[k] && w'.answers[k] == w.answers[k];
    }
  }

  // ----- one call of the upload loop -----

  /** What one attempt meets: the run's context may be over before it, events
      happen while it is out, and it hears one of the answers given to its POST
      (by position) or, past their end, a dropped connection; the context may
      also end during the wait that follows a drop. */
  datatype Attempt = Attempt(over: bool, events: seq<Event>, hears: nat, overInWait: bool)

  datatype Fault = Dropped | StatusFault(code: int, refusal: bool)

  /** How a call ends. GaveUp(None) is a budget spent on offset mismatches only. */
  datatype Outcome = Sent | Closed | ContextOver | GaveUp(fault: Option<Fault>)

  /** Adopting an offset the server gave, kept within the buffer. */
  function Commit(w: World, n: nat): World {
    w.(committed := if n > |w.buf| then |w.buf| else n)
  }

  /** What one attempt leads to: the call ends, or the next attempt is made with
      `last` the error to report if the budget runs out there. */
  datatype Verdict = Ends(out: Outcome) | Again(last: Option<Fault>)

  /** What the answer to one POST, if one came, makes of it: `end` is where the POST's
      bytes end. */
  function Acted(after: World, end: nat, answer: Option<Answer>, a: Attempt, last: Option<Fault>): (World, Verdict) {
    match answer
    case None => (after, if a.overInWait then Ends(ContextOver) else Again(Some(Dropped)))
    case Some(RunClosed) => (after, Ends(Closed))
    case Some(Mismatch(at)) => (Commit(after, at), Again(last))
    case Some(Accepted) => (Commit(after, end), Ends(Sent))
    case Some(Status(code, refusal)) =>
      (after, if a.overInWait then Ends(ContextOver) else Again(Some(StatusFault(code, refusal))))
  }

  /** The answer an attempt hears to its own POST. */
  function Heard(after: World, post: nat, a: Attempt): Option<Answer>
    requires post < |after.answers|
  {
    if a.hears < |after.answers[post]| then Some(after.answers[post][a.hears]) else None
  }

  /** One pass of the upload loop. */
  function Try(w: World, a: Attempt, last: Option<Fault>): (World, Verdict)
    requires Valid(w)
  {
    if a.over then (w, Ends(ContextOver))
    else if w.committed == |w.buf| then (w, Ends(Sent))
    else
      var after := Out(w, a);
      Acted(after, w.committed + |w.buf[w.committed..]|, Heard(after, |w.posts|, a), a, last)
  }

  /** The upload loop over the attempts its budget allows, `last` the error it
      would report if it gave up now. */
  function Stream(w: World, script: seq<Attempt>, last: Option<Fault>): (World, Outcome)
    requires Valid(w)
    decreases |script|
  {
    if script == [] then (w, GaveUp(last))
    else
      var (w1, v) := Try(w, script[0], last);
      if v.Ends? then (w1, v.out) else Stream(w1, script[1..], v.last)
  }

  lemma SafeAfterCommit(w: World, n: nat)
    requires Safe(w) && n <= |w.persisted|
    ensures Safe(Commit(w, n)) && Grows(w, Commit(w, n)) && Commit(w, n).committed == n
  {
    var w' := Commit(w, n);
    forall k | 0 <= k < |w'.posts| ensures Carries(w', w'.posts[k]) {
      assert Carries(w, w.posts[k]);
    }
    forall k, i | 0 <= k < |w'.posts| && 0 <= i < |w'.answers[k]| ensures Truthful(w', w'.posts[k], w'.answers[k][i]) {
      assert Truthful(w, w.posts[k], w.answers[k][i]);
    }
  }

  /** What an attempt leaves behind before its answer is read. */
  function Out(w: World, a: Attempt): (after: World)
    requires Valid(w)
    ensures Valid(after) && |after.posts| == |w.posts| + 1
  {
    HappenAll(Send(w), a.events)
  }

  /** The POST of an attempt is the one its answers are about. */
  lemma OwnPost(w: World, a: Attempt)
    requires Safe(w)
    ensures Safe(Out(w, a)) && Grows(w, Out(w, a)) && Out(w, a).committed == w.committed
    ensures Out(w, a).posts[|w.posts|] == Post(|w.posts|, w.committed, w.buf[w.committed..])
  {
    SafeAfterSend(w);
    SafeAfterEvents(Send(w), a.events);
    GrowsTransitive(w, Send(w), Out(w, a));
    assert Out(w, a).posts[..|w.posts| + 1] == Send(w).posts;
  }

  /** Acting on a true answer to a POST keeps the protocol safe and ends rightly. */
  lemma ActedIsSafe(after: World, p: Post, answer: Option<Answer>, a: Attempt, last: Option<Fault>)
    requires Safe(after) && (answer.Some? ==> Truthful(after, p, answer.value))
    requires p.off == after.committed
    ensures var end := p.off + |p.body|;
            var (w', v) := Acted(after, end, answer, a, last);
            && Safe(w') && Grows(after, w') && after.committed <= w'.committed
            && (v == Ends(Sent) ==> end <= |w'.persisted|)
            && (v == Ends(Closed) ==> w'.closed)
            && (v.Again? && v.last == None ==> last == None && after.committed < w'.committed)
            && (v.Ends? ==> !v.out.GaveUp?)
  {
    match answer
    case Some(Mismatch(at)) => SafeAfterCommit(after, at);
    case Some(Accepted) => SafeAfterCommit(after, p.off + |p.body|);
    case _ =>
  }

  /** One attempt keeps the protocol safe, and what it reports is true: success
      when the server holds all that was pending, closed when the server closed
      the run; a mismatch moves the offset forward. */
  lemma TryIsSafe(w: World, a: Attempt, last: Option<Fault>)
    requires Safe(w)
    ensures var (w', v) := Try(w, a, last);
            && Safe(w') && Grows(w, w') && w.committed <= w'.committed
            && (v == Ends(Sent) ==> |w.buf| <= |w'.persisted|)
            && (v == Ends(Closed) ==> w'.closed)
            && (v.Again? && v.last == None ==> last == None && w.committed < w'.committed)
            && (v.Ends? ==> !v.out.GaveUp?)
  {
    if !a.over && w.committed != |w.buf| {
      OwnPost(w, a);
      var after := Out(w, a);
      var p, answer := after.posts[|w.posts|], Heard(after, |w.posts|, a);
      if answer.Some? {
        assert Truthful(after, p, after.answers[|w.posts|][a.hears]);
      }
      ActedIsSafe(after, p, answer, a, last);
      GrowsTransitive(w, after, Try(w, a, last).0);
    }
  }

  /** One call of the loop against any network: it keeps the protocol safe, never
      moves the committed offset back, reports success only when the server holds
      all that was pending (once the run's goroutines have ended: every byte), reports the run as
      closed only when the server closed it, and a budget spent on mismatches
      alone has moved the offset forward. */
  lemma {:induction false} StreamIsSafe(w: World, script: seq<Attempt>, last: Option<Fault>)
    requires Safe(w)
    ensures var (w', out) := Stream(w, script, last);
            && Safe(w') && Grows(w, w') && w.committed <= w'.committed
            && (out == Sent && Over(w) ==> w'.persisted == w'.buf)
            && (out == Sent ==> |w.buf| <= |w'.persisted|)
            && (out == Closed ==> w'.closed)
            && (out == GaveUp(None) ==> last == None && (script != [] ==> w.committed < w'.committed))
    decreases |script|
  {
    if script != [] {
      TryIsSafe(w, script[0], last);
      var (w1, v) := Try(w, script[0], last);
      if v.Again? {
        StreamIsSafe(w1, script[1..], v.last);
        GrowsTransitive(w, w1, Stream(w1, script[1..], v.last).0);
      }
    }
  }

  // ----- the end of a run: send its sealed log until that is settled -----

  /** Whether a failed final upload may ever succeed: only the server's own
      refusal, with a status that is neither 5xx nor 429, is final. */
  predicate FinalUploadRetryable(out: Outcome) {
    match out
    case GaveUp(Some(StatusFault(code, refusal))) => !refusal || code >= 500 || code == 429
    case _ => true
  }

  /** One resend: whether the run's context has ended by then, and the attempt. */
  datatype Round = Round(cancelled: bool, attempt: Attempt)

  /** How the final upload ends; StillSending is an upload not over yet. */
  datatype FlushEnd = Delivered | ClosedByServer | RefusedForGood | Abandoned | StillSending

  function Resend(w: World, rounds: seq<Round>, out: Outcome): (World, FlushEnd)
    requires Valid(w)
    decreases |rounds|
  {
    if out == Sent then (w, Delivered)
    else if out == Closed then (w, ClosedByServer)
    else if !FinalUploadRetryable(out) then (w, RefusedForGood)
    else if rounds == [] then (w, StillSending)
    else if rounds[0].cancelled then (w, Abandoned)
    else
      StreamValid(w, [rounds[0].attempt], None);
      var (w', out') := Stream(w, [rounds[0].attempt], None);
      Resend(w', rounds[1..], out')
  }

  lemma {:induction false} StreamValid(w: World, script: seq<Attempt>, last: Option<Fault>)
    requires Valid(w)
    ensures Valid(Stream(w, script, last).0)
    decreases |script|
  {
    if script != [] {
      var (w1, v) := Try(w, script[0], last);
      if v.Again? {
        StreamValid(w1, script[1..], v.last);
      }
    }
  }

  /** The whole final upload: the first send with the full budget, then resends. */
  function Flush(w: World, script: seq<Attempt>, rounds: seq<Round>): (World, FlushEnd)
    requires Valid(w)
  {
    StreamValid(w, script, None);
    var (w', out) := Stream(w, script, None);
    Resend(w', rounds, out)
  }

  /** The server said, of some attempt, that it refuses this upload for good. */
  ghost predicate FinallyRefused(w: World) {
    exists k, i :: 0 <= k < |w.answers| && 0 <= i < |w.answers[k]|
                && w.answers[k][i].Status? && w.answers[k][i].refusal
                && w.answers[k][i].code < 500 && w.answers[k][i].code != 429
  }

  /** Fault f is a status that the network really answered. */
  ghost predicate Answered(w: World, f: Option<Fault>) {
    f.Some? && f.value.StatusFault? ==>
      exists k, i :: 0 <= k < |w.answers| && 0 <= i < |w.answers[k]|
                  && w.answers[k][i] == Status(f.value.code, f.value.refusal)
  }

  lemma AnsweredLater(w: World, w': World, f: Option<Fault>)
    requires Answered(w, f)
    requires |w.answers| <= |w'.answers| && forall k :: 0 <= k < |w.answers| ==> w.answers[k] <= w'.answers[k]
    ensures Answered(w', f)
  {
    if f.Some? && f.value.StatusFault? {
      var k, i :| 0 <= k < |w.answers| && 0 <= i < |w.answers[k]|
               && w.answers[k][i] == Status(f.value.code, f.value.refusal);
      assert w.answers[k] <= w'.answers[k];
      assert w'.answers[k][i] == w.answers[k][i];
    }
  }

  lemma {:induction false} StatusWasAnswered(w: World, script: seq<Attempt>, last: Option<Fault>)
    requires Valid(w) && Answered(w, last)
    ensures var (w', out) := Stream(w, script, last);
            out.GaveUp? ==> Answered(w', out.fault)
    decreases |script|
  {
    if script != [] {
      var (w1, v) := Try(w, script[0], last);
      if v.Again? {
        AnswersKept(Send(w), script[0].events);
        assert Send(w).answers[..|w.answers|] == w.answers;
        assert forall k :: 0 <= k < |w.answers| ==> Send(w).answers[k] == w.answers[k];
        if v.last == last { AnsweredLater(w, w1, last); }
        StatusWasAnswered(w1, script[1..], v.last);
      }
    }
  }

  lemma {:induction false} AnswersKept(w: World, events: seq<Event>)
    requires Valid(w)
    ensures forall k :: 0 <= k < |w.answers| ==> w.answers[k] <= HappenAll(w, events).answers[k]
    decreases |events|
  {
    if events != [] {
      var w1 := Happen(w, events[0]);
      assert forall k :: 0 <= k < |w.answers| ==> w.answers[k] <= w1.answers[k];
      AnswersKept(w1, events[1..]);
    }
  }

  lemma TryPostsOnce(w: World, a: Attempt, last: Option<Fault>)
    requires Valid(w)
    ensures var (w', v) := Try(w, a, last);
            |w.posts| <= |w'.posts| <= |w.posts| + 1 && (v.Again? ==> |w'.posts| == |w.posts| + 1)
  {
  }

  /** A call makes no more attempts than its budget, and one that gives up has made them
      all. */
  lemma {:induction false} GaveUpMadeAll(w: World, script: seq<Attempt>, last: Option<Fault>)
    requires Valid(w)
    ensures var (w', out) := Stream(w, script, last);
            && |w'.posts| <= |w.posts| + |script|
            && (out.GaveUp? ==> |w'.posts| == |w.posts| + |script|)
    decreases |script|
  {
    if script != [] {
      TryPostsOnce(w, script[0], last);
      var (w1, v) := Try(w, script[0], last);
      if v.Again? {
        GaveUpMadeAll(w1, script[1..], v.last);
      }
    }
  }

  /** The first send of the final upload was made in full: every attempt of its budget,
      or until its own time was over. */
  ghost predicate SentInFull(w: World, script: seq<Attempt>)
    requires Valid(w)
  {
    var (w', out) := Stream(w, script, None);
    out == ContextOver || (out.GaveUp? && |w'.posts| == |w.posts| + |script|)
  }

  /** How a final upload of a closed log can end, whatever the network does:
      delivered means the server holds every byte; closed, that the server closed
      the run; refused, that the server itself refused for good; abandoned, that
      the run's context was over at a resend, after the full budget; and it goes
      on only while no resend has met that. */
  lemma FlushEndsRight(w: World, script: seq<Attempt>, rounds: seq<Round>)
    requires Safe(w) && Over(w)
    ensures var (w', end) := Flush(w, script, rounds);
            && Safe(w') && Grows(w, w')
            && (end == Delivered ==> w'.persisted == w'.buf == w.buf)
            && (end == ClosedByServer ==> w'.closed)
            && (end == RefusedForGood ==> FinallyRefused(w'))
            && (end == Abandoned ==> SentInFull(w, script) && exists i :: 0 <= i < |rounds| && rounds[i].cancelled)
            && (end == StillSending ==> forall i :: 0 <= i < |rounds| ==> !rounds[i].cancelled)
  {
    StreamIsSafe(w, script, None);
    StatusWasAnswered(w, script, None);
    GaveUpMadeAll(w, script, None);
    var (w1, out) := Stream(w, script, None);
    ResendEndsRight(w1, rounds, out);
    GrowsTransitive(w, w1, Resend(w1, rounds, out).0);
  }

  lemma {:induction false} ResendEndsRight(w: World, rounds: seq<Round>, out: Outcome)
    requires Safe(w) && Over(w)
    requires out == Sent ==> w.persisted == w.buf
    requires out == Closed ==> w.closed
    requires out.GaveUp? ==> Answered(w, out.fault)
    ensures var (w', end) := Resend(w, rounds, out);
            && Safe(w') && Grows(w, w')
            && (end == Delivered ==> w'.persisted == w'.buf)
            && (end == ClosedByServer ==> w'.closed)
            && (end == RefusedForGood ==> FinallyRefused(w'))
            && (end == Abandoned ==> exists i :: 0 <= i < |rounds| && rounds[i].cancelled)
            && (end == StillSending ==> forall i :: 0 <= i < |rounds| ==> !rounds[i].cancelled)
    decreases |rounds|
  {
    if out == Sent || out == Closed || rounds == [] || rounds[0].cancelled {
    } else if FinalUploadRetryable(out) {
      var one := [rounds[0].attempt];
      StreamIsSafe(w, one, None);
      StatusWasAnswered(w, one, None);
      var (w1, out1) := Stream(w, one, None);
      ResendEndsRight(w1, rounds[1..], out1);
      GrowsTransitive(w, w1, Resend(w1, rounds[1..], out1).0);
      if i :| 0 <= i < |rounds[1..]| && rounds[1..][i].cancelled {
        assert rounds[i + 1].cancelled;
      }
    }
  }

  // ----- which failures are final, in numbers -----

  /** The server's own refusal with a status that is neither 5xx nor 429. */
  predicate Final(out: Outcome) {
    && out.GaveUp? && out.fault.Some? && out.fault.value.StatusFault? && out.fault.value.refusal
    && out.fault.value.code < 500 && out.fault.value.code != 429
  }

  /** The log and the outcome after the first send and i resends, one attempt each. */
  function Resent(w: World, rounds: seq<Round>, out: Outcome, i: nat): (r: (World, Outcome))
    requires Valid(w) && i <= |rounds|
    ensures Valid(r.0)
    decreases i
  {
    if i == 0 then (w, out)
    else
      StreamValid(w, [rounds[0].attempt], None);
      var (w', out') := Stream(w, [rounds[0].attempt], None);
      Resent(w', rounds[1..], out', i - 1)
  }

  /** The resends up to some point all failed in a way that may clear, in time. */
  ghost predicate WentOn(w: World, rounds: seq<Round>, out: Outcome, i: nat)
    requires Valid(w) && i <= |rounds|
  {
    forall j :: 0 <= j < i ==>
      && !rounds[j].cancelled
      && Resent(w, rounds, out, j).1 != Sent && Resent(w, rounds, out, j).1 != Closed && !Final(Resent(w, rounds, out, j).1)
  }

  /** The send or resend that ends the upload, and as what: nothing is posted after it.
      One the server refused for good ends it, as a delivery and a closed run do; no other
      failure does, only the run's context or the end of the rounds modelled. */
  lemma {:induction false} ResendEndsAt(w: World, rounds: seq<Round>, out: Outcome, i: nat)
    requires Valid(w) && i <= |rounds| && WentOn(w, rounds, out, i)
    ensures var (w', o) := Resent(w, rounds, out, i);
            && (o == Sent ==> Resend(w, rounds, out) == (w', Delivered))
            && (o == Closed ==> Resend(w, rounds, out) == (w', ClosedByServer))
            && (Final(o) ==> Resend(w, rounds, out) == (w', RefusedForGood))
            && (o != Sent && o != Closed && !Final(o) ==>
                  && (i == |rounds| ==> Resend(w, rounds, out) == (w', StillSending))
                  && (i < |rounds| && rounds[i].cancelled ==> Resend(w, rounds, out) == (w', Abandoned)))
    decreases i
  {
    if i > 0 {
      assert Resent(w, rounds, out, 0) == (w, out);
      StreamValid(w, [rounds[0].attempt], None);
      var (w1, out1) := Stream(w, [rounds[0].attempt], None);
      forall j | 0 <= j < i - 1
        ensures !rounds[1..][j].cancelled && Resent(w1, rounds[1..], out1, j) == Resent(w, rounds, out, j + 1)
      {
      }
      ResendEndsAt(w1, rounds[1..], out1, i - 1);
    }
  }

  /** So the first send alone ends the upload when it is delivered, when the run is
      closed, and when the server refuses it for good, with 401, 404 or 413 say, whatever
      rounds are left; and no other failure ends it, a 5xx, a 429 or what a proxy answers
      least of all. */
  lemma FirstSendDecides(w: World, script: seq<Attempt>, rounds: seq<Round>)
    requires Valid(w)
    ensures var (w1, out) := Stream(w, script, None);
            && (out == Sent ==> Flush(w, script, rounds) == (w1, Delivered))
            && (out == Closed ==> Flush(w, script, rounds) == (w1, ClosedByServer))
            && (forall code, refusal :: out == GaveUp(Some(StatusFault(code, refusal))) ==>
                  if refusal && code < 500 && code != 429 then Flush(w, script, rounds) == (w1, RefusedForGood)
                  else rounds == [] ==> Flush(w, script, rounds) == (w1, StillSending))
            && (out in {GaveUp(None), GaveUp(Some(Dropped)), ContextOver} && rounds == [] ==> Flush(w, script, rounds) == (w1, StillSending))
  {
    StreamValid(w, script, None);
    var (w1, out) := Stream(w, script, None);
    ResendEndsAt(w1, rounds, out, 0);
  }

  // ----- what each answer leads to -----

  /** With nothing pending, or no time left, nothing is posted. */
  lemma NothingToSend(w: World, a: Attempt, rest: seq<Attempt>, last: Option<Fault>)
    requires Valid(w) && (a.over || w.committed == |w.buf|)
    ensures Stream(w, [a] + rest, last) == (w, if a.over then ContextOver else Sent)
  {
    assert ([a] + rest)[0] == a;
  }

  /** An attempt that posts, and what it hears, decide the call: an accepted POST ends it
      with the offset at the POST's end, a closed run ends it, a mismatch moves the offset
      where the server says and is no fault, and a lost connection or any other status is
      the fault to report if the budget ends with it. */
  lemma AnswerDecides(w: World, a: Attempt, answer: Option<Answer>, rest: seq<Attempt>, last: Option<Fault>)
    requires Safe(w) && !a.over && w.committed < |w.buf|
    requires var heard := Out(w, a).answers[|w.posts|]; answer == if a.hears < |heard| then Some(heard[a.hears]) else None
    ensures var after, whole := Out(w, a), Stream(w, [a] + rest, last);
            && (answer == Some(Accepted) ==> whole == (after.(committed := |w.buf|), Sent))
            && (answer == Some(RunClosed) ==> whole == (after, Closed))
            && (answer.Some? && answer.value.Mismatch? ==>
                  answer.value.at <= |after.buf| && whole == Stream(after.(committed := answer.value.at), rest, last))
            && (answer.Some? && answer.value.Status? ==>
                  whole == if a.overInWait then (after, ContextOver)
                           else Stream(after, rest, Some(StatusFault(answer.value.code, answer.value.refusal))))
            && (answer.None? ==> whole == if a.overInWait then (after, ContextOver) else Stream(after, rest, Some(Dropped)))
  {
    OwnPost(w, a);
    var after, all := Out(w, a), [a] + rest;
    assert all[0] == a && all[1..] == rest;
    if answer.Some? {
      assert Truthful(after, after.posts[|w.posts|], after.answers[|w.posts|][a.hears]);
    }
  }

  /** An attempt over a network that works: its POST reaches the server at least
      once, nothing answers in the server's place, and the first answer is heard.
      Earlier POSTs may still arrive late, and the run may be closed meanwhile. */
  predicate Reliable(a: Attempt) {
    && !a.over
    && Newest in a.events
    && (forall e :: e in a.events ==> !e.Failed?)
    && a.hears == 0
  }

  lemma {:induction false} ReliableIsAnswered(w: World, k: nat, events: seq<Event>)
    requires Valid(w) && |w.posts| == k + 1
    requires forall e :: e in events ==> !e.Failed?
    requires forall a :: a in w.answers[k] ==> !a.Status?
    requires Newest in events || w.answers[k] != []
    ensures var after := HappenAll(w, events);
            |after.answers| == k + 1 && after.answers[k] != [] && forall a :: a in after.answers[k] ==> !a.Status?
    decreases |events|
  {
    if events != [] {
      var w1 := Happen(w, events[0]);
      assert events == [events[0]] + events[1..];
      ReliableIsAnswered(w1, k, events[1..]);
    }
  }

  /** Once the network works, the resends end: each one finishes the upload or
      moves the offset forward, so at most one more than the bytes still pending
      are needed, however many old POSTs arrive late in between. */
  lemma {:induction false} ReliableNetworkEnds(w: World, rounds: seq<Round>, out: Outcome)
    requires Safe(w) && Over(w)
    requires FinalUploadRetryable(out) || out == Sent || out == Closed
    requires |rounds| > |w.buf| - w.committed
    requires forall r :: r in rounds ==> !r.cancelled && Reliable(r.attempt)
    ensures Resend(w, rounds, out).1 in {Delivered, ClosedByServer}
    decreases |rounds|
  {
    if out != Sent && out != Closed {
      var a := rounds[0].attempt;
      assert rounds[0] in rounds;
      var (w1, out1) := Stream(w, [a], None);
      StreamIsSafe(w, [a], None);
      if w.committed != |w.buf| {
        OwnPost(w, a);
        ReliableIsAnswered(Send(w), |w.posts|, a.events);
        var heard := Out(w, a).answers[|w.posts|];
        assert heard[0] in heard;
        assert Stream(Commit(Out(w, a), 0), [a][1..], None).1 == GaveUp(None);
        assert out1 == GaveUp(None) || out1 == Sent || out1 == Closed;
      }
      if out1 != Sent && out1 != Closed {
        ReliableNetworkEnds(w1, rounds[1..], out1);
      }
    }
  }
}
