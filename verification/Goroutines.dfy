/** The goroutines of one run that write to its log: each a list of actions, its
    children beside it. They run in any interleaving. */
module Goroutines {
  import opened LogBuffers

  /** What a goroutine does, as far as the log sees it: writes a line, starts another,
      waits until those it has started have returned, or closes the log. */
  datatype Action = Write(line: Bytes) | Go(body: seq<Action>) | Wait | Close(envelope: Bytes)

  /** A goroutine with what it has still to do. A child stays in its place when it has
      returned, as its own children may not have. */
  datatype Thread = Thread(todo: seq<Action>, kids: seq<Thread>)

  /** A goroutine's name: which child of which child of the first one it is. */
  type Path = seq<nat>

  datatype Effect = Silent | Wrote(line: Bytes) | Sealed(envelope: Bytes)

  predicate Returned(kids: seq<Thread>) {
    forall k :: 0 <= k < |kids| ==> kids[k].todo == []
  }

  /** One step of the goroutine at a path. One that waits, has returned, or does not
      exist does nothing. */
  function Step(t: Thread, path: Path): (Thread, Effect)
    decreases |path|
  {
    if path != [] then
      if path[0] < |t.kids| then
        var (kid, effect) := Step(t.kids[path[0]], path[1..]);
        (t.(kids := t.kids[path[0] := kid]), effect)
      else (t, Silent)
    else if t.todo == [] then (t, Silent)
    else
      match t.todo[0]
      case Write(line) => (t.(todo := t.todo[1..]), Wrote(line))
      case Go(body) => (Thread(t.todo[1..], t.kids + [Thread(body, [])]), Silent)
      case Wait => if Returned(t.kids) then (t.(todo := t.todo[1..]), Silent) else (t, Silent)
      case Close(envelope) => (t.(todo := t.todo[1..]), Sealed(envelope))
  }

  // ----- no writer is left when the log is closed -----

  /** A goroutine that has returned, and all it started have. */
  predicate Ended(t: Thread) {
    t.todo == [] && forall k :: 0 <= k < |t.kids| ==> Ended(t.kids[k])
  }

  predicate AllEnded(kids: seq<Thread>) {
    forall k :: 0 <= k < |kids| ==> Ended(kids[k])
  }

  /** Code that waits for what it started before it returns, and, if it is the run's
      own, before it closes the log, which is the last thing it does. `open` says that
      something it started may still be running. */
  predicate Joins(todo: seq<Action>, open: bool, own: bool) {
    if todo == [] then !open
    else
      match todo[0]
      case Write(_) => Joins(todo[1..], open, own)
      case Go(body) => Joins(body, false, false) && Joins(todo[1..], true, own)
      case Wait => Joins(todo[1..], false, own)
      case Close(_) => own && !open && todo[1..] == []
  }

  predicate Proper(t: Thread, own: bool) {
    && (forall k :: 0 <= k < |t.kids| ==> Proper(t.kids[k], false))
    && Joins(t.todo, !AllEnded(t.kids), own)
  }

  lemma {:induction false} JoinsClosed(todo: seq<Action>, open: bool, own: bool)
    requires Joins(todo, open, own)
    ensures Joins(todo, false, own)
    decreases |todo|
  {
    if todo != [] && todo[0].Write? {
      JoinsClosed(todo[1..], open, own);
    }
  }

  /** What has ended stays so, and does nothing. */
  lemma {:induction false} EndedStays(t: Thread, path: Path)
    requires Ended(t)
    ensures Step(t, path) == (t, Silent)
    decreases |path|
  {
    if path != [] && path[0] < |t.kids| {
      EndedStays(t.kids[path[0]], path[1..]);
      assert t.kids[path[0] := t.kids[path[0]]] == t.kids;
    }
  }

  /** Once a goroutine's children have returned, they and all theirs have ended. */
  lemma WaitedForEnded(kids: seq<Thread>)
    requires Returned(kids) && forall k :: 0 <= k < |kids| ==> Proper(kids[k], false)
    ensures AllEnded(kids)
  {
    forall k | 0 <= k < |kids| ensures Ended(kids[k]) {
      assert Proper(kids[k], false) && kids[k].todo == [];
    }
  }

  /** Every step of every goroutine keeps the discipline, and when the log is closed no
      goroutine of the run is left. */
  lemma {:induction false} ProperStep(t: Thread, path: Path, own: bool)
    requires Proper(t, own)
    ensures var (t', effect) := Step(t, path);
            Proper(t', own) && (effect.Sealed? ==> own && path == [] && Ended(t'))
    decreases |path|
  {
    if path != [] {
      if path[0] < |t.kids| {
        ProperKid(t, path, own);
      }
    } else if t.todo != [] {
      ProperOwn(t, own);
    }
  }

  lemma {:induction false} ProperKid(t: Thread, path: Path, own: bool)
    requires Proper(t, own) && path != [] && path[0] < |t.kids|
    ensures var (t', effect) := Step(t, path);
            Proper(t', own) && !effect.Sealed?
    decreases |path|, 0
  {
    var k := path[0];
    var (t', effect) := Step(t, path);
    assert Proper(t.kids[k], false);
    ProperStep(t.kids[k], path[1..], false);
    forall i | 0 <= i < |t'.kids| ensures Proper(t'.kids[i], false) {
      if i != k { assert t'.kids[i] == t.kids[i]; }
    }
    if AllEnded(t'.kids) {
      JoinsClosed(t.todo, !AllEnded(t.kids), own);
    } else {
      assert !AllEnded(t.kids) by {
        if AllEnded(t.kids) { EndedStays(t.kids[k], path[1..]); }
        assert AllEnded(t.kids) ==> t'.kids == t.kids;
      }
    }
  }

  lemma {:induction false} ProperOwn(t: Thread, own: bool)
    requires Proper(t, own) && t.todo != []
    ensures var (t', effect) := Step(t, []);
            Proper(t', own) && (effect.Sealed? ==> own && Ended(t'))
  {
    var (t', _) := Step(t, []);
    match t.todo[0]
    case Go(body) =>
      var kid := Thread(body, []);
      assert Proper(kid, false);
      forall i | 0 <= i < |t'.kids| ensures Proper(t'.kids[i], false) {
        if i < |t.kids| { assert t'.kids[i] == t.kids[i]; }
      }
      if AllEnded(t'.kids) { JoinsClosed(t'.todo, true, own); }
    case Wait =>
      if Returned(t.kids) { WaitedForEnded(t.kids); }
    case _ =>
  }

  // ----- who writes what -----

  /** The lines a goroutine writes itself, in order; the envelope is one. */
  function WritesOf(todo: seq<Action>): seq<Bytes>
    decreases |todo|
  {
    if todo == [] then []
    else
      (match todo[0]
       case Write(line) => [line]
       case Close(envelope) => [envelope]
       case _ => []) + WritesOf(todo[1..])
  }

  /** What it starts, in order. */
  function Bodies(todo: seq<Action>): seq<seq<Action>>
    decreases |todo|
  {
    if todo == [] then []
    else (if todo[0].Go? then [todo[0].body] else []) + Bodies(todo[1..])
  }

  /** The code of the goroutine at a path, of one that begins with this code. */
  function CodeAt(todo: seq<Action>, path: Path): seq<Action>
    decreases |path|
  {
    if path == [] then todo
    else if path[0] < |Bodies(todo)| then CodeAt(Bodies(todo)[path[0]], path[1..])
    else []
  }

  /** What the goroutine at a path has still to do, whether it has been started or not. */
  function TodoAt(t: Thread, path: Path): seq<Action>
    decreases |path|
  {
    if path == [] then t.todo
    else if path[0] < |t.kids| then TodoAt(t.kids[path[0]], path[1..])
    else if path[0] - |t.kids| < |Bodies(t.todo)| then CodeAt(Bodies(t.todo)[path[0] - |t.kids|], path[1..])
    else []
  }

  function LineOf(e: Effect): seq<Bytes> {
    match e
    case Silent => []
    case Wrote(line) => [line]
    case Sealed(envelope) => [envelope]
  }

  /** A goroutine that has just been started has all its code to do. */
  lemma TodoAtFirst(todo: seq<Action>, path: Path)
    ensures TodoAt(Thread(todo, []), path) == CodeAt(todo, path)
  {
  }

  /** A step takes from what its own goroutine has to write exactly the line it writes,
      and from no other's. */
  lemma {:induction false} StepTakesItsLine(t: Thread, path: Path, q: Path)
    ensures var (t', effect) := Step(t, path);
            WritesOf(TodoAt(t, q)) == (if q == path then LineOf(effect) else []) + WritesOf(TodoAt(t', q))
    decreases |path|
  {
    var (t', effect) := Step(t, path);
    if path != [] {
      if path[0] < |t.kids| && q != [] && q[0] == path[0] {
        StepTakesItsLine(t.kids[path[0]], path[1..], q[1..]);
        assert q == path <==> q[1..] == path[1..] by {
          assert q == [q[0]] + q[1..] && path == [path[0]] + path[1..];
        }
      }
    } else if t.todo != [] {
      OwnStepTakesItsLine(t, q);
    }
  }

  lemma OwnStepTakesItsLine(t: Thread, q: Path)
    requires t.todo != []
    ensures var (t', effect) := Step(t, []);
            WritesOf(TodoAt(t, q)) == (if q == [] then LineOf(effect) else []) + WritesOf(TodoAt(t', q))
  {
    var (t', _) := Step(t, []);
    match t.todo[0]
    case Go(body) =>
      if q != [] {
        assert Bodies(t.todo) == [body] + Bodies(t'.todo);
        if q[0] == |t.kids| {
          assert t'.kids[q[0]] == Thread(body, []);
          TodoAtFirst(body, q[1..]);
        }
      }
    case _ =>
      assert t.todo[0].Wait? || Bodies(t.todo) == Bodies(t'.todo);
  }

  /** Nothing is left to write once all have ended. */
  lemma {:induction false} EndedHasWritten(t: Thread, q: Path)
    requires Ended(t)
    ensures TodoAt(t, q) == []
    decreases |q|
  {
    if q != [] && q[0] < |t.kids| {
      EndedHasWritten(t.kids[q[0]], q[1..]);
    }
  }

  // ----- no goroutine waits for ever -----

  /** The actions left, of the code and of all it starts. */
  function Total(todo: seq<Action>): nat
    decreases todo
  {
    if todo == [] then 0
    else 1 + (if todo[0].Go? then Total(todo[0].body) else 0) + Total(todo[1..])
  }

  function KidsWork(kids: seq<Thread>): nat
    decreases kids
  {
    if kids == [] then 0
    else
      var n := |kids| - 1;
      KidsWork(kids[..n]) + Total(kids[n].todo) + KidsWork(kids[n].kids)
  }

  function Work(t: Thread): nat {
    Total(t.todo) + KidsWork(t.kids)
  }

  lemma {:induction false} KidsWorkChanged(kids: seq<Thread>, k: nat, kid: Thread)
    requires k < |kids|
    ensures KidsWork(kids[k := kid]) + Work(kids[k]) == KidsWork(kids) + Work(kid)
    decreases |kids|
  {
    var n := |kids| - 1;
    if k < n {
      KidsWorkChanged(kids[..n], k, kid);
      assert kids[k := kid][..n] == kids[..n][k := kid];
    } else {
      assert kids[k := kid][..n] == kids[..n];
    }
  }

  lemma KidsWorkOneMore(kids: seq<Thread>, kid: Thread)
    ensures KidsWork(kids + [kid]) == KidsWork(kids) + Work(kid)
  {
    assert (kids + [kid])[..|kids|] == kids;
  }

  /** Every step that does anything leaves less to do. */
  lemma {:induction false} WorkShrinks(t: Thread, path: Path)
    ensures Step(t, path) == (t, Silent) || Work(Step(t, path).0) < Work(t)
    decreases |path|
  {
    if path != [] {
      if path[0] < |t.kids| {
        WorkShrinks(t.kids[path[0]], path[1..]);
        var kid := Step(t.kids[path[0]], path[1..]).0;
        KidsWorkChanged(t.kids, path[0], kid);
        assert t.kids[path[0] := t.kids[path[0]]] == t.kids;
      }
    } else if t.todo != [] && t.todo[0].Go? {
      KidsWorkOneMore(t.kids, Thread(t.todo[0].body, []));
    }
  }

  /** While any goroutine of the run is left, one of them can go on. */
  lemma {:induction false} SomeOneCanStep(t: Thread)
    requires !Ended(t)
    ensures exists path :: Step(t, path).0 != t
    decreases t
  {
    if AllEnded(t.kids) {
      assert Returned(t.kids);
      assert Step(t, []).0.todo != t.todo;
    } else {
      var k :| 0 <= k < |t.kids| && !Ended(t.kids[k]);
      SomeOneCanStep(t.kids[k]);
      var path :| Step(t.kids[k], path).0 != t.kids[k];
      var whole := [k] + path;
      assert whole[0] == k && whole[1..] == path;
      assert Step(t, whole).0.kids[k] != t.kids[k];
    }
  }

  function Steps(t: Thread, paths: seq<Path>): Thread
    decreases |paths|
  {
    if paths == [] then t else Steps(Step(t, paths[0]).0, paths[1..])
  }

  /** From wherever it has got to, a run can come to its end: a schedule that keeps giving
      steps to goroutines that can use them does so, as the work shrinks. */
  lemma {:induction false} RunsCanEnd(t: Thread)
    ensures exists paths :: Ended(Steps(t, paths))
    decreases Work(t)
  {
    if Ended(t) {
      assert Ended(Steps(t, []));
    } else {
      SomeOneCanStep(t);
      var path :| Step(t, path).0 != t;
      WorkShrinks(t, path);
      RunsCanEnd(Step(t, path).0);
      var paths :| Ended(Steps(Step(t, path).0, paths));
      assert ([path] + paths)[0] == path && ([path] + paths)[1..] == paths;
      assert Ended(Steps(t, [path] + paths));
    }
  }
}
