/** File arrivals: a stability window before a file is reported, and a ledger of
    what has been. */
module Arrivals {
  import opened Options

  type Path = string
  /** Moments and file times, in nanoseconds. */
  type Moment = int

  const SECOND := 1_000_000_000
  const DAY := 24 * 3600 * SECOND
  const REPORT_MAX: nat := 100
  const DEFAULT_STABLE_SECONDS := 5

  datatype Stat = Stat(size: int, mtime: Moment)

  /** A watch the server asked for. */
  datatype Spec = Spec(source: string, name: string, uid: string, pattern: Path, stableSeconds: int)

  datatype PendingFile = PendingFile(stat: Stat, firstSeen: Moment, job: Spec)

  /** A file's identity in the ledger: its time is kept to the second. */
  datatype Key = Key(path: Path, size: int, second: int)

  datatype Sighting = Sighting(source: string, name: string, uid: string, path: Path, size: int, second: int)

  function KeyOf(path: Path, stat: Stat): Key {
    Key(path, stat.size, stat.mtime / SECOND)
  }

  function KeyOfSighting(s: Sighting): Key {
    Key(s.path, s.size, s.second)
  }

  /** A spec's identity for the watcher's own bookkeeping. */
  function Identity(s: Spec): string {
    if s.uid != "" then s.uid else s.source + "/" + s.name
  }

  function Window(s: Spec): Moment {
    (if s.stableSeconds <= 0 then DEFAULT_STABLE_SECONDS else s.stableSeconds) * SECOND
  }

  datatype State = State(specs: seq<Spec>, pending: map<Path, PendingFile>, reported: map<Key, Moment>)

  function Fresh(): State {
    State([], map[], map[])
  }

  /** A new watch set: a file settling for a watch that is gone starts over. */
  function SetSpecs(w: State, specs: seq<Spec>): State {
    w.(specs := specs,
       pending := map p | p in w.pending && (exists i :: 0 <= i < |specs| && Identity(specs[i]) == Identity(w.pending[p].job)) :: w.pending[p])
  }

  /** One file seen once: a sighting when it has settled. */
  function Observe(w: State, path: Path, stat: Stat, spec: Spec, now: Moment): (State, Option<Sighting>) {
    var key := KeyOf(path, stat);
    if key in w.reported then (w, None)
    else if path !in w.pending || w.pending[path].stat != stat then
      (w.(pending := w.pending[path := PendingFile(stat, now, spec)]), None)
    else if now - w.pending[path].firstSeen < Window(spec) then (w, None)
    else (w.(reported := w.reported[key := now], pending := w.pending - {path}),
          Some(Sighting(spec.source, spec.name, spec.uid, path, stat.size, stat.mtime / SECOND)))
  }

  /** What is older than a day is forgotten. */
  function ForgetStale(w: State, now: Moment): State {
    w.(reported := map k | k in w.reported && now - w.reported[k] <= DAY :: w.reported[k],
       pending := map p | p in w.pending && now - w.pending[p].firstSeen <= DAY :: w.pending[p])
  }

  /** A report that failed: its files are to be reported again. */
  function Unreport(w: State, batch: seq<Sighting>): State {
    w.(reported := w.reported - Keys(batch))
  }

  function Keys(batch: seq<Sighting>): set<Key> {
    set s | s in batch :: KeyOfSighting(s)
  }

  // ----- a sighting has settled, whatever came between -----

  /** Everything that touches the watcher, in any order: scans of different spec
      sets, changes of the set, prunings and failed reports may interleave. */
  datatype Event =
    | Seen(path: Path, stat: Stat, spec: Spec, now: Moment)
    | Specs(specs: seq<Spec>)
    | Forget(now: Moment)
    | Failed(batch: seq<Sighting>)

  function Happen(w: State, e: Event): State {
    match e
    case Seen(path, stat, spec, now) => Observe(w, path, stat, spec, now).0
    case Specs(specs) => SetSpecs(w, specs)
    case Forget(now) => ForgetStale(w, now)
    case Failed(batch) => Unreport(w, batch)
  }

  /** The state before event n. */
  function Before(events: seq<Event>, n: nat): State
    requires n <= |events|
  {
    if n == 0 then Fresh() else Happen(Before(events, n - 1), events[n - 1])
  }

  predicate SeenAs(e: Event, path: Path) {
    e.Seen? && e.path == path
  }

  /** Event i saw the file as it is, and every later sight of it before n saw the
      same, or a file already in the ledger then. */
  ghost predicate UndisturbedSince(events: seq<Event>, i: nat, n: nat, path: Path, stat: Stat)
    requires i < n <= |events|
  {
    && SeenAs(events[i], path) && events[i].stat == stat
    && forall j :: i < j < n && SeenAs(events[j], path) ==>
         events[j].stat == stat || KeyOf(path, events[j].stat) in Before(events, j).reported
  }

  lemma {:induction false} PendingIsTrue(events: seq<Event>, n: nat, path: Path)
    requires n <= |events| && path in Before(events, n).pending
    ensures var p := Before(events, n).pending[path];
            exists i: nat :: i < n && UndisturbedSince(events, i, n, path, p.stat) && events[i].now == p.firstSeen
    decreases n
  {
    if n > 0 {
      var w, w', e := Before(events, n - 1), Before(events, n), events[n - 1];
      var p := w'.pending[path];
      if path in w.pending && w.pending[path] == p {
        PendingIsTrue(events, n - 1, path);
        var i: nat :| i < n - 1 && UndisturbedSince(events, i, n - 1, path, p.stat) && events[i].now == p.firstSeen;
        assert UndisturbedSince(events, i, n, path, p.stat);
      } else {
        assert SeenAs(e, path) && e.stat == p.stat && e.now == p.firstSeen;
        assert UndisturbedSince(events, n - 1, n, path, p.stat);
      }
    }
  }

  /** A reported sighting was seen, with the same size and time, at least its
      watch's stability window before; and between the two no different file was
      seen there, other than one already in the ledger. It is the job's whose spec
      the scan held. */
  lemma SightingHasSettled(events: seq<Event>, n: nat)
    requires n < |events| && events[n].Seen?
    requires Observe(Before(events, n), events[n].path, events[n].stat, events[n].spec, events[n].now).1.Some?
    ensures var e := events[n];
            var s := Observe(Before(events, n), e.path, e.stat, e.spec, e.now).1.value;
            && s.path == e.path && KeyOfSighting(s) == KeyOf(e.path, e.stat)
            && s.source == e.spec.source && s.name == e.spec.name && s.uid == e.spec.uid
            && exists i: nat :: i < n && UndisturbedSince(events, i, n, e.path, e.stat) && e.now - events[i].now >= Window(e.spec)
  {
    PendingIsTrue(events, n, events[n].path);
  }

  /** The ledger cannot tell apart two files of one path and size whose times fall
      in the same second: once one is in it, the other is not observed at all. */
  lemma SameSecondIsSameFile(w: State, path: Path, a: Stat, b: Stat, spec: Spec, now: Moment)
    requires KeyOf(path, a) in w.reported && a.size == b.size
    ensures a.mtime / SECOND == b.mtime / SECOND ==> Observe(w, path, b, spec, now) == (w, None)
  {
  }

  // ----- one scan -----

  /** One file a watch matched; None for one that vanished, or a directory. */
  datatype Visit = Visit(path: Path, stat: Option<Stat>, spec: Spec)

  /** A file a pattern matched. */
  datatype Found = Found(path: Path, stat: Option<Stat>)

  function VisitsOf(spec: Spec, found: seq<Found>): seq<Visit> {
    seq(|found|, i requires 0 <= i < |found| => Visit(found[i].path, found[i].stat, spec))
  }

  /** The visits of a scan: each watch in order, unless its pattern is outside the
      runner's own list or cannot be read. */
  function Visits(specs: seq<Spec>, allowed: set<Path>, dir: map<Path, seq<Found>>): seq<Visit>
    decreases |specs|
  {
    if specs == [] then []
    else
      (if specs[0].pattern in allowed && specs[0].pattern in dir then VisitsOf(specs[0], dir[specs[0].pattern]) else [])
      + Visits(specs[1..], allowed, dir)
  }

  /** A scan over the files its watches matched, until a batch is full. */
  function Scan(w: State, visits: seq<Visit>, now: Moment, room: nat): (State, seq<Sighting>)
    decreases |visits|
  {
    if visits == [] || room == 0 then (w, [])
    else if visits[0].stat.None? then Scan(w, visits[1..], now, room)
    else
      var (w1, s) := Observe(w, visits[0].path, visits[0].stat.value, visits[0].spec, now);
      if s.None? then Scan(w1, visits[1..], now, room)
      else
        var (w2, rest) := Scan(w1, visits[1..], now, room - 1);
        (w2, [s.value] + rest)
  }

  /** A whole scan: what it found is reported, or, with nothing found, what is old
      is forgotten. Without a watch there is no scan. */
  function ScanOnce(w: State, visits: seq<Visit>, now: Moment, delivered: bool): (State, seq<Sighting>) {
    var (w1, ready) := Scan(w, visits, now, REPORT_MAX);
    if w.specs == [] then (w, [])
    else if ready == [] then (ForgetStale(w1, now), [])
    else if delivered then (w1, ready)
    else (Unreport(w1, ready), ready)
  }

  /** What a scan does to the watcher, as events. */
  function ScanEvents(w: State, visits: seq<Visit>, now: Moment, room: nat): seq<Event>
    decreases |visits|
  {
    if visits == [] || room == 0 then []
    else if visits[0].stat.None? then ScanEvents(w, visits[1..], now, room)
    else
      var v := visits[0];
      var (w1, s) := Observe(w, v.path, v.stat.value, v.spec, now);
      [Seen(v.path, v.stat.value, v.spec, now)] + ScanEvents(w1, visits[1..], now, if s.None? then room else room - 1)
  }

  lemma {:induction false} BeforeOfPrefix(events: seq<Event>, more: seq<Event>, n: nat)
    requires n <= |events|
    ensures Before(events + more, n) == Before(events, n)
    decreases n
  {
    if n > 0 {
      BeforeOfPrefix(events, more, n - 1);
    }
  }

  /** Event n is the sight of one of the visits that gave the sighting. */
  ghost predicate GaveSighting(events: seq<Event>, n: nat, visits: seq<Visit>, now: Moment, s: Sighting) {
    && n < |events| && events[n].Seen? && events[n].now == now
    && Visit(events[n].path, Some(events[n].stat), events[n].spec) in visits
    && Observe(Before(events, n), events[n].path, events[n].stat, events[n].spec, now).1 == Some(s)
  }

  /** A scan after any events is more of them, and every sighting in its batch is
      given by one. */
  lemma {:induction false} ScanIsEvents(events: seq<Event>, visits: seq<Visit>, now: Moment, room: nat)
    ensures var w := Before(events, |events|);
            var all := events + ScanEvents(w, visits, now, room);
            var (w', ready) := Scan(w, visits, now, room);
            && Before(all, |all|) == w'
            && forall s :: s in ready ==> exists n: nat :: GaveSighting(all, n, visits, now, s)
    decreases |visits|
  {
    var w := Before(events, |events|);
    if visits == [] || room == 0 {
      assert events + [] == events;
    } else if visits[0].stat.None? {
      ScanIsEvents(events, visits[1..], now, room);
      var all := events + ScanEvents(w, visits, now, room);
      forall s | s in Scan(w, visits, now, room).1 ensures exists n: nat :: GaveSighting(all, n, visits, now, s) {
        var n: nat :| GaveSighting(all, n, visits[1..], now, s);
        assert GaveSighting(all, n, visits, now, s);
      }
    } else {
      OneEvent(events, visits, now, room);
    }
  }

  lemma {:induction false} OneEvent(events: seq<Event>, visits: seq<Visit>, now: Moment, room: nat)
    requires visits != [] && room > 0 && visits[0].stat.Some?
    ensures var w := Before(events, |events|);
            var all := events + ScanEvents(w, visits, now, room);
            var (w', ready) := Scan(w, visits, now, room);
            && Before(all, |all|) == w'
            && forall s :: s in ready ==> exists n: nat :: GaveSighting(all, n, visits, now, s)
    decreases |visits|, 0
  {
    var w, v := Before(events, |events|), visits[0];
    var (w1, found) := Observe(w, v.path, v.stat.value, v.spec, now);
    var one := [Seen(v.path, v.stat.value, v.spec, now)];
    var left: nat := if found.None? then room else room - 1;
    BeforeOfPrefix(events, one, |events|);
    assert Before(events + one, |events + one|) == w1;
    ScanIsEvents(events + one, visits[1..], now, left);
    var rest := ScanEvents(w1, visits[1..], now, left);
    var all := events + ScanEvents(w, visits, now, room);
    assert all == events + one + rest;
    BeforeOfPrefix(events + one, rest, |events|);
    forall s | s in Scan(w, visits, now, room).1 ensures exists n: nat :: GaveSighting(all, n, visits, now, s) {
      if found == Some(s) {
        assert GaveSighting(all, |events|, visits, now, s);
      } else {
        var n: nat :| GaveSighting(all, n, visits[1..], now, s);
        assert GaveSighting(all, n, visits, now, s);
      }
    }
  }

  /** What any scan reports, after any events, has settled: it was seen, with the same
      size and time, at least its watch's window before, and no different file was
      seen there in between, other than one already in the ledger. */
  lemma ReportedHasSettled(events: seq<Event>, visits: seq<Visit>, now: Moment, s: Sighting)
    requires s in Scan(Before(events, |events|), visits, now, REPORT_MAX).1
    ensures var all := events + ScanEvents(Before(events, |events|), visits, now, REPORT_MAX);
            exists i: nat, n: nat, spec, stat ::
              && i < n < |all| && UndisturbedSince(all, i, n, s.path, stat) && now - all[i].now >= Window(spec)
              && Visit(s.path, Some(stat), spec) in visits && KeyOfSighting(s) == KeyOf(s.path, stat)
              && s.source == spec.source && s.name == spec.name && s.uid == spec.uid
  {
    var all := events + ScanEvents(Before(events, |events|), visits, now, REPORT_MAX);
    ScanIsEvents(events, visits, now, REPORT_MAX);
    var n: nat :| GaveSighting(all, n, visits, now, s);
    SightingHasSettled(all, n);
    var i: nat :| i < n && UndisturbedSince(all, i, n, all[n].path, all[n].stat) && now - all[i].now >= Window(all[n].spec);
  }

  ghost predicate DistinctKeys(batch: seq<Sighting>) {
    forall i, j :: 0 <= i < j < |batch| ==> KeyOfSighting(batch[i]) != KeyOfSighting(batch[j])
  }

  /** A scan's batch is at most what there was room for, and is exactly what it
      marked: nothing twice, nothing that was in the ledger, and nothing marked
      that is not in the batch. */
  lemma {:induction false} BatchIsTheMarked(w: State, visits: seq<Visit>, now: Moment, room: nat)
    ensures var (w', ready) := Scan(w, visits, now, room);
            && |ready| <= room
            && DistinctKeys(ready)
            && Keys(ready) !! w.reported.Keys
            && w'.reported.Keys == w.reported.Keys + Keys(ready)
            && (forall k :: k in w.reported ==> w'.reported[k] == w.reported[k])
    decreases |visits|
  {
    if visits != [] && room != 0 {
      if visits[0].stat.None? {
        BatchIsTheMarked(w, visits[1..], now, room);
      } else {
        var (w1, s) := Observe(w, visits[0].path, visits[0].stat.value, visits[0].spec, now);
        if s.None? {
          BatchIsTheMarked(w1, visits[1..], now, room);
        } else {
          BatchIsTheMarked(w1, visits[1..], now, room - 1);
          var (w2, rest) := Scan(w1, visits[1..], now, room - 1);
          assert Keys([s.value] + rest) == {KeyOfSighting(s.value)} + Keys(rest);
          forall i | 0 <= i < |rest| ensures KeyOfSighting(rest[i]) in Keys(rest) {
            assert rest[i] in rest;
          }
        }
      }
    }
  }

  /** After a scan the ledger holds a new key only if the report that carried it
      was delivered: a failed report leaves the ledger exactly as it was. */
  lemma LedgerIsWhatWasDelivered(w: State, visits: seq<Visit>, now: Moment, delivered: bool)
    ensures var (w', batch) := ScanOnce(w, visits, now, delivered);
            && |batch| <= REPORT_MAX && DistinctKeys(batch) && Keys(batch) !! w.reported.Keys
            && (batch != [] && !delivered ==> w'.reported == w.reported)
            && (batch != [] && delivered ==> w'.reported.Keys == w.reported.Keys + Keys(batch))
            && (batch == [] ==> w'.reported.Keys <= w.reported.Keys)
  {
    BatchIsTheMarked(w, visits, now, REPORT_MAX);
    var (w1, ready) := Scan(w, visits, now, REPORT_MAX);
    if ready != [] && !delivered {
      assert w1.reported - Keys(ready) == w.reported;
    }
  }
}
