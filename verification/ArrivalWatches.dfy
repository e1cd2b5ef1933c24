/** What the watcher does with one file, one scan and one new watch set, in numbers; and
    that watch sets which keep their watches do not keep a file from being sent. */
module ArrivalWatches {
  import opened ArrivalRuns
  import opened Arrivals
  import opened Options

  // ----- in numbers -----

  /** A file is reported exactly if it is not in the ledger under its path, size and second,
      and was first seen as it is now its watch's seconds ago, five if the watch says none;
      and a file that is new or changed has its window begin now. */
  lemma ObserveExactly(w: State, path: Path, stat: Stat, spec: Spec, now: Moment)
    ensures var (w', s) := Observe(w, path, stat, spec, now);
            var key := Key(path, stat.size, stat.mtime / 1_000_000_000);
            var same := path in w.pending && w.pending[path].stat == stat;
            var settled := same && now - w.pending[path].firstSeen >= (if spec.stableSeconds <= 0 then 5 else spec.stableSeconds) * 1_000_000_000;
            var sent := key !in w.reported && settled;
            && s == (if sent then Some(Sighting(spec.source, spec.name, spec.uid, path, stat.size, stat.mtime / 1_000_000_000)) else None)
            && w'.specs == w.specs
            && w'.reported == (if sent then w.reported[key := now] else w.reported)
            && w'.pending == (if key in w.reported then w.pending
                              else if !same then w.pending[path := PendingFile(stat, now, spec)]
                              else if settled then w.pending - {path}
                              else w.pending)
  {
  }

  /** What is more than twenty-four hours old is forgotten, and nothing else. */
  lemma ForgetExactly(w: State, now: Moment)
    ensures var w' := ForgetStale(w, now);
            && w'.specs == w.specs
            && (forall k :: k in w'.reported <==> k in w.reported && now - w.reported[k] <= 86_400_000_000_000)
            && (forall k :: k in w'.reported ==> w'.reported[k] == w.reported[k])
            && (forall p :: p in w'.pending <==> p in w.pending && now - w.pending[p].firstSeen <= 86_400_000_000_000)
            && (forall p :: p in w'.pending ==> w'.pending[p] == w.pending[p])
  {
  }

  /** Two watches of one job: by its uid, or else by its source and name. */
  ghost predicate SameJob(a: Spec, b: Spec) {
    (if a.uid != "" then a.uid else a.source + "/" + a.name) == (if b.uid != "" then b.uid else b.source + "/" + b.name)
  }

  /** A new watch set keeps a file that is settling, with its size, its time and its first
      sight, exactly if it has a watch of the file's job; the ledger stays. */
  lemma SetSpecsExactly(w: State, specs: seq<Spec>)
    ensures var w' := SetSpecs(w, specs);
            && w'.specs == specs && w'.reported == w.reported
            && (forall p :: p in w'.pending <==> p in w.pending && exists i :: 0 <= i < |specs| && SameJob(specs[i], w.pending[p].job))
            && (forall p :: p in w'.pending ==> w'.pending[p] == w.pending[p])
  {
    assert forall a: Spec, b: Spec :: SameJob(a, b) <==> Identity(a) == Identity(b);
  }

  // ----- what a scan may report -----

  ghost predicate Allowed(specs: seq<Spec>, allowed: set<Path>, dir: map<Path, seq<Found>>, v: Visit) {
    && v.spec in specs && v.spec.pattern in allowed && v.spec.pattern in dir
    && Found(v.path, v.stat) in dir[v.spec.pattern]
  }

  /** A scan visits what the patterns of its watches matched, those on the runner's own
      list only, and all of it. */
  lemma {:induction false} VisitsExactly(specs: seq<Spec>, allowed: set<Path>, dir: map<Path, seq<Found>>, v: Visit)
    ensures v in Visits(specs, allowed, dir) <==> Allowed(specs, allowed, dir, v)
    decreases |specs|
  {
    if specs != [] {
      VisitsExactly(specs[1..], allowed, dir, v);
      assert specs == [specs[0]] + specs[1..];
      if specs[0].pattern in allowed && specs[0].pattern in dir {
        var found := dir[specs[0].pattern];
        if i :| 0 <= i < |found| && v.spec == specs[0] && found[i] == Found(v.path, v.stat) {
          assert VisitsOf(specs[0], found)[i] == v;
        }
        if i :| 0 <= i < |found| && VisitsOf(specs[0], found)[i] == v {
          assert found[i] == Found(v.path, v.stat);
        }
      }
    }
  }

  ghost predicate SightingOf(s: Sighting, v: Visit) {
    v.stat.Some? && s == Sighting(v.spec.source, v.spec.name, v.spec.uid, v.path, v.stat.value.size, v.stat.value.mtime / 1_000_000_000)
  }

  lemma {:induction false} SightingsAreVisits(w: State, visits: seq<Visit>, now: Moment, room: nat, s: Sighting)
    requires s in Scan(w, visits, now, room).1
    ensures exists v :: v in visits && SightingOf(s, v)
    decreases |visits|
  {
    var v := visits[0];
    assert v in visits && forall u :: u in visits[1..] ==> u in visits;
    if v.stat.None? {
      SightingsAreVisits(w, visits[1..], now, room, s);
    } else {
      var (w1, found) := Observe(w, v.path, v.stat.value, v.spec, now);
      ObserveExactly(w, v.path, v.stat.value, v.spec, now);
      if found == Some(s) {
        assert SightingOf(s, v);
      } else {
        SightingsAreVisits(w1, visits[1..], now, if found.None? then room else room - 1, s);
      }
    }
  }

  /** So whatever the server asks for, a sighting is of a file that matched a pattern of the
      runner's own list, under the job whose watch that is; and no scan reports more than a
      hundred. */
  lemma ReportsOnlyAllowed(w: State, allowed: set<Path>, dir: map<Path, seq<Found>>, now: Moment, delivered: bool)
    ensures var batch := ScanOnce(w, Visits(w.specs, allowed, dir), now, delivered).1;
            && |batch| <= 100
            && forall s :: s in batch ==> exists v :: Allowed(w.specs, allowed, dir, v) && SightingOf(s, v)
  {
    var visits := Visits(w.specs, allowed, dir);
    BatchIsTheMarked(w, visits, now, REPORT_MAX);
    forall s | s in ScanOnce(w, visits, now, delivered).1
      ensures exists v :: Allowed(w.specs, allowed, dir, v) && SightingOf(s, v)
    {
      SightingsAreVisits(w, visits, now, REPORT_MAX, s);
      var v :| v in visits && SightingOf(s, v);
      VisitsExactly(w.specs, allowed, dir, v);
    }
  }

  // ----- watch sets between the scans -----

  /** A new watch set arrives, or a scan whose report is delivered is made. */
  datatype Event = Sets(specs: seq<Spec>) | ScansAt(now: Moment)

  function Batches(w: State, visits: seq<Visit>, events: seq<Event>): seq<Sighting>
    decreases |events|
  {
    if events == [] then []
    else
      match events[0]
      case Sets(specs) => Batches(SetSpecs(w, specs), visits, events[1..])
      case ScansAt(now) =>
        var (w1, batch) := ScanOnce(w, visits, now, true);
        batch + Batches(w1, visits, events[1..])
  }

  /** How many of the scans come after a moment. */
  function ScansAfter(events: seq<Event>, settled: Moment): nat
    decreases |events|
  {
    if events == [] then 0
    else (if Counts(events[0], settled) then 1 else 0) + ScansAfter(events[1..], settled)
  }

  /** The watch set has every job of the visits, under whatever name, pattern or window. */
  ghost predicate Watched(specs: seq<Spec>, visits: seq<Visit>) {
    specs != [] && forall v :: v in visits ==> exists i :: 0 <= i < |specs| && SameJob(specs[i], v.spec)
  }

  /** What is settling among the files settles for a job of the visits. */
  ghost predicate JobsKept(w: State, visits: seq<Visit>) {
    forall v :: v in visits && v.path in w.pending ==> exists u :: u in visits && SameJob(u.spec, w.pending[v.path].job)
  }

  lemma JobIsWatched(visits: seq<Visit>, specs: seq<Spec>, job: Spec)
    requires Watched(specs, visits) && exists u :: u in visits && SameJob(u.spec, job)
    ensures exists i :: 0 <= i < |specs| && SameJob(specs[i], job)
  {
    var u :| u in visits && SameJob(u.spec, job);
    var i :| 0 <= i < |specs| && SameJob(specs[i], u.spec);
    assert SameJob(specs[i], job);
  }

  lemma NewSetKeepsPending(w: State, visits: seq<Visit>, specs: seq<Spec>)
    requires JobsKept(w, visits) && Watched(specs, visits)
    ensures forall v :: v in visits ==>
              (v.path in SetSpecs(w, specs).pending <==> v.path in w.pending)
              && (v.path in w.pending ==> SetSpecs(w, specs).pending[v.path] == w.pending[v.path])
  {
    SetSpecsExactly(w, specs);
    forall v | v in visits && v.path in w.pending ensures v.path in SetSpecs(w, specs).pending {
      JobIsWatched(visits, specs, w.pending[v.path].job);
    }
  }

  /** A watch set that has every job leaves every file settling as it was. */
  lemma NewSetKeeps(w: State, visits: seq<Visit>, specs: seq<Spec>, settled: Moment, last: Moment)
    requires SettledBy(w, visits, settled) && Young(w, visits, last) && JobsKept(w, visits) && Watched(specs, visits)
    ensures var w' := SetSpecs(w, specs);
            && w'.specs != [] && w'.reported == w.reported
            && SettledBy(w', visits, settled) && Young(w', visits, last) && JobsKept(w', visits)
  {
    NewSetKeepsPending(w, visits, specs);
    SameFilesSame(w, SetSpecs(w, specs), visits, settled, last);
  }

  lemma SameFilesSame(w: State, w': State, visits: seq<Visit>, settled: Moment, last: Moment)
    requires SettledBy(w, visits, settled) && Young(w, visits, last) && JobsKept(w, visits)
    requires w'.reported == w.reported
    requires forall v :: v in visits ==>
               (v.path in w'.pending <==> v.path in w.pending) && (v.path in w.pending ==> w'.pending[v.path] == w.pending[v.path])
    ensures SettledBy(w', visits, settled) && Young(w', visits, last) && JobsKept(w', visits)
  {
    forall v | v in visits && v.path in w'.pending ensures exists u :: u in visits && SameJob(u.spec, w'.pending[v.path].job) {
      var u :| u in visits && SameJob(u.spec, w.pending[v.path].job);
    }
  }

  lemma {:induction false} ScanJobs(w: State, visits: seq<Visit>, now: Moment, room: nat)
    ensures var w' := Scan(w, visits, now, room).0;
            forall p :: p in w'.pending ==>
              (p in w.pending && w'.pending[p] == w.pending[p]) || exists v :: v in visits && w'.pending[p].job == v.spec
    decreases |visits|
  {
    if visits != [] && room != 0 {
      var v := visits[0];
      assert v in visits && forall u :: u in visits[1..] ==> u in visits;
      if v.stat.None? {
        ScanJobs(w, visits[1..], now, room);
      } else {
        var (w1, s) := Observe(w, v.path, v.stat.value, v.spec, now);
        ScanJobs(w1, visits[1..], now, if s.None? then room else room - 1);
      }
    }
  }

  lemma ScanKeepsJobs(w: State, visits: seq<Visit>, now: Moment)
    requires JobsKept(w, visits)
    ensures JobsKept(ScanOnce(w, visits, now, true).0, visits)
  {
    ScanJobs(w, visits, now, REPORT_MAX);
    var w1 := Scan(w, visits, now, REPORT_MAX).0;
    forall v | v in visits && v.path in w1.pending ensures exists u :: u in visits && SameJob(u.spec, w1.pending[v.path].job) {
      if u :| u in visits && w1.pending[v.path].job == u.spec {
        assert SameJob(u.spec, w1.pending[v.path].job);
      }
    }
  }

  /** Every new set has the jobs of the visits, and every scan falls in the day that ends
      with the last. */
  ghost predicate Orderly(events: seq<Event>, visits: seq<Visit>, last: Moment) {
    forall e :: e in events ==> if e.Sets? then Watched(e.specs, visits) else last - DAY <= e.now <= last
  }

  /** What every event keeps of a watcher on a still directory. */
  ghost predicate OnItsWay(w: State, visits: seq<Visit>, settled: Moment, last: Moment) {
    w.specs != [] && SettledBy(w, visits, settled) && Young(w, visits, last) && JobsKept(w, visits)
  }

  predicate Counts(e: Event, settled: Moment) {
    e.ScansAt? && e.now >= settled
  }

  lemma OrderlyRest(events: seq<Event>, visits: seq<Visit>, last: Moment)
    requires events != [] && Orderly(events, visits, last)
    ensures Orderly(events[1..], visits, last)
    ensures if events[0].Sets? then Watched(events[0].specs, visits) else last - DAY <= events[0].now <= last
  {
    assert events[0] in events && forall e :: e in events[1..] ==> e in events;
  }

  lemma FirstSet(w: State, visits: seq<Visit>, events: seq<Event>, settled: Moment, last: Moment) returns (w1: State)
    requires OnItsWay(w, visits, settled, last) && events != [] && events[0].Sets? && Watched(events[0].specs, visits)
    ensures Batches(w, visits, events) == Batches(w1, visits, events[1..])
    ensures OnItsWay(w1, visits, settled, last) && w1.reported == w.reported
  {
    NewSetKeeps(w, visits, events[0].specs, settled, last);
    w1 := SetSpecs(w, events[0].specs);
  }

  lemma FirstScan(w: State, visits: seq<Visit>, events: seq<Event>, settled: Moment, last: Moment)
    returns (w1: State, batch: seq<Sighting>)
    requires Still(visits) && OnItsWay(w, visits, settled, last)
    requires events != [] && events[0].ScansAt? && last - DAY <= events[0].now <= last
    ensures Batches(w, visits, events) == batch + Batches(w1, visits, events[1..])
    ensures OnItsWay(w1, visits, settled, last) && DistinctKeys(batch)
    ensures var unsent, unsent1 := Unsent(visits, w.reported.Keys), Unsent(visits, w1.reported.Keys);
            && unsent == Keys(batch) + unsent1 && Keys(batch) !! unsent1
            && (events[0].now >= settled ==> unsent1 == {} || |unsent| == REPORT_MAX + |unsent1|)
            && |unsent1| <= |unsent|
  {
    OneScan(w, visits, events[0].now, settled, last);
    ScanKeepsJobs(w, visits, events[0].now);
    var once := ScanOnce(w, visits, events[0].now, true);
    w1, batch := once.0, once.1;
    NoMore(Unsent(visits, w1.reported.Keys), Keys(batch));
  }

  lemma NoMore<T>(a: set<T>, b: set<T>)
    ensures |a| <= |b + a|
  {
    assert b + a == a + (b - a);
  }

  /** Nothing twice, nothing but what was unsent, and all of it if the scans are enough. */
  ghost predicate Delivers(sent: seq<Sighting>, unsent: set<Key>, scans: nat) {
    DistinctKeys(sent) && Keys(sent) <= unsent && (|unsent| <= REPORT_MAX * scans ==> Keys(sent) == unsent)
  }

  lemma DeliversThen(a: seq<Sighting>, b: seq<Sighting>, unsent: set<Key>, unsent1: set<Key>, counts: bool, scans: nat)
    requires DistinctKeys(a) && unsent == Keys(a) + unsent1 && Keys(a) !! unsent1 && Delivers(b, unsent1, scans)
    requires |unsent1| <= |unsent| && (counts ==> unsent1 == {} || |unsent| == REPORT_MAX + |unsent1|)
    ensures Delivers(a + b, unsent, (if counts then 1 else 0) + scans)
  {
    KeysOfBoth(a, b);
  }

  /** A still directory, delivered reports, and any scans of one day, with new watch sets
      between them that keep the jobs: still no file is sent twice, nor one that was in the
      ledger, and every one is sent once there have been scans enough after its window. */
  lemma {:induction false} SetsDoNotDelay(w: State, visits: seq<Visit>, events: seq<Event>, settled: Moment, last: Moment)
    requires Still(visits) && OnItsWay(w, visits, settled, last) && Orderly(events, visits, last)
    ensures Delivers(Batches(w, visits, events), Unsent(visits, w.reported.Keys), ScansAfter(events, settled))
    decreases |events|
  {
    if events != [] {
      OrderlyRest(events, visits, last);
      if events[0].Sets? {
        var w1 := FirstSet(w, visits, events, settled, last);
        SetsDoNotDelay(w1, visits, events[1..], settled, last);
      } else {
        var w1, batch := FirstScan(w, visits, events, settled, last);
        SetsDoNotDelay(w1, visits, events[1..], settled, last);
        DeliversThen(batch, Batches(w1, visits, events[1..]), Unsent(visits, w.reported.Keys), Unsent(visits, w1.reported.Keys),
                     Counts(events[0], settled), ScansAfter(events[1..], settled));
      }
    }
  }
}
