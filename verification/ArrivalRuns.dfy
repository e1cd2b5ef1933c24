/** What runs of the watcher come to: a directory that does not change is reported
    whole, and the ledger is what was delivered. */
module ArrivalRuns {
  import opened Arrivals
  import opened Options

  // ----- a directory that does not change -----

  /** The files the visits found. */
  function Files(visits: seq<Visit>): set<Key> {
    set v | v in visits && v.stat.Some? :: KeyOf(v.path, v.stat.value)
  }

  /** The files of the visits that are not in the ledger. */
  function Unsent(visits: seq<Visit>, ledger: set<Key>): set<Key> {
    Files(visits) - ledger
  }

  /** The directory is still: however often a path is matched, it is the same file. */
  ghost predicate Still(visits: seq<Visit>) {
    forall v, u :: v in visits && u in visits && v.path == u.path ==> v.stat == u.stat
  }

  /** Every file not yet sent is being watched, and its window is over by then. */
  ghost predicate SettledBy(w: State, visits: seq<Visit>, settled: Moment) {
    forall v :: v in visits && v.stat.Some? && KeyOf(v.path, v.stat.value) !in w.reported ==>
      && v.path in w.pending && w.pending[v.path].stat == v.stat.value
      && settled - w.pending[v.path].firstSeen >= Window(v.spec)
  }

  /** By the last scan none of it is a day old: what is watched, and what was sent. */
  ghost predicate Young(w: State, visits: seq<Visit>, last: Moment) {
    && (forall v :: v in visits && v.path in w.pending ==> last - w.pending[v.path].firstSeen <= DAY)
    && (forall k :: k in Files(visits) && k in w.reported ==> last - w.reported[k] <= DAY)
  }

  lemma SettledRest(w: State, visits: seq<Visit>, settled: Moment)
    requires visits != [] && Still(visits) && SettledBy(w, visits, settled)
    ensures Still(visits[1..]) && SettledBy(w, visits[1..], settled)
  {
    assert forall u :: u in visits[1..] ==> u in visits;
  }

  lemma NothingThere(visits: seq<Visit>)
    requires visits != [] && visits[0].stat.None?
    ensures Files(visits) == Files(visits[1..])
  {
    assert forall u :: u in visits <==> u == visits[0] || u in visits[1..];
  }

  /** One look at one of the files: it is sent or not, and the others are watched on. */
  lemma ObserveKeeps(w: State, visits: seq<Visit>, v: Visit, now: Moment, settled: Moment, last: Moment)
    requires Still(visits) && SettledBy(w, visits, settled) && Young(w, visits, last)
    requires v in visits && v.stat.Some? && last - now <= DAY
    ensures var (w1, s) := Observe(w, v.path, v.stat.value, v.spec, now);
            && SettledBy(w1, visits, settled) && Young(w1, visits, last)
            && (s.Some? ==> KeyOf(v.path, v.stat.value) in w1.reported)
            && (KeyOf(v.path, v.stat.value) !in w.reported && now >= settled ==> s.Some?)
  {
    var w1 := Observe(w, v.path, v.stat.value, v.spec, now).0;
    if KeyOf(v.path, v.stat.value) !in w.reported {
      forall u | u in visits && u.stat.Some? && KeyOf(u.path, u.stat.value) !in w1.reported
        ensures u.path in w1.pending && u.path in w.pending && w1.pending[u.path] == w.pending[u.path]
      {
        if w1 != w { assert u.path != v.path; }
      }
    }
  }

  /** A scan at any time, over any of the files, leaves the others watched. */
  lemma {:induction false} ScanKeeps(w: State, all: seq<Visit>, visits: seq<Visit>, now: Moment, room: nat, settled: Moment, last: Moment)
    requires Still(all) && SettledBy(w, all, settled) && Young(w, all, last) && last - now <= DAY
    requires forall v :: v in visits ==> v in all
    ensures var w' := Scan(w, visits, now, room).0;
            SettledBy(w', all, settled) && Young(w', all, last) && w'.specs == w.specs
    decreases |visits|
  {
    if visits != [] && room != 0 {
      var v := visits[0];
      assert v in visits;
      assert forall u :: u in visits[1..] ==> u in visits;
      if v.stat.None? {
        ScanKeeps(w, all, visits[1..], now, room, settled, last);
      } else {
        var (w1, s) := Observe(w, v.path, v.stat.value, v.spec, now);
        ObserveKeeps(w, all, v, now, settled, last);
        ScanKeeps(w1, all, visits[1..], now, if s.None? then room else room - 1, settled, last);
      }
    }
  }

  lemma FilesOfRest(visits: seq<Visit>)
    requires visits != []
    ensures Files(visits[1..]) <= Files(visits)
    ensures visits[0].stat.Some? ==> Files(visits) == Files(visits[1..]) + {KeyOf(visits[0].path, visits[0].stat.value)}
  {
    assert forall u :: u in visits <==> u == visits[0] || u in visits[1..];
  }

  /** A scan sends nothing but what its visits found. */
  lemma {:induction false} ScanSendsFiles(w: State, visits: seq<Visit>, now: Moment, room: nat)
    ensures Keys(Scan(w, visits, now, room).1) <= Files(visits)
    decreases |visits|
  {
    if visits != [] && room != 0 {
      FilesOfRest(visits);
      var v := visits[0];
      if v.stat.None? {
        ScanSendsFiles(w, visits[1..], now, room);
      } else {
        var (w1, s) := Observe(w, v.path, v.stat.value, v.spec, now);
        if s.None? {
          ScanSendsFiles(w1, visits[1..], now, room);
        } else {
          ScanSendsFiles(w1, visits[1..], now, room - 1);
          var rest := Scan(w1, visits[1..], now, room - 1).1;
          assert Keys([s.value] + rest) <= {KeyOfSighting(s.value)} + Keys(rest);
        }
      }
    }
  }

  lemma OneMore<T>(a: set<T>, x: T)
    requires x !in a
    ensures |a + {x}| == |a| + 1
  {
  }

  lemma {:induction false} ScanKeepsLedger(w: State, visits: seq<Visit>, now: Moment, room: nat)
    ensures w.reported.Keys <= Scan(w, visits, now, room).0.reported.Keys
    ensures Scan(w, visits, now, room).0.specs == w.specs
    decreases |visits|
  {
    if visits != [] && room != 0 {
      if visits[0].stat.None? {
        ScanKeepsLedger(w, visits[1..], now, room);
      } else {
        var (w1, s) := Observe(w, visits[0].path, visits[0].stat.value, visits[0].spec, now);
        ScanKeepsLedger(w1, visits[1..], now, if s.None? then room else room - 1);
      }
    }
  }

  /** A scan of settled files that does not fill its batch sends them all. */
  lemma {:induction false} ScanExhausts(w: State, visits: seq<Visit>, now: Moment, room: nat)
    requires Still(visits) && SettledBy(w, visits, now)
    requires |Scan(w, visits, now, room).1| < room
    ensures Files(visits) <= Scan(w, visits, now, room).0.reported.Keys
    decreases |visits|
  {
    if visits != [] {
      var v := visits[0];
      assert v in visits;
      SettledRest(w, visits, now);
      FilesOfRest(visits);
      if v.stat.None? {
        NothingThere(visits);
        ScanExhausts(w, visits[1..], now, room);
      } else if KeyOf(v.path, v.stat.value) in w.reported {
        ScanExhausts(w, visits[1..], now, room);
        ScanKeepsLedger(w, visits[1..], now, room);
      } else {
        var w1 := Observe(w, v.path, v.stat.value, v.spec, now).0;
        SentSettled(w, visits, now);
        SettledRest(w1, visits, now);
        ScanExhausts(w1, visits[1..], now, room - 1);
        ScanKeepsLedger(w1, visits[1..], now, room - 1);
      }
    }
  }

  /** A settled file is sent, and the others stay settled. */
  lemma SentSettled(w: State, visits: seq<Visit>, now: Moment)
    requires visits != [] && Still(visits) && SettledBy(w, visits, now)
    requires visits[0].stat.Some? && KeyOf(visits[0].path, visits[0].stat.value) !in w.reported
    ensures var v := visits[0];
            var (w1, s) := Observe(w, v.path, v.stat.value, v.spec, now);
            s.Some? && KeyOf(v.path, v.stat.value) in w1.reported && SettledBy(w1, visits, now)
  {
    var v := visits[0];
    assert v in visits;
    var w1 := Observe(w, v.path, v.stat.value, v.spec, now).0;
    forall u | u in visits && u.stat.Some? && KeyOf(u.path, u.stat.value) !in w1.reported
      ensures u.path in w1.pending && w1.pending[u.path] == w.pending[u.path] && u.path in w.pending
    {
      assert u.path != v.path;
    }
  }

  /** Delivered scans at the given times, one after the other: their batches. */
  function Batches(w: State, visits: seq<Visit>, times: seq<Moment>): seq<Sighting>
    decreases |times|
  {
    if times == [] then []
    else
      var (w1, batch) := ScanOnce(w, visits, times[0], true);
      batch + Batches(w1, visits, times[1..])
  }

  lemma KeysOfBoth(a: seq<Sighting>, b: seq<Sighting>)
    ensures Keys(a + b) == Keys(a) + Keys(b)
    ensures DistinctKeys(a) && DistinctKeys(b) && Keys(a) !! Keys(b) ==> DistinctKeys(a + b)
  {
    forall k | k in Keys(a) + Keys(b) ensures k in Keys(a + b) {
      if s :| s in a && KeyOfSighting(s) == k { assert s in a + b; }
      if s :| s in b && KeyOfSighting(s) == k { assert s in a + b; }
    }
    if DistinctKeys(a) && DistinctKeys(b) && Keys(a) !! Keys(b) {
      forall i, j | 0 <= i < j < |a + b| ensures KeyOfSighting((a + b)[i]) != KeyOfSighting((a + b)[j]) {
        if i < |a| <= j {
          assert a[i] in a && b[j - |a|] in b;
          assert KeyOfSighting(a[i]) in Keys(a) && KeyOfSighting(b[j - |a|]) in Keys(b);
        }
      }
    }
  }

  lemma LastIsNew(rest: seq<Sighting>, last: Sighting)
    requires DistinctKeys(rest + [last])
    ensures KeyOfSighting(last) !in Keys(rest) && DistinctKeys(rest)
  {
    var all := rest + [last];
    forall i | 0 <= i < |rest| ensures KeyOfSighting(rest[i]) != KeyOfSighting(last) {
      assert all[i] == rest[i] && all[|rest|] == last;
    }
    forall i, j | 0 <= i < j < |rest| ensures KeyOfSighting(rest[i]) != KeyOfSighting(rest[j]) {
      assert all[i] == rest[i] && all[j] == rest[j];
    }
  }

  lemma {:induction false} KeysCount(batch: seq<Sighting>)
    requires DistinctKeys(batch)
    ensures |Keys(batch)| == |batch|
    decreases |batch|
  {
    if batch == [] {
      assert Keys(batch) == {};
    } else {
      var last, rest := batch[|batch| - 1], batch[..|batch| - 1];
      assert batch == rest + [last];
      LastIsNew(rest, last);
      KeysOfBoth(rest, [last]);
      assert Keys([last]) == {KeyOfSighting(last)} by { assert last in [last]; }
      KeysCount(rest);
      OneMore(Keys(rest), KeyOfSighting(last));
    }
  }

  lemma TakenOff<T>(files: set<T>, ledger: set<T>, taken: set<T>)
    requires taken <= files && taken !! ledger
    ensures var rest := files - (ledger + taken);
            files - ledger == taken + rest && taken !! rest && |files - ledger| == |taken| + |rest|
  {
    assert files - ledger == taken + (files - (ledger + taken));
  }

  /** The batch of a scan is some of what is unsent; of settled files, a hundred of it or
      all. */
  lemma BatchTakes(w: State, visits: seq<Visit>, now: Moment, settled: Moment)
    requires Still(visits) && SettledBy(w, visits, settled)
    ensures var (w', batch) := Scan(w, visits, now, REPORT_MAX);
            var unsent := Unsent(visits, w.reported.Keys);
            var unsent' := Unsent(visits, w'.reported.Keys);
            && DistinctKeys(batch) && unsent == Keys(batch) + unsent' && Keys(batch) !! unsent'
            && (now >= settled ==> unsent' == {} || |unsent| == REPORT_MAX + |unsent'|)
  {
    var (w', batch) := Scan(w, visits, now, REPORT_MAX);
    ScanSendsFiles(w, visits, now, REPORT_MAX);
    BatchIsTheMarked(w, visits, now, REPORT_MAX);
    TakenOff(Files(visits), w.reported.Keys, Keys(batch));
    KeysCount(batch);
    if now >= settled {
      SettledLater(w, visits, settled, now);
      if |batch| < REPORT_MAX { ScanExhausts(w, visits, now, REPORT_MAX); }
    }
  }

  lemma SettledLater(w: State, visits: seq<Visit>, settled: Moment, later: Moment)
    requires SettledBy(w, visits, settled) && settled <= later
    ensures SettledBy(w, visits, later)
  {
  }

  /** Nothing of a directory that is younger than a day is forgotten. */
  lemma ForgetKeeps(w: State, visits: seq<Visit>, now: Moment, settled: Moment, last: Moment)
    requires SettledBy(w, visits, settled) && Young(w, visits, last) && now <= last
    ensures var w' := ForgetStale(w, now);
            && SettledBy(w', visits, settled) && Young(w', visits, last)
            && Unsent(visits, w'.reported.Keys) == Unsent(visits, w.reported.Keys)
  {
    var w' := ForgetStale(w, now);
    forall k | k in Files(visits) ensures k in w'.reported <==> k in w.reported { }
    forall v | v in visits && v.stat.Some? && KeyOf(v.path, v.stat.value) !in w'.reported
      ensures KeyOf(v.path, v.stat.value) !in w.reported && v.path in w'.pending && w'.pending[v.path] == w.pending[v.path]
    {
      assert KeyOf(v.path, v.stat.value) in Files(visits);
    }
  }

  /** One delivered scan, early or late. */
  lemma OneScan(w: State, visits: seq<Visit>, now: Moment, settled: Moment, last: Moment)
    requires w.specs != [] && Still(visits) && SettledBy(w, visits, settled) && Young(w, visits, last)
    requires now <= last && last - now <= DAY
    ensures var (w', batch) := ScanOnce(w, visits, now, true);
            var unsent := Unsent(visits, w.reported.Keys);
            var unsent' := Unsent(visits, w'.reported.Keys);
            && w'.specs != [] && SettledBy(w', visits, settled) && Young(w', visits, last)
            && DistinctKeys(batch) && unsent == Keys(batch) + unsent' && Keys(batch) !! unsent'
            && (now >= settled ==> unsent' == {} || |unsent| == REPORT_MAX + |unsent'|)
  {
    BatchTakes(w, visits, now, settled);
    ScanKeeps(w, visits, visits, now, REPORT_MAX, settled, last);
    ForgetKeeps(Scan(w, visits, now, REPORT_MAX).0, visits, now, settled, last);
  }

  /** How many of the scans come after a moment. */
  function After(times: seq<Moment>, settled: Moment): nat
    decreases |times|
  {
    if times == [] then 0 else (if times[0] >= settled then 1 else 0) + After(times[1..], settled)
  }

  /** Every scan falls in the day that ends with the last. */
  ghost predicate WithinADay(times: seq<Moment>, last: Moment) {
    forall i :: 0 <= i < |times| ==> last - DAY <= times[i] <= last
  }

  /** A directory that does not change, and reports that are delivered, at any scans of
      one day, however many: no file is sent twice, none that was in the ledger, and,
      once there have been as many scans after its files had settled as their number
      takes at a hundred each, every one. */
  lemma {:induction false} EveryFileOnce(w: State, visits: seq<Visit>, times: seq<Moment>, settled: Moment, last: Moment)
    requires w.specs != [] && Still(visits) && SettledBy(w, visits, settled) && Young(w, visits, last)
    requires WithinADay(times, last)
    ensures DistinctKeys(Batches(w, visits, times))
    ensures Keys(Batches(w, visits, times)) <= Unsent(visits, w.reported.Keys)
    ensures |Unsent(visits, w.reported.Keys)| <= REPORT_MAX * After(times, settled) ==>
              Keys(Batches(w, visits, times)) == Unsent(visits, w.reported.Keys)
    decreases |times|
  {
    if times != [] {
      OneScan(w, visits, times[0], settled, last);
      var (w1, batch) := ScanOnce(w, visits, times[0], true);
      assert WithinADay(times[1..], last) by {
        assert forall i :: 0 <= i < |times[1..]| ==> times[1..][i] == times[i + 1];
      }
      EveryFileOnce(w1, visits, times[1..], settled, last);
      KeysOfBoth(batch, Batches(w1, visits, times[1..]));
    }
  }

  /** The first scan of files not being watched yet sends none of them, and starts
      each one's window. */
  lemma {:induction false} FirstScanStartsWindows(w: State, visits: seq<Visit>, now: Moment, room: nat)
    requires Still(visits) && room > 0
    requires forall v :: v in visits && v.path in w.pending ==> w.pending[v.path].firstSeen == now && Some(w.pending[v.path].stat) == v.stat
    ensures var (w', ready) := Scan(w, visits, now, room);
            && ready == [] && w'.reported == w.reported && w'.specs == w.specs
            && (forall v :: v in visits && v.stat.Some? && KeyOf(v.path, v.stat.value) !in w.reported ==>
                  v.path in w'.pending && w'.pending[v.path].stat == v.stat.value && w'.pending[v.path].firstSeen == now)
            && (forall p :: p in w.pending ==> p in w'.pending && w'.pending[p] == w.pending[p])
    decreases |visits|
  {
    if visits != [] {
      var v := visits[0];
      assert v in visits;
      assert forall u :: u in visits <==> u == v || u in visits[1..];
      if v.stat.None? {
        FirstScanStartsWindows(w, visits[1..], now, room);
      } else {
        var w1 := Observe(w, v.path, v.stat.value, v.spec, now).0;
        FirstScanStartsWindows(w1, visits[1..], now, room);
      }
    }
  }

  /** What is left after the first scan is what was unsent before it, its windows begun. */
  lemma FirstScanBegins(w: State, visits: seq<Visit>, first: Moment, settled: Moment, last: Moment)
    requires w.specs != [] && Still(visits) && first <= last <= first + DAY
    requires forall v :: v in visits ==> v.path !in w.pending && settled - first >= Window(v.spec)
    requires forall k :: k in Files(visits) && k in w.reported ==> last - w.reported[k] <= DAY
    ensures var (w', none) := ScanOnce(w, visits, first, true);
            && none == [] && w'.specs != [] && SettledBy(w', visits, settled) && Young(w', visits, last)
            && Unsent(visits, w'.reported.Keys) == Unsent(visits, w.reported.Keys)
  {
    FirstScanStartsWindows(w, visits, first, REPORT_MAX);
    var w1 := Scan(w, visits, first, REPORT_MAX).0;
    FirstSights(w, visits, first, REPORT_MAX);
    assert SettledBy(w1, visits, settled) && Young(w1, visits, last);
    ForgetKeeps(w1, visits, first, settled, last);
  }

  /** What is watched after a scan was watched before, or is as new as the scan. */
  lemma {:induction false} FirstSights(w: State, visits: seq<Visit>, now: Moment, room: nat)
    ensures forall p :: p in Scan(w, visits, now, room).0.pending ==>
              (p in w.pending && Scan(w, visits, now, room).0.pending[p] == w.pending[p]) || Scan(w, visits, now, room).0.pending[p].firstSeen == now
    decreases |visits|
  {
    if visits != [] && room != 0 {
      if visits[0].stat.None? {
        FirstSights(w, visits[1..], now, room);
      } else {
        var (w1, s) := Observe(w, visits[0].path, visits[0].stat.value, visits[0].spec, now);
        FirstSights(w1, visits[1..], now, if s.None? then room else room - 1);
      }
    }
  }

  /** From the first sight of a directory that does not change, at any scans of the day
      that follows: no file is sent twice, nor one that was in the ledger; and once
      there have been scans enough after the longest window, every file has been. */
  lemma ArrivalsAreSentOnce(w: State, visits: seq<Visit>, first: Moment, times: seq<Moment>, settled: Moment, last: Moment)
    requires w.specs != [] && Still(visits) && first <= last <= first + DAY
    requires forall v :: v in visits ==> v.path !in w.pending && settled - first >= Window(v.spec)
    requires forall k :: k in Files(visits) && k in w.reported ==> last - w.reported[k] <= DAY
    requires WithinADay(times, last)
    ensures var sent := Batches(w, visits, [first] + times);
            && DistinctKeys(sent) && Keys(sent) <= Unsent(visits, w.reported.Keys)
            && (|Unsent(visits, w.reported.Keys)| <= REPORT_MAX * After(times, settled) ==>
                  Keys(sent) == Unsent(visits, w.reported.Keys))
  {
    FirstScanBegins(w, visits, first, settled, last);
    var w1 := ScanOnce(w, visits, first, true).0;
    EveryFileOnce(w1, visits, times, settled, last);
    assert ([first] + times)[1..] == times;
    assert [] + Batches(w1, visits, times) == Batches(w1, visits, times);
  }

  // ----- the ledger over any history -----

  /** What the watcher goes through: a new watch set, or a scan of whatever it finds, its
      report delivered or not. */
  datatype Turn = Watches(specs: seq<Spec>) | Scans(visits: seq<Visit>, now: Moment, delivered: bool)

  function AfterTurn(w: State, t: Turn): State {
    match t
    case Watches(specs) => SetSpecs(w, specs)
    case Scans(visits, now, delivered) => ScanOnce(w, visits, now, delivered).0
  }

  function BatchOf(w: State, t: Turn): seq<Sighting> {
    match t
    case Watches(_) => []
    case Scans(visits, now, delivered) => ScanOnce(w, visits, now, delivered).1
  }

  /** The watcher before turn n. */
  function At(turns: seq<Turn>, n: nat): State
    requires n <= |turns|
  {
    if n == 0 then Fresh() else AfterTurn(At(turns, n - 1), turns[n - 1])
  }

  /** Turn i reported the file, and the report was delivered. */
  ghost predicate Delivers(turns: seq<Turn>, i: nat, k: Key) {
    i < |turns| && turns[i].Scans? && turns[i].delivered && k in Keys(BatchOf(At(turns, i), turns[i]))
  }

  /** Turn m is a scan that found nothing to report and forgot what was marked then. */
  ghost predicate Forgets(turns: seq<Turn>, m: nat, marked: Moment) {
    m < |turns| && turns[m].Scans? && BatchOf(At(turns, m), turns[m]) == [] && turns[m].now - marked > DAY
  }

  lemma {:induction false} ScanMarksNow(w: State, visits: seq<Visit>, now: Moment, room: nat)
    ensures var w' := Scan(w, visits, now, room).0;
            forall k :: k in w'.reported && k !in w.reported ==> w'.reported[k] == now
    decreases |visits|
  {
    if visits != [] && room != 0 {
      if visits[0].stat.None? {
        ScanMarksNow(w, visits[1..], now, room);
      } else {
        var (w1, s) := Observe(w, visits[0].path, visits[0].stat.value, visits[0].spec, now);
        var left: nat := if s.None? then room else room - 1;
        BatchIsTheMarked(w1, visits[1..], now, left);
        ScanMarksNow(w1, visits[1..], now, left);
      }
    }
  }

  /** What one turn does to one file's mark. */
  lemma MarkAfterTurn(w: State, t: Turn, k: Key)
    ensures var w' := AfterTurn(w, t);
            && (k in w'.reported && k !in w.reported ==>
                  t.Scans? && t.delivered && k in Keys(BatchOf(w, t)) && w'.reported[k] == t.now)
            && (k in w'.reported && k in w.reported ==> w'.reported[k] == w.reported[k])
            && (k in w.reported && k !in w'.reported ==> t.Scans? && BatchOf(w, t) == [] && t.now - w.reported[k] > DAY)
            && (t.Scans? && t.delivered && k in Keys(BatchOf(w, t)) ==> k in w'.reported && w'.reported[k] == t.now)
            && (k in Keys(BatchOf(w, t)) ==> k !in w.reported)
  {
    if t.Scans? {
      BatchIsTheMarked(w, t.visits, t.now, REPORT_MAX);
      ScanMarksNow(w, t.visits, t.now, REPORT_MAX);
    }
  }

  /** Whatever has happened, a file is in the ledger only if a report that carried it was
      delivered, and its mark is the moment of that scan. */
  lemma {:induction false} LedgerIsHistory(turns: seq<Turn>, n: nat, k: Key)
    requires n <= |turns| && k in At(turns, n).reported
    ensures exists i: nat :: i < n && Delivers(turns, i, k) && turns[i].now == At(turns, n).reported[k]
    decreases n
  {
    if n > 0 {
      MarkAfterTurn(At(turns, n - 1), turns[n - 1], k);
      if k in At(turns, n - 1).reported {
        LedgerIsHistory(turns, n - 1, k);
      } else {
        assert Delivers(turns, n - 1, k);
      }
    }
  }

  lemma {:induction false} StaysUntilForgotten(turns: seq<Turn>, i: nat, n: nat, k: Key)
    requires i < n <= |turns| && Delivers(turns, i, k)
    ensures || (k in At(turns, n).reported && At(turns, n).reported[k] == turns[i].now)
            || exists m: nat :: i < m < n && Forgets(turns, m, turns[i].now)
    decreases n
  {
    MarkAfterTurn(At(turns, n - 1), turns[n - 1], k);
    if i < n - 1 {
      StaysUntilForgotten(turns, i, n - 1, k);
      if k in At(turns, n - 1).reported && At(turns, n - 1).reported[k] == turns[i].now && k !in At(turns, n).reported {
        assert Forgets(turns, n - 1, turns[i].now);
      }
    }
  }

  /** Whatever has happened, a file whose report was delivered is sent again only after a
      scan, more than a day later, that found nothing to report and forgot it. */
  lemma SentAgainWasForgotten(turns: seq<Turn>, i: nat, j: nat, k: Key)
    requires i < j < |turns| && Delivers(turns, i, k) && k in Keys(BatchOf(At(turns, j), turns[j]))
    ensures exists m: nat :: i < m < j && Forgets(turns, m, turns[i].now)
  {
    StaysUntilForgotten(turns, i, j, k);
    MarkAfterTurn(At(turns, j), turns[j], k);
  }

  /** And no scan sends a file the ledger holds, or one twice. */
  lemma NothingSentTwice(turns: seq<Turn>, j: nat)
    requires j < |turns|
    ensures DistinctKeys(BatchOf(At(turns, j), turns[j])) && Keys(BatchOf(At(turns, j), turns[j])) !! At(turns, j).reported.Keys
    ensures |BatchOf(At(turns, j), turns[j])| <= REPORT_MAX
  {
    if turns[j].Scans? {
      BatchIsTheMarked(At(turns, j), turns[j].visits, turns[j].now, REPORT_MAX);
    }
  }
}
