/** A directory that does not change, while some reports fail: what is delivered is
    each file once, and in the end all of them. */
module ArrivalFailures {
  import opened Arrivals
  import opened ArrivalRuns
  import opened Options

  /** A scan, and whether its report is delivered. */
  datatype Round = Round(now: Moment, delivered: bool)

  /** What the delivered reports carried, one after the other. */
  function Sent(w: State, visits: seq<Visit>, rounds: seq<Round>): seq<Sighting>
    decreases |rounds|
  {
    if rounds == [] then []
    else
      var (w1, batch) := ScanOnce(w, visits, rounds[0].now, rounds[0].delivered);
      (if rounds[0].delivered then batch else []) + Sent(w1, visits, rounds[1..])
  }

  function AfterAll(w: State, visits: seq<Visit>, rounds: seq<Round>): State
    decreases |rounds|
  {
    if rounds == [] then w
    else AfterAll(ScanOnce(w, visits, rounds[0].now, rounds[0].delivered).0, visits, rounds[1..])
  }

  function Delivered(times: seq<Moment>): seq<Round> {
    seq(|times|, i requires 0 <= i < |times| => Round(times[i], true))
  }

  /** A window begun at this moment is over by then, for each of the files. */
  ghost predicate Over(visits: seq<Visit>, begun: Moment, settled: Moment) {
    forall v :: v in visits ==> settled - begun >= Window(v.spec)
  }

  /** And so is every window begun already. */
  ghost predicate AllOver(w: State, visits: seq<Visit>, settled: Moment) {
    forall v :: v in visits && v.path in w.pending ==> settled - w.pending[v.path].firstSeen >= Window(v.spec)
  }

  // ----- any scan, its report delivered or not -----

  lemma ForgetYoung(w: State, visits: seq<Visit>, now: Moment, last: Moment)
    requires Young(w, visits, last) && now <= last
    ensures var w' := ForgetStale(w, now);
            Young(w', visits, last) && Unsent(visits, w'.reported.Keys) == Unsent(visits, w.reported.Keys)
  {
    var w' := ForgetStale(w, now);
    forall k | k in Files(visits) ensures k in w'.reported <==> k in w.reported { }
  }

  lemma ScanYoung(w: State, visits: seq<Visit>, now: Moment, last: Moment)
    requires Young(w, visits, last) && last - now <= DAY
    ensures Young(Scan(w, visits, now, REPORT_MAX).0, visits, last)
  {
    FirstSights(w, visits, now, REPORT_MAX);
    ScanMarksNow(w, visits, now, REPORT_MAX);
    BatchIsTheMarked(w, visits, now, REPORT_MAX);
  }

  lemma ScanTakes(w: State, visits: seq<Visit>, now: Moment)
    ensures var (w', batch) := Scan(w, visits, now, REPORT_MAX);
            var unsent, unsent' := Unsent(visits, w.reported.Keys), Unsent(visits, w'.reported.Keys);
            && unsent == Keys(batch) + unsent' && Keys(batch) !! unsent' && |unsent| == |batch| + |unsent'|
            && DistinctKeys(batch) && |batch| <= REPORT_MAX && w'.reported - Keys(batch) == w.reported
  {
    var (w', batch) := Scan(w, visits, now, REPORT_MAX);
    ScanSendsFiles(w, visits, now, REPORT_MAX);
    BatchIsTheMarked(w, visits, now, REPORT_MAX);
    TakenOff(Files(visits), w.reported.Keys, Keys(batch));
    KeysCount(batch);
  }

  /** A scan's files go out of the unsent when its report is delivered, and stay when it
      is not; nothing watched or marked is forgotten, and no window begins too late. */
  lemma AnyScan(w: State, visits: seq<Visit>, r: Round, settled: Moment, last: Moment)
    requires w.specs != [] && Young(w, visits, last) && r.now <= last <= r.now + DAY
    ensures var (w', batch) := ScanOnce(w, visits, r.now, r.delivered);
            var unsent, unsent' := Unsent(visits, w.reported.Keys), Unsent(visits, w'.reported.Keys);
            && w'.specs != [] && Young(w', visits, last) && DistinctKeys(batch)
            && (r.delivered ==> unsent == Keys(batch) + unsent' && Keys(batch) !! unsent' && |unsent| == |batch| + |unsent'|)
            && (!r.delivered ==> unsent' == unsent)
            && (AllOver(w, visits, settled) && Over(visits, r.now, settled) ==> AllOver(w', visits, settled))
  {
    ScanTakes(w, visits, r.now);
    ScanYoung(w, visits, r.now, last);
    ScanKeepsLedger(w, visits, r.now, REPORT_MAX);
    ForgetYoung(Scan(w, visits, r.now, REPORT_MAX).0, visits, r.now, last);
    if AllOver(w, visits, settled) && Over(visits, r.now, settled) {
      WindowsEnd(w, visits, r, settled);
    }
  }

  lemma WindowsEnd(w: State, visits: seq<Visit>, r: Round, settled: Moment)
    requires AllOver(w, visits, settled) && Over(visits, r.now, settled)
    ensures AllOver(ScanOnce(w, visits, r.now, r.delivered).0, visits, settled)
  {
    FirstSights(w, visits, r.now, REPORT_MAX);
  }

  /** Every one of the scans falls in the day that ends with the last. */
  ghost predicate RoundsWithinADay(rounds: seq<Round>, last: Moment) {
    forall r :: r in rounds ==> last - DAY <= r.now <= last
  }

  ghost predicate RoundsOver(visits: seq<Visit>, rounds: seq<Round>, settled: Moment) {
    forall r :: r in rounds ==> Over(visits, r.now, settled)
  }

  lemma {:induction false} StaysYoung(w: State, visits: seq<Visit>, rounds: seq<Round>, settled: Moment, last: Moment)
    requires w.specs != [] && Young(w, visits, last) && RoundsWithinADay(rounds, last)
    ensures AfterAll(w, visits, rounds).specs != [] && Young(AfterAll(w, visits, rounds), visits, last)
    ensures AllOver(w, visits, settled) && RoundsOver(visits, rounds, settled) ==> AllOver(AfterAll(w, visits, rounds), visits, settled)
    decreases |rounds|
  {
    if rounds != [] {
      assert rounds[0] in rounds && forall t :: t in rounds[1..] ==> t in rounds;
      AnyScan(w, visits, rounds[0], settled, last);
      StaysYoung(ScanOnce(w, visits, rounds[0].now, rounds[0].delivered).0, visits, rounds[1..], settled, last);
    }
  }

  /** Whatever fails: no file is delivered twice, nor one the ledger had, and what is not
      delivered is left unsent. */
  lemma {:induction false} NoneTwice(w: State, visits: seq<Visit>, rounds: seq<Round>, last: Moment)
    requires w.specs != [] && Young(w, visits, last) && RoundsWithinADay(rounds, last)
    ensures var sent, left := Sent(w, visits, rounds), Unsent(visits, AfterAll(w, visits, rounds).reported.Keys);
            DistinctKeys(sent) && Keys(sent) !! left && Unsent(visits, w.reported.Keys) == Keys(sent) + left
    decreases |rounds|
  {
    if rounds != [] {
      var w1, batch, unsent := FirstRound(w, visits, rounds, last);
      NoneTwice(w1, visits, rounds[1..], last);
      SentBoth(batch, Sent(w1, visits, rounds[1..]), Unsent(visits, w.reported.Keys), unsent,
               Unsent(visits, AfterAll(w, visits, rounds).reported.Keys));
    }
  }

  lemma FirstRound(w: State, visits: seq<Visit>, rounds: seq<Round>, last: Moment)
    returns (w1: State, batch: seq<Sighting>, unsent: set<Key>)
    requires rounds != [] && w.specs != [] && Young(w, visits, last) && RoundsWithinADay(rounds, last)
    ensures Sent(w, visits, rounds) == batch + Sent(w1, visits, rounds[1..])
    ensures AfterAll(w, visits, rounds) == AfterAll(w1, visits, rounds[1..])
    ensures w1.specs != [] && Young(w1, visits, last) && RoundsWithinADay(rounds[1..], last)
    ensures unsent == Unsent(visits, w1.reported.Keys)
    ensures DistinctKeys(batch) && Keys(batch) !! unsent && Unsent(visits, w.reported.Keys) == Keys(batch) + unsent
  {
    var r := rounds[0];
    assert r in rounds && forall t :: t in rounds[1..] ==> t in rounds;
    AnyScan(w, visits, r, last, last);
    var once := ScanOnce(w, visits, r.now, r.delivered);
    w1, batch := once.0, if r.delivered then once.1 else [];
    unsent := Unsent(visits, w1.reported.Keys);
  }

  lemma SentBoth(a: seq<Sighting>, b: seq<Sighting>, unsent: set<Key>, unsent1: set<Key>, left: set<Key>)
    requires DistinctKeys(a) && Keys(a) !! unsent1 && unsent == Keys(a) + unsent1
    requires DistinctKeys(b) && Keys(b) !! left && unsent1 == Keys(b) + left
    ensures DistinctKeys(a + b) && Keys(a + b) !! left && unsent == Keys(a + b) + left
  {
    KeysOfBoth(a, b);
  }

  // ----- a scan that is not full has watched everything -----

  /** One look at a file that is there. */
  lemma ObserveWatches(w: State, seen: seq<Visit>, rest: seq<Visit>, v: Visit, now: Moment, settled: Moment)
    requires Still(seen + rest) && v in rest && v.stat.Some?
    requires SettledBy(w, seen, settled) && AllOver(w, seen + rest, settled) && Over(seen + rest, now, settled)
    ensures var w1 := Observe(w, v.path, v.stat.value, v.spec, now).0;
            SettledBy(w1, seen + [v], settled) && AllOver(w1, seen + rest, settled)
  {
    var all := seen + rest;
    assert v in all && forall u :: u in seen + [v] ==> u in all;
    var w1 := Observe(w, v.path, v.stat.value, v.spec, now).0;
    forall u | u in seen + [v] && u.stat.Some? && KeyOf(u.path, u.stat.value) !in w1.reported
      ensures u.path in w1.pending && w1.pending[u.path].stat == u.stat.value
      ensures settled - w1.pending[u.path].firstSeen >= Window(u.spec)
    {
      if u.path != v.path { assert u in seen; }
    }
  }

  /** A scan that does not fill its batch leaves every file sent or watched. */
  lemma {:induction false} ScanWatches(w: State, seen: seq<Visit>, rest: seq<Visit>, now: Moment, room: nat, settled: Moment)
    requires Still(seen + rest) && Over(seen + rest, now, settled)
    requires SettledBy(w, seen, settled) && AllOver(w, seen + rest, settled)
    requires |Scan(w, rest, now, room).1| < room
    ensures SettledBy(Scan(w, rest, now, room).0, seen + rest, settled)
    decreases |rest|
  {
    if rest == [] {
      assert seen + rest == seen;
    } else {
      var v := rest[0];
      assert seen + [v] + rest[1..] == seen + rest;
      if v.stat.None? {
        assert SettledBy(w, seen + [v], settled);
        ScanWatches(w, seen + [v], rest[1..], now, room, settled);
      } else {
        var (w1, s) := Observe(w, v.path, v.stat.value, v.spec, now);
        ObserveWatches(w, seen, rest, v, now, settled);
        ScanWatches(w1, seen + [v], rest[1..], now, if s.None? then room else room - 1, settled);
      }
    }
  }

  /** A delivered scan is full, or leaves every file sent or watched. */
  lemma FullOrWatched(w: State, visits: seq<Visit>, now: Moment, settled: Moment, last: Moment)
    requires w.specs != [] && Still(visits) && Young(w, visits, last) && now <= last <= now + DAY
    requires AllOver(w, visits, settled) && Over(visits, now, settled)
    ensures var (w', batch) := ScanOnce(w, visits, now, true);
            |batch| == REPORT_MAX || SettledBy(w', visits, settled)
  {
    var (w1, batch) := Scan(w, visits, now, REPORT_MAX);
    BatchIsTheMarked(w, visits, now, REPORT_MAX);
    if |batch| < REPORT_MAX {
      assert [] + visits == visits;
      ScanWatches(w, [], visits, now, REPORT_MAX, settled);
      ScanYoung(w, visits, now, last);
      ForgetKeeps(w1, visits, now, settled, last);
    }
  }

  // ----- after the last failure -----

  lemma NoneUnsent(w: State, visits: seq<Visit>, settled: Moment)
    requires Unsent(visits, w.reported.Keys) == {}
    ensures SettledBy(w, visits, settled)
  {
    forall v | v in visits && v.stat.Some? ensures KeyOf(v.path, v.stat.value) in w.reported {
      assert KeyOf(v.path, v.stat.value) in Files(visits);
      assert KeyOf(v.path, v.stat.value) !in Unsent(visits, w.reported.Keys);
    }
  }

  /** Delivered scans, as many as the unsent files take at a hundred each, leave every
      file sent or watched. */
  lemma {:induction false} EarlyScansWatch(w: State, visits: seq<Visit>, early: seq<Moment>, settled: Moment, last: Moment)
    requires w.specs != [] && Still(visits) && Young(w, visits, last) && WithinADay(early, last)
    requires SettledBy(w, visits, settled) || (AllOver(w, visits, settled) && forall t :: t in early ==> Over(visits, t, settled))
    requires SettledBy(w, visits, settled) || |Unsent(visits, w.reported.Keys)| <= REPORT_MAX * |early|
    ensures SettledBy(AfterAll(w, visits, Delivered(early)), visits, settled)
    decreases |early|
  {
    if early == [] {
      if !SettledBy(w, visits, settled) {
        NoneUnsent(w, visits, settled);
      }
    } else {
      var t := early[0];
      var (w1, batch) := ScanOnce(w, visits, t, true);
      assert Delivered(early)[1..] == Delivered(early[1..]);
      assert WithinADay(early[1..], last) by {
        assert forall i :: 0 <= i < |early[1..]| ==> early[1..][i] == early[i + 1];
      }
      assert t in early && forall u :: u in early[1..] ==> u in early;
      AnyScan(w, visits, Round(t, true), settled, last);
      if SettledBy(w, visits, settled) {
        OneScan(w, visits, t, settled, last);
      } else {
        FullOrWatched(w, visits, t, settled, last);
      }
      EarlyScansWatch(w1, visits, early[1..], settled, last);
    }
  }

  lemma {:induction false} SentOfBoth(w: State, visits: seq<Visit>, a: seq<Round>, b: seq<Round>)
    ensures Sent(w, visits, a + b) == Sent(w, visits, a) + Sent(AfterAll(w, visits, a), visits, b)
    ensures AfterAll(w, visits, a + b) == AfterAll(AfterAll(w, visits, a), visits, b)
    decreases |a|
  {
    if a == [] {
      assert a + b == b;
    } else {
      assert (a + b)[1..] == a[1..] + b;
      SentOfBoth(ScanOnce(w, visits, a[0].now, a[0].delivered).0, visits, a[1..], b);
    }
  }

  lemma {:induction false} SentIsBatches(w: State, visits: seq<Visit>, times: seq<Moment>)
    ensures Sent(w, visits, Delivered(times)) == Batches(w, visits, times)
    decreases |times|
  {
    if times != [] {
      assert Delivered(times)[1..] == Delivered(times[1..]);
      SentIsBatches(ScanOnce(w, visits, times[0], true).0, visits, times[1..]);
    }
  }

  /** A directory that does not change, at any scans of one day, reports failing as they
      may: no file is delivered twice, nor one the ledger had. And when the reports no
      longer fail every file is delivered in the end: as many scans as the files take at
      a hundred each begin their windows again, and as many after those send them. */
  lemma EveryFileInTheEnd(w: State, visits: seq<Visit>, rounds: seq<Round>, early: seq<Moment>, late: seq<Moment>, settled: Moment, last: Moment)
    requires w.specs != [] && Still(visits) && Young(w, visits, last)
    requires RoundsWithinADay(rounds, last) && WithinADay(early, last) && WithinADay(late, last)
    ensures var sent, unsent := Sent(w, visits, rounds + (Delivered(early) + Delivered(late))), Unsent(visits, w.reported.Keys);
            && DistinctKeys(sent) && Keys(sent) <= unsent
            && (&& AllOver(w, visits, settled) && RoundsOver(visits, rounds, settled) && (forall t :: t in early ==> Over(visits, t, settled))
                && |unsent| <= REPORT_MAX * |early| && |unsent| <= REPORT_MAX * After(late, settled)
                ==> Keys(sent) == unsent)
  {
    DeliveredWithin(early, last);
    DeliveredWithin(late, last);
    var good := Delivered(early) + Delivered(late);
    NoneTwice(w, visits, rounds + good, last);
    if && AllOver(w, visits, settled) && RoundsOver(visits, rounds, settled) && (forall t :: t in early ==> Over(visits, t, settled))
       && |Unsent(visits, w.reported.Keys)| <= REPORT_MAX * |early|
       && |Unsent(visits, w.reported.Keys)| <= REPORT_MAX * After(late, settled)
    {
      NoneTwice(w, visits, rounds, last);
      StaysYoung(w, visits, rounds, settled, last);
      var w1 := AfterAll(w, visits, rounds);
      Fewer(Unsent(visits, w1.reported.Keys), Unsent(visits, w.reported.Keys));
      AllAfterTheLastFailure(w1, visits, early, late, settled, last);
      SentOfBoth(w, visits, rounds, good);
      KeysOfBoth(Sent(w, visits, rounds), Sent(w1, visits, good));
    }
  }

  lemma DeliveredWithin(times: seq<Moment>, last: Moment)
    requires WithinADay(times, last)
    ensures RoundsWithinADay(Delivered(times), last)
  {
    forall r | r in Delivered(times) ensures last - DAY <= r.now <= last {
      var i :| 0 <= i < |times| && Delivered(times)[i] == r;
    }
  }

  lemma Fewer<T>(a: set<T>, b: set<T>)
    requires a <= b
    ensures |a| <= |b|
  {
    assert b == a + (b - a);
  }

  lemma AllAfterTheLastFailure(w: State, visits: seq<Visit>, early: seq<Moment>, late: seq<Moment>, settled: Moment, last: Moment)
    requires w.specs != [] && Still(visits) && Young(w, visits, last)
    requires WithinADay(early, last) && WithinADay(late, last)
    requires AllOver(w, visits, settled) && forall t :: t in early ==> Over(visits, t, settled)
    requires |Unsent(visits, w.reported.Keys)| <= REPORT_MAX * |early|
    requires |Unsent(visits, w.reported.Keys)| <= REPORT_MAX * After(late, settled)
    ensures Keys(Sent(w, visits, Delivered(early) + Delivered(late))) == Unsent(visits, w.reported.Keys)
  {
    DeliveredWithin(early, last);
    NoneTwice(w, visits, Delivered(early), last);
    StaysYoung(w, visits, Delivered(early), settled, last);
    EarlyScansWatch(w, visits, early, settled, last);
    var w1 := AfterAll(w, visits, Delivered(early));
    Fewer(Unsent(visits, w1.reported.Keys), Unsent(visits, w.reported.Keys));
    EveryFileOnce(w1, visits, late, settled, last);
    SentIsBatches(w1, visits, late);
    SentOfBoth(w, visits, Delivered(early), Delivered(late));
    KeysOfBoth(Sent(w, visits, Delivered(early)), Sent(w1, visits, Delivered(late)));
  }
}
