/** The file-arrival watcher, over its own fields. */
module FileWatcher {
  import opened ArrivalRuns
  import opened Arrivals
  import opened Options

  lemma VisitsFrom(spec: Spec, found: seq<Found>, j: nat)
    requires j < |found|
    ensures VisitsOf(spec, found[j..]) == [Visit(found[j].path, found[j].stat, spec)] + VisitsOf(spec, found[j + 1..])
  {
  }

  /** The rest of a scan that has so much already. */
  function Continued(w: State, visits: seq<Visit>, now: Moment, sofar: seq<Sighting>): (State, seq<Sighting>)
    requires |sofar| <= REPORT_MAX
  {
    var (w', more) := Scan(w, visits, now, REPORT_MAX - |sofar|);
    (w', sofar + more)
  }

  lemma ContinuedFromNothing(w: State, visits: seq<Visit>, now: Moment)
    ensures Continued(w, visits, now, []) == Scan(w, visits, now, REPORT_MAX)
  {
    var more := Scan(w, visits, now, REPORT_MAX).1;
    assert [] + more == more;
  }

  /** A scan that is full, or through, is over. */
  lemma ContinuedEnds(w: State, visits: seq<Visit>, now: Moment, sofar: seq<Sighting>)
    requires |sofar| <= REPORT_MAX && (visits == [] || |sofar| == REPORT_MAX)
    ensures Continued(w, visits, now, sofar) == (w, sofar)
  {
    assert sofar + [] == sofar;
  }

  lemma ContinuedByOne(w: State, v: Visit, rest: seq<Visit>, now: Moment, sofar: seq<Sighting>)
    requires |sofar| < REPORT_MAX
    ensures Continued(w, [v] + rest, now, sofar) ==
            if v.stat.None? then Continued(w, rest, now, sofar)
            else
              var (w1, s) := Arrivals.Observe(w, v.path, v.stat.value, v.spec, now);
              Continued(w1, rest, now, if s.Some? then sofar + [s.value] else sofar)
  {
    assert ([v] + rest)[0] == v && ([v] + rest)[1..] == rest;
    if v.stat.Some? {
      var (w1, s) := Arrivals.Observe(w, v.path, v.stat.value, v.spec, now);
      if s.Some? {
        var more := Scan(w1, rest, now, REPORT_MAX - |sofar| - 1).1;
        assert sofar + ([s.value] + more) == sofar + [s.value] + more;
      }
    }
  }

  /** The watcher: its watches, the files settling, and the ledger. */
  class Watcher {
    var specs: seq<Spec>
    var pending: map<Path, PendingFile>
    var reported: map<Key, Moment>

    function Abs(): State
      reads this
    {
      State(specs, pending, reported)
    }

    constructor ()
      ensures Abs() == Fresh()
    {
      specs, pending, reported := [], map[], map[];
    }

    method SetSpecs(newSpecs: seq<Spec>)
      modifies this
      ensures Abs() == Arrivals.SetSpecs(old(Abs()), newSpecs)
    {
      specs := newSpecs;
      var live: set<string> := {};
      for i := 0 to |specs|
        invariant specs == newSpecs && pending == old(pending) && reported == old(reported)
        invariant live == set j | 0 <= j < i :: Identity(specs[j])
      {
        live := live + {Identity(specs[i])};
      }
      var todo := pending.Keys;
      while todo != {}
        invariant specs == newSpecs && reported == old(reported) && todo <= old(pending.Keys)
        invariant pending == map p | p in old(pending) && (p in todo || Identity(old(pending)[p].job) in live) :: old(pending)[p]
        decreases |todo|
      {
        var p :| p in todo;
        if Identity(pending[p].job) !in live {
          pending := pending - {p};
        }
        todo := todo - {p};
      }
    }

    /** One file a pattern matched; one that vanished, or a directory, is passed by. */
    method Observe(path: Path, stat: Option<Stat>, spec: Spec, now: Moment) returns (s: Option<Sighting>)
      modifies this
      ensures (Abs(), s) == if stat.None? then (old(Abs()), None) else Arrivals.Observe(old(Abs()), path, stat.value, spec, now)
    {
      if stat.None? {
        return None;
      }
      var key := KeyOf(path, stat.value);
      if key in reported {
        return None;
      }
      var stable := spec.stableSeconds;
      if stable <= 0 {
        stable := DEFAULT_STABLE_SECONDS;
      }
      if path !in pending || pending[path].stat != stat.value {
        pending := pending[path := PendingFile(stat.value, now, spec)];
        return None;
      }
      if now - pending[path].firstSeen < stable * SECOND {
        return None;
      }
      reported := reported[key := now];
      pending := pending - {path};
      return Some(Sighting(spec.source, spec.name, spec.uid, path, stat.value.size, stat.value.mtime / SECOND));
    }

    method ForgetStale(now: Moment)
      modifies this
      ensures Abs() == Arrivals.ForgetStale(old(Abs()), now)
    {
      var keys := reported.Keys;
      while keys != {}
        invariant specs == old(specs) && pending == old(pending) && keys <= old(reported.Keys)
        invariant reported == map k | k in old(reported) && (k in keys || now - old(reported)[k] <= DAY) :: old(reported)[k]
        decreases |keys|
      {
        var k :| k in keys;
        if now - reported[k] > DAY {
          reported := reported - {k};
        }
        keys := keys - {k};
      }
      var paths := pending.Keys;
      while paths != {}
        invariant specs == old(specs) && paths <= old(pending.Keys)
        invariant reported == map k | k in old(reported) && now - old(reported)[k] <= DAY :: old(reported)[k]
        invariant pending == map p | p in old(pending) && (p in paths || now - old(pending)[p].firstSeen <= DAY) :: old(pending)[p]
        decreases |paths|
      {
        var p :| p in paths;
        if now - pending[p].firstSeen > DAY {
          pending := pending - {p};
        }
        paths := paths - {p};
      }
    }

    /** One report: a failed one takes its files off the ledger again. */
    method Report(batch: seq<Sighting>, delivered: bool)
      modifies this
      ensures Abs() == if delivered then old(Abs()) else Unreport(old(Abs()), batch)
    {
      if delivered {
        return;
      }
      for i := 0 to |batch|
        invariant specs == old(specs) && pending == old(pending)
        invariant reported == old(reported) - Keys(batch[..i])
      {
        assert batch[..i + 1] == batch[..i] + [batch[i]];
        KeysOfBoth(batch[..i], [batch[i]]);
        assert Keys([batch[i]]) == {KeyOfSighting(batch[i])} by { assert batch[i] in [batch[i]]; }
        reported := reported - {KeyOfSighting(batch[i])};
      }
      assert batch[..|batch|] == batch;
    }

    /** One watch's matches, until the batch is full. */
    method ScanSpec(spec: Spec, found: seq<Found>, now: Moment, ghost rest: seq<Visit>, sofar: seq<Sighting>) returns (ready: seq<Sighting>)
      requires |sofar| < REPORT_MAX
      modifies this
      ensures |ready| <= REPORT_MAX
      ensures Continued(old(Abs()), VisitsOf(spec, found) + rest, now, sofar) == Continued(Abs(), rest, now, ready)
    {
      ready := sofar;
      var j := 0;
      ghost var goal := Continued(Abs(), VisitsOf(spec, found) + rest, now, sofar);
      assert found[0..] == found;
      while j < |found|
        invariant 0 <= j <= |found| && |ready| < REPORT_MAX
        invariant Continued(Abs(), VisitsOf(spec, found[j..]) + rest, now, ready) == goal
      {
        ghost var v, later := Visit(found[j].path, found[j].stat, spec), VisitsOf(spec, found[j + 1..]) + rest;
        VisitsFrom(spec, found, j);
        assert VisitsOf(spec, found[j..]) + rest == [v] + later;
        ContinuedByOne(Abs(), v, later, now, ready);
        var s := Observe(found[j].path, found[j].stat, spec, now);
        if s.Some? {
          ready := ready + [s.value];
          if |ready| >= REPORT_MAX {
            ContinuedEnds(Abs(), later, now, ready);
            ContinuedEnds(Abs(), rest, now, ready);
            return;
          }
        }
        j := j + 1;
      }
      assert VisitsOf(spec, found[|found|..]) + rest == rest;
    }

    /** Every watch held when the scan began. */
    method ScanSpecs(held: seq<Spec>, allowed: set<Path>, dir: map<Path, seq<Found>>, now: Moment) returns (ready: seq<Sighting>)
      modifies this
      ensures (Abs(), ready) == Scan(old(Abs()), Visits(held, allowed, dir), now, REPORT_MAX)
    {
      ready := [];
      var i := 0;
      ghost var goal := Continued(Abs(), Visits(held, allowed, dir), now, []);
      ContinuedFromNothing(Abs(), Visits(held, allowed, dir), now);
      assert held[0..] == held;
      while i < |held|
        invariant 0 <= i <= |held| && |ready| < REPORT_MAX
        invariant Continued(Abs(), Visits(held[i..], allowed, dir), now, ready) == goal
      {
        var spec := held[i];
        ghost var rest := Visits(held[i + 1..], allowed, dir);
        assert held[i..][0] == spec && held[i..][1..] == held[i + 1..];
        assert [] + rest == rest;
        if spec.pattern in allowed && spec.pattern in dir {
          ready := ScanSpec(spec, dir[spec.pattern], now, rest, ready);
          if |ready| >= REPORT_MAX {
            ContinuedEnds(Abs(), rest, now, ready);
            return;
          }
        }
        i := i + 1;
      }
      ContinuedEnds(Abs(), [], now, ready);
    }

    /** One scan of the directory as it is at this moment. */
    method ScanOnce(allowed: set<Path>, dir: map<Path, seq<Found>>, now: Moment, delivered: bool) returns (batch: seq<Sighting>)
      modifies this
      ensures (Abs(), batch) == Arrivals.ScanOnce(old(Abs()), Visits(old(specs), allowed, dir), now, delivered)
    {
      var held := specs;
      if |held| == 0 {
        return [];
      }
      batch := ScanSpecs(held, allowed, dir, now);
      if |batch| == 0 {
        ForgetStale(now);
        return;
      }
      Report(batch, delivered);
    }
  }
}
