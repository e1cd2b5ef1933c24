/** Environment names in order, and the entries that carry them. */
module Names {
  import opened Options

  /** Byte order on names. */
  predicate Below(a: string, b: string)
    decreases |a|
  {
    if b == "" then false
    else if a == "" then true
    else a[0] < b[0] || (a[0] == b[0] && Below(a[1..], b[1..]))
  }

  lemma {:induction false} BelowIsTotal(a: string, b: string)
    ensures a == b || Below(a, b) || Below(b, a)
    ensures !Below(a, a) && !(Below(a, b) && Below(b, a))
    decreases |a|
  {
    if a != "" {
      BelowIsTotal(a[1..], a[1..]);
      if b != "" {
        BelowIsTotal(a[1..], b[1..]);
        assert a == [a[0]] + a[1..] && b == [b[0]] + b[1..];
      }
    }
  }

  lemma {:induction false} BelowIsTransitive(a: string, b: string, c: string)
    requires Below(a, b) && Below(b, c)
    ensures Below(a, c)
    decreases |a|
  {
    if a != "" && a[0] == b[0] && b[0] == c[0] {
      BelowIsTransitive(a[1..], b[1..], c[1..]);
    }
  }

  /** The names agree up to k, and there the first ends, or has the smaller character. */
  ghost predicate PartsAt(a: string, b: string, k: nat) {
    && k <= |a| && k < |b| && a[..k] == b[..k]
    && (k == |a| || a[k] < b[k])
  }

  lemma Heads(a: string, b: string, k: nat)
    requires k <= |a| && k <= |b| && a[..k] == b[..k]
    ensures k > 0 ==> a[0] == b[0]
  {
    if k > 0 {
      assert a[..k][0] == a[0] && b[..k][0] == b[0];
    }
  }

  /** It is the order of the first character in which two names differ. */
  lemma {:induction false} BelowExactly(a: string, b: string)
    ensures Below(a, b) <==> exists k: nat :: PartsAt(a, b, k)
    decreases |a|
  {
    if a == "" || b == "" {
      if b != "" { assert PartsAt(a, b, 0); }
    } else if a[0] == b[0] {
      BelowExactly(a[1..], b[1..]);
      if k: nat :| PartsAt(a[1..], b[1..], k) {
        assert a[..k + 1] == [a[0]] + a[1..][..k] && b[..k + 1] == [b[0]] + b[1..][..k];
        assert PartsAt(a, b, k + 1);
      }
      if k: nat :| PartsAt(a, b, k) {
        assert k > 0;
        assert a[1..][..k - 1] == a[..k][1..] && b[1..][..k - 1] == b[..k][1..];
        assert PartsAt(a[1..], b[1..], k - 1);
      }
    } else {
      if a[0] < b[0] { assert PartsAt(a, b, 0); }
      forall k: nat | PartsAt(a, b, k) ensures k == 0 {
        Heads(a, b, k);
      }
    }
  }

  predicate Ascending(s: seq<string>) {
    forall i, j :: 0 <= i < j < |s| ==> Below(s[i], s[j])
  }

  function Elements(s: seq<string>): set<string> {
    set x | x in s
  }

  function Insert(x: string, s: seq<string>): seq<string>
    decreases |s|
  {
    if s == [] || Below(x, s[0]) then [x] + s else [s[0]] + Insert(x, s[1..])
  }

  lemma {:induction false} InsertAscends(x: string, s: seq<string>)
    requires Ascending(s) && x !in s
    ensures Ascending(Insert(x, s)) && Elements(Insert(x, s)) == Elements(s) + {x} && |Insert(x, s)| == |s| + 1
    decreases |s|
  {
    if s != [] {
      BelowIsTotal(x, s[0]);
      assert s == [s[0]] + s[1..];
      if Below(x, s[0]) {
        forall j | 0 <= j < |s| ensures Below(x, s[j]) {
          if j > 0 { BelowIsTransitive(x, s[0], s[j]); }
        }
      } else {
        InsertAscends(x, s[1..]);
        var rest := Insert(x, s[1..]);
        forall j | 0 <= j < |rest| ensures Below(s[0], rest[j]) {
          assert rest[j] in Elements(rest);
        }
        forall y ensures y in [s[0]] + rest <==> y in s || y == x {
          assert y in rest <==> y in Elements(rest);
        }
      }
    }
  }

  /** The names of a set, in order. */
  ghost function Sorted(names: set<string>): (s: seq<string>)
    decreases |names|
  {
    if names == {} then []
    else
      var x :| x in names;
      Insert(x, Sorted(names - {x}))
  }

  lemma {:induction false} SortedAscends(names: set<string>)
    ensures Ascending(Sorted(names)) && Elements(Sorted(names)) == names
    decreases |names|
  {
    if names != {} {
      var x :| x in names && Sorted(names) == Insert(x, Sorted(names - {x}));
      SortedAscends(names - {x});
      assert x !in Elements(Sorted(names - {x}));
      InsertAscends(x, Sorted(names - {x}));
    }
  }

  /** A set has one ascending listing. */
  lemma {:induction false} AscendingIsUnique(a: seq<string>, b: seq<string>)
    requires Ascending(a) && Ascending(b) && Elements(a) == Elements(b)
    ensures a == b
    decreases |a|
  {
    assert b != [] ==> b[0] in Elements(b);
    if a != [] {
      assert a[0] in Elements(b);
      var j :| 0 <= j < |b| && b[j] == a[0];
      assert b[0] in Elements(a);
      var i :| 0 <= i < |a| && a[i] == b[0];
      BelowIsTotal(a[0], b[0]);
      assert a[0] == b[0];
      assert Elements(a[1..]) == Elements(a) - {a[0]} by { TailElements(a); }
      assert Elements(b[1..]) == Elements(b) - {b[0]} by { TailElements(b); }
      AscendingIsUnique(a[1..], b[1..]);
      assert a == [a[0]] + a[1..] && b == [b[0]] + b[1..];
    }
  }

  lemma TailElements(s: seq<string>)
    requires s != [] && Ascending(s)
    ensures Elements(s[1..]) == Elements(s) - {s[0]}
  {
    BelowIsTotal(s[0], s[0]);
    assert s == [s[0]] + s[1..];
  }

  // ----- entries -----

  /** An entry's name and value, split at the first equals sign. */
  function Cut(e: string): Option<(string, string)>
    decreases |e|
  {
    if e == "" then None
    else if e[0] == '=' then Some(("", e[1..]))
    else
      match Cut(e[1..])
      case None => None
      case Some(p) => Some(([e[0]] + p.0, p.1))
  }

  lemma {:induction false} CutOfEntry(n: string, v: string)
    requires '=' !in n
    ensures Cut(n + "=" + v) == Some((n, v))
    decreases |n|
  {
    if n == "" {
      assert n + "=" + v == "=" + v && ("=" + v)[1..] == v;
    } else {
      assert (n + "=" + v)[1..] == n[1..] + "=" + v;
      CutOfEntry(n[1..], v);
      assert n == [n[0]] + n[1..];
    }
  }

  lemma {:induction false} CutNameIsPlain(e: string)
    requires Cut(e).Some?
    ensures var (n, v) := Cut(e).value; '=' !in n && e == n + "=" + v
    decreases |e|
  {
    if e[0] != '=' {
      CutNameIsPlain(e[1..]);
    }
  }

  /** What a process given these entries sees under a name: the last one wins. */
  function Value(env: seq<string>, n: string): Option<string>
    decreases |env|
  {
    if env == [] then None
    else
      var last := Cut(env[|env| - 1]);
      if last.Some? && last.value.0 == n then Some(last.value.1) else Value(env[..|env| - 1], n)
  }

  lemma {:induction false} ValueOfBoth(a: seq<string>, b: seq<string>, n: string)
    ensures Value(a + b, n) == if Value(b, n).Some? then Value(b, n) else Value(a, n)
    decreases |b|
  {
    if b == [] {
      assert a + b == a;
    } else {
      assert (a + b)[..|a + b| - 1] == a + b[..|b| - 1];
      ValueOfBoth(a, b[..|b| - 1], n);
    }
  }

  /** The entries of some names of a map. */
  function Render(m: map<string, string>, keys: seq<string>): seq<string>
    requires forall k :: k in keys ==> k in m
    decreases |keys|
  {
    if keys == [] then []
    else Render(m, keys[..|keys| - 1]) + [keys[|keys| - 1] + "=" + m[keys[|keys| - 1]]]
  }

  lemma {:induction false} ValueOfRender(m: map<string, string>, keys: seq<string>, n: string)
    requires forall k :: k in keys ==> k in m && '=' !in k
    ensures Value(Render(m, keys), n) == if n in keys then Some(m[n]) else None
    decreases |keys|
  {
    if keys != [] {
      var rest, last := keys[..|keys| - 1], keys[|keys| - 1];
      assert last in keys && keys == rest + [last];
      CutOfEntry(last, m[last]);
      ValueOfRender(m, rest, n);
      var all := Render(m, keys);
      assert all[..|all| - 1] == Render(m, rest);
    }
  }

  /** The names that pass a test, in their order. */
  function Filter(s: seq<string>, keep: set<string>): seq<string>
    decreases |s|
  {
    if s == [] then []
    else Filter(s[..|s| - 1], keep) + (if s[|s| - 1] in keep then [s[|s| - 1]] else [])
  }

  lemma {:induction false} FilterKeepsOrder(s: seq<string>, keep: set<string>)
    requires Ascending(s)
    ensures Ascending(Filter(s, keep)) && Elements(Filter(s, keep)) == Elements(s) * keep
    decreases |s|
  {
    if s != [] {
      var rest, last := s[..|s| - 1], s[|s| - 1];
      assert s == rest + [last];
      FilterKeepsOrder(rest, keep);
      var f := Filter(rest, keep);
      forall i | 0 <= i < |f| ensures Below(f[i], last) {
        assert f[i] in Elements(f);
        var j :| 0 <= j < |rest| && rest[j] == f[i];
        assert s[j] == f[i];
      }
      forall x ensures x in Filter(s, keep) <==> x in s && x in keep {
        assert x in f <==> x in Elements(f);
      }
    }
  }

  /** Filtering a sorted list of names sorts the filtered ones. */
  lemma FilterOfSorted(names: set<string>, keep: set<string>)
    ensures Filter(Sorted(names), keep) == Sorted(names * keep)
  {
    SortedAscends(names);
    SortedAscends(names * keep);
    FilterKeepsOrder(Sorted(names), keep);
    AscendingIsUnique(Filter(Sorted(names), keep), Sorted(names * keep));
  }
}
