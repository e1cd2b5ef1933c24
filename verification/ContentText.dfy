/** The text a calendar's content is hashed as: two contents never read alike. */
module ContentText {
  import opened Calendars
  import opened Names

  function EscapeChar(c: char): string {
    if c == '\\' then "\\\\" else if c == '\t' then "\\t" else if c == '\n' then "\\n" else [c]
  }

  function Escape(s: string): string
    decreases |s|
  {
    if s == "" then "" else EscapeChar(s[0]) + Escape(s[1..])
  }

  function Flag(b: bool): string {
    if b then "1" else "0"
  }

  function DayLines(days: map<string, string>, keys: seq<string>): string
    requires forall k :: k in keys ==> k in days
    decreases |keys|
  {
    if keys == [] then ""
    else Escape(keys[0]) + "\t" + (Escape(days[keys[0]]) + "\n" + DayLines(days, keys[1..]))
  }

  ghost function DayNames(days: map<string, string>): (keys: seq<string>)
    ensures Ascending(keys) && Elements(keys) == days.Keys && forall k :: k in keys ==> k in days
  {
    SortedAscends(days.Keys);
    assert forall k :: k in Sorted(days.Keys) ==> k in Elements(Sorted(days.Keys));
    Sorted(days.Keys)
  }

  ghost function TextOf(c: Content): string {
    "v1" + "\n" + (Escape(c.description) + "\n"
      + (Flag(c.global) + "\t" + (Flag(c.recordSuppressed) + "\n" + DayLines(c.days, DayNames(c.days)))))
  }

  lemma {:induction false} EscapeIsPlain(s: string)
    ensures '\t' !in Escape(s) && '\n' !in Escape(s)
    decreases |s|
  {
    if s != "" {
      EscapeIsPlain(s[1..]);
    }
  }

  lemma {:induction false} EscapeTellsApart(a: string, b: string)
    requires Escape(a) == Escape(b)
    ensures a == b
    decreases |a|
  {
    if a != "" && b != "" {
      assert Escape(a)[0] == EscapeChar(a[0])[0] && Escape(b)[0] == EscapeChar(b[0])[0];
      if a[0] in "\\\t\n" {
        assert Escape(a)[1] == EscapeChar(a[0])[1];
        assert Escape(b)[1] == EscapeChar(b[0])[1];
      }
      assert a[0] == b[0];
      var n := |EscapeChar(a[0])|;
      assert Escape(a)[n..] == Escape(a[1..]) && Escape(b)[n..] == Escape(b[1..]);
      EscapeTellsApart(a[1..], b[1..]);
      assert a == [a[0]] + a[1..] && b == [b[0]] + b[1..];
    } else {
      assert a != "" ==> |Escape(a)| > 0;
      assert b != "" ==> |Escape(b)| > 0;
    }
  }

  lemma SeparatorInside(u: string, x: string, v: string, y: string, c: char)
    requires u + [c] + x == v + [c] + y
    ensures |u| < |v| ==> c in v
  {
    if |u| < |v| {
      assert (u + [c] + x)[|u|] == c;
      assert (v + [c] + y)[|u|] == v[|u|];
    }
  }

  /** What stands before the first separator, and after it. */
  lemma FirstField(u: string, x: string, v: string, y: string, c: char)
    requires c !in u && c !in v && u + [c] + x == v + [c] + y
    ensures u == v && x == y
  {
    SeparatorInside(u, x, v, y, c);
    SeparatorInside(v, y, u, x, c);
    var s := u + [c] + x;
    assert u == s[..|u|] == v;
    assert x == s[|u| + 1..] == y;
  }

  lemma DayLinesOfNone(m: map<string, string>, ms: seq<string>)
    requires forall k :: k in ms ==> k in m
    ensures DayLines(m, ms) == "" <==> ms == []
  {
  }

  lemma {:induction false} DayLinesTellApart(m: map<string, string>, ms: seq<string>, n: map<string, string>, ns: seq<string>)
    requires (forall k :: k in ms ==> k in m) && (forall k :: k in ns ==> k in n)
    requires DayLines(m, ms) == DayLines(n, ns)
    ensures ms == ns && forall k :: k in ms ==> m[k] == n[k]
    decreases |ms|
  {
    DayLinesOfNone(m, ms);
    DayLinesOfNone(n, ns);
    if ms != [] {
      var a, b := ms[0], ns[0];
      EscapeIsPlain(a);
      EscapeIsPlain(b);
      EscapeIsPlain(m[a]);
      EscapeIsPlain(n[b]);
      var x, y := Escape(m[a]) + "\n" + DayLines(m, ms[1..]), Escape(n[b]) + "\n" + DayLines(n, ns[1..]);
      FirstField(Escape(a), x, Escape(b), y, '\t');
      FirstField(Escape(m[a]), DayLines(m, ms[1..]), Escape(n[b]), DayLines(n, ns[1..]), '\n');
      EscapeTellsApart(a, b);
      EscapeTellsApart(m[a], n[b]);
      DayLinesTellApart(m, ms[1..], n, ns[1..]);
      assert ms == [a] + ms[1..] && ns == [b] + ns[1..];
    }
  }

  /** No description, day or label makes two contents read alike: with a hash that
      tells texts apart, a hash is one content's. */
  lemma TextTellsApart(a: Content, b: Content)
    ensures TextOf(a) == TextOf(b) <==> a == b
  {
    if TextOf(a) == TextOf(b) {
      EscapeIsPlain(a.description);
      EscapeIsPlain(b.description);
      var daysA, daysB := DayLines(a.days, DayNames(a.days)), DayLines(b.days, DayNames(b.days));
      var restA, restB := Flag(a.recordSuppressed) + "\n" + daysA, Flag(b.recordSuppressed) + "\n" + daysB;
      var flagsA, flagsB := Flag(a.global) + "\t" + restA, Flag(b.global) + "\t" + restB;
      FirstField("v1", Escape(a.description) + "\n" + flagsA, "v1", Escape(b.description) + "\n" + flagsB, '\n');
      FirstField(Escape(a.description), flagsA, Escape(b.description), flagsB, '\n');
      FirstField(Flag(a.global), restA, Flag(b.global), restB, '\t');
      FirstField(Flag(a.recordSuppressed), daysA, Flag(b.recordSuppressed), daysB, '\n');
      EscapeTellsApart(a.description, b.description);
      DayLinesTellApart(a.days, DayNames(a.days), b.days, DayNames(b.days));
      assert a.days.Keys == b.days.Keys;
      forall k | k in a.days ensures a.days[k] == b.days[k] {
        assert k in Elements(DayNames(a.days));
      }
      assert a.days == b.days;
    }
  }
}
