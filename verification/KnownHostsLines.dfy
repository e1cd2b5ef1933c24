/** What the known hosts edits read a line as, and which lines they add and take out,
    from the text alone. */
module KnownHostsLines {
  import opened KnownHosts
  import opened Options

  ghost predicate AllSpace(s: string) {
    forall i :: 0 <= i < |s| ==> Space(s[i])
  }

  // ----- trimming and splitting -----

  lemma {:induction false} TrimRightOfSpace(s: string, after: string)
    requires AllSpace(after) && Tight(s)
    ensures TrimRight(s + after) == s
    decreases |after|
  {
    if after == "" {
      assert s + after == s;
    } else {
      var all := s + after;
      assert all[|all| - 1] == after[|after| - 1];
      assert all[..|all| - 1] == s + after[..|after| - 1];
      TrimRightOfSpace(s, after[..|after| - 1]);
    }
  }

  lemma {:induction false} TrimLeftOfSpace(before: string, s: string)
    requires AllSpace(before)
    ensures TrimLeft(before + s) == TrimLeft(s)
    decreases |before|
  {
    if before == "" {
      assert before + s == s;
    } else {
      assert (before + s)[1..] == before[1..] + s;
      TrimLeftOfSpace(before[1..], s);
    }
  }

  /** Trimming takes the white space at both ends, all of it, and nothing else. */
  lemma TrimExactly(before: string, s: string, after: string)
    requires AllSpace(before) && AllSpace(after) && Tight(s)
    ensures Trim(before + s + after) == s
  {
    TrimLeftOfSpace(before, s + after);
    assert before + s + after == before + (s + after);
    if s == "" {
      TrimLeftOfSpace(after, "");
      assert s + after == after + "";
    } else {
      assert (s + after)[0] == s[0];
      TrimRightOfSpace(s, after);
    }
  }

  lemma {:induction false} WordOfJoined(w: string, rest: string)
    requires (forall i :: 0 <= i < |w| ==> !Space(w[i])) && (rest == "" || Space(rest[0]))
    ensures Word(w + rest) == w
    decreases |w|
  {
    if w == "" {
      assert w + rest == rest;
    } else {
      assert (w + rest)[1..] == w[1..] + rest;
      WordOfJoined(w[1..], rest);
    }
  }

  /** The words of a line are what stands between its white space. */
  lemma FieldsExactly(before: string, w: string, rest: string)
    requires AllSpace(before) && w != "" && (forall i :: 0 <= i < |w| ==> !Space(w[i])) && (rest == "" || Space(rest[0]))
    ensures Fields(before) == [] && Fields(before + w + rest) == [w] + Fields(rest)
  {
    var line := before + w + rest;
    assert line == before + (w + rest) && (w + rest)[0] == w[0];
    TrimLeftOfSpace(before, w + rest);
    TrimLeftOfSpace(before, "");
    assert before + "" == before;
    WordOfJoined(w, rest);
    assert (w + rest)[|w|..] == rest;
  }

  lemma {:induction false} OneExactly(s: string, c: char)
    ensures |SplitAt(s, c)| == 1 <==> c !in s
    ensures c !in s ==> SplitAt(s, c) == [s]
    decreases |s|
  {
    if s != "" {
      OneExactly(s[1..], c);
      assert s == [s[0]] + s[1..];
    }
  }

  // ----- what a line names -----

  /** A line of at least three words names the host that is its first, with the key that
      is read from the second and third. A word that begins with an at sign is a marker,
      and a marked line names none, nor does one with several hosts; a lone at sign is
      passed over. */
  ghost predicate Names(read: KeyReader, line: string, host: string, key: string) {
    var all := Fields(line);
    var words := if all != [] && all[0] == "@" then all[1..] else all;
    && (all != [] && "@" <= all[0] ==> all[0] == "@")
    && |words| >= 3 && words[0] == host && ',' !in host && read(words[1], words[2]) == Some(key)
  }

  lemma TargetExactly(read: KeyReader, line: string, host: string, key: string)
    ensures TargetOf(read, line) == Some(Target(host, key)) <==> Names(read, line, host, key)
  {
    var all := Fields(line);
    var marked := all != [] && "@" <= all[0];
    var words := if marked then all[1..] else all;
    if words != [] { OneExactly(words[0], ','); }
    if marked {
      assert all[0] == "@" <==> all[0][1..] == "";
      assert all[0] == "@" + all[0][1..];
    }
  }

  /** A line is taken out when it is no comment and an entry names the same host and key. */
  ghost predicate Named(read: KeyReader, entries: seq<string>, line: string) {
    !("#" <= Trim(line)) && exists e, host, key :: e in entries && Names(read, e, host, key) && Names(read, line, host, key)
  }

  lemma DropsExactly(read: KeyReader, entries: seq<string>, line: string)
    ensures Drops(read, Targets(read, entries), line) <==> Named(read, entries, line)
  {
    SameTarget(read, line);
    if Drops(read, Targets(read, entries), line) {
      var t := TargetOf(read, line).value;
      var e :| e in entries && TargetOf(read, e) == Some(t);
      TargetExactly(read, e, t.host, t.key);
      TargetExactly(read, line, t.host, t.key);
    }
    if Named(read, entries, line) {
      var e, host, key :| e in entries && Names(read, e, host, key) && Names(read, line, host, key);
      TargetExactly(read, e, host, key);
      TargetExactly(read, line, host, key);
      NoWordsInBlank(line);
    }
  }

  lemma NoWordsInBlank(line: string)
    ensures Blank(line) ==> Fields(line) == []
  {
    FieldsOfTrim(line);
  }

  /** The lines that stay are the others, in their order: a file's are those of its parts,
      and of one line there is it or nothing. */
  lemma StaysExactly(read: KeyReader, entries: seq<string>, before: seq<string>, line: string)
    ensures Kept(read, Targets(read, entries), before + [line]) ==
            Kept(read, Targets(read, entries), before) + if Named(read, entries, line) then [] else [line]
  {
    DropsExactly(read, entries, line);
    assert (before + [line])[..|before|] == before;
  }

  /** What removing leaves in the file, and what it says it took out. */
  lemma RemoveExactly(read: KeyReader, t: Text, entries: seq<string>)
    ensures var (after, n) := Remove(read, t, entries);
            && (forall l :: l in Content(after) <==> l in Content(t) && !Named(read, entries, l))
            && n == |Content(t)| - |Content(after)|
            && (n == 0 ==> after == t) && (n > 0 ==> after == "" || after[|after| - 1] == '\n')
  {
    var targets := Targets(read, entries);
    RemoveTakesExactly(read, t, entries);
    KeptIsPart(read, targets, Content(t));
    forall l ensures Drops(read, targets, l) <==> Named(read, entries, l) {
      DropsExactly(read, entries, l);
    }
    forall l | l in Content(t) && !Named(read, entries, l) ensures l in Content(Remove(read, t, entries).0) {
      KeptHolds(read, targets, Content(t), l);
    }
    EndsInNewline(Kept(read, targets, Lines(TrimNewlines(t))));
  }

  lemma EndsInNewline(kept: seq<string>)
    ensures var after := Join(kept) + (if kept != [] then "\n" else ""); after == "" || after[|after| - 1] == '\n'
  {
  }

  lemma {:induction false} NewlinesGo(core: Text, newlines: Text)
    requires (core == "" || core[|core| - 1] != '\n') && forall i :: 0 <= i < |newlines| ==> newlines[i] == '\n'
    ensures TrimNewlines(core + newlines) == core
    decreases |newlines|
  {
    var t := core + newlines;
    if newlines == "" {
      assert t == core;
    } else {
      assert t[|t| - 1] == '\n' && t[..|t| - 1] == core + newlines[..|newlines| - 1];
      NewlinesGo(core, newlines[..|newlines| - 1]);
    }
  }

  /** A file that loses a line is written anew, without the newlines at its end: the lines
      that stay, blank ones between them too, and a newline after each. */
  lemma RewritesExactly(read: KeyReader, core: Text, newlines: Text, entries: seq<string>)
    requires (core == "" || core[|core| - 1] != '\n') && forall i :: 0 <= i < |newlines| ==> newlines[i] == '\n'
    ensures var (after, n) := Remove(read, core + newlines, entries);
            var kept := Kept(read, Targets(read, entries), Lines(core));
            && n == |Lines(core)| - |kept|
            && (n > 0 && kept != [] ==> Lines(after) == kept + [""])
            && (n > 0 && kept == [] ==> after == "")
  {
    NewlinesGo(core, newlines);
    var kept := Kept(read, Targets(read, entries), Lines(core));
    KeptIsPart(read, Targets(read, entries), Lines(core));
    LinesHaveNoNewline(core);
    if kept != [] {
      LinesOfJoin(kept);
      LinesOfTwo(Join(kept), "");
      OneLine("");
      assert Join(kept) + "\n" == Join(kept) + "\n" + "";
    }
  }

  // ----- what is added -----

  /** What appending adds to a file: each entry, trimmed, that is a line and that no line of
      the file is when it is trimmed too. */
  lemma AddsExactly(t: Text, entries: seq<string>, e: string)
    ensures e in Newcomers(Have(t), entries) <==>
      && e != "" && '\n' !in e && '\r' !in e
      && (exists i :: 0 <= i < |entries| && Trim(entries[i]) == e)
      && (forall l :: l in Lines(t) ==> Trim(l) != e)
  {
    NewcomersAre(Have(t), entries);
    if i :| 0 <= i < |entries| && Trim(entries[i]) == e && Acceptable(e) && e !in Have(t) {
      NewcomersCover(Have(t), entries, i);
    }
    if l :| l in Lines(t) && Trim(l) == e && e != "" {
      assert e in Have(t);
    }
  }

  /** In the order of the entries, each where it comes first. */
  lemma {:induction false} AddsInOrder(have: set<string>, a: seq<string>, b: seq<string>)
    ensures Newcomers(have, a + b) == Newcomers(have, a) + Newcomers(have + Given(Newcomers(have, a)), b)
    decreases |a|
  {
    if a == [] {
      assert a + b == b && have + Given([]) == have;
    } else {
      var e := Trim(a[0]);
      assert (a + b)[1..] == a[1..] + b;
      if !Acceptable(e) || e in have {
        AddsInOrder(have, a[1..], b);
      } else {
        AddsInOrder(have + {e}, a[1..], b);
        var rest := Newcomers(have + {e}, a[1..]);
        assert have + {e} + Given(rest) == have + Given([e] + rest);
      }
    }
  }

  function Given(lines: seq<string>): set<string> {
    set l | l in lines
  }

  /** The file after it is what it was and each new line with its newline. */
  lemma AppendsExactly(t: Text, entries: seq<string>)
    ensures t <= Append(t, entries)
    ensures Lines(Append(t, entries)[|t|..]) == Newcomers(Have(t), entries) + [""]
  {
    var added := Newcomers(Have(t), entries);
    NewcomersAre(Have(t), entries);
    LinesOfUnlines(added);
    assert Append(t, entries)[|t|..] == Unlines(added);
  }
}
