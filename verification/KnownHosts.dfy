/** The host keys this host trusts: a text file, one key a line, that lines are
    appended to and taken out of. */
module KnownHosts {
  import opened Options

  type Text = string

  // ----- white space -----

  predicate Space(c: char) {
    || '\U{0009}' <= c <= '\U{000d}' || c == ' ' || c == '\U{0085}' || c == '\U{00a0}' || c == '\U{1680}'
    || '\U{2000}' <= c <= '\U{200a}' || c == '\U{2028}' || c == '\U{2029}' || c == '\U{202f}' || c == '\U{205f}' || c == '\U{3000}'
  }

  function TrimLeft(s: string): string
    decreases |s|
  {
    if s != "" && Space(s[0]) then TrimLeft(s[1..]) else s
  }

  function TrimRight(s: string): string
    decreases |s|
  {
    if s != "" && Space(s[|s| - 1]) then TrimRight(s[..|s| - 1]) else s
  }

  function Trim(s: string): string {
    TrimRight(TrimLeft(s))
  }

  predicate Blank(s: string) {
    Trim(s) == ""
  }

  /** Neither begins nor ends with white space. */
  predicate Tight(s: string) {
    s == "" || (!Space(s[0]) && !Space(s[|s| - 1]))
  }

  lemma {:induction false} TrimRightKeepsFirst(s: string)
    ensures TrimRight(s) <= s && (s != "" && !Space(s[0]) ==> TrimRight(s) != "")
    ensures TrimRight(s) == "" || !Space(TrimRight(s)[|TrimRight(s)| - 1])
    decreases |s|
  {
    if s != "" && Space(s[|s| - 1]) {
      TrimRightKeepsFirst(s[..|s| - 1]);
    }
  }

  lemma {:induction false} TrimLeftStops(s: string)
    ensures TrimLeft(s) == "" || !Space(TrimLeft(s)[0])
    ensures |TrimLeft(s)| <= |s|
    decreases |s|
  {
    if s != "" && Space(s[0]) {
      TrimLeftStops(s[1..]);
    }
  }

  /** What is trimmed stays as it is when trimmed again. */
  lemma TrimIsTight(s: string)
    ensures Tight(Trim(s)) && Trim(Trim(s)) == Trim(s)
  {
    TrimLeftStops(s);
    TrimRightKeepsFirst(TrimLeft(s));
  }

  /** White space before a trimmed, non-blank text goes; anything else before it stays. */
  lemma {:induction false} TrimOfJoined(before: string, s: string)
    requires s != "" && Tight(s)
    ensures Trim(before + s) == TrimLeft(before) + s
    ensures TrimLeft(before) == "" <==> Blank(before)
    decreases |before|
  {
    TrimLeftStops(before);
    TrimRightKeepsFirst(TrimLeft(before));
    if before == "" {
      assert before + s == s;
    } else if Space(before[0]) {
      assert (before + s)[1..] == before[1..] + s;
      TrimOfJoined(before[1..], s);
    }
  }

  /** The words of a line. */
  function Fields(s: string): seq<string>
    decreases |s|
  {
    TrimLeftStops(s);
    var t := TrimLeft(s);
    if t == "" then [] else [Word(t)] + Fields(t[|Word(t)|..])
  }

  function Word(t: string): (w: string)
    ensures w <= t && (t != "" && !Space(t[0]) ==> w != "")
    decreases |t|
  {
    if t == "" || Space(t[0]) then "" else [t[0]] + Word(t[1..])
  }

  lemma {:induction false} WordBeforeSpace(t: string, c: char)
    requires Space(c)
    ensures Word(t + [c]) == Word(t)
    decreases |t|
  {
    if t != "" {
      assert (t + [c])[1..] == t[1..] + [c];
      WordBeforeSpace(t[1..], c);
    }
  }

  lemma {:induction false} TrimLeftBeforeSpace(s: string, c: char)
    requires Space(c)
    ensures TrimLeft(s + [c]) == if TrimLeft(s) == "" then "" else TrimLeft(s) + [c]
    decreases |s|
  {
    if s == "" {
      assert TrimLeft([c]) == TrimLeft([c][1..]);
    } else if Space(s[0]) {
      assert (s + [c])[1..] == s[1..] + [c];
      TrimLeftBeforeSpace(s[1..], c);
    }
  }

  lemma {:induction false} FieldsBeforeSpace(s: string, c: char)
    requires Space(c)
    ensures Fields(s + [c]) == Fields(s)
    decreases |s|
  {
    TrimLeftBeforeSpace(s, c);
    TrimLeftStops(s);
    var t := TrimLeft(s);
    if t != "" {
      WordBeforeSpace(t, c);
      var n := |Word(t)|;
      assert (t + [c])[n..] == t[n..] + [c];
      FieldsBeforeSpace(t[n..], c);
    }
  }

  lemma {:induction false} FieldsOfTrimRight(s: string)
    ensures Fields(TrimRight(s)) == Fields(s)
    decreases |s|
  {
    if s != "" && Space(s[|s| - 1]) {
      FieldsOfTrimRight(s[..|s| - 1]);
      FieldsBeforeSpace(s[..|s| - 1], s[|s| - 1]);
      assert s == s[..|s| - 1] + [s[|s| - 1]];
    }
  }

  /** A line has the same words with or without the space around it. */
  lemma FieldsOfTrim(s: string)
    ensures Fields(Trim(s)) == Fields(s)
  {
    FieldsOfTrimRight(TrimLeft(s));
    TrimLeftStops(s);
    assert TrimLeft(TrimLeft(s)) == TrimLeft(s);
  }

  // ----- one line -----

  /** Reads a key of a type from its encoding, if it can be read and is of that type. */
  type KeyReader = (string, string) -> Option<string>

  datatype Line = Line(marker: string, hosts: seq<string>, key: string)

  datatype Target = Target(host: string, key: string)

  /** A host list, split at its commas. */
  function SplitAt(s: string, c: char): (parts: seq<string>)
    ensures parts != []
    decreases |s|
  {
    if s == "" then [""]
    else
      var rest := SplitAt(s[1..], c);
      if s[0] == c then [""] + rest else [[s[0]] + rest[0]] + rest[1..]
  }

  function Parse(read: KeyReader, line: string): Option<Line> {
    var words := Fields(line);
    var marked := words != [] && "@" <= words[0];
    var rest := if marked then words[1..] else words;
    if |rest| < 3 then None
    else
      match read(rest[1], rest[2])
      case None => None
      case Some(key) => Some(Line(if marked then words[0][1..] else "", SplitAt(rest[0], ','), key))
  }

  /** The one host and key a line names, if it names one and bears no marker. */
  function TargetOf(read: KeyReader, line: string): Option<Target> {
    match Parse(read, line)
    case None => None
    case Some(l) => if l.marker != "" || |l.hosts| != 1 then None else Some(Target(l.hosts[0], l.key))
  }

  // ----- the text -----

  /** The lines of a text: what stands between its newlines. */
  function Lines(t: Text): (lines: seq<string>)
    ensures lines != []
  {
    SplitAt(t, '\n')
  }

  function Join(lines: seq<string>): Text
    decreases |lines|
  {
    if lines == [] then "" else if |lines| == 1 then lines[0] else lines[0] + "\n" + Join(lines[1..])
  }

  function Unlines(lines: seq<string>): Text
    decreases |lines|
  {
    if lines == [] then "" else lines[0] + "\n" + Unlines(lines[1..])
  }

  /** Empty, or ended by a newline. */
  predicate Terminated(t: Text) {
    t == "" || t[|t| - 1] == '\n'
  }

  function LastLine(t: Text): string {
    Lines(t)[|Lines(t)| - 1]
  }

  /** The lines that are not blank, in order, as they are. */
  function NonBlank(lines: seq<string>): seq<string>
    decreases |lines|
  {
    if lines == [] then [] else (if Blank(lines[0]) then [] else [lines[0]]) + NonBlank(lines[1..])
  }

  function Content(t: Text): seq<string> {
    NonBlank(Lines(t))
  }

  lemma {:induction false} LinesOfTwo(a: Text, b: Text)
    ensures Lines(a + "\n" + b) == Lines(a) + Lines(b)
    decreases |a|
  {
    if a == "" {
      assert (a + "\n" + b)[1..] == b;
    } else {
      assert (a + "\n" + b)[1..] == a[1..] + "\n" + b;
      LinesOfTwo(a[1..], b);
    }
  }

  lemma {:induction false} OneLine(l: string)
    requires '\n' !in l
    ensures Lines(l) == [l]
    decreases |l|
  {
    if l != "" {
      assert l[0] in l && l == [l[0]] + l[1..];
      OneLine(l[1..]);
    }
  }

  lemma {:induction false} LinesOfUnlines(lines: seq<string>)
    requires forall l :: l in lines ==> '\n' !in l
    ensures Lines(Unlines(lines)) == lines + [""]
    decreases |lines|
  {
    if lines != [] {
      LinesOfUnlines(lines[1..]);
      OneLine(lines[0]);
      LinesOfTwo(lines[0], Unlines(lines[1..]));
    }
  }

  lemma {:induction false} LinesOfJoin(lines: seq<string>)
    requires lines != [] && forall l :: l in lines ==> '\n' !in l
    ensures Lines(Join(lines)) == lines
    decreases |lines|
  {
    OneLine(lines[0]);
    if |lines| > 1 {
      LinesOfJoin(lines[1..]);
      LinesOfTwo(lines[0], Join(lines[1..]));
    }
  }

  lemma {:induction false} LinesHaveNoNewline(t: Text)
    ensures forall l :: l in Lines(t) ==> '\n' !in l
    decreases |t|
  {
    if t != "" {
      LinesHaveNoNewline(t[1..]);
      var rest := Lines(t[1..]);
      assert rest[0] in rest && forall l :: l in rest[1..] ==> l in rest;
    }
  }

  lemma {:induction false} NonBlankOfBoth(a: seq<string>, b: seq<string>)
    ensures NonBlank(a + b) == NonBlank(a) + NonBlank(b)
    decreases |a|
  {
    if a == [] {
      assert a + b == b;
    } else {
      assert (a + b)[1..] == a[1..] + b;
      NonBlankOfBoth(a[1..], b);
    }
  }

  lemma {:induction false} AllNonBlank(lines: seq<string>)
    requires forall l :: l in lines ==> !Blank(l)
    ensures NonBlank(lines) == lines
    decreases |lines|
  {
    if lines != [] {
      AllNonBlank(lines[1..]);
    }
  }

  /** Lines put on after the last of some lines. */
  function Attach(lines: seq<string>, more: seq<string>): seq<string>
    requires lines != [] && more != []
  {
    lines[..|lines| - 1] + [lines[|lines| - 1] + more[0]] + more[1..]
  }

  lemma AttachAfterLine(rest: seq<string>, more: seq<string>)
    requires rest != [] && more != []
    ensures [""] + Attach(rest, more) == Attach([""] + rest, more)
  {
    assert ([""] + rest)[..|rest|] == [""] + rest[..|rest| - 1];
  }

  lemma AttachAfterChar(c: char, rest: seq<string>, more: seq<string>)
    requires rest != [] && more != []
    ensures var all := Attach(rest, more);
            [[c] + all[0]] + all[1..] == Attach([[c] + rest[0]] + rest[1..], more)
  {
    var lines := [[c] + rest[0]] + rest[1..];
    if |rest| == 1 {
      assert [c] + (rest[0] + more[0]) == ([c] + rest[0]) + more[0];
    } else {
      assert lines[..|rest| - 1] == [[c] + rest[0]] + rest[..|rest| - 1][1..];
    }
  }

  /** Text appended to a text goes on its last line. */
  lemma {:induction false} LinesOfGlued(t: Text, u: Text)
    ensures Lines(t + u) == Attach(Lines(t), Lines(u))
    decreases |t|
  {
    if t == "" {
      assert t + u == u && "" + Lines(u)[0] == Lines(u)[0];
    } else {
      assert (t + u)[1..] == t[1..] + u;
      LinesOfGlued(t[1..], u);
      AttachAfterLine(Lines(t[1..]), Lines(u));
      AttachAfterChar(t[0], Lines(t[1..]), Lines(u));
    }
  }

  lemma {:induction false} LastLineOfTerminated(t: Text)
    ensures Terminated(t) <==> LastLine(t) == ""
    decreases |t|
  {
    if |t| == 1 {
      assert t[1..] == "";
    } else if t != "" {
      LastLineOfTerminated(t[1..]);
      assert t[1..][|t[1..]| - 1] == t[|t| - 1];
    }
  }

  // ----- appending -----

  function Trimmed(lines: seq<string>): set<string> {
    set l | l in lines && !Blank(l) :: Trim(l)
  }

  lemma TrimmedOfBoth(a: seq<string>, b: seq<string>)
    ensures Trimmed(a + b) == Trimmed(a) + Trimmed(b)
  {
  }

  lemma TrimmedOfOne(l: string)
    ensures Trimmed([l]) == if Blank(l) then {} else {Trim(l)}
  {
    assert l in [l];
  }

  /** The lines a text already has, trimmed. */
  function Have(t: Text): set<string> {
    Trimmed(Lines(t))
  }

  predicate Acceptable(e: string) {
    e != "" && '\n' !in e && '\r' !in e
  }

  /** What is new among the entries: trimmed, one line each, none twice. */
  function Newcomers(have: set<string>, entries: seq<string>): seq<string>
    decreases |entries|
  {
    if entries == [] then []
    else
      var e := Trim(entries[0]);
      if !Acceptable(e) || e in have then Newcomers(have, entries[1..])
      else [e] + Newcomers(have + {e}, entries[1..])
  }

  function Append(t: Text, entries: seq<string>): Text {
    t + Unlines(Newcomers(Have(t), entries))
  }

  lemma {:induction false} NewcomersAre(have: set<string>, entries: seq<string>)
    ensures forall e :: e in Newcomers(have, entries) ==>
              Acceptable(e) && Tight(e) && Trim(e) == e && !Blank(e) && e !in have && exists i :: 0 <= i < |entries| && Trim(entries[i]) == e
    decreases |entries|
  {
    if entries != [] {
      var e := Trim(entries[0]);
      TrimIsTight(entries[0]);
      var have' := if !Acceptable(e) || e in have then have else have + {e};
      NewcomersAre(have', entries[1..]);
      forall f | f in Newcomers(have', entries[1..]) ensures exists i :: 0 <= i < |entries| && Trim(entries[i]) == f {
        var i :| 0 <= i < |entries[1..]| && Trim(entries[1..][i]) == f;
        assert Trim(entries[i + 1]) == f;
      }
    }
  }

  /** Entries all of which are there, or are no line, add nothing; and the other way. */
  lemma {:induction false} NothingNew(have: set<string>, entries: seq<string>)
    ensures Newcomers(have, entries) == [] <==> (forall i :: 0 <= i < |entries| ==> !Acceptable(Trim(entries[i])) || Trim(entries[i]) in have)
    decreases |entries|
  {
    if entries != [] {
      var e := Trim(entries[0]);
      if !Acceptable(e) || e in have {
        NothingNew(have, entries[1..]);
        assert forall i :: 0 < i < |entries| ==> entries[i] == entries[1..][i - 1];
        assert forall i :: 0 <= i < |entries[1..]| ==> entries[1..][i] == entries[i + 1];
      }
    }
  }

  /** Every acceptable entry is there before, or among the new. */
  lemma {:induction false} NewcomersCover(have: set<string>, entries: seq<string>, i: nat)
    requires i < |entries| && Acceptable(Trim(entries[i])) && Trim(entries[i]) !in have
    ensures Trim(entries[i]) in Newcomers(have, entries)
    decreases |entries|
  {
    var e := Trim(entries[0]);
    if i > 0 {
      assert entries[i] == entries[1..][i - 1];
      if !Acceptable(e) || e in have {
        NewcomersCover(have, entries[1..], i - 1);
      } else if Trim(entries[i]) != e {
        NewcomersCover(have + {e}, entries[1..], i - 1);
      }
    }
  }

  /** The lines after appending something: what was there, but for its last line, which
      the first new line is put after. */
  lemma LinesAfterAppend(t: Text, entries: seq<string>)
    requires Newcomers(Have(t), entries) != []
    ensures var added, lines := Newcomers(Have(t), entries), Lines(t);
            Lines(Append(t, entries)) == lines[..|lines| - 1] + [LastLine(t) + added[0]] + added[1..] + [""]
  {
    var added := Newcomers(Have(t), entries);
    NewcomersAre(Have(t), entries);
    LinesOfUnlines(added);
    LinesOfGlued(t, Unlines(added));
    assert (added + [""])[0] == added[0] && (added + [""])[1..] == added[1..] + [""];
  }

  /** A new line is no white space, wherever it is put. */
  lemma FirstIsLine(t: Text, entries: seq<string>)
    requires Newcomers(Have(t), entries) != []
    ensures var added := Newcomers(Have(t), entries);
            && Trim(LastLine(t) + added[0]) == TrimLeft(LastLine(t)) + added[0]
            && !Blank(LastLine(t) + added[0])
            && (TrimLeft(LastLine(t)) == "" <==> Blank(LastLine(t)))
            && forall l :: l in added ==> !Blank(l) && Trim(l) == l && l !in Have(t)
  {
    var added := Newcomers(Have(t), entries);
    NewcomersAre(Have(t), entries);
    assert added[0] in added;
    TrimOfJoined(LastLine(t), added[0]);
  }

  /** Lines put after a last line: those before it stay, and the first goes on it. */
  function Glue(init: seq<string>, last: string, added: seq<string>): seq<string>
    requires added != []
  {
    init + [last + added[0]] + added[1..] + [""]
  }

  lemma ContentOfGlued(init: seq<string>, last: string, added: seq<string>)
    requires added != [] && !Blank(last + added[0]) && forall l :: l in added[1..] ==> !Blank(l)
    ensures NonBlank(Glue(init, last, added)) == NonBlank(init) + ([last + added[0]] + added[1..])
  {
    var more := [last + added[0]] + added[1..];
    AllNonBlank(more);
    ContentAround(init, more);
    assert Glue(init, last, added) == init + more + [""];
  }

  lemma ContentAfterAppend(t: Text, entries: seq<string>)
    requires Newcomers(Have(t), entries) != []
    ensures var added := Newcomers(Have(t), entries);
            var before := NonBlank(Lines(t)[..|Lines(t)| - 1]);
            && Content(t) == before + NonBlank([LastLine(t)])
            && Content(Append(t, entries)) == before + ([LastLine(t) + added[0]] + added[1..])
  {
    var added, lines := Newcomers(Have(t), entries), Lines(t);
    var init := lines[..|lines| - 1];
    assert Content(t) == NonBlank(init) + NonBlank([LastLine(t)]) by {
      assert lines == init + [LastLine(t)];
      NonBlankOfBoth(init, [LastLine(t)]);
    }
    assert !Blank(LastLine(t) + added[0]) && forall l :: l in added[1..] ==> !Blank(l) by {
      FirstIsLine(t, entries);
    }
    ContentOfGlued(init, LastLine(t), added);
    LinesAfterAppend(t, entries);
  }

  lemma Glues(before: seq<string>, last: string, added: seq<string>)
    requires added != []
    ensures before + ([last + added[0]] + added[1..]) == before + NonBlank([last]) + added <==> last == ""
  {
    var one, two := before + ([last + added[0]] + added[1..]), before + NonBlank([last]) + added;
    if last == "" {
      assert NonBlank([last]) == [];
      assert last + added[0] == added[0] && [added[0]] + added[1..] == added;
    } else {
      assert NonBlank([last]) == [] || NonBlank([last]) == [last];
      if |one| == |two| {
        assert one[|before|] == last + added[0] && two[|before|] == added[0];
      }
    }
  }

  /** Appending leaves every line as it was, in order, with the new ones after: exactly
      when there is nothing new, or the file is empty or ends with a newline. */
  lemma AppendKeepsLines(t: Text, entries: seq<string>)
    ensures Content(Append(t, entries)) == Content(t) + Newcomers(Have(t), entries)
            <==> (Newcomers(Have(t), entries) == [] || Terminated(t))
  {
    var added := Newcomers(Have(t), entries);
    if added == [] {
      assert t + "" == t;
    } else {
      ContentAfterAppend(t, entries);
      LastLineOfTerminated(t);
      Glues(NonBlank(Lines(t)[..|Lines(t)| - 1]), LastLine(t), added);
    }
  }

  lemma ContentAround(init: seq<string>, more: seq<string>)
    requires NonBlank(more) == more
    ensures NonBlank(init + more + [""]) == NonBlank(init) + more
  {
    NonBlankOfBoth(init, more);
    NonBlankOfBoth(init + more, [""]);
  }

  lemma TrimmedOfLines(lines: seq<string>)
    requires forall l :: l in lines ==> !Blank(l) && Trim(l) == l
    ensures forall l :: l in Trimmed(lines) <==> l in lines
  {
  }

  lemma TrimmedOfGlued(init: seq<string>, last: string, added: seq<string>)
    requires added != [] && !Blank(last + added[0])
    requires forall l :: l in added[1..] ==> !Blank(l) && Trim(l) == l
    ensures forall e :: e in Trimmed(Glue(init, last, added)) <==> e in Trimmed(init) || e == Trim(last + added[0]) || e in added[1..]
  {
    TrimmedOfOne(last + added[0]);
    TrimmedOfBoth(init, [last + added[0]]);
    TrimmedOfBoth(init + [last + added[0]], added[1..]);
    TrimmedOfBoth(init + [last + added[0]] + added[1..], [""]);
    TrimmedOfOne("");
    TrimmedOfLines(added[1..]);
  }

  lemma HaveAfterAppend(t: Text, entries: seq<string>, e: string)
    requires Newcomers(Have(t), entries) != []
    ensures var added := Newcomers(Have(t), entries);
            var init := Trimmed(Lines(t)[..|Lines(t)| - 1]);
            && (e in Have(t) <==> e in init || (!Blank(LastLine(t)) && e == Trim(LastLine(t))))
            && (e in Have(Append(t, entries)) <==> e in init || e == Trim(LastLine(t) + added[0]) || e in added[1..])
  {
    var added, lines := Newcomers(Have(t), entries), Lines(t);
    var init := lines[..|lines| - 1];
    assert forall l :: l in added[1..] ==> l in added;
    FirstIsLine(t, entries);
    TrimmedOfGlued(init, LastLine(t), added);
    LinesAfterAppend(t, entries);
    assert lines == init + [LastLine(t)];
    TrimmedOfBoth(init, [LastLine(t)]);
    TrimmedOfOne(LastLine(t));
  }

  /** After a blank last line, all that was there is, and all that was new. */
  lemma HaveAll(t: Text, entries: seq<string>, e: string)
    requires Newcomers(Have(t), entries) != [] && Blank(LastLine(t))
    requires e in Have(t) || e in Newcomers(Have(t), entries)
    ensures e in Have(Append(t, entries))
  {
    var added := Newcomers(Have(t), entries);
    HaveAfterAppend(t, entries, e);
    FirstIsLine(t, entries);
    assert e in added ==> e == added[0] || e in added[1..];
  }

  /** After any other, the first new line is not. */
  lemma HaveNotFirst(t: Text, entries: seq<string>)
    requires Newcomers(Have(t), entries) != [] && !Blank(LastLine(t))
    ensures Newcomers(Have(t), entries)[0] !in Have(Append(t, entries))
  {
    var added := Newcomers(Have(t), entries);
    HaveAfterAppend(t, entries, added[0]);
    FirstIsLine(t, entries);
    NewcomersOnce(Have(t), entries);
    assert added[0] in added && added[0] !in added[1..];
  }

  lemma {:induction false} NewcomersOnce(have: set<string>, entries: seq<string>)
    ensures forall i, j :: 0 <= i < j < |Newcomers(have, entries)| ==> Newcomers(have, entries)[i] != Newcomers(have, entries)[j]
    decreases |entries|
  {
    if entries != [] {
      var e := Trim(entries[0]);
      if !Acceptable(e) || e in have {
        NewcomersOnce(have, entries[1..]);
      } else {
        NewcomersOnce(have + {e}, entries[1..]);
        NewcomersAre(have + {e}, entries[1..]);
      }
    }
  }

  /** Appending the same entries again changes nothing: exactly when there was nothing
      new, or the file's last line was blank, as an empty or newline-ended file's is. */
  lemma AppendTwice(t: Text, entries: seq<string>)
    ensures Append(Append(t, entries), entries) == Append(t, entries)
            <==> (Newcomers(Have(t), entries) == [] || Blank(LastLine(t)))
  {
    var t1, added := Append(t, entries), Newcomers(Have(t), entries);
    AddsNothing(t1, entries);
    if added == [] {
      assert t1 == t + "" == t;
    } else {
      NewcomersAre(Have(t), entries);
      if Blank(LastLine(t)) {
        forall i | 0 <= i < |entries| ensures !Acceptable(Trim(entries[i])) || Trim(entries[i]) in Have(t1) {
          if Acceptable(Trim(entries[i])) && Trim(entries[i]) !in Have(t) {
            NewcomersCover(Have(t), entries, i);
          }
          if Acceptable(Trim(entries[i])) {
            HaveAll(t, entries, Trim(entries[i]));
          }
        }
      } else {
        HaveNotFirst(t, entries);
        assert added[0] in added;
        var i :| 0 <= i < |entries| && Trim(entries[i]) == added[0];
      }
      NothingNew(Have(t1), entries);
    }
  }

  lemma AddsNothing(t: Text, entries: seq<string>)
    ensures Append(t, entries) == t <==> Newcomers(Have(t), entries) == []
  {
    var added := Newcomers(Have(t), entries);
    if added != [] {
      assert |Unlines(added)| > 0;
    }
  }

  /** A file without its newline loses a line and trusts neither host. */
  lemma UnterminatedIsGlued()
    ensures Content("a") == ["a"] && Content(Append("a", ["b"])) == ["ab"]
  {
    assert !Space('a') && !Space('b');
    OneLine("a");
    assert Trim("a") == "a" && Trim("b") == "b";
    assert Have("a") == {"a"};
    assert Newcomers({"a"}, ["b"]) == ["b"] + Newcomers({"a", "b"}, []);
    assert Unlines(["b"]) == "b\n" + Unlines([]);
    assert Append("a", ["b"]) == "ab\n" == "ab" + "\n" + "";
    OneLine("ab");
    OneLine("");
    LinesOfTwo("ab", "");
    assert Trim("ab") == "ab" && Trim("") == "";
    assert Lines("ab\n") == ["ab", ""];
    AllNonBlank(["ab"]);
    NonBlankOfBoth(["ab"], [""]);
  }

  // ----- removing -----

  function Targets(read: KeyReader, entries: seq<string>): set<Target> {
    set e | e in entries && TargetOf(read, e).Some? :: TargetOf(read, e).value
  }

  /** A line to be taken out: no blank, no comment, and one of the targets. */
  predicate Drops(read: KeyReader, targets: set<Target>, line: string) {
    var t := Trim(line);
    t != "" && !("#" <= t) && TargetOf(read, t).Some? && TargetOf(read, t).value in targets
  }

  function TrimNewlines(t: Text): Text
    decreases |t|
  {
    if t != "" && t[|t| - 1] == '\n' then TrimNewlines(t[..|t| - 1]) else t
  }

  function Kept(read: KeyReader, targets: set<Target>, lines: seq<string>): seq<string>
    decreases |lines|
  {
    if lines == [] then []
    else
      var last := lines[|lines| - 1];
      Kept(read, targets, lines[..|lines| - 1]) + (if Drops(read, targets, last) then [] else [last])
  }

  /** The text without the lines of the targets, and how many those were. */
  function Remove(read: KeyReader, t: Text, entries: seq<string>): (Text, nat) {
    KeptIsPart(read, Targets(read, entries), Lines(TrimNewlines(t)));
    var lines := Lines(TrimNewlines(t));
    var kept := Kept(read, Targets(read, entries), lines);
    if |kept| == |lines| then (t, 0)
    else (Join(kept) + (if kept != [] then "\n" else ""), |lines| - |kept|)
  }

  lemma {:induction false} KeptIsPart(read: KeyReader, targets: set<Target>, lines: seq<string>)
    ensures |Kept(read, targets, lines)| <= |lines| && forall l :: l in Kept(read, targets, lines) ==> l in lines && !Drops(read, targets, l)
    ensures |Kept(read, targets, lines)| == |lines| ==> Kept(read, targets, lines) == lines
    decreases |lines|
  {
    if lines != [] {
      KeptIsPart(read, targets, lines[..|lines| - 1]);
      assert lines == lines[..|lines| - 1] + [lines[|lines| - 1]];
    }
  }

  lemma {:induction false} KeptOfBoth(read: KeyReader, targets: set<Target>, a: seq<string>, b: seq<string>)
    ensures Kept(read, targets, a + b) == Kept(read, targets, a) + Kept(read, targets, b)
    decreases |b|
  {
    if b == [] {
      assert a + b == a;
    } else {
      assert (a + b)[..|a + b| - 1] == a + b[..|b| - 1];
      KeptOfBoth(read, targets, a, b[..|b| - 1]);
    }
  }

  lemma OneKeptAndNonBlank(read: KeyReader, targets: set<Target>, l: string)
    ensures NonBlank(Kept(read, targets, [l])) == Kept(read, targets, NonBlank([l]))
  {
    var kept := if Drops(read, targets, l) then [] else [l];
    assert [l][..0] == [];
    assert Kept(read, targets, [l]) == kept;
  }

  /** Taking out lines and leaving out blank ones, in either order. */
  lemma {:induction false} KeptAndNonBlank(read: KeyReader, targets: set<Target>, lines: seq<string>)
    ensures NonBlank(Kept(read, targets, lines)) == Kept(read, targets, NonBlank(lines))
    decreases |lines|
  {
    if lines != [] {
      var init, last := lines[..|lines| - 1], lines[|lines| - 1];
      assert lines == init + [last];
      KeptAndNonBlank(read, targets, init);
      OneKeptAndNonBlank(read, targets, last);
      NonBlankOfBoth(init, [last]);
      NonBlankOfBoth(Kept(read, targets, init), Kept(read, targets, [last]));
      KeptOfBoth(read, targets, init, [last]);
      KeptOfBoth(read, targets, NonBlank(init), NonBlank([last]));
    }
  }

  lemma {:induction false} TrimmedContent(t: Text)
    ensures Content(TrimNewlines(t)) == Content(t)
    decreases |t|
  {
    if t != "" && t[|t| - 1] == '\n' {
      var u := t[..|t| - 1];
      TrimmedContent(u);
      assert t == u + "\n" + "";
      LinesOfTwo(u, "");
      NonBlankOfBoth(Lines(u), Lines(""));
      assert NonBlank([""]) == [];
    }
  }

  lemma ContentOfJoined(kept: seq<string>)
    requires forall l :: l in kept ==> '\n' !in l
    ensures Content(Join(kept) + (if kept != [] then "\n" else "")) == NonBlank(kept)
  {
    if kept == [] {
      assert Lines("") == [""] && NonBlank([""]) == [];
    } else {
      LinesOfJoin(kept);
      LinesOfTwo(Join(kept), "");
      assert Join(kept) + "\n" + "" == Join(kept) + "\n";
      NonBlankOfBoth(kept, [""]);
    }
  }

  /** Removing takes out exactly the lines that name one host, unmarked, with a requested
      host and key; every other line stays, as it was and in order; and none of those
      is left to take out. */
  lemma RemoveTakesExactly(read: KeyReader, t: Text, entries: seq<string>)
    ensures var targets := Targets(read, entries);
            var (after, n) := Remove(read, t, entries);
            && Content(after) == Kept(read, targets, Content(t))
            && n == |Content(t)| - |Content(after)|
            && (forall l :: l in Content(after) ==> !Drops(read, targets, l))
            && (n == 0 ==> after == t)
  {
    var targets, lines := Targets(read, entries), Lines(TrimNewlines(t));
    var kept := Kept(read, targets, lines);
    KeptIsPart(read, targets, lines);
    KeptIsPart(read, targets, Content(t));
    TrimmedContent(t);
    KeptAndNonBlank(read, targets, lines);
    DroppedCount(read, targets, lines);
    LinesHaveNoNewline(TrimNewlines(t));
    if |kept| != |lines| {
      ContentOfJoined(kept);
    }
  }

  /** Blank lines are never among those taken out. */
  lemma {:induction false} DroppedCount(read: KeyReader, targets: set<Target>, lines: seq<string>)
    ensures |lines| - |Kept(read, targets, lines)| == |NonBlank(lines)| - |Kept(read, targets, NonBlank(lines))|
    decreases |lines|
  {
    if lines != [] {
      var init, last := lines[..|lines| - 1], lines[|lines| - 1];
      assert lines == init + [last];
      DroppedCount(read, targets, init);
      NonBlankOfBoth(init, [last]);
      KeptOfBoth(read, targets, NonBlank(init), NonBlank([last]));
      assert NonBlank([last]) == if Blank(last) then [] else [last];
    }
  }

  // ----- appending, then removing -----

  /** An entry that can be taken out again: it names one host, unmarked, and is no
      comment. */
  predicate Removable(read: KeyReader, e: string) {
    !("#" <= Trim(e)) && TargetOf(read, e).Some?
  }

  lemma SameTarget(read: KeyReader, e: string)
    ensures TargetOf(read, Trim(e)) == TargetOf(read, e)
  {
    FieldsOfTrim(e);
  }

  lemma {:induction false} KeptAll(read: KeyReader, targets: set<Target>, lines: seq<string>)
    requires forall l :: l in lines ==> !Drops(read, targets, l)
    ensures Kept(read, targets, lines) == lines
    decreases |lines|
  {
    if lines != [] {
      KeptAll(read, targets, lines[..|lines| - 1]);
      assert lines == lines[..|lines| - 1] + [lines[|lines| - 1]];
    }
  }

  lemma {:induction false} KeptNone(read: KeyReader, targets: set<Target>, lines: seq<string>)
    requires forall l :: l in lines ==> Drops(read, targets, l)
    ensures Kept(read, targets, lines) == []
    decreases |lines|
  {
    if lines != [] {
      KeptNone(read, targets, lines[..|lines| - 1]);
    }
  }

  /** Entries appended and then removed leave nothing of themselves, and of what was
      there exactly the lines that were not theirs, unchanged and in order. */
  lemma AppendThenRemove(read: KeyReader, t: Text, entries: seq<string>)
    requires Terminated(t) || Newcomers(Have(t), entries) == []
    requires forall i :: 0 <= i < |entries| ==> Removable(read, entries[i])
    ensures var targets := Targets(read, entries);
            var after := Remove(read, Append(t, entries), entries).0;
            && Content(after) == Kept(read, targets, Content(t))
            && ((forall l :: l in Content(t) ==> !Drops(read, targets, l)) ==> Content(after) == Content(t))
  {
    var targets, added := Targets(read, entries), Newcomers(Have(t), entries);
    AppendKeepsLines(t, entries);
    RemoveTakesExactly(read, Append(t, entries), entries);
    KeptOfBoth(read, targets, Content(t), added);
    NewcomersAre(Have(t), entries);
    forall e | e in added ensures Drops(read, targets, e) {
      var i :| 0 <= i < |entries| && Trim(entries[i]) == e;
      assert entries[i] in entries && Removable(read, entries[i]);
      SameTarget(read, entries[i]);
    }
    KeptNone(read, targets, added);
    if forall l :: l in Content(t) ==> !Drops(read, targets, l) {
      KeptAll(read, targets, Content(t));
    }
  }

  /** An entry that reads as a comment is appended, and never taken out. */
  lemma CommentStays(read: KeyReader, t: Text, entries: seq<string>, l: string)
    requires l in Content(t) && "#" <= Trim(l)
    ensures l in Content(Remove(read, t, entries).0)
  {
    RemoveTakesExactly(read, t, entries);
    KeptHolds(read, Targets(read, entries), Content(t), l);
  }

  lemma {:induction false} KeptHolds(read: KeyReader, targets: set<Target>, lines: seq<string>, l: string)
    requires l in lines && !Drops(read, targets, l)
    ensures l in Kept(read, targets, lines)
    decreases |lines|
  {
    if l != lines[|lines| - 1] {
      assert l in lines[..|lines| - 1];
      KeptHolds(read, targets, lines[..|lines| - 1], l);
    }
  }
}
