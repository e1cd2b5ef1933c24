/** The known hosts file on this host, edited line by line. */
module TrustStore {
  import opened KnownHosts
  import opened Options

  lemma OneMoreTarget(read: KeyReader, entries: seq<string>, e: string)
    ensures Targets(read, entries + [e]) == Targets(read, entries) + (if TargetOf(read, e).Some? then {TargetOf(read, e).value} else {})
  {
    assert forall d :: d in entries + [e] <==> d == e || d in entries;
  }

  lemma NothingToRemove(read: KeyReader, t: Text, entries: seq<string>)
    requires Targets(read, entries) == {}
    ensures Remove(read, t, entries) == (t, 0)
  {
    KeptAll(read, {}, Lines(TrimNewlines(t)));
  }

  class KnownHostsFile {
    const read: KeyReader
    /** None while there is no file. */
    var content: Option<Text>

    constructor (read: KeyReader, content: Option<Text>)
      ensures this.read == read && this.content == content
    {
      this.read, this.content := read, content;
    }

    function Existing(): Text
      reads this
    {
      if content.Some? then content.value else ""
    }

    method AppendKnownHosts(entries: seq<string>)
      modifies this
      ensures content == Some(Append(old(Existing()), entries))
    {
      if content.None? {
        content := Some("");
      }
      var existing := content.value;
      var lines := Lines(existing);
      var have: set<string> := {};
      for i := 0 to |lines|
        invariant content == Some(existing)
        invariant have == Trimmed(lines[..i])
      {
        assert lines[..i + 1] == lines[..i] + [lines[i]];
        TrimmedOfBoth(lines[..i], [lines[i]]);
        TrimmedOfOne(lines[i]);
        var t := Trim(lines[i]);
        if t != "" {
          have := have + {t};
        }
      }
      assert lines[..|lines|] == lines;
      ghost var all := Append(existing, entries);
      assert entries[0..] == entries;
      for i := 0 to |entries|
        invariant content.Some? && content.value + Unlines(Newcomers(have, entries[i..])) == all
      {
        assert entries[i..][0] == entries[i] && entries[i..][1..] == entries[i + 1..];
        var e := Trim(entries[i]);
        if e == "" || e in have || '\n' in e || '\r' in e {
          continue;
        }
        ghost var rest := Unlines(Newcomers(have + {e}, entries[i + 1..]));
        assert content.value + (e + "\n" + rest) == content.value + (e + "\n") + rest;
        content := Some(content.value + (e + "\n"));
        have := have + {e};
      }
      assert content.value + "" == content.value;
    }

    method TargetsOf(entries: seq<string>) returns (targets: seq<Target>)
      ensures (set t | t in targets) == Targets(read, entries)
    {
      targets := [];
      for i := 0 to |entries|
        invariant (set t | t in targets) == Targets(read, entries[..i])
      {
        assert entries[..i + 1] == entries[..i] + [entries[i]];
        OneMoreTarget(read, entries[..i], entries[i]);
        var t := TargetOf(read, entries[i]);
        if t.Some? {
          assert (set d | d in targets + [t.value]) == (set d | d in targets) + {t.value};
          targets := targets + [t.value];
        }
      }
      assert entries[..|entries|] == entries;
    }

    /** Whether a line is one of the targets. */
    method ToDrop(line: string, targets: seq<Target>) returns (drop: bool)
      ensures drop <==> Drops(read, (set t | t in targets), line)
    {
      drop := false;
      var t := Trim(line);
      if t != "" && !("#" <= t) {
        var parsed := TargetOf(read, t);
        if parsed.Some? {
          for i := 0 to |targets|
            invariant !drop && parsed.value !in targets[..i]
          {
            if parsed.value == targets[i] {
              return true;
            }
          }
        }
      }
    }

    method KeepLines(lines: seq<string>, targets: seq<Target>) returns (kept: seq<string>, removed: nat)
      ensures kept == Kept(read, (set t | t in targets), lines) && removed == |lines| - |kept|
    {
      kept, removed := [], 0;
      for i := 0 to |lines|
        invariant kept == Kept(read, (set t | t in targets), lines[..i]) && removed == i - |kept|
      {
        assert lines[..i + 1][..i] == lines[..i];
        var drop := ToDrop(lines[i], targets);
        if drop {
          assert kept + [] == kept;
          removed := removed + 1;
          continue;
        }
        kept := kept + [lines[i]];
      }
      assert lines[..|lines|] == lines;
    }

    method RemoveKnownHosts(entries: seq<string>) returns (removed: nat)
      modifies this
      ensures old(content).None? ==> content.None? && removed == 0
      ensures old(content).Some? ==> content.Some? && (content.value, removed) == Remove(read, old(content).value, entries)
    {
      var targets := TargetsOf(entries);
      if content.None? {
        return 0;
      }
      var lines := Lines(TrimNewlines(content.value));
      if |targets| == 0 {
        NothingToRemove(read, content.value, entries);
        return 0;
      }
      var kept, n := KeepLines(lines, targets);
      if n == 0 {
        return 0;
      }
      var out := Join(kept);
      if |kept| > 0 {
        out := out + "\n";
      }
      content := Some(out);
      return n;
    }
  }
}
