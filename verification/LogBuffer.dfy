/** The append-only log buffer of one run: what it has produced, how much of it
    the server is known to hold, and whether the closing envelope is in place. */
module LogBuffers {
  newtype byte = x: int | 0 <= x < 256
  type Bytes = seq<byte>

  const NEWLINE: byte := 10

  /** The stream a list of lines makes: each line followed by its newline. */
  function Text(lines: seq<Bytes>): Bytes {
    if lines == [] then [] else Text(lines[..|lines| - 1]) + lines[|lines| - 1] + [NEWLINE]
  }

  lemma TextOfOneMore(lines: seq<Bytes>, line: Bytes)
    ensures Text(lines + [line]) == Text(lines) + line + [NEWLINE]
  {
    assert (lines + [line])[..|lines|] == lines;
  }

  class LogBuffer {
    var buf: Bytes
    var committed: nat
    var isSealed: bool
    /** The lines appended so far, the envelope included once there is one. */
    ghost var lines: seq<Bytes>

    ghost predicate Valid()
      reads this
    {
      && committed <= |buf|
      && buf == Text(lines)
      && (isSealed ==> lines != [])
    }

    constructor ()
      ensures Valid() && buf == [] && lines == [] && committed == 0 && !isSealed
    {
      buf, committed, isSealed, lines := [], 0, false, [];
    }

    /** Appends a line, whatever the state of the log: it is for the caller to have it
        still open, or the line would stand behind the envelope. */
    method WriteLine(line: Bytes)
      requires Valid() && !isSealed
      modifies this
      ensures Valid() && lines == old(lines) + [line]
      ensures buf == old(buf) + line + [NEWLINE]
      ensures committed == old(committed) && !isSealed
    {
      TextOfOneMore(lines, line);
      buf := buf + line;
      buf := buf + [NEWLINE];
      lines := lines + [line];
    }

    /** Appends the envelope that closes the stream; only the first call does. */
    method Seal(envelope: Bytes)
      requires Valid()
      modifies this
      ensures Valid() && isSealed && committed == old(committed)
      ensures old(isSealed) ==> buf == old(buf) && lines == old(lines)
      ensures !old(isSealed) ==> lines == old(lines) + [envelope]
      ensures !old(isSealed) ==> buf == old(buf) + envelope + [NEWLINE]
    {
      if isSealed {
        return;
      }
      TextOfOneMore(lines, envelope);
      buf := buf + envelope;
      buf := buf + [NEWLINE];
      isSealed := true;
      lines := lines + [envelope];
    }

    method Pending() returns (out: Bytes)
      requires Valid()
      ensures buf == buf[..committed] + out
    {
      if committed >= |buf| {
        return [];
      }
      out := buf[committed..];
    }

    /** Moves the committed offset, kept within what the buffer holds. */
    method SetCommitted(n: int)
      requires Valid()
      modifies this`committed
      ensures Valid()
      ensures 0 <= n <= |buf| ==> committed == n
      ensures n < 0 ==> committed == 0
      ensures n > |buf| ==> committed == |buf|
    {
      var m := n;
      if m < 0 {
        m := 0;
      }
      if m > |buf| {
        m := |buf|;
      }
      committed := m;
    }

    method CommittedOffset() returns (n: nat)
      ensures n == committed
    {
      n := committed;
    }
  }
}
