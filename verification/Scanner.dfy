/** `bufio.Scanner` with its default line splitter and its default token limit, as the stream
    handlers use it. */
module LineScanner {
  import opened Text

  /** A raw line (without its line feed) of this many bytes makes the scanner give up. */
  const MAX_TOKEN: nat := 65536

  /** A carriage return right before the line feed (or the end) is not part of the line. */
  function DropCR(raw: string): string {
    if EndsWith(raw, '\r') then raw[..|raw| - 1] else raw
  }

  /** The lines the scanner delivers, in order. */
  function Scanned(s: string): seq<string>
    decreases |s|
  {
    if s == "" then []
    else
      var i := IndexOf(s, '\n');
      if i >= MAX_TOKEN then []
      else if i == |s| then [DropCR(s)]
      else [DropCR(s[..i])] + Scanned(s[i + 1..])
  }

  /** No raw line reaches the token limit, so the scanner reaches the end of the input. */
  predicate Readable(s: string)
    decreases |s|
  {
    s == "" ||
    var i := IndexOf(s, '\n');
    i < MAX_TOKEN && (i < |s| ==> Readable(s[i + 1..]))
  }

  class Scanner {
    const input: string
    var pos: nat
    var stopped: bool

    ghost predicate Valid()
      reads this
    {
      pos <= |input|
    }

    /** The lines still to come. */
    ghost function Rest(): seq<string>
      reads this
      requires Valid()
    {
      if stopped then [] else Scanned(input[pos..])
    }

    constructor (input: string)
      ensures Valid() && Rest() == Scanned(input)
    {
      this.input := input;
      pos, stopped := 0, false;
      new;
      assert input[0..] == input;
    }

    /** Delivers the next line, or reports that there is none. */
    method Scan() returns (ok: bool, line: string)
      requires Valid()
      modifies this
      ensures Valid()
      ensures ok ==> old(Rest()) == [line] + Rest()
      ensures !ok ==> old(Rest()) == [] && Rest() == []
      ensures ok ==> |input| - pos < |input| - old(pos)
    {
      if stopped || pos == |input| {
        stopped := true;
        return false, "";
      }
      var end := pos;
      while end < |input| && input[end] != '\n'
        invariant pos <= end <= |input|
        invariant forall k :: pos <= k < end ==> input[k] != '\n'
      {
        end := end + 1;
      }
      ScanAt(input, pos, end);
      if end - pos >= MAX_TOKEN {
        stopped := true;
        return false, "";
      }
      ok, line := true, DropCR(input[pos..end]);
      pos := if end == |input| then end else end + 1;
    }
  }

  lemma ScanAt(s: string, pos: nat, end: nat)
    requires pos < |s| && pos <= end <= |s|
    requires forall k :: pos <= k < end ==> s[k] != '\n'
    requires end < |s| ==> s[end] == '\n'
    ensures end - pos >= MAX_TOKEN ==> Scanned(s[pos..]) == []
    ensures end - pos < MAX_TOKEN ==>
              Scanned(s[pos..]) == [DropCR(s[pos..end])] + Scanned(s[if end == |s| then end else end + 1..])
  {
    var rest := s[pos..];
    assert rest == s[pos..end] + s[end..];
    IndexOfNone(s[pos..end], s[end..], '\n');
    assert rest[..end - pos] == s[pos..end];
    if end < |s| {
      assert rest[end - pos + 1..] == s[end + 1..];
    } else {
      assert rest == s[pos..end];
    }
  }

  /** A line followed by a line feed is scanned before the rest. */
  lemma ScanOne(raw: string, rest: string)
    requires (forall k :: 0 <= k < |raw| ==> raw[k] != '\n') && |raw| < MAX_TOKEN
    ensures Scanned(raw + "\n" + rest) == [DropCR(raw)] + Scanned(rest)
  {
    var s := raw + "\n" + rest;
    assert s[..|raw|] == raw && s[|raw|] == '\n' && s[|raw| + 1..] == rest;
    assert s == raw + ("\n" + rest);
    IndexOfNone(raw, "\n" + rest, '\n');
  }

  /** A line that reaches the token limit ends the scan: nothing from it on is delivered. */
  lemma {:induction false} ScanStopsAtLongLine(before: string, after: string)
    requires before == "" || EndsWith(before, '\n')
    requires Readable(before)
    requires IndexOf(after, '\n') >= MAX_TOKEN
    ensures Scanned(before + after) == Scanned(before)
    decreases |before|
  {
    if before == "" {
      assert before + after == after;
    } else {
      assert before[|before| - 1] == '\n';
      var tail := before[IndexOf(before, '\n') + 1..];
      ScanStopsAtLongLine(tail, after);
      ScanFirst(before, after);
    }
  }

  lemma ScanFirst(before: string, more: string)
    requires IndexOf(before, '\n') < |before| && IndexOf(before, '\n') < MAX_TOKEN
    ensures var i := IndexOf(before, '\n');
            Scanned(before + more) == [DropCR(before[..i])] + Scanned(before[i + 1..] + more)
  {
    var i := IndexOf(before, '\n');
    IndexOfPrefix(before, more, '\n');
    assert (before + more)[..i] == before[..i];
    assert (before + more)[i + 1..] == before[i + 1..] + more;
  }
}
