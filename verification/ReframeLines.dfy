/** What re-framing does to the lines a client reads: it drops redundant blank lines, adds a final one, and
    loses exactly those blank lines that a carriage return before a line break hides from the scanner. */
module ReframeLines {
  import opened Text
  import opened LineScanner
  import opened EventStream
  import opened Reframe

  /** The lines of a stream as a standard parser sees them, scanned line by scanned line: a lone
      carriage return inside a scanned line is a further line break. */
  function Sub(l: string): seq<string> {
    Lines(l + "\n")
  }

  function Subs(lines: seq<string>): seq<string> {
    if lines == [] then [] else Sub(lines[0]) + Subs(lines[1..])
  }

  lemma {:induction false} SubsAppend(a: seq<string>, b: seq<string>)
    ensures Subs(a + b) == Subs(a) + Subs(b)
  {
    if a == [] {
      assert a + b == b;
    } else {
      assert (a + b)[1..] == a[1..] + b;
      SubsAppend(a[1..], b);
    }
  }

  predicate NoLineFeed(l: string) {
    forall k :: 0 <= k < |l| ==> l[k] != '\n'
  }

  predicate Clean(l: string) {
    NoLineFeed(l) && !EndsWith(l, '\r')
  }

  lemma SubNonEmpty(l: string)
    ensures Sub(l) != []
    ensures l == "" ==> Sub(l) == [""]
  {
    if l == "" {
      LineFeedEnds(l);
      assert l + "\n" == "\n";
    }
  }

  /** What the standard parser sees of the re-framed stream: no redundant blank line, and one
      blank line at the end. `pending` says that an event has been started. */
  function Kept(lines: seq<string>, pending: bool): seq<string> {
    if lines == [] then (if pending then [""] else [])
    else if lines[0] == "" then (if pending then [""] else []) + Kept(lines[1..], false)
    else Sub(lines[0]) + Kept(lines[1..], true)
  }

  lemma Assoc<T>(a: seq<T>, b: seq<T>, c: seq<T>)
    ensures (a + b) + c == a + (b + c)
  {}

  lemma LinesOfLine(l: string, rest: string)
    ensures Lines((l + "\n") + rest) == Sub(l) + Lines(rest)
  {
    LinesConcat(l + "\n", rest);
  }

  lemma LinesOfBlank(rest: string)
    ensures Lines("\n" + rest) == [""] + Lines(rest)
  {
    SubNonEmpty("");
    assert "" + "\n" == "\n";
    LinesOfLine("", rest);
  }

  lemma BlockStep(chunk: seq<string>, rest: string)
    requires chunk != []
    ensures Block(chunk) + rest ==
            (chunk[0] + "\n") + (if |chunk| == 1 then "\n" + rest else Block(chunk[1..]) + rest)
  {
    var l := chunk[0];
    if |chunk| == 1 {
      assert (l + "\n\n") + rest == (l + "\n") + ("\n" + rest);
    } else {
      var more := Join(chunk[1..], "\n");
      assert ((l + "\n" + more) + "\n\n") + rest == (l + "\n") + ((more + "\n\n") + rest);
    }
  }

  lemma {:induction false} LinesOfBlock(chunk: seq<string>, rest: string)
    requires chunk != []
    ensures Lines(Block(chunk) + rest) == Subs(chunk) + ([""] + Lines(rest))
    decreases |chunk|
  {
    var end := [""] + Lines(rest);
    var more := if |chunk| == 1 then "\n" + rest else Block(chunk[1..]) + rest;
    BlockStep(chunk, rest);
    assert Lines(more) == Subs(chunk[1..]) + end by {
      if |chunk| == 1 {
        LinesOfBlank(rest);
        assert Subs(chunk[1..]) == [] && [] + end == end;
      } else {
        LinesOfBlock(chunk[1..], rest);
      }
    }
    LinesOfLine(chunk[0], more);
    Assoc(Sub(chunk[0]), Subs(chunk[1..]), end);
  }

  lemma OutputStep(chunk: seq<string>, rest: seq<seq<string>>)
    ensures Concat(Blocks([chunk] + rest)) == Block(chunk) + Concat(Blocks(rest))
  {
    assert ([chunk] + rest)[1..] == rest;
    assert Blocks([chunk] + rest) == [Block(chunk)] + Blocks(rest);
    assert ([Block(chunk)] + Blocks(rest))[1..] == Blocks(rest);
  }

  lemma {:induction false} LinesOfOutput(open: seq<string>, lines: seq<string>)
    ensures Lines(Concat(Blocks(Chunks(open, lines)))) == Subs(open) + Kept(lines, open != [])
    decreases |lines|
  {
    if lines == [] {
      if open != [] {
        OutputStep(open, []);
        assert [open] + [] == [open];
        LinesOfBlock(open, "");
        assert [""] + Lines("") == [""];
      }
    } else if lines[0] != "" {
      LinesOfOutput(open + [lines[0]], lines[1..]);
      SubsAppend(open, [lines[0]]);
      assert Subs([lines[0]]) == Sub(lines[0]) + Subs([]) == Sub(lines[0]);
      Assoc(Subs(open), Sub(lines[0]), Kept(lines[1..], true));
    } else {
      LinesOfOutput([], lines[1..]);
      var rest := Chunks([], lines[1..]);
      assert Subs([]) + Kept(lines[1..], false) == Kept(lines[1..], false);
      if open != [] {
        OutputStep(open, rest);
        LinesOfBlock(open, Concat(Blocks(rest)));
      } else {
        assert Chunks(open, lines) == rest;
      }
    }
  }


  // ----- the lines of the input -----

  lemma LinesAt(s: string, i: nat, head: string, tail: string)
    requires i == BreakAt(s) < |s| && s[..i] == head && s[AfterBreak(s, i)..] == tail
    ensures Lines(s) == [head] + Lines(tail)
  {}

  /** At the end of a text it makes no difference whether a carriage return is followed by a line feed. */
  lemma {:induction false} FeedAfterReturn(x: string)
    requires NoLineFeed(x)
    ensures Lines(x + "\r\n") == Lines(x + "\r")
    decreases |x|
  {
    var i := BreakAt(x);
    if i == |x| {
      BreakAtNone(x, "\r\n");
      BreakAtNone(x, "\r");
      assert BreakAt("\r\n") == 0 && BreakAt("\r") == 0;
      var s, t := x + "\r\n", x + "\r";
      assert s[|x|] == '\r' && s[|x| + 1] == '\n' && t[|x|] == '\r';
      assert s[..|x|] == x == t[..|x|];
      assert s[AfterBreak(s, |x|)..] == "" == t[AfterBreak(t, |x|)..];
    } else {
      var y := x[i + 1..];
      assert x[i] == '\r';
      BreakInside(x, "\r\n", i);
      BreakInside(x, "\r", i);
      FeedAfterReturn(y);
    }
  }

  /** A carriage return inside a text that is not followed by a line feed. */
  lemma BreakInside(x: string, t: string, i: nat)
    requires i == BreakAt(x) < |x| && x[i] == '\r'
    requires if i + 1 < |x| then x[i + 1] != '\n' else t == "" || t[0] != '\n'
    ensures Lines(x + t) == [x[..i]] + Lines(x[i + 1..] + t)
  {
    BreakAtPrefix(x, t);
    var s := x + t;
    assert s[i] == '\r';
    assert i + 1 < |x| ==> s[i + 1] == x[i + 1];
    assert i + 1 == |x| && t != "" ==> s[i + 1] == t[0];
    assert AfterBreak(s, i) == i + 1;
    CutConcat(x, t, i);
    CutConcat(x, t, i + 1);
    LinesAt(s, i, x[..i], x[i + 1..] + t);
  }

  /** A line without carriage return at its end reads the same, however it is terminated. */
  lemma {:induction false} TerminatorsAgree(l: string, t: string)
    requires Clean(l)
    requires t == "\n" || t == "\r\n" || t == "\r" || (t == "" && l != "")
    ensures Lines(l + t) == Sub(l)
    decreases |l|
  {
    var i := BreakAt(l);
    if i == |l| {
      BreakAtNone(l, t);
      LineFeedEnds(l);
      var s := l + t;
      if t != "" {
        assert s[..i] == l && s[AfterBreak(s, i)..] == "";
      } else {
        assert s == l;
      }
    } else {
      assert l[i] == '\r' && i + 1 < |l|;
      BreakInside(l, t, i);
      BreakInside(l, "\n", i);
      TerminatorsAgree(l[i + 1..], t);
    }
  }

  /** The blank line hidden behind a carriage return that the scanner left at a line's end. */
  function Hidden(l: string): seq<string> {
    if EndsWith(l, '\r') then [""] else []
  }

  /** The lines a client reads in what the scanner delivers as `lines`. */
  function Read(lines: seq<string>): seq<string> {
    if lines == [] then [] else (Sub(lines[0]) + Hidden(lines[0])) + Read(lines[1..])
  }

  lemma HiddenLine(end: string)
    requires end == "\n" || end == ""
    ensures Lines("\r" + end) == [""]
  {
    TerminatorsAgree("", "\r");
    FeedAfterReturn("");
    SubNonEmpty("");
    assert "" + "\r" == "\r" == "\r" + "" && "" + "\r\n" == "\r" + "\n";
  }

  lemma FirstOfTwo(x: string, end: string)
    requires BreakAt(x) == |x|
    ensures Lines(x + ("\r" + end)) == [x] + Lines(if end != "" && end[0] == '\n' then end[1..] else end)
  {
    var t := "\r" + end;
    var s := x + t;
    BreakAtNone(x, t);
    assert BreakAt(t) == 0;
    assert s[|x|] == t[0] && (end != "" ==> s[|x| + 1] == t[1] == end[0]);
    LinesAt(s, |x|, x, if end != "" && end[0] == '\n' then end[1..] else end);
  }

  /** The first of two carriage returns ends a line, the second one a blank line. */
  lemma {:induction false} TwoReturns(x: string, end: string)
    requires NoLineFeed(x) && (end == "\n" || end == "")
    ensures Lines(x + ("\r" + ("\r" + end))) == Lines(x + "\r") + [""]
    decreases |x|
  {
    var i := BreakAt(x);
    if i == |x| {
      FirstOfTwo(x, "\r" + end);
      FirstOfTwo(x, "");
      HiddenLine(end);
      assert "\r" + "" == "\r" && Lines("") == [];
    } else {
      BreakInside(x, "\r" + ("\r" + end), i);
      BreakInside(x, "\r", i);
      TwoReturns(x[i + 1..], end);
      Assoc([x[..i]], Lines(x[i + 1..] + "\r"), [""]);
    }
  }

  lemma DirtyLine(l: string, end: string)
    requires NoLineFeed(l) && EndsWith(l, '\r') && (end == "\n" || end == "")
    ensures Lines(l + ("\r" + end)) == Sub(l) + [""]
  {
    var x := l[..|l| - 1];
    assert l == x + "\r" && l + "\n" == x + "\r\n";
    assert l + ("\r" + end) == x + ("\r" + ("\r" + end));
    TwoReturns(x, end);
    FeedAfterReturn(x);
  }

  /** A raw line reads as the scanned line and the blank line it may hide. */
  lemma RawLine(raw: string, end: string)
    requires NoLineFeed(raw) && (end == "\n" || (end == "" && raw != ""))
    ensures Lines(raw + end) == Sub(DropCR(raw)) + Hidden(DropCR(raw))
  {
    var l := DropCR(raw);
    if EndsWith(l, '\r') {
      assert raw == l + "\r";
      assert raw + end == l + ("\r" + end);
      DirtyLine(l, end);
    } else {
      var t := if EndsWith(raw, '\r') then "\r" else "";
      assert raw == l + t && raw + end == l + (t + end);
      TerminatorsAgree(l, t + end);
      assert Sub(l) + [] == Sub(l);
    }
  }

  lemma ReadOne(l: string, rest: seq<string>)
    ensures Read([l] + rest) == (Sub(l) + Hidden(l)) + Read(rest)
  {
    assert ([l] + rest)[1..] == rest;
  }

  lemma SplitAt(s: string, i: nat)
    requires i <= |s| && (i < |s| ==> s[i] == '\n')
    ensures s == if i == |s| then s[..i] + "" else (s[..i] + "\n") + s[i + 1..]
  {}

  lemma ScannedLast(s: string)
    requires s != "" && IndexOf(s, '\n') == |s| < MAX_TOKEN
    ensures Scanned(s) == [DropCR(s)] + []
  {}

  lemma ScannedMore(s: string, i: nat)
    requires s != "" && IndexOf(s, '\n') == i < |s| && i < MAX_TOKEN
    ensures Scanned(s) == [DropCR(s[..i])] + Scanned(s[i + 1..])
  {
    hide DropCR, IndexOf;
  }

  lemma {:induction false} LinesOfScanned(s: string)
    requires Readable(s)
    ensures Lines(s) == Read(Scanned(s))
    decreases |s|
  {
    if s != "" {
      var i := IndexOf(s, '\n');
      SplitAt(s, i);
      if i == |s| {
        assert s[..i] == s;
        ScannedLast(s);
        ReadOne(DropCR(s), []);
        RawLine(s, "");
        assert Read([]) == [] && Lines(s) + [] == Lines(s);
      } else {
        var raw, rest := s[..i], s[i + 1..];
        ScannedMore(s, i);
        ReadOne(DropCR(raw), Scanned(rest));
        LinesConcat(raw + "\n", rest);
        RawLine(raw, "\n");
        LinesOfScanned(rest);
      }
    }
  }

  // ----- redundant blank lines -----

  function Mark(line: string, pending: bool): seq<string> {
    if line == "" && !pending then [] else [line]
  }

  /** Leaves out the blank lines that dispatch nothing; `pending` says that a line came since the last blank
      one. */
  function Trimmed(lines: seq<string>, pending: bool): seq<string> {
    if lines == [] then [] else Mark(lines[0], pending) + Trimmed(lines[1..], lines[0] != "")
  }

  function Ends(lines: seq<string>, pending: bool): bool {
    if lines == [] then pending else lines[|lines| - 1] != ""
  }

  /** The lines of a stream up to redundant blank lines and a final one. */
  function Essential(lines: seq<string>): seq<string> {
    Trimmed(lines + [""], false)
  }

  lemma TrimmedStep(line: string, rest: seq<string>, pending: bool)
    ensures Trimmed([line] + rest, pending) == Mark(line, pending) + Trimmed(rest, line != "")
  {
    assert ([line] + rest)[1..] == rest;
  }

  lemma {:induction false} TrimmedConcat(a: seq<string>, b: seq<string>, pending: bool)
    ensures Trimmed(a + b, pending) == Trimmed(a, pending) + Trimmed(b, Ends(a, pending))
  {
    if a == [] {
      assert a + b == b;
    } else {
      var line, rest := a[0], a[1..];
      assert a + b == [line] + (rest + b);
      TrimmedStep(line, rest + b, pending);
      TrimmedConcat(rest, b, line != "");
      assert Ends(rest, line != "") == Ends(a, pending);
      Assoc(Mark(line, pending), Trimmed(rest, line != ""), Trimmed(b, Ends(a, pending)));
    }
  }

  /** What the output keeps is what is essential in the scanned lines. */
  lemma {:induction false} KeptTrims(lines: seq<string>, open: bool, pending: bool)
    requires pending ==> open
    ensures Trimmed(Kept(lines, open), pending) == Trimmed(Subs(lines) + [""], pending)
    decreases |lines|
  {
    if lines == [] {
      assert Subs(lines) + [""] == [""];
    } else {
      var first, rest := Sub(lines[0]), Subs(lines[1..]) + [""];
      assert Subs(lines) + [""] == first + rest;
      SubNonEmpty(lines[0]);
      if lines[0] == "" {
        var kept := Kept(lines[1..], false);
        KeptTrims(lines[1..], false, false);
        TrimmedConcat([""], rest, pending);
        TrimmedConcat(if open then [""] else [], kept, pending);
      } else {
        var kept := Kept(lines[1..], true);
        KeptTrims(lines[1..], true, Ends(first, pending));
        TrimmedConcat(first, rest, pending);
        TrimmedConcat(first, kept, pending);
      }
    }
  }

  lemma {:induction false} KeptEndsBlank(lines: seq<string>, open: bool)
    ensures Kept(lines, open) != [] ==> Kept(lines, open)[|Kept(lines, open)| - 1] == ""
    ensures open ==> Kept(lines, open) != []
    decreases |lines|
  {
    if lines != [] {
      KeptEndsBlank(lines[1..], lines[0] != "");
    }
  }

  lemma EssentialOutput(s: string)
    ensures Essential(Lines(Reframed(s))) == Trimmed(Lines(Reframed(s)), false)
    ensures Essential(Lines(Reframed(s))) == Essential(Subs(Scanned(s)))
  {
    var lines := Scanned(s);
    var kept := Kept(lines, false);
    LinesOfOutput([], lines);
    assert Subs([]) + kept == kept;
    KeptTrims(lines, false, false);
    KeptEndsBlank(lines, false);
    TrimmedConcat(kept, [""], false);
    assert Trimmed(kept, false) + [] == Trimmed(kept, false);
  }

  // ----- the hidden blank lines -----

  /** A scanned line that ends with one carriage return of several bytes hides a blank line that is not
      redundant. */
  predicate Hides(l: string) {
    |l| >= 2 && l[|l| - 1] == '\r' && l[|l| - 2] != '\r'
  }

  predicate StartsText(l: string) {
    l != "" && l[0] != '\r'
  }

  /** The hidden blank line matters if more text follows on the next line. */
  predicate HidesBoundary(lines: seq<string>) {
    exists i :: 0 <= i && i + 1 < |lines| && Hides(lines[i]) && StartsText(lines[i + 1])
  }

  /** How many boundaries are hidden. */
  function Lost(lines: seq<string>): nat {
    if |lines| < 2 then 0
    else (if Hides(lines[0]) && StartsText(lines[1]) then 1 else 0) + Lost(lines[1..])
  }

  lemma {:induction false} LostIff(lines: seq<string>)
    ensures Lost(lines) == 0 <==> !HidesBoundary(lines)
  {
    if |lines| >= 2 {
      var rest := lines[1..];
      LostIff(rest);
      if HidesBoundary(lines) {
        var i :| 0 <= i && i + 1 < |lines| && Hides(lines[i]) && StartsText(lines[i + 1]);
        assert i > 0 ==> rest[i - 1] == lines[i] && rest[i] == lines[i + 1];
      }
      if HidesBoundary(rest) {
        var i :| 0 <= i && i + 1 < |rest| && Hides(rest[i]) && StartsText(rest[i + 1]);
        assert rest[i] == lines[i + 1] && rest[i + 1] == lines[i + 2];
      }
    }
  }

  lemma LastReturn(l: string)
    requires l != "" && BreakAt(l) == |l| - 1 && l[|l| - 1] == '\r'
    ensures Sub(l) == [l[..|l| - 1]]
  {
    var s, i := l + "\n", |l| - 1;
    BreakAtPrefix(l, "\n");
    assert BreakAt(s) == i && s[i] == '\r' && s[i + 1] == '\n';
    assert s[..i] == l[..i] && AfterBreak(s, i) == |s| && s[|s|..] == "";
    assert Lines(s) == [s[..i]] + Lines("");
  }

  /** Which ends of a scanned line's own lines are blank. */
  lemma {:induction false} SubEnds(l: string)
    requires NoLineFeed(l)
    ensures Sub(l) != [] && (Sub(l)[0] != "" <==> StartsText(l))
    ensures Sub(l)[|Sub(l)| - 1] != "" <==> l != "" && (EndsWith(l, '\r') ==> Hides(l))
    decreases |l|
  {
    var i := BreakAt(l);
    if i == |l| {
      LineFeedEnds(l);
    } else if i + 1 == |l| {
      LastReturn(l);
    } else {
      var rest := l[i + 1..];
      BreakInside(l, "\n", i);
      SubEnds(rest);
      assert rest[|rest| - 1] == l[|l| - 1];
      assert |rest| >= 2 ==> rest[|rest| - 2] == l[|l| - 2];
      assert |rest| == 1 ==> l[|l| - 2] == l[i] == '\r';
    }
  }

  /** A blank line put before some lines matters exactly when these start with text. */
  lemma BlankBefore(lines: seq<string>)
    requires lines != []
    ensures Trimmed(lines, true) == if lines[0] == "" then [""] + Trimmed(lines, false) else Trimmed(lines, false)
  {}

  lemma FirstOfSubs(lines: seq<string>)
    requires forall i :: 0 <= i < |lines| ==> NoLineFeed(lines[i])
    ensures (Subs(lines) + [""])[0] != "" <==> lines != [] && StartsText(lines[0])
  {
    if lines != [] {
      SubEnds(lines[0]);
    }
  }

  lemma SubsStep(lines: seq<string>, pending: bool)
    requires lines != []
    ensures var first := Sub(lines[0]);
            Trimmed(Subs(lines) + [""], pending) ==
            Trimmed(first, pending) + Trimmed(Subs(lines[1..]) + [""], Ends(first, pending))
  {
    var first, rest := Sub(lines[0]), Subs(lines[1..]);
    Assoc(first, rest, [""]);
    TrimmedConcat(first, rest + [""], pending);
  }

  lemma ReadStep(lines: seq<string>, pending: bool)
    requires lines != []
    ensures var first, read := Sub(lines[0]), Read(lines[1..]) + [""];
            var p := Ends(first, pending);
            Trimmed(Read(lines) + [""], pending) ==
            Trimmed(first, pending) + if !EndsWith(lines[0], '\r') then Trimmed(read, p)
                                      else (if p then [""] else []) + Trimmed(read, false)
  {
    var first, hidden, read := Sub(lines[0]), Hidden(lines[0]), Read(lines[1..]);
    Assoc(first + hidden, read, [""]);
    Assoc(first, hidden, read + [""]);
    TrimmedConcat(first, hidden + (read + [""]), pending);
    if EndsWith(lines[0], '\r') {
      assert ([""] + (read + [""]))[1..] == read + [""];
    } else {
      assert [] + (read + [""]) == read + [""];
    }
  }

  lemma {:induction false} LostBoundaries(lines: seq<string>, pending: bool)
    requires forall i :: 0 <= i < |lines| ==> NoLineFeed(lines[i])
    ensures |Trimmed(Read(lines) + [""], pending)| == |Trimmed(Subs(lines) + [""], pending)| + Lost(lines)
    ensures Lost(lines) == 0 ==> Trimmed(Read(lines) + [""], pending) == Trimmed(Subs(lines) + [""], pending)
    decreases |lines|
  {
    if lines != [] {
      var l, rest := lines[0], lines[1..];
      var p := Ends(Sub(l), pending);
      SubEnds(l);
      SubsStep(lines, pending);
      ReadStep(lines, pending);
      if EndsWith(l, '\r') {
        LostBoundaries(rest, false);
        FirstOfSubs(rest);
        BlankBefore(Subs(rest) + [""]);
        assert Hides(l) <==> p;
        assert !p ==> [] + Trimmed(Read(rest) + [""], false) == Trimmed(Read(rest) + [""], false);
      } else {
        LostBoundaries(rest, p);
      }
    }
  }

  lemma {:induction false} ScannedHaveNoFeed(s: string)
    ensures forall i :: 0 <= i < |Scanned(s)| ==> NoLineFeed(Scanned(s)[i])
    decreases |s|
  {
    if s != "" {
      var i := IndexOf(s, '\n');
      if i < |s| {
        ScannedHaveNoFeed(s[i + 1..]);
      }
    }
  }

  /** For every stream the scanner can read to its end, the output has the lines of the input, up to
      redundant blank lines and a final one, exactly when no boundary is hidden: no scanned line that still
      ends with a carriage return after text is directly followed by a line of text. */
  lemma LinesKeptIff(s: string)
    requires Readable(s)
    ensures Essential(Lines(Reframed(s))) == Essential(Lines(s)) <==> !HidesBoundary(Scanned(s))
    ensures |Essential(Lines(s))| == |Essential(Lines(Reframed(s)))| + Lost(Scanned(s))
  {
    var lines := Scanned(s);
    EssentialOutput(s);
    LinesOfScanned(s);
    ScannedHaveNoFeed(s);
    LostBoundaries(lines, false);
    LostIff(lines);
  }
}
