/** Re-framing preserves the meaning of an event stream. */
module ReframeMeaning {
  import opened Text
  import opened LineScanner
  import opened EventStream
  import opened Reframe
  import opened ReframeLines

  /** Redundant blank lines do not change what is dispatched. */
  lemma {:induction false} RunTrimmed(c: Client, lines: seq<string>, pending: bool)
    requires pending || Settled(c)
    ensures Run(c, Trimmed(lines, pending)) == Run(c, lines)
    decreases |lines|
  {
    if lines != [] {
      var line, rest := lines[0], Trimmed(lines[1..], lines[0] != "");
      DispatchSettles(c);
      RunTrimmed(ProcessLine(c, line), lines[1..], line != "");
      if Mark(line, pending) == [] {
        assert [] + rest == rest;
      } else {
        assert ([line] + rest)[1..] == rest;
      }
    }
  }

  function SkipBlank(lines: seq<string>): seq<string> {
    if lines != [] && lines[0] == "" then SkipBlank(lines[1..]) else lines
  }

  /** Dropping leading blank lines moves no byte order mark to the front. */
  predicate MarkStays(s: string) {
    Scanned(s) != [] && Scanned(s)[0] == "" && SkipBlank(Scanned(s)) != [] ==>
      !HasPrefix(SkipBlank(Scanned(s))[0], BOM)
  }

  /** The streams whose lines re-framing preserves: every line is below the scanner's limit, no boundary
      is hidden, and a byte order mark stays where it is. */
  predicate Faithful(s: string) {
    Readable(s) && !HidesBoundary(Scanned(s)) && MarkStays(s)
  }

  lemma {:induction false} OutputStart(open: seq<string>, lines: seq<string>) returns (rest: string)
    requires open == [] ==> SkipBlank(lines) != []
    ensures var first := if open != [] then open[0] else SkipBlank(lines)[0];
            Concat(Blocks(Chunks(open, lines))) == (first + "\n") + rest
    decreases |lines|
  {
    if open == [] && lines[0] == "" {
      rest := OutputStart(open, lines[1..]);
      assert Chunks(open, lines) == Chunks(open, lines[1..]);
    } else if lines != [] && lines[0] != "" {
      rest := OutputStart(open + [lines[0]], lines[1..]);
      assert (open + [lines[0]])[0] == if open != [] then open[0] else lines[0];
    } else {
      var others := if lines == [] then [] else Chunks([], lines[1..]);
      assert Chunks(open, lines) == [open] + others;
      OutputStep(open, others);
      var more := Concat(Blocks(others));
      BlockStep(open, more);
      rest := if |open| == 1 then "\n" + more else Block(open[1..]) + more;
    }
  }

  lemma BomOfFirstLine(l: string, rest: string)
    ensures HasPrefix((l + "\n") + rest, BOM) <==> HasPrefix(l, BOM)
  {
    var s := (l + "\n") + rest;
    assert s[|l|] == '\n';
    assert forall k :: 0 <= k < |l| ==> s[k] == l[k];
  }

  lemma BomOfInput(s: string)
    requires Readable(s) && s != ""
    ensures Scanned(s) != []
    ensures HasPrefix(s, BOM) <==> HasPrefix(Scanned(s)[0], BOM)
  {
    var i := IndexOf(s, '\n');
    var l := DropCR(s[..i]);
    assert Scanned(s)[0] == l;
    assert forall k :: 0 <= k < |l| ==> s[k] == l[k];
    assert |l| == |s| || s[|l|] == '\r' || s[|l|] == '\n';
  }

  lemma PrefixBreak(p: string, t: string, i: nat)
    requires BreakAt(p) == |p| && i == BreakAt(t) < |t|
    ensures var s := p + t;
            && BreakAt(s) == |p| + i && IsBreak(s[|p| + i]) && s[..|p| + i] == p + t[..i]
            && s[AfterBreak(s, |p| + i)..] == t[AfterBreak(t, i)..]
  {
    var s := p + t;
    BreakAtNone(p, t);
    assert s[|p| + i] == t[i] && (i + 1 < |t| ==> s[|p| + i + 1] == t[i + 1]);
    assert AfterBreak(s, |p| + i) == |p| + AfterBreak(t, i);
  }

  /** Text without a line break in front of other text belongs to its first line. */
  lemma PrefixLine(p: string, t: string)
    requires p != "" && BreakAt(p) == |p|
    ensures Lines(p + t) == if t == "" then [p] else [p + Lines(t)[0]] + Lines(t)[1..]
  {
    var i := BreakAt(t);
    if t == "" {
      assert p + t == p;
    } else if i < |t| {
      PrefixBreak(p, t, i);
      LinesAt(p + t, |p| + i, p + t[..i], t[AfterBreak(t, i)..]);
      LinesAt(t, i, t[..i], t[AfterBreak(t, i)..]);
    } else {
      BreakAtNone(p, t);
    }
  }

  /** A leading byte order mark is taken off the first line. */
  lemma BomLine(c: Client, s: string)
    requires HasPrefix(s, BOM) && Settled(c)
    ensures Lines(s) != [] && HasPrefix(Lines(s)[0], BOM)
    ensures Run(c, Lines(StripBom(s))) ==
            Run(ProcessLine(c, Lines(s)[0][|BOM|..]), Lines(s)[1..])
  {
    var t := s[|BOM|..];
    assert s == BOM + t;
    PrefixLine(BOM, t);
    var first := if t == "" then "" else Lines(t)[0];
    assert Lines(s)[0] == BOM + first && (BOM + first)[|BOM|..] == first;
    assert forall k :: 0 <= k < |BOM| ==> (BOM + first)[k] == BOM[k];
    if t == "" {
      assert Lines(s)[1..] == [];
      DispatchSettles(c);
    } else {
      assert Lines(s)[1..] == Lines(t)[1..];
    }
  }

  /** A client that does not look for a byte order mark sees on the output what it sees on the input
      followed by a blank line. */
  lemma ReframingKeepsRun(s: string)
    requires Readable(s) && !HidesBoundary(Scanned(s))
    ensures Run(INITIAL, Lines(Reframed(s))) == Run(INITIAL, Lines(s) + [""])
  {
    LinesKeptIff(s);
    EssentialOutput(s);
    RunTrimmed(INITIAL, Lines(Reframed(s)), false);
    RunTrimmed(INITIAL, Lines(s) + [""], false);
  }

  /** Re-framing preserves meaning: a client of the re-framed stream ends in exactly the state it
      would reach on the backend's stream followed by a blank line. That blank line dispatches the
      pending event if the backend's stream ends in the middle of one, and nothing otherwise. */
  lemma ReframingPreservesMeaning(s: string)
    requires Faithful(s)
    ensures Interpret(Reframed(s)) == Run(INITIAL, Lines(StripBom(s)) + [""])
  {
    ReframingKeepsRun(s);
    if s == "" {
      assert Reframed(s) == "";
    } else {
      BomOfOutput(s);
      if HasPrefix(s, BOM) {
        MarkedStream(s);
      }
    }
  }

  /** The case of a stream that starts with a byte order mark. */
  lemma MarkedStream(s: string)
    requires Readable(s) && !HidesBoundary(Scanned(s)) && HasPrefix(s, BOM) && HasPrefix(Reframed(s), BOM)
    ensures Interpret(Reframed(s)) == Run(INITIAL, Lines(StripBom(s)) + [""])
  {
    var ins, outs := Lines(s), Lines(Reframed(s));
    LinesKeptIff(s);
    EssentialOutput(s);
    BomLine(INITIAL, s);
    BomLine(INITIAL, Reframed(s));
    SameTails(ins, outs);
    SameRun(ProcessLine(INITIAL, ins[0][|BOM|..]), ins[1..], outs[1..]);
    RunConcat(INITIAL, Lines(StripBom(s)), [""]);
  }

  lemma SameTails(ins: seq<string>, outs: seq<string>)
    requires ins != [] && outs != [] && ins[0] != "" && outs[0] != ""
    requires Essential(ins) == Trimmed(outs, false)
    ensures ins[0] == outs[0] && Trimmed(ins[1..] + [""], true) == Trimmed(outs[1..], true)
  {
    var x, y := Trimmed(ins[1..] + [""], true), Trimmed(outs[1..], true);
    assert ins + [""] == [ins[0]] + (ins[1..] + [""]) && outs == [outs[0]] + outs[1..];
    TrimmedStep(ins[0], ins[1..] + [""], false);
    TrimmedStep(outs[0], outs[1..], false);
    assert ([ins[0]] + x)[0] == ins[0] && ([outs[0]] + y)[0] == outs[0];
    assert ([ins[0]] + x)[1..] == x && ([outs[0]] + y)[1..] == y;
  }

  lemma SameRun(c: Client, ins: seq<string>, outs: seq<string>)
    requires Trimmed(ins + [""], true) == Trimmed(outs, true)
    ensures Run(c, outs) == Run(Run(c, ins), [""])
  {
    RunTrimmed(c, ins + [""], true);
    RunTrimmed(c, outs, true);
    RunConcat(c, ins, [""]);
  }

  lemma BomOfOutput(s: string)
    requires Readable(s) && MarkStays(s) && s != ""
    ensures HasPrefix(Reframed(s), BOM) <==> HasPrefix(s, BOM)
  {
    var lines := Scanned(s);
    BomOfInput(s);
    if SkipBlank(lines) == [] {
      OnlyBlank(lines);
      assert lines[0] == "";
    } else {
      var rest := OutputStart([], lines);
      var first := SkipBlank(lines)[0];
      BomOfFirstLine(first, rest);
    }
  }

  lemma {:induction false} OnlyBlank(lines: seq<string>)
    requires SkipBlank(lines) == []
    ensures Chunks([], lines) == []
  {
    if lines != [] {
      OnlyBlank(lines[1..]);
    }
  }

  /** When the backend's stream ends after a blank line, exactly its own events are dispatched. */
  lemma CompleteStreamKeepsEvents(s: string)
    requires Faithful(s) && Settled(Interpret(s))
    ensures Interpret(Reframed(s)) == Interpret(s)
  {
    ReframingPreservesMeaning(s);
    var c := Interpret(s);
    RunConcat(INITIAL, Lines(StripBom(s)), [""]);
    assert Run(c, [""]) == Run(Dispatch(c), []);
    DispatchSettles(c);
  }
}
