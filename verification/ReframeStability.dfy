/** Re-framing a re-framed stream, streams with an overlong line, and the shape of each write. */
module ReframeStability {
  import opened Text
  import opened LineScanner
  import opened EventStream
  import opened Reframe
  import opened ReframeLines
  import opened ReframeMeaning

  /** A list of lines in which each chunk is followed by a blank line. */
  function Spread(chunks: seq<seq<string>>): seq<string> {
    if chunks == [] then [] else chunks[0] + ([""] + Spread(chunks[1..]))
  }

  function Drops(lines: seq<string>): seq<string> {
    if lines == [] then [] else [DropCR(lines[0])] + Drops(lines[1..])
  }

  /** The number of bytes of lines that are each followed by a line feed. */
  function Size(lines: seq<string>): nat {
    if lines == [] then 0 else |lines[0]| + 1 + Size(lines[1..])
  }

  predicate Short(l: string) {
    NoLineFeed(l) && |l| < MAX_TOKEN
  }

  predicate WellMade(chunks: seq<seq<string>>) {
    forall i :: 0 <= i < |chunks| ==> WellMadeChunk(chunks[i])
  }

  predicate WellMadeChunk(chunk: seq<string>) {
    chunk != [] && forall i :: 0 <= i < |chunk| ==> chunk[i] != "" && Short(chunk[i])
  }

  lemma {:induction false} ScannedAreShort(s: string)
    ensures forall i :: 0 <= i < |Scanned(s)| ==> Short(Scanned(s)[i])
    decreases |s|
  {
    if s != "" {
      var i := IndexOf(s, '\n');
      if i < |s| {
        ScannedAreShort(s[i + 1..]);
      }
    }
  }

  lemma {:induction false} ChunksAreWellMade(open: seq<string>, lines: seq<string>)
    requires open != [] ==> WellMadeChunk(open)
    requires forall i :: 0 <= i < |lines| ==> Short(lines[i])
    ensures WellMade(Chunks(open, lines))
    decreases |lines|
  {
    if lines != [] {
      if lines[0] == "" {
        ChunksAreWellMade([], lines[1..]);
      } else {
        ChunksAreWellMade(open + [lines[0]], lines[1..]);
      }
    }
  }

  lemma {:induction false} ScannedOfBlock(chunk: seq<string>, rest: string)
    requires WellMadeChunk(chunk)
    ensures Scanned(Block(chunk) + rest) == Drops(chunk) + ([""] + Scanned(rest))
    decreases |chunk|
  {
    hide Scanned;
    var end := [""] + Scanned(rest);
    BlockStep(chunk, rest);
    if |chunk| == 1 {
      ScanOne(chunk[0], "\n" + rest);
      ScanOne("", rest);
      assert "" + "\n" == "\n";
      assert Drops(chunk[1..]) == [];
    } else {
      ScanOne(chunk[0], Block(chunk[1..]) + rest);
      ScannedOfBlock(chunk[1..], rest);
    }
    Assoc([DropCR(chunk[0])], Drops(chunk[1..]), end);
  }

  lemma {:induction false} DropsAppend(a: seq<string>, b: seq<string>)
    ensures Drops(a + b) == Drops(a) + Drops(b)
  {
    if a == [] {
      assert a + b == b;
    } else {
      assert (a + b)[1..] == a[1..] + b;
      DropsAppend(a[1..], b);
      Assoc([DropCR(a[0])], Drops(a[1..]), Drops(b));
    }
  }

  lemma {:induction false} ScannedOfBlocks(chunks: seq<seq<string>>)
    requires WellMade(chunks)
    ensures Scanned(Concat(Blocks(chunks))) == Drops(Spread(chunks))
  {
    if chunks != [] {
      var rest := chunks[1..];
      assert chunks == [chunks[0]] + rest;
      OutputStep(chunks[0], rest);
      ScannedOfBlocks(rest);
      ScannedOfBlock(chunks[0], Concat(Blocks(rest)));
      DropsAppend(chunks[0], [""] + Spread(rest));
      assert ([""] + Spread(rest))[1..] == Spread(rest);
    }
  }

  lemma {:induction false} ChunksOfSpread(open: seq<string>, lines: seq<string>, rest: seq<seq<string>>)
    requires WellMadeChunk(open + lines) && WellMade(rest)
    ensures Chunks(open, lines + ([""] + Spread(rest))) == [open + lines] + Chunks([], Spread(rest))
    decreases |lines|
  {
    var all := lines + ([""] + Spread(rest));
    if lines == [] {
      assert all == [""] + Spread(rest);
      assert open + lines == open;
    } else {
      assert all[0] == (open + lines)[|open|];
      assert all[1..] == lines[1..] + ([""] + Spread(rest));
      assert open + [lines[0]] + lines[1..] == open + lines;
      ChunksOfSpread(open + [lines[0]], lines[1..], rest);
    }
  }

  lemma {:induction false} ChunksOfOwnSpread(chunks: seq<seq<string>>)
    requires WellMade(chunks)
    ensures Chunks([], Spread(chunks)) == chunks
  {
    if chunks != [] {
      assert [] + chunks[0] == chunks[0];
      ChunksOfSpread([], chunks[0], chunks[1..]);
      ChunksOfOwnSpread(chunks[1..]);
    }
  }

  /** A line ends with a carriage return even though its terminator has been removed. */
  predicate Dirty(lines: seq<string>) {
    exists i :: 0 <= i < |lines| && EndsWith(lines[i], '\r')
  }

  lemma {:induction false} DropsOfClean(lines: seq<string>)
    ensures !Dirty(lines) ==> Drops(lines) == lines
    ensures Dirty(lines) ==> Size(Drops(lines)) < Size(lines)
    ensures Size(Drops(lines)) <= Size(lines)
  {
    if lines != [] {
      DropsOfClean(lines[1..]);
      assert Dirty(lines) ==> EndsWith(lines[0], '\r') || Dirty(lines[1..]) by {
        if Dirty(lines) {
          var i :| 0 <= i < |lines| && EndsWith(lines[i], '\r');
          assert i == 0 || lines[1..][i - 1] == lines[i];
        }
      }
      assert Dirty(lines[1..]) ==> Dirty(lines) by {
        if Dirty(lines[1..]) {
          var i :| 0 <= i < |lines[1..]| && EndsWith(lines[1..][i], '\r');
          assert lines[i + 1] == lines[1..][i];
        }
      }
      assert Drops(lines)[1..] == Drops(lines[1..]);
    }
  }

  /** Chunking only removes and adds blank lines. */
  lemma {:induction false} SpreadKeepsLines(open: seq<string>, lines: seq<string>, l: string)
    requires l != ""
    ensures l in Spread(Chunks(open, lines)) <==> l in open || l in lines
    decreases |lines|
  {
    if lines == [] {
      assert open != [] ==> Spread([open]) == open + ([""] + []);
    } else if lines[0] == "" {
      SpreadKeepsLines([], lines[1..], l);
      var rest := Chunks([], lines[1..]);
      if open != [] {
        assert Chunks(open, lines) == [open] + rest;
        assert Spread([open] + rest) == open + ([""] + Spread(rest));
      } else {
        assert Chunks(open, lines) == rest;
      }
    } else {
      SpreadKeepsLines(open + [lines[0]], lines[1..], l);
    }
  }

  lemma {:induction false} SizeAppend(a: seq<string>, b: seq<string>)
    ensures Size(a + b) == Size(a) + Size(b)
  {
    if a == [] {
      assert a + b == b;
    } else {
      assert (a + b)[1..] == a[1..] + b;
      SizeAppend(a[1..], b);
    }
  }

  lemma {:induction false} BlockSize(chunk: seq<string>)
    requires chunk != []
    ensures |Block(chunk)| == Size(chunk) + 1
  {
    if |chunk| > 1 {
      BlockSize(chunk[1..]);
    }
  }

  lemma {:induction false} BlocksSize(chunks: seq<seq<string>>)
    requires WellMade(chunks)
    ensures |Concat(Blocks(chunks))| == Size(Spread(chunks))
  {
    if chunks != [] {
      assert chunks == [chunks[0]] + chunks[1..];
      OutputStep(chunks[0], chunks[1..]);
      BlockSize(chunks[0]);
      BlocksSize(chunks[1..]);
      SizeAppend(chunks[0], [""] + Spread(chunks[1..]));
    }
  }

  /** The output is no longer than the lines it is made of, provided these end with a blank one. */
  lemma {:induction false} OutputSize(open: seq<string>, lines: seq<string>)
    ensures |Concat(Blocks(Chunks(open, lines)))| <=
            Size(open) + Size(lines) + (if lines != [] && lines[|lines| - 1] == "" then 0 else 1)
    decreases |lines|
  {
    if lines == [] {
      if open != [] {
        OutputStep(open, []);
        assert [open] + [] == [open];
        BlockSize(open);
      }
    } else if lines[0] == "" {
      OutputSize([], lines[1..]);
      var rest := Chunks([], lines[1..]);
      if open != [] {
        assert Chunks(open, lines) == [open] + rest;
        OutputStep(open, rest);
        BlockSize(open);
      } else {
        assert Chunks(open, lines) == rest;
      }
      if lines[1..] == [] {
        assert Concat(Blocks(rest)) == "";
      }
    } else {
      OutputSize(open + [lines[0]], lines[1..]);
      SizeAppend(open, [lines[0]]);
    }
  }

  /** Re-framing twice is the same as re-framing once, exactly when no scanned line still ends with
      a carriage return. */
  lemma ReframingIsIdempotent(s: string)
    ensures Reframed(Reframed(s)) == Reframed(s) <==> !Dirty(Scanned(s))
  {
    var lines := Scanned(s);
    var chunks := Chunks([], lines);
    ScannedAreShort(s);
    ChunksAreWellMade([], lines);
    ScannedOfBlocks(chunks);
    var spread := Spread(chunks);
    DropsOfClean(spread);
    SameDirt(lines);
    if Dirty(lines) {
      BlocksSize(chunks);
      OutputSize([], Drops(spread));
      SpreadEndsBlank(chunks);
    } else {
      ChunksOfOwnSpread(chunks);
    }
  }

  lemma SameDirt(lines: seq<string>)
    ensures Dirty(Spread(Chunks([], lines))) <==> Dirty(lines)
  {
    var spread := Spread(Chunks([], lines));
    if Dirty(lines) {
      var i :| 0 <= i < |lines| && EndsWith(lines[i], '\r');
      SpreadKeepsLines([], lines, lines[i]);
      var j :| 0 <= j < |spread| && spread[j] == lines[i];
    }
    if Dirty(spread) {
      var j :| 0 <= j < |spread| && EndsWith(spread[j], '\r');
      SpreadKeepsLines([], lines, spread[j]);
      var i :| 0 <= i < |lines| && spread[j] == lines[i];
    }
  }

  lemma {:induction false} SpreadEndsBlank(chunks: seq<seq<string>>)
    ensures chunks != [] ==> Spread(chunks) != [] && Drops(Spread(chunks)) != []
    ensures chunks != [] ==> Drops(Spread(chunks))[|Drops(Spread(chunks))| - 1] == ""
    ensures chunks == [] ==> Spread(chunks) == []
  {
    if chunks != [] {
      var rest := chunks[1..];
      SpreadEndsBlank(rest);
      DropsAppend(chunks[0], [""] + Spread(rest));
      assert Drops([""] + Spread(rest)) == [""] + Drops(Spread(rest)) by {
        assert ([""] + Spread(rest))[1..] == Spread(rest);
      }
    }
  }

  /** A line that reaches the scanner's limit silently ends the response: it and everything after it
      is neither sent nor cached. */
  lemma OverlongLineTruncates(before: string, after: string)
    requires Faithful(before) && Settled(Interpret(before))
    requires before == "" || EndsWith(before, '\n')
    requires IndexOf(after, '\n') >= MAX_TOKEN
    ensures Reframed(before + after) == Reframed(before)
    ensures Interpret(Reframed(before + after)) == Interpret(before)
  {
    ScanStopsAtLongLine(before, after);
    CompleteStreamKeepsEvents(before);
  }

  /** A write is whole when it consists of complete lines, the last of them blank. */
  predicate Whole(text: string) {
    text == "" || (EndsWith(text, '\n') && Lines(text)[|Lines(text)| - 1] == "")
  }

  lemma BlockIsWhole(chunk: seq<string>)
    requires chunk != []
    ensures Whole(Block(chunk))
  {
    LinesOfBlock(chunk, "");
    assert Block(chunk) + "" == Block(chunk);
    assert Lines("") == [];
  }

  /** Every write made for a backend stream is whole. */
  lemma WritesAreWhole(s: string, i: nat)
    requires i < |Writes(s)|
    ensures Whole(Writes(s)[i])
  {
    var chunks := Chunks([], Scanned(s));
    ScannedAreShort(s);
    ChunksAreWellMade([], Scanned(s));
    BlocksAt(chunks, i);
    BlockIsWhole(chunks[i]);
  }

  lemma {:induction false} BlocksAt(chunks: seq<seq<string>>, i: nat)
    ensures |Blocks(chunks)| == |chunks|
    ensures i < |chunks| ==> Blocks(chunks)[i] == Block(chunks[i])
  {
    if chunks != [] {
      BlocksAt(chunks[1..], if i > 0 then i - 1 else 0);
    }
  }

  /** The smallest streams with a hidden boundary: for a client a blank line separates `l` from `m`, which
      the scanner does not see, so that the re-framed stream joins the events they belong to. */
  lemma DoubleCarriageReturnLosesBoundary(l: string, m: string)
    requires Clean(l) && Clean(m) && l != "" && StartsText(m)
    requires |l| + 2 < MAX_TOKEN && |m| < MAX_TOKEN
    ensures var s := (l + "\r\r" + "\n") + (m + "\n" + "\n");
            && Lines(s) == (Sub(l) + [""]) + (Sub(m) + [""])
            && Lines(Reframed(s)) == (Sub(l) + Sub(m)) + [""]
            && Essential(Lines(Reframed(s))) != Essential(Lines(s))
  {
    var s := (l + "\r\r" + "\n") + (m + "\n" + "\n");
    var lines := [l + "\r", m, ""];
    ScannedPair(l, m);
    PairIsReadable(l, m);
    LinesOfScanned(s);
    LinesOfOutput([], lines);
    LinesOfPair(l, m);
    assert Subs([]) + Kept(lines, false) == Kept(lines, false);
    assert Hides(lines[0]) && StartsText(lines[0 + 1]);
    LinesKeptIff(s);
  }

  lemma PairIsReadable(l: string, m: string)
    requires NoLineFeed(l) && NoLineFeed(m) && |l| + 2 < MAX_TOKEN && |m| < MAX_TOKEN
    ensures Readable((l + "\r\r" + "\n") + (m + "\n" + "\n"))
  {
    ReadableLine("", "");
    assert "" + "\n" + "" == "\n";
    ReadableLine(m, "\n");
    ReadableLine(l + "\r\r", m + "\n" + "\n");
  }

  lemma ReadableLine(raw: string, rest: string)
    requires NoLineFeed(raw) && |raw| < MAX_TOKEN && Readable(rest)
    ensures Readable((raw + "\n") + rest)
  {
    var s := (raw + "\n") + rest;
    assert s == raw + ("\n" + rest) && s[|raw| + 1..] == rest;
    IndexOfNone(raw, "\n" + rest, '\n');
  }

  lemma LinesOfPair(l: string, m: string)
    requires Clean(l) && Clean(m) && l != "" && m != ""
    ensures Read([l + "\r", m, ""]) == (Sub(l) + [""]) + (Sub(m) + [""])
    ensures Kept([l + "\r", m, ""], false) == (Sub(l) + Sub(m)) + [""]
  {
    var lines := [l + "\r", m, ""];
    assert lines[1..] == [m, ""] && [m, ""][1..] == [""] && [""][1..] == [];
    TerminatorsAgree(l, "\r\n");
    assert (l + "\r") + "\n" == l + "\r\n";
    SubNonEmpty("");
    assert Read([""]) == [""] + [] + [];
    assert Read([m, ""]) == (Sub(m) + []) + [""];
    assert Kept([""], true) == [""] + [];
    assert Kept([m, ""], true) == Sub(m) + [""];
    Assoc(Sub(l), Sub(m), [""]);
  }

  lemma ScannedPair(l: string, m: string)
    requires NoLineFeed(l) && Clean(m)
    requires |l| + 2 < MAX_TOKEN && |m| < MAX_TOKEN
    ensures Scanned((l + "\r\r" + "\n") + (m + "\n" + "\n")) == [l + "\r", m, ""]
  {
    var raw := l + "\r\r";
    assert DropCR(raw) == l + "\r" by { assert raw[..|l| + 1] == l + "\r"; }
    ScanOne(raw, m + "\n" + "\n");
    assert DropCR(m) == m;
    ScanOne(m, "\n");
    ScanOne("", "");
    assert "" + "\n" + "" == "\n";
  }

}
