/** Which payloads survive being written after a single `data:` field name. */
module StreamPayload {
  import opened Text
  import opened EventStream
  import opened StreamMessages
  import opened StreamFraming

  /** The number of bytes that are not part of a line break. */
  function Solid(s: string): nat {
    if s == "" then 0 else (if IsBreak(s[0]) then 0 else 1) + Solid(s[1..])
  }

  lemma {:induction false} SolidConcat(a: string, b: string)
    ensures Solid(a + b) == Solid(a) + Solid(b)
    ensures Solid(a) <= |a|
  {
    if a == "" {
      assert a + b == b;
    } else {
      assert (a + b)[1..] == a[1..] + b;
      SolidConcat(a[1..], b);
    }
  }

  function TotalLength(lines: seq<string>): nat {
    if lines == [] then 0 else |lines[0]| + TotalLength(lines[1..])
  }

  lemma {:induction false} LinesAreSolid(s: string)
    ensures TotalLength(Lines(s)) <= Solid(s)
    decreases |s|
  {
    if s != "" {
      var i := BreakAt(s);
      AllSolid(s[..i]);
      assert s == s[..i] + s[i..];
      SolidConcat(s[..i], s[i..]);
      if i < |s| {
        var j := AfterBreak(s, i);
        assert s[i..] == s[i..j] + s[j..];
        SolidConcat(s[i..j], s[j..]);
        LinesAreSolid(s[j..]);
      } else {
        assert s[..i] == s;
      }
    }
  }

  lemma {:induction false} AllSolid(s: string)
    requires forall k :: 0 <= k < |s| ==> !IsBreak(s[k])
    ensures Solid(s) == |s|
  {
    if s != "" {
      AllSolid(s[1..]);
    }
  }

  predicate WholeLines(data: string) {
    data == "" || EndsWith(data, '\n')
  }

  /** A line adds no more than its own length to the data, or dispatches an event of what was collected. */
  lemma DataOfLine(c: Client, line: string)
    requires WholeLines(c.data)
    ensures var d := ProcessLine(c, line);
            && WholeLines(d.data) && |d.data| <= |c.data| + |line|
            && (d.events == c.events ||
                (line == "" && d.data == "" && |d.events| == |c.events| + 1 && d.events[..|c.events|] == c.events &&
                 |d.events[|c.events|].data| < |c.data|))
  {}

  /** An event's data is shorter than what its lines bring in. */
  lemma {:induction false} DataIsBounded(c: Client, lines: seq<string>)
    requires WholeLines(c.data)
    ensures |c.events| <= |Run(c, lines).events|
    ensures forall i :: |c.events| <= i < |Run(c, lines).events| ==>
              |Run(c, lines).events[i].data| < |c.data| + TotalLength(lines)
    ensures forall i :: 0 <= i < |c.events| ==> Run(c, lines).events[i] == c.events[i]
    decreases |lines|
  {
    if lines != [] {
      var d := ProcessLine(c, lines[0]);
      DataOfLine(c, lines[0]);
      DataIsBounded(d, lines[1..]);
      assert TotalLength(lines) == |lines[0]| + TotalLength(lines[1..]);
      assert Run(c, lines) == Run(d, lines[1..]);
      forall i | 0 <= i < |c.events| ensures Run(c, lines).events[i] == c.events[i] {
        assert d.events[..|c.events|] == c.events;
        assert d.events[i] == d.events[..|c.events|][i];
      }
    }
  }

  lemma {:induction false} ViewsAt(es: seq<Event>, i: nat)
    requires i < |es|
    ensures |Views(es)| == |es| && Views(es)[i] == View(es[i].kind, es[i].data)
  {
    var n := |es| - 1;
    if n > 0 {
      ViewsAt(es[..n], if i < n then i else 0);
    }
  }

  lemma {:induction false} ViewsLength(es: seq<Event>)
    ensures |Views(es)| == |es|
  {
    if es != [] {
      ViewsLength(es[..|es| - 1]);
    }
  }

  lemma FirstLineOf(p: string, x: string) returns (k: nat)
    requires BreakAt(p) == |p| && x != "" && IsBreak(x[0])
    ensures |p| < k <= |p + x| && Lines(p + x) == [p] + Lines((p + x)[k..])
  {
    BreakAtNone(p, x);
    assert (p + x)[..|p|] == p;
    k := AfterBreak(p + x, |p|);
  }

  lemma BrokenDataLine(data: string) returns (rest: seq<string>)
    requires BreakAt(data) < |data|
    ensures Lines("data: " + data + "\n" + "\n") == ["data: " + data[..BreakAt(data)]] + rest
    ensures TotalLength(rest) < |data| - BreakAt(data)
  {
    var j := BreakAt(data);
    var p, x := "data: " + data[..j], data[j..] + "\n" + "\n";
    assert data == data[..j] + data[j..];
    assert "data: " + data + "\n" + "\n" == p + x;
    assert BreakAt(p) == |p| by {
      assert forall k :: 0 <= k < 6 ==> !IsBreak("data: "[k]);
      assert forall k :: 6 <= k < |p| ==> p[k] == data[k - 6];
    }
    var k := FirstLineOf(p, x);
    rest := Lines((p + x)[k..]);
    LinesAreSolid((p + x)[k..]);
    SolidTail(data, j, p + x, k);
  }

  /** The lines of an event text whose data contains a line break. */
  lemma BrokenText(kind: string, data: string) returns (rest: seq<string>)
    requires PlainKind(kind) && BreakAt(data) < |data|
    ensures Lines(EventText(kind, data)) ==
            ["event: " + kind] + (["data: " + data[..BreakAt(data)]] + rest)
    ensures TotalLength(rest) < |data| - BreakAt(data)
  {
    rest := BrokenDataLine(data);
    LineFeedEnds("event: " + kind);
    LinesConcat("event: " + kind + "\n", "data: " + data + "\n" + "\n");
  }

  lemma SolidTail(data: string, j: nat, tail: string, k: nat)
    requires j < |data| && IsBreak(data[j])
    requires tail == "data: " + data + "\n" + "\n" && 6 + j < k <= |tail|
    ensures Solid(tail[k..]) < |data| - j
  {
    var after := data[j + 1..];
    var all := tail[6 + j + 1..];
    assert all == after + ("\n" + "\n");
    SolidConcat(after, "\n" + "\n");
    SolidConcat("\n", "\n");
    assert Solid("\n") == 0;
    assert all == all[..k - 7 - j] + tail[k..];
    SolidConcat(all[..k - 7 - j], tail[k..]);
  }

  lemma RunTwoMore(c: Client, l: string, m: string, rest: seq<string>)
    ensures Run(c, [l] + ([m] + rest)) == Run(ProcessLine(ProcessLine(c, l), m), rest)
  {
    assert ([l] + ([m] + rest))[1..] == [m] + rest && ([m] + rest)[1..] == rest;
  }

  /** An answer reaches the client as one event with exactly its bytes if and only if it contains no
      line break. */
  lemma OneLinePayload(kind: string, data: string)
    requires PlainKind(kind)
    ensures Own(EventText(kind, data)) == [View(kind, data)] <==> Breakless(data)
  {
    if Breakless(data) {
      OwnEventText(kind, data);
    } else {
      BreakFound(data);
      var j := BreakAt(data);
      var rest := BrokenText(kind, data);
      var c := INITIAL.(kind := kind, data := data[..j] + "\n");
      RunTwoMore(INITIAL, "event: " + kind, "data: " + data[..j], rest);
      EventLine(INITIAL, kind);
      DataLine(INITIAL.(kind := kind), data[..j]);
      var es := Run(c, rest).events;
      DataIsBounded(c, rest);
      ViewsLength(es);
      if |es| > 0 {
        ViewsAt(es, 0);
      }
    }
  }

  lemma BreakFound(data: string)
    requires !Breakless(data)
    ensures BreakAt(data) < |data|
  {
    var c :| c in data && IsBreak(c);
    var i :| 0 <= i < |data| && data[i] == c;
  }
}
