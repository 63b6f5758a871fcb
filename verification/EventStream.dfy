/** The reference meaning of a server-sent-event stream: section 9.2.5 (parsing) and section 9.2.6
    (interpreting) of the WHATWG HTML Living Standard. */
module EventStream {
  import opened Text

  const BOM: string := "\U{EF}\U{BB}\U{BF}"

  datatype Event = Event(kind: string, data: string, lastId: string)

  /** The state of an event source: the three buffers, the last event ID string, the reconnection
      time as last set, and the events dispatched so far. */
  datatype Client = Client(kind: string, data: string, idBuffer: string, lastId: string,
                           retry: Option<string>, events: seq<Event>)

  const INITIAL := Client("", "", "", "", None, [])

  predicate IsBreak(c: char) {
    c == '\r' || c == '\n'
  }

  /** The position of the first line break, or `|s|`. */
  function BreakAt(s: string): (i: nat)
    ensures i <= |s|
    ensures forall k :: 0 <= k < i ==> !IsBreak(s[k])
    ensures i < |s| ==> IsBreak(s[i])
  {
    if s == "" || IsBreak(s[0]) then 0 else 1 + BreakAt(s[1..])
  }

  /** Where the line after the one that ends at `i` starts: CRLF is one line break. */
  function AfterBreak(s: string, i: nat): (j: nat)
    requires i < |s| && IsBreak(s[i])
    ensures i < j <= |s|
  {
    if s[i] == '\r' && i + 1 < |s| && s[i + 1] == '\n' then i + 2 else i + 1
  }

  /** The lines of a stream; a last line without a line break counts as a line. */
  function Lines(s: string): seq<string>
    decreases |s|
  {
    if s == "" then []
    else
      var i := BreakAt(s);
      if i == |s| then [s] else [s[..i]] + Lines(s[AfterBreak(s, i)..])
  }

  /** A blank line dispatches the event collected so far; without data it only clears the buffers. */
  function Dispatch(c: Client): Client {
    if c.data == "" then c.(kind := "", data := "", lastId := c.idBuffer)
    else
      var data := if EndsWith(c.data, '\n') then c.data[..|c.data| - 1] else c.data;
      var kind := if c.kind == "" then "message" else c.kind;
      c.(kind := "", data := "", lastId := c.idBuffer,
         events := c.events + [Event(kind, data, c.idBuffer)])
  }

  function ProcessField(c: Client, name: string, value: string): Client {
    if name == "event" then c.(kind := value)
    else if name == "data" then c.(data := c.data + value + "\n")
    else if name == "id" then (if '\0' in value then c else c.(idBuffer := value))
    else if name == "retry" then
      (if value != "" && forall ch <- value :: '0' <= ch <= '9' then c.(retry := Some(value)) else c)
    else c
  }

  function DropSpace(s: string): string {
    if s != "" && s[0] == ' ' then s[1..] else s
  }

  function ProcessLine(c: Client, line: string): Client {
    if line == "" then Dispatch(c)
    else
      var i := IndexOf(line, ':');
      if i == 0 then c
      else if i == |line| then ProcessField(c, line, "")
      else ProcessField(c, line[..i], DropSpace(line[i + 1..]))
  }

  function Run(c: Client, lines: seq<string>): Client
    decreases |lines|
  {
    if lines == [] then c else Run(ProcessLine(c, lines[0]), lines[1..])
  }

  function StripBom(s: string): string {
    if HasPrefix(s, BOM) then s[|BOM|..] else s
  }

  /** What a client makes of a whole stream. What is pending at the end is discarded: only the
      dispatched events, the last event ID and the reconnection time can be observed. */
  function Interpret(s: string): Client {
    Run(INITIAL, Lines(StripBom(s)))
  }

  lemma {:induction false} RunConcat(c: Client, a: seq<string>, b: seq<string>)
    ensures Run(c, a + b) == Run(Run(c, a), b)
    decreases |a|
  {
    if a == [] {
      assert a + b == b;
    } else {
      assert (a + b)[1..] == a[1..] + b;
      RunConcat(ProcessLine(c, a[0]), a[1..], b);
    }
  }

  /** Text that ends with a line feed can be parsed on its own. */
  lemma {:induction false} LinesConcat(a: string, b: string)
    requires a == "" || EndsWith(a, '\n')
    ensures Lines(a + b) == Lines(a) + Lines(b)
    decreases |a|
  {
    if a == "" {
      assert a + b == b;
    } else {
      var i := BreakAt(a);
      assert IsBreak(a[|a| - 1]);
      BreakAtPrefix(a, b);
      var j := AfterBreak(a, i);
      assert AfterBreak(a + b, i) == j;
      assert (a + b)[..i] == a[..i];
      assert (a + b)[j..] == a[j..] + b;
      LinesConcat(a[j..], b);
    }
  }

  lemma BreakAtPrefix(a: string, b: string)
    requires BreakAt(a) < |a|
    ensures BreakAt(a + b) == BreakAt(a)
  {
    assert forall k :: 0 <= k < |a| ==> (a + b)[k] == a[k];
    assert BreakAt(a) == BreakAt(a + b);
  }

  lemma BreakAtNone(a: string, b: string)
    requires BreakAt(a) == |a|
    ensures BreakAt(a + b) == |a| + BreakAt(b)
  {
    assert forall k :: 0 <= k < |a| ==> (a + b)[k] == a[k];
    assert forall k :: 0 <= k < |b| ==> (a + b)[|a| + k] == b[k];
    assert |a| <= BreakAt(a + b);
    assert BreakAt(b) < |b| ==> IsBreak((a + b)[|a| + BreakAt(b)]);
    assert BreakAt(a + b) < |a + b| ==> IsBreak(b[BreakAt(a + b) - |a|]);
  }

  /** One line followed by a line feed. */
  lemma LineFeedEnds(l: string)
    requires forall c <- l :: !IsBreak(c)
    ensures Lines(l + "\n") == [l]
  {
    BreakAtNone(l, "\n");
    var s := l + "\n";
    assert BreakAt(s) == |l|;
    assert s[..|l|] == l && s[AfterBreak(s, |l|)..] == "";
  }

  /** Between events, the buffers are clear and a further blank line changes nothing. */
  predicate Settled(c: Client) {
    c.kind == "" && c.data == "" && c.lastId == c.idBuffer
  }

  lemma DispatchSettles(c: Client)
    ensures Settled(Dispatch(c))
    ensures Settled(c) ==> Dispatch(c) == c
  {}

  // ----- what the fields mean -----

  /** A line with a field name, a colon, a space and a value. */
  lemma FieldLine(c: Client, name: string, value: string)
    requires ':' !in name && name != ""
    ensures ProcessLine(c, name + ": " + value) == ProcessField(c, name, value)
    ensures ProcessLine(c, name + ":" + value) == ProcessField(c, name, DropSpace(value))
    ensures ProcessLine(c, name) == ProcessField(c, name, "")
    ensures ProcessLine(c, ":" + value) == c
  {
    var spaced, bare := name + ": " + value, name + ":" + value;
    IndexOfNone(name, ": " + value, ':');
    IndexOfNone(name, ":" + value, ':');
    IndexOfNone(name, "", ':');
    assert spaced == name + (": " + value) && bare == name + (":" + value) && name + "" == name;
    assert spaced[..|name|] == name && spaced[|name| + 1..] == " " + value && (" " + value)[1..] == value;
    assert bare[..|name|] == name && bare[|name| + 1..] == value;
    assert (":" + value)[0] == ':';
  }

  /** The data lines of an event are joined by line feeds. Without a type the event is a message; its data line
      may be empty. */
  lemma DataLinesAreJoined(c: Client, x: string, y: string)
    requires Settled(c)
    ensures Run(c, ["data: " + x, "data: " + y, ""]) ==
            c.(events := c.events + [Event("message", x + "\n" + y, c.idBuffer)])
  {
    hide ProcessLine, Run;
    var d, e := c.(data := x + "\n"), c.(data := x + "\n" + y + "\n");
    DataLineAdds(c, x);
    DataLineAdds(d, y);
    assert "" + x + "\n" == x + "\n";
    var first, second := "data: " + x, "data: " + y;
    assert [first, second, ""] == [first] + ([second] + [""]) && [""] == [""] + [];
    RunLines(c, first, [second] + [""]);
    RunLines(d, second, [""]);
    RunLines(e, "", []);
    DispatchJoined(c, x + "\n" + y);
  }

  lemma DataLineAdds(c: Client, value: string)
    ensures ProcessLine(c, "data: " + value) == c.(data := c.data + value + "\n")
  {
    hide ProcessLine;
    FieldLine(c, "data", value);
    assert "data" + ": " + value == "data: " + value;
  }

  lemma DispatchJoined(c: Client, data: string)
    requires Settled(c)
    ensures var d := c.(data := data + "\n");
            && ProcessLine(d, "") == c.(events := c.events + [Event("message", data, c.idBuffer)])
            && Run(ProcessLine(d, ""), []) == ProcessLine(d, "")
  {
    assert (data + "\n")[..|data|] == data;
  }

  lemma RunLines(c: Client, line: string, rest: seq<string>)
    ensures Run(c, [line] + rest) == Run(ProcessLine(c, line), rest)
  {
    assert ([line] + rest)[1..] == rest;
  }

  /** A type without data makes no event and is forgotten. */
  lemma TypeAloneIsForgotten(c: Client, kind: string)
    requires Settled(c)
    ensures Run(c, ["event: " + kind, ""]) == c
  {
    hide ProcessLine, Run;
    FieldThenBlank(c, "event", kind);
    assert "event" + ": " + kind == "event: " + kind;
  }

  /** An id is kept for all later events, and is known from the next blank line on, unless it has a zero byte. */
  lemma IdIsKept(c: Client, id: string)
    requires Settled(c)
    ensures Run(c, ["id: " + id, ""]) == if '\0' in id then c else c.(idBuffer := id, lastId := id)
  {
    hide ProcessLine, Run;
    FieldThenBlank(c, "id", id);
    assert "id" + ": " + id == "id: " + id;
  }

  lemma FieldThenBlank(c: Client, name: string, value: string)
    requires ':' !in name && name != ""
    ensures Run(c, [name + ": " + value, ""]) == Dispatch(ProcessField(c, name, value))
  {
    hide IndexOf, ProcessField;
    FieldLine(c, name, value);
    var line, d := name + ": " + value, ProcessField(c, name, value);
    assert [line, ""] == [line] + [""] && [""] == [""] + [];
    RunLines(c, line, [""]);
    RunLines(d, "", []);
  }

  /** A reconnection time is taken if it consists of digits; other fields mean nothing. */
  lemma RetryAndOthers(c: Client, value: string, name: string)
    requires ':' !in name && name != "" && name !in {"event", "data", "id", "retry"}
    ensures ProcessLine(c, "retry: " + value) ==
            if value != "" && forall ch <- value :: '0' <= ch <= '9' then c.(retry := Some(value)) else c
    ensures ProcessLine(c, name + ": " + value) == c
  {
    hide ProcessLine;
    FieldLine(c, "retry", value);
    FieldLine(c, name, value);
    assert "retry" + ": " + value == "retry: " + value;
  }
}
