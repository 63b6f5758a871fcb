/** `findErrorMsgInStream`: looking for an error among the events of a finished stream. */
module ErrorScan {
  import opened Text
  import opened LineScanner
  import opened Reframe
  import opened ReframeLines
  import opened ReframeMeaning
  import opened ReframeStability

  /** What decoding a text as JSON gives: an object (with the printed value of its `error` entry,
      if any), a list of objects, or neither. */
  datatype Decoded = AsObject(error: Option<string>) | AsObjects | Neither

  datatype Test = Undecodable | Verdict(message: string)

  function TestDataForError(d: Decoded): Test {
    match d
    case AsObject(Some(message)) => Verdict(message)
    case AsObject(None) => Verdict("")
    case AsObjects => Verdict("")
    case Neither => Undecodable
  }

  predicate IsSpace(c: char) {
    c == ' ' || '\t' <= c <= '\r'
  }

  lemma SpacesAre(c: char)
    ensures IsSpace(c) <==> c in {' ', '\t', '\n', '\U{0b}', '\U{0c}', '\r'}
  {}

  function TrimLeft(s: string): (t: string)
    ensures t != "" ==> !IsSpace(t[0])
  {
    if s != "" && IsSpace(s[0]) then TrimLeft(s[1..]) else s
  }

  function TrimRight(s: string): (t: string)
    ensures t != "" ==> !IsSpace(t[|t| - 1])
    ensures |t| <= |s| && s[..|t|] == t
    ensures s != "" && !IsSpace(s[0]) ==> t != ""
  {
    if s != "" && IsSpace(s[|s| - 1]) then TrimRight(s[..|s| - 1]) else s
  }

  function Trim(s: string): (t: string)
    ensures t != "" ==> !IsSpace(t[0]) && !IsSpace(t[|t| - 1])
  {
    TrimRight(TrimLeft(s))
  }

  // ----- the reference: the first block with an error -----

  /** The blocks of lines that are ended by a blank line. */
  function Terminated(open: seq<string>, lines: seq<string>): seq<seq<string>>
    decreases |lines|
  {
    if lines == [] then []
    else if lines[0] == "" then [open] + Terminated([], lines[1..])
    else Terminated(open + [lines[0]], lines[1..])
  }

  function DataLines(block: seq<string>): seq<string> {
    if block == [] then []
    else
      var last := block[|block| - 1];
      DataLines(block[..|block| - 1]) + (if HasPrefix(last, "data:") then [Trim(last[5..])] else [])
  }

  /** The data of a block: its data lines joined and trimmed. */
  function BlockData(block: seq<string>): string {
    Trim(Join(DataLines(block), "\n"))
  }

  /** The type given by the last `event:` line of a block, or else the one carried over. */
  function EventType(block: seq<string>, carried: string): string {
    if block == [] then carried
    else
      var last := block[|block| - 1];
      if HasPrefix(last, "event:") then Trim(last[6..]) else EventType(block[..|block| - 1], carried)
  }

  /** The error message of a block with data, if it is undecodable or carries an error. */
  function BlockError(decode: string -> Decoded, block: seq<string>): Option<string> {
    if BlockData(block) == "" then None
    else
      match TestDataForError(decode(BlockData(block)))
      case Undecodable => Some("unknown error: " + BlockData(block))
      case Verdict(m) => if m == "" then None else Some(m)
  }

  /** The first error and its event type. The type is reset only by a block that has data. */
  function FirstError(decode: string -> Decoded, blocks: seq<seq<string>>, carried: string): (string, string) {
    if blocks == [] then ("", "")
    else
      var kind := EventType(blocks[0], carried);
      match BlockError(decode, blocks[0])
      case Some(m) => (m, kind)
      case None => FirstError(decode, blocks[1..], if BlockData(blocks[0]) == "" then kind else "")
  }

  // ----- the accumulation of data lines -----

  function SkipEmpty(lines: seq<string>): seq<string> {
    if lines != [] && lines[0] == "" then SkipEmpty(lines[1..]) else lines
  }

  lemma {:induction false} SkipEmptyAppend(lines: seq<string>, x: string)
    ensures SkipEmpty(lines + [x]) ==
            if SkipEmpty(lines) == [] then SkipEmpty([x]) else SkipEmpty(lines) + [x]
  {
    if lines == [] {
      assert lines + [x] == [x];
    } else if lines[0] == "" {
      assert (lines + [x])[1..] == lines[1..] + [x];
      SkipEmptyAppend(lines[1..], x);
    }
  }

  lemma {:induction false} JoinAppend(lines: seq<string>, x: string)
    requires lines != []
    ensures Join(lines + [x], "\n") == (Join(lines, "\n") + "\n") + x
  {
    if |lines| == 1 {
      assert (lines + [x])[1..] == [x];
    } else {
      assert (lines + [x])[1..] == lines[1..] + [x];
      JoinAppend(lines[1..], x);
      assert lines[0] + "\n" + ((Join(lines[1..], "\n") + "\n") + x)
          == (lines[0] + "\n" + Join(lines[1..], "\n") + "\n") + x;
    }
  }

  lemma {:induction false} FirstIsNotEmpty(lines: seq<string>)
    ensures SkipEmpty(lines) != [] ==> SkipEmpty(lines)[0] != "" && SkipEmpty(lines)[0] in lines
    ensures SkipEmpty(lines) != [] ==> Join(SkipEmpty(lines), "\n") != ""
    ensures SkipEmpty(lines) != [] ==> Join(SkipEmpty(lines), "\n")[0] == SkipEmpty(lines)[0][0]
  {
    if lines != [] && lines[0] == "" {
      FirstIsNotEmpty(lines[1..]);
    }
  }

  /** Appending a data line only after a separator, and no separator to empty data, gives the join
      without leading empty lines. */
  lemma AppendDataLine(lines: seq<string>, x: string)
    ensures var data := Join(SkipEmpty(lines), "\n");
            Join(SkipEmpty(lines + [x]), "\n") == (if data != "" then data + "\n" else data) + x
  {
    SkipEmptyAppend(lines, x);
    FirstIsNotEmpty(lines);
    if SkipEmpty(lines) != [] {
      JoinAppend(SkipEmpty(lines), x);
    } else {
      assert SkipEmpty([x]) == if x == "" then [] else [x];
      assert "" + x == x;
    }
  }

  lemma {:induction false} TrimIgnoresLeadingEmpty(lines: seq<string>)
    ensures TrimLeft(Join(lines, "\n")) == TrimLeft(Join(SkipEmpty(lines), "\n"))
  {
    if lines != [] && lines[0] == "" {
      TrimIgnoresLeadingEmpty(lines[1..]);
      if |lines| > 1 {
        var rest := Join(lines[1..], "\n");
        assert Join(lines, "\n") == "" + "\n" + rest;
        assert Join(lines, "\n")[0] == '\n' && Join(lines, "\n")[1..] == rest;
      }
    }
  }

  lemma {:induction false} DataLinesTrimmed(block: seq<string>)
    ensures forall l <- DataLines(block) :: l != "" ==> !IsSpace(l[0])
  {
    if block != [] {
      DataLinesTrimmed(block[..|block| - 1]);
    }
  }

  /** The accumulated data is non-empty exactly when the block has data, and trims to it. */
  lemma AccumulatedData(block: seq<string>)
    ensures var data := Join(SkipEmpty(DataLines(block)), "\n");
            Trim(data) == BlockData(block) && (data == "" <==> BlockData(block) == "")
  {
    var lines := DataLines(block);
    TrimIgnoresLeadingEmpty(lines);
    FirstIsNotEmpty(lines);
    DataLinesTrimmed(block);
    var data := Join(SkipEmpty(lines), "\n");
    if data != "" {
      assert !IsSpace(data[0]);
      assert TrimLeft(data) == data;
    }
  }

  method FindErrorMsgInStream(decode: string -> Decoded, inputData: string)
    returns (message: string, event: string)
    ensures (message, event) == FirstError(decode, Terminated([], Scanned(inputData)), "")
  {
    var eventType, data := "", "";
    var scanner := new Scanner(inputData);
    ghost var open: seq<string> := [];
    ghost var carried := "";
    ghost var left := Scanned(inputData);
    ghost var answer := FirstError(decode, Terminated(open, left), carried);
    var more, line := scanner.Scan();
    while more
      invariant scanner.Valid() && fresh(scanner)
      invariant left == if more then [line] + scanner.Rest() else []
      invariant answer == FirstError(decode, Terminated(open, left), carried)
      invariant data == Join(SkipEmpty(DataLines(open)), "\n")
      invariant eventType == EventType(open, carried)
      decreases |left|
    {
      if line == "" {
        BlankLine(decode, open, left, carried);
        AccumulatedData(open);
        if data != "" {
          match TestDataForError(decode(Trim(data)))
          case Undecodable =>
            return "unknown error: " + Trim(data), eventType;
          case Verdict(errMsg) =>
            if errMsg != "" {
              return errMsg, eventType;
            }
          data, eventType := "", "";
        }
        open, carried := [], eventType;
      } else {
        TextLine(open, line, carried);
        if HasPrefix(line, "event:") {
          eventType := Trim(line[6..]);
        } else if HasPrefix(line, "data:") {
          if data != "" {
            data := data + "\n";
          }
          data := data + Trim(line[5..]);
        }
        open := open + [line];
      }
      left := left[1..];
      more, line := scanner.Scan();
    }
    return "", "";
  }

  /** How one more non-blank line changes the accumulated data and type of a block. */
  lemma TextLine(open: seq<string>, line: string, carried: string)
    ensures EventType(open + [line], carried) ==
            if HasPrefix(line, "event:") then Trim(line[6..]) else EventType(open, carried)
    ensures var data := Join(SkipEmpty(DataLines(open)), "\n");
            Join(SkipEmpty(DataLines(open + [line])), "\n") ==
            if HasPrefix(line, "data:") then (if data != "" then data + "\n" else data) + Trim(line[5..])
            else data
    ensures HasPrefix(line, "event:") ==> !HasPrefix(line, "data:")
  {
    assert (open + [line])[..|open|] == open;
    if HasPrefix(line, "data:") {
      AppendDataLine(DataLines(open), Trim(line[5..]));
    } else {
      assert DataLines(open) + [] == DataLines(open);
    }
    assert HasPrefix(line, "event:") ==> line[0] == 'e';
  }

  lemma BlankLine(decode: string -> Decoded, open: seq<string>, left: seq<string>, carried: string)
    requires left != [] && left[0] == ""
    ensures var kind := EventType(open, carried);
            FirstError(decode, Terminated(open, left), carried) ==
            match BlockError(decode, open)
            case Some(m) => (m, kind)
            case None =>
              FirstError(decode, Terminated([], left[1..]), if BlockData(open) == "" then kind else "")
  {
    var rest := Terminated([], left[1..]);
    assert Terminated(open, left) == [open] + rest;
    assert ([open] + rest)[1..] == rest;
  }

  // ----- what the reference says -----

  /** Nothing is reported exactly when no terminated block has an error. */
  lemma {:induction false} SilentWhenNoError(decode: string -> Decoded, blocks: seq<seq<string>>, carried: string)
    ensures FirstError(decode, blocks, carried).0 == "" <==>
            forall i :: 0 <= i < |blocks| ==> BlockError(decode, blocks[i]) == None
    ensures FirstError(decode, blocks, carried).0 == "" ==> FirstError(decode, blocks, carried).1 == ""
  {
    if blocks != [] {
      var kind := EventType(blocks[0], carried);
      SilentWhenNoError(decode, blocks[1..], if BlockData(blocks[0]) == "" then kind else "");
      assert forall i :: 1 <= i < |blocks| ==> blocks[i] == blocks[1..][i - 1];
      if BlockError(decode, blocks[0]) == None {
        assert (forall i :: 0 <= i < |blocks[1..]| ==> BlockError(decode, blocks[1..][i]) == None) ==>
            forall i :: 1 <= i < |blocks| ==> BlockError(decode, blocks[i]) == None;
      } else {
        assert FirstError(decode, blocks, carried).0 != "";
      }
    }
  }

  /** A reported message is that of the first block with an error. */
  lemma {:induction false} ReportsFirstError(decode: string -> Decoded, blocks: seq<seq<string>>, carried: string)
    returns (k: nat)
    requires FirstError(decode, blocks, carried).0 != ""
    ensures k < |blocks|
    ensures BlockError(decode, blocks[k]) == Some(FirstError(decode, blocks, carried).0)
    ensures forall i :: 0 <= i < k ==> BlockError(decode, blocks[i]) == None
  {
    if BlockError(decode, blocks[0]) != None {
      k := 0;
    } else {
      var kind := EventType(blocks[0], carried);
      var j := ReportsFirstError(decode, blocks[1..], if BlockData(blocks[0]) == "" then kind else "");
      k := j + 1;
      assert forall i :: 1 <= i < |blocks| ==> blocks[i] == blocks[1..][i - 1];
    }
  }

  /** When a block has an error, in terms of what decoding its data gives: an object whose error entry is not
      empty, with that entry as the message; or data that is neither an object nor a list of objects. */
  lemma BlockErrorIff(decode: string -> Decoded, block: seq<string>, m: string)
    requires BlockData(block) != ""
    ensures BlockError(decode, block) == Some(m) <==>
            || (decode(BlockData(block)) == AsObject(Some(m)) && m != "")
            || (decode(BlockData(block)) == Neither && m == "unknown error: " + BlockData(block))
  {}

  /** A stream with one event. */
  function OneEvent(kind: string, json: string): string {
    "event: " + kind + "\n" + ("data: " + json + "\n" + "\n")
  }

  predicate IsTrimmed(s: string) {
    s != "" && !IsSpace(s[0]) && !IsSpace(s[|s| - 1]) && '\n' !in s
  }

  lemma TrimOne(s: string)
    requires IsTrimmed(s)
    ensures Trim(" " + s) == s && Trim(s) == s
  {
    assert (" " + s)[1..] == s;
    assert TrimLeft(" " + s) == TrimLeft(s) == s;
    assert TrimRight(s) == s;
  }

  lemma OneEventLines(kind: string, json: string)
    requires IsTrimmed(kind) && IsTrimmed(json) && |kind| + 7 < MAX_TOKEN && |json| + 6 < MAX_TOKEN
    ensures Terminated([], Scanned(OneEvent(kind, json))) == [["event: " + kind, "data: " + json]]
  {
    var first, second := "event: " + kind, "data: " + json;
    assert first[|first| - 1] == kind[|kind| - 1] && second[|second| - 1] == json[|json| - 1];
    ScannedTwo(first, second);
    assert OneEvent(kind, json) == first + "\n" + (second + "\n" + "\n");
    assert first[0] == 'e' && second[0] == 'd';
    TerminatedTwo(first, second);
  }

  lemma ScannedTwo(first: string, second: string)
    requires '\n' !in first && '\n' !in second && |first| < MAX_TOKEN && |second| < MAX_TOKEN
    requires !EndsWith(first, '\r') && !EndsWith(second, '\r')
    ensures Scanned(first + "\n" + (second + "\n" + "\n")) == [first, second, ""]
  {
    ScanOne(first, second + "\n" + "\n");
    ScanOne(second, "\n");
    ScanOne("", "");
    assert "" + "\n" + "" == "\n";
  }

  lemma TerminatedTwo(first: string, second: string)
    requires first != "" && second != ""
    ensures Terminated([], [first, second, ""]) == [[first, second]]
  {
    var lines := [first, second, ""];
    assert lines[1..] == [second, ""] && lines[1..][1..] == [""] && lines[1..][1..][1..] == [];
    assert [] + [first] == [first] && [first] + [second] == [first, second];
    assert Terminated([first, second], [""]) == [[first, second]] + Terminated([], []);
  }

  lemma OneEventFields(kind: string, json: string)
    ensures var first, second := "event: " + kind, "data: " + json;
            && HasPrefix(first, "event:") && !HasPrefix(first, "data:") && first[6..] == " " + kind
            && HasPrefix(second, "data:") && !HasPrefix(second, "event:") && second[5..] == " " + json
  {
    var first, second := "event: " + kind, "data: " + json;
    assert first[0] == 'e' && second[0] == 'd';
  }

  lemma OneEventBlock(kind: string, json: string)
    requires IsTrimmed(kind) && IsTrimmed(json)
    ensures var block := ["event: " + kind, "data: " + json];
            BlockData(block) == json && EventType(block, "") == kind
  {
    hide HasPrefix, Trim;
    var first, second := "event: " + kind, "data: " + json;
    var block := [first, second];
    var one: seq<string> := [first];
    assert block[..1] == one && one[..0] == [];
    OneEventFields(kind, json);
    TrimOne(kind);
    TrimOne(json);
    assert DataLines(one) == [];
    assert DataLines(block) == DataLines(one) + [json] == [json];
  }

  /** What is reported about a stream with one event, from its bytes on: the error its data says, with its type; the
      data itself when it cannot be decoded; nothing otherwise. */
  lemma OneEventIsJudged(decode: string -> Decoded, kind: string, json: string)
    requires IsTrimmed(kind) && IsTrimmed(json) && |kind| + 7 < MAX_TOKEN && |json| + 6 < MAX_TOKEN
    ensures FirstError(decode, Terminated([], Scanned(OneEvent(kind, json))), "") ==
            match decode(json)
            case AsObject(Some(m)) => if m == "" then ("", "") else (m, kind)
            case AsObject(None) => ("", "")
            case AsObjects => ("", "")
            case Neither => ("unknown error: " + json, kind)
  {
    OneEventLines(kind, json);
    OneEventBlock(kind, json);
    var blocks := [["event: " + kind, "data: " + json]];
    assert blocks[1..] == [];
  }

  // ----- the reported type -----

  /** The type carried into the block after the given ones, none of which has an error. */
  function Carried(blocks: seq<seq<string>>, carried: string): string {
    if blocks == [] then carried
    else
      var n := |blocks| - 1;
      if BlockData(blocks[n]) == "" then EventType(blocks[n], Carried(blocks[..n], carried)) else ""
  }

  lemma {:induction false} CarriedFirst(block: seq<string>, rest: seq<seq<string>>, carried: string)
    ensures Carried([block] + rest, carried) ==
            Carried(rest, if BlockData(block) == "" then EventType(block, carried) else "")
  {
    var all := [block] + rest;
    if rest == [] {
      assert all == [block] && all[..0] == [];
    } else {
      var n := |rest| - 1;
      assert all[..n + 1] == [block] + rest[..n];
      CarriedFirst(block, rest[..n], carried);
    }
  }

  /** What is reported is the message of the first block with an error, and its type as carried into it. */
  lemma {:induction false} ReportsTypeOf(decode: string -> Decoded, blocks: seq<seq<string>>, carried: string, k: nat)
    requires k < |blocks| && BlockError(decode, blocks[k]).Some?
    requires forall i :: 0 <= i < k ==> BlockError(decode, blocks[i]) == None
    ensures FirstError(decode, blocks, carried) ==
            (BlockError(decode, blocks[k]).value, EventType(blocks[k], Carried(blocks[..k], carried)))
  {
    if k > 0 {
      var rest := blocks[1..];
      var next := if BlockData(blocks[0]) == "" then EventType(blocks[0], carried) else "";
      assert forall i :: 0 <= i < |rest| ==> rest[i] == blocks[i + 1];
      ReportsTypeOf(decode, rest, next, k - 1);
      assert blocks[..k] == [blocks[0]] + rest[..k - 1];
      CarriedFirst(blocks[0], rest[..k - 1], carried);
    }
  }

  predicate NamesType(block: seq<string>) {
    exists i :: 0 <= i < |block| && HasPrefix(block[i], "event:")
  }

  lemma {:induction false} CarriedIntoBlock(block: seq<string>, carried: string)
    ensures EventType(block, carried) == if NamesType(block) then EventType(block, "") else carried
    ensures !NamesType(block) ==> EventType(block, "") == ""
  {
    if block != [] {
      var n := |block| - 1;
      CarriedIntoBlock(block[..n], carried);
      assert forall i :: 0 <= i < n ==> block[..n][i] == block[i];
      assert NamesType(block[..n]) ==> NamesType(block);
    }
  }

  /** The blocks after the last one with data. */
  function SinceData(blocks: seq<seq<string>>): seq<seq<string>> {
    if blocks == [] || BlockData(blocks[|blocks| - 1]) != "" then []
    else SinceData(blocks[..|blocks| - 1]) + [blocks[|blocks| - 1]]
  }

  /** The type named last by the given blocks, empty if they name none. */
  function NamedLast(blocks: seq<seq<string>>): string {
    if blocks == [] then ""
    else
      var n := |blocks| - 1;
      if NamesType(blocks[n]) then EventType(blocks[n], "") else NamedLast(blocks[..n])
  }

  lemma {:induction false} CarriedIsNamed(blocks: seq<seq<string>>)
    ensures Carried(blocks, "") == NamedLast(SinceData(blocks))
  {
    if blocks != [] && BlockData(blocks[|blocks| - 1]) == "" {
      var n := |blocks| - 1;
      var since := SinceData(blocks[..n]);
      CarriedIsNamed(blocks[..n]);
      CarriedIntoBlock(blocks[n], Carried(blocks[..n], ""));
      assert (since + [blocks[n]])[..|since|] == since;
    }
  }

  /** Unlike in the HTML standard, where every blank line clears the type, blocks without data leave theirs
      to the next one. The type reported with the first erroneous block is the block's own exactly when the
      block names a type, or the blocks since the last one with data leave none. */
  lemma ReportedTypeIsOwnIff(decode: string -> Decoded, blocks: seq<seq<string>>, k: nat)
    requires k < |blocks| && BlockError(decode, blocks[k]).Some?
    requires forall i :: 0 <= i < k ==> BlockError(decode, blocks[i]) == None
    ensures FirstError(decode, blocks, "").1 == EventType(blocks[k], "") <==>
            NamesType(blocks[k]) || NamedLast(SinceData(blocks[..k])) == ""
  {
    ReportsTypeOf(decode, blocks, "", k);
    CarriedIntoBlock(blocks[k], Carried(blocks[..k], ""));
    CarriedIsNamed(blocks[..k]);
  }

  /** For instance a block that only names a type gives it to the next block when that one names none. */
  lemma TypeOutlivesEmptyBlock(decode: string -> Decoded, first: seq<string>, second: seq<string>)
    requires BlockData(first) == "" && BlockError(decode, second) != None
    requires forall l <- second :: !HasPrefix(l, "event:")
    ensures FirstError(decode, [first, second], "") ==
            (BlockError(decode, second).value, EventType(first, ""))
  {
    var blocks := [first, second];
    assert BlockError(decode, blocks[0]) == None;
    ReportsTypeOf(decode, blocks, "", 1);
    assert blocks[..1] == [first] && [first][..0] == [];
    assert forall i :: 0 <= i < |second| ==> second[i] in second;
    CarriedIntoBlock(second, EventType(first, ""));
  }

  // ----- re-framed streams -----

  lemma {:induction false} TerminatedOfSpread(open: seq<string>, lines: seq<string>, rest: seq<seq<string>>)
    requires WellMadeChunk(open + lines) && WellMade(rest)
    ensures Terminated(open, lines + ([""] + Spread(rest))) == [open + lines] + Terminated([], Spread(rest))
    decreases |lines|
  {
    var all := lines + ([""] + Spread(rest));
    if lines == [] {
      assert all == [""] + Spread(rest);
      assert open + lines == open;
    } else {
      assert all[0] == (open + lines)[|open|];
      assert all[1..] == lines[1..] + ([""] + Spread(rest));
      assert open + [lines[0]] + lines[1..] == open + lines;
      TerminatedOfSpread(open + [lines[0]], lines[1..], rest);
    }
  }

  lemma {:induction false} TerminatedOfOwnSpread(chunks: seq<seq<string>>)
    requires WellMade(chunks)
    ensures Terminated([], Spread(chunks)) == chunks
  {
    if chunks != [] {
      assert [] + chunks[0] == chunks[0];
      TerminatedOfSpread([], chunks[0], chunks[1..]);
      TerminatedOfOwnSpread(chunks[1..]);
    }
  }

  predicate EndsBlank(open: seq<string>, lines: seq<string>) {
    if lines == [] then open == [] else lines[|lines| - 1] == ""
  }

  /** Empty blocks have no error and change no type. */
  lemma EmptyBlock(decode: string -> Decoded, rest: seq<seq<string>>, carried: string)
    ensures FirstError(decode, [[]] + rest, carried) == FirstError(decode, rest, carried)
  {
    assert ([[]] + rest)[1..] == rest;
    assert DataLines([]) == [] && Join([], "\n") == "" && TrimLeft("") == "";
  }

  lemma FirstBlock(decode: string -> Decoded, a: seq<seq<string>>, b: seq<seq<string>>, block: seq<string>)
    requires forall carried :: FirstError(decode, a, carried) == FirstError(decode, b, carried)
    ensures forall carried :: FirstError(decode, [block] + a, carried) == FirstError(decode, [block] + b, carried)
  {
    assert ([block] + a)[1..] == a && ([block] + b)[1..] == b;
  }

  /** When the lines end with a blank one, every line is in a terminated block. */
  lemma {:induction false} AllTerminated(decode: string -> Decoded, open: seq<string>, lines: seq<string>)
    requires EndsBlank(open, lines)
    ensures forall carried :: FirstError(decode, Terminated(open, lines), carried) ==
                              FirstError(decode, Chunks(open, lines), carried)
    decreases |lines|
  {
    if lines != [] {
      if lines[0] == "" {
        AllTerminated(decode, [], lines[1..]);
        var a, b := Terminated([], lines[1..]), Chunks([], lines[1..]);
        if open == [] {
          forall carried ensures FirstError(decode, [[]] + a, carried) == FirstError(decode, b, carried) {
            EmptyBlock(decode, a, carried);
          }
          assert Terminated(open, lines) == [[]] + a && Chunks(open, lines) == [] + b == b;
        } else {
          FirstBlock(decode, a, b, open);
        }
      } else {
        AllTerminated(decode, open + [lines[0]], lines[1..]);
      }
    }
  }

  lemma {:induction false} TrimLeftReturn(x: string)
    ensures TrimLeft(x + "\r") == if TrimLeft(x) == "" then "" else TrimLeft(x) + "\r"
  {
    if x == "" {
      assert x + "\r" == "\r" && "\r"[1..] == "";
    } else if IsSpace(x[0]) {
      assert (x + "\r")[1..] == x[1..] + "\r";
      TrimLeftReturn(x[1..]);
    }
  }

  lemma TrimReturn(x: string)
    ensures Trim(x + "\r") == Trim(x)
  {
    TrimLeftReturn(x);
    var y := TrimLeft(x) + "\r";
    assert y[..|y| - 1] == TrimLeft(x);
  }

  /** A carriage return at its end does not change what a line says. */
  lemma DropKeepsField(l: string, p: string)
    requires p == "data:" || p == "event:"
    ensures HasPrefix(DropCR(l), p) <==> HasPrefix(l, p)
    ensures HasPrefix(l, p) ==> Trim(DropCR(l)[|p|..]) == Trim(l[|p|..])
  {
    if EndsWith(l, '\r') {
      var x := l[..|l| - 1];
      assert forall k :: 0 <= k < |x| ==> x[k] == l[k];
      if HasPrefix(l, p) {
        assert l[|p| - 1] == p[|p| - 1] == ':';
        assert l[|p|..] == x[|p|..] + "\r";
        TrimReturn(x[|p|..]);
      }
    }
  }

  lemma {:induction false} DropsKeepFields(block: seq<string>, carried: string)
    ensures |Drops(block)| == |block|
    ensures DataLines(Drops(block)) == DataLines(block)
    ensures EventType(Drops(block), carried) == EventType(block, carried)
  {
    if block != [] {
      var n := |block| - 1;
      assert block == block[..n] + [block[n]];
      DropsAppend(block[..n], [block[n]]);
      assert Drops([block[n]]) == [DropCR(block[n])];
      DropsKeepFields(block[..n], carried);
      assert Drops(block)[..n] == Drops(block[..n]);
      DropKeepsField(block[n], "data:");
      DropKeepsField(block[n], "event:");
    }
  }

  function AllDrops(blocks: seq<seq<string>>): seq<seq<string>> {
    if blocks == [] then [] else [Drops(blocks[0])] + AllDrops(blocks[1..])
  }

  lemma {:induction false} DropsKeepErrors(decode: string -> Decoded, blocks: seq<seq<string>>, carried: string)
    ensures FirstError(decode, AllDrops(blocks), carried) == FirstError(decode, blocks, carried)
  {
    if blocks != [] {
      var kind := EventType(blocks[0], carried);
      DropsKeepFields(blocks[0], carried);
      DropsKeepErrors(decode, blocks[1..], if BlockData(blocks[0]) == "" then kind else "");
      assert AllDrops(blocks)[1..] == AllDrops(blocks[1..]);
    }
  }

  predicate NoneDrops(lines: seq<string>) {
    forall i :: 0 <= i < |lines| ==> lines[i] != "" && lines[i] != "\r"
  }

  lemma {:induction false} TerminatedOfDrops(open: seq<string>, lines: seq<string>, rest: seq<string>)
    requires NoneDrops(lines)
    ensures Terminated(open, Drops(lines) + ([""] + rest)) == [open + Drops(lines)] + Terminated([], rest)
    decreases |lines|
  {
    var all := Drops(lines) + ([""] + rest);
    if lines == [] {
      assert all == [""] + rest && all[1..] == rest;
      assert open + Drops(lines) == open;
    } else {
      var l := DropCR(lines[0]);
      assert l != "";
      assert all == [l] + (Drops(lines[1..]) + ([""] + rest));
      assert all[1..] == Drops(lines[1..]) + ([""] + rest);
      TerminatedOfDrops(open + [l], lines[1..], rest);
      assert open + [l] + Drops(lines[1..]) == open + Drops(lines);
    }
  }

  lemma {:induction false} TerminatedOfDroppedSpread(chunks: seq<seq<string>>)
    requires forall i :: 0 <= i < |chunks| ==> NoneDrops(chunks[i])
    ensures Terminated([], Drops(Spread(chunks))) == AllDrops(chunks)
  {
    if chunks != [] {
      var rest := Spread(chunks[1..]);
      DropsAppend(chunks[0], [""] + rest);
      assert ([""] + rest)[1..] == rest && Drops([""] + rest) == [""] + Drops(rest);
      TerminatedOfDrops([], chunks[0], Drops(rest));
      assert [] + Drops(chunks[0]) == Drops(chunks[0]);
      TerminatedOfDroppedSpread(chunks[1..]);
    }
  }

  lemma {:induction false} ChunksDropNone(open: seq<string>, lines: seq<string>)
    requires NoneDrops(open) && forall i :: 0 <= i < |lines| ==> lines[i] != "\r"
    ensures forall i :: 0 <= i < |Chunks(open, lines)| ==> NoneDrops(Chunks(open, lines)[i])
    decreases |lines|
  {
    if lines != [] {
      if lines[0] == "" {
        ChunksDropNone([], lines[1..]);
      } else {
        ChunksDropNone(open + [lines[0]], lines[1..]);
      }
    }
  }

  /** On a re-framed stream every block is examined, also one the backend left unterminated. The answer is
      that for the backend's own blocks, unless one of their lines is a bare carriage return: that becomes a
      blank line and divides its block. Without any carriage return left at a line's end the blocks are the
      backend's own. */
  lemma ReframedStreamIsFullyExamined(decode: string -> Decoded, s: string)
    ensures FirstError(decode, Terminated([], Scanned(Reframed(s))), "") ==
            FirstError(decode, Chunks([], Scanned(Reframed(s))), "")
    ensures "\r" !in Scanned(s) ==>
              FirstError(decode, Terminated([], Scanned(Reframed(s))), "") ==
              FirstError(decode, Chunks([], Scanned(s)), "")
    ensures "\r" !in Scanned(s) ==>
              (FirstError(decode, Terminated([], Scanned(Reframed(s))), "").0 == "" <==>
               forall i :: 0 <= i < |Chunks([], Scanned(s))| ==> BlockError(decode, Chunks([], Scanned(s))[i]) == None)
    ensures !Dirty(Scanned(s)) ==> Terminated([], Scanned(Reframed(s))) == Chunks([], Scanned(s))
  {
    var lines := Scanned(s);
    var chunks := Chunks([], lines);
    ScannedAreShort(s);
    ChunksAreWellMade([], lines);
    ScannedOfBlocks(chunks);
    SpreadEndsBlank(chunks);
    AllTerminated(decode, [], Drops(Spread(chunks)));
    SilentWhenNoError(decode, chunks, "");
    if "\r" !in lines {
      ChunksDropNone([], lines);
      TerminatedOfDroppedSpread(chunks);
      DropsKeepErrors(decode, chunks, "");
    }
    if !Dirty(lines) {
      SameDirt(lines);
      DropsOfClean(Spread(chunks));
      TerminatedOfOwnSpread(chunks);
    }
  }
}
