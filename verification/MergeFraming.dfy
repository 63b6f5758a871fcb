/** The merged answers inside the multiplexed stream: what the routes that put them together contribute to it. */
module MergeFraming {
  import opened Text
  import opened EventStream
  import opened Grouping
  import opened StreamMessages
  import opened StreamProtocol
  import opened StreamFraming
  import opened Merge

  // ----- a handler's writes -----

  function PutAll(writes: seq<string>): seq<Op> {
    if writes == [] then [] else PutAll(writes[..|writes| - 1]) + [Put(writes[|writes| - 1])]
  }

  /** A handler that writes. The first write fixes the status; the web framework ignores the status of a later
      error. */
  function Writing(writes: seq<string>): seq<Op> {
    [SetStatus(200)] + PutAll(writes)
  }

  /** A handler whose route flushes after it. */
  function Flushing(writes: seq<string>): seq<Op> {
    Writing(writes) + [Flush]
  }

  lemma {:induction false} WritingPuts(writes: seq<string>)
    ensures Puts(Writing(writes)) == writes
    ensures forall k :: 0 <= k < |Writing(writes)| ==> Writing(writes)[k] != Flush
    ensures forall k :: 1 <= k < |Writing(writes)| ==> !Writing(writes)[k].SetStatus?
  {
    var ops := Writing(writes);
    if writes == [] {
      assert ops == [SetStatus(200)] && ops[..0] == [];
    } else {
      var n := |writes| - 1;
      WritingPuts(writes[..n]);
      assert ops == Writing(writes[..n]) + [Put(writes[n])];
      assert ops[..|ops| - 1] == Writing(writes[..n]);
      assert writes == writes[..n] + [writes[n]];
    }
  }

  lemma {:induction false} FirstFlush(ops: seq<Op>)
    requires forall k :: 0 <= k < |ops| ==> ops[k] != Flush
    ensures FlushAt(ops) == |ops| && FlushAt(ops + [Flush]) == |ops|
  {
    if ops == [] {
      assert [] + [Flush] == [Flush];
    } else {
      FirstFlush(ops[1..]);
      assert (ops + [Flush])[1..] == ops[1..] + [Flush];
    }
  }

  /** Exactly the writes are to be delivered. */
  lemma WritesExpected(id: ReqIdent, writes: seq<string>)
    ensures Expected(Source(id, Flushing(writes))) == writes
    ensures Flushes(Flushing(writes)) && !Misuses(Flushing(writes)) && !Flushes(Writing(writes))
    ensures KeepsStatus(Flushing(writes), 200) && Succeeds(Source(id, Flushing(writes)))
  {
    WritingPuts(writes);
    FirstFlush(Writing(writes));
    assert Flushing(writes)[..|Writing(writes)|] == Writing(writes);
    forall status | MayHaveStatus(Flushing(writes), status) ensures IsSuccess(status) {
      KeptStatusOnly(Flushing(writes), 200, status);
    }
  }

  // ----- the writes of the two handlers -----

  function OutputList(sse: string, jsons: seq<string>): seq<string> {
    if jsons == [] then [] else OutputList(sse, jsons[..|jsons| - 1]) + [Output(sse, jsons[|jsons| - 1])]
  }

  lemma {:induction false} OutputListConcat(sse: string, jsons: seq<string>)
    ensures Concat(OutputList(sse, jsons)) == Outputs(sse, jsons)
  {
    if jsons != [] {
      var n := |jsons| - 1;
      OutputListConcat(sse, jsons[..n]);
      ConcatAppend(OutputList(sse, jsons[..n]), [Output(sse, jsons[n])]);
      ConcatOne(Output(sse, jsons[n]));
    }
  }

  lemma {:induction false} OutputListComplete(sse: string, jsons: seq<string>)
    requires sse == "" || (sse[0] == ' ' && PlainKind(sse[1..]))
    requires forall j <- jsons :: Breakless(j)
    ensures forall w <- OutputList(sse, jsons) :: Complete(w)
  {
    if jsons != [] {
      var n := |jsons| - 1;
      OutputListComplete(sse, jsons[..n]);
      OwnOutput(sse, jsons[n]);
    }
  }

  /** A write that a client ignores. */
  predicate Ignored(text: string) {
    Complete(text) && Own(text) == []
  }

  lemma NothingIgnored()
    ensures Ignored("")
  {
    assert Lines("") == [];
    assert Views(INITIAL.events) == [];
  }

  lemma BothIgnored(a: string, b: string)
    requires Ignored(a) && Ignored(b)
    ensures Ignored(a + b)
  {
    OwnConcat(a, b);
  }

  lemma {:induction false} IgnoredAll(texts: seq<string>)
    requires forall t <- texts :: Ignored(t)
    ensures Ignored(Concat(texts))
  {
    if texts == [] {
      NothingIgnored();
    } else {
      IgnoredAll(texts[1..]);
      BothIgnored(texts[0], Concat(texts[1..]));
    }
  }

  lemma RunOne(c: Client, line: string)
    ensures Run(c, [line]) == ProcessLine(c, line)
  {
    var lines := [line];
    assert lines[1..] == [];
    assert Run(c, lines) == Run(ProcessLine(c, line), lines[1..]);
  }

  /** A line whose field name means nothing. */
  lemma OtherFieldIgnored(name: string, rest: string)
    requires Breakless(name) && Breakless(rest) && ':' !in name && name != ""
    requires name != "event" && name != "data" && name != "id" && name != "retry"
    requires rest == "" || rest[0] == ':'
    ensures Ignored(name + rest + "\n")
  {
    var line := name + rest;
    IndexOfNone(name, rest, ':');
    LineFeedEnds(line);
    assert line[..|name|] == name;
    assert ProcessLine(INITIAL, line) == INITIAL;
    RunOne(INITIAL, line);
  }

  /** What is said about a failure fits on a line. */
  predicate OneLined(f: Fetch) {
    match f
    case RequestFailed(d) => Breakless(d)
    case ExportFailed(d, e) => Breakless(d) && Breakless(e)
    case Undecodable(d) => Breakless(d)
    case _ => true
  }

  /** A client ignores what begins so and fits on a line. */
  ghost predicate StartsIgnored(start: string) {
    forall detail :: Breakless(detail) ==> Ignored(start + detail + "\n")
  }

  lemma FieldStartIgnored(name: string)
    requires Breakless(name) && ':' !in name && name != ""
    requires name != "event" && name != "data" && name != "id" && name != "retry"
    ensures StartsIgnored(name + ": ")
  {
    forall detail | Breakless(detail) ensures Ignored(name + ": " + detail + "\n") {
      assert name + ": " + detail == name + (": " + detail);
      OtherFieldIgnored(name, ": " + detail);
    }
  }

  lemma FreqsIgnored()
    ensures StartsIgnored(FREQS)
  {
    var name := "failed to get partial freqs";
    FieldStartIgnored(name);
    assert FREQS == name + ": ";
  }

  lemma CollsIgnored()
    ensures StartsIgnored(COLLS)
  {
    var name := "failed to get partial tt-colls";
    FieldStartIgnored(name);
    assert COLLS == name + ": ";
  }

  lemma InvalidIgnored()
    ensures Ignored("Invalid URL\n")
  {
    OtherFieldIgnored("Invalid URL", "");
    assert "Invalid URL" + "" + "\n" == "Invalid URL\n";
  }

  lemma ComplaintsIgnored(f: Fetch, requesting: string, decoding: string)
    requires !f.Obtained? && OneLined(f)
    requires StartsIgnored(requesting) && StartsIgnored(decoding)
    ensures forall t <- Complaints(f, requesting, decoding) :: Ignored(t)
  {
    InvalidIgnored();
  }

  /** What a client reads of a failure: one line for each thing that went wrong, which ends with its details. */
  lemma FailureLines(f: Fetch, requesting: string, decoding: string)
    requires !f.Obtained? && OneLined(f) && Breakless(requesting) && Breakless(decoding)
    ensures Lines(Complaint(f, requesting, decoding)) ==
            match f
            case BadURL => ["Invalid URL"]
            case RequestFailed(d) => [requesting + d]
            case ExportFailed(d, e) => [requesting + d, decoding + e]
            case Undecodable(d) => [decoding + d]
  {
    match f
    case BadURL =>
      assert "Invalid URL" + "\n" == "Invalid URL\n";
      SingleLine("Invalid URL");
    case RequestFailed(d) => SingleLine(requesting + d);
    case ExportFailed(d, e) =>
      SingleLine(requesting + d);
      SingleLine(decoding + e);
      LinesConcat(requesting + d + "\n", decoding + e + "\n");
      ConcatAppend([requesting + d + "\n"], [decoding + e + "\n"]);
    case Undecodable(d) => SingleLine(decoding + d);
  }

  lemma SingleLine(line: string)
    requires Breakless(line)
    ensures Lines(line + "\n") == [line] && Concat([line + "\n"]) == line + "\n"
  {
    LineFeedEnds(line);
    ConcatOne(line + "\n");
  }

  function Failure(fetches: seq<Fetch>, requesting: string, decoding: string): seq<string> {
    var k := Leading(fetches);
    if k == |fetches| then [] else Complaints(fetches[k], requesting, decoding)
  }

  /** The writes of a miss: the opening, an event for each part, and the lines about a failure. */
  function FreshWrites(id: ReqIdent, jsons: seq<string>, failure: seq<string>): seq<string> {
    [Opening(true)] + (OutputList(SseEvent(true, id), jsons) + failure)
  }

  /** The writes of a hit: the opening and the run of events cached for the request of `first`. */
  function ReplayedWrites(first: ReqIdent, jsons: seq<string>): seq<string> {
    [Opening(true), Outputs(SseEvent(true, first), jsons)]
  }

  /** Writes that a client reads as one event of the given type for each of the answers, and nothing else,
      wherever they are put between other complete writes. */
  predicate Answers(writes: seq<string>, kind: string, jsons: seq<string>) {
    (forall w <- writes :: Complete(w)) && Own(Concat(writes)) == ViewsOf(kind, jsons)
  }

  lemma OwnOutputs(id: ReqIdent, jsons: seq<string>)
    requires forall j <- jsons :: Breakless(j)
    ensures Own(Outputs(SseEvent(true, id), jsons)) == ViewsOf(EventLabel(id), jsons)
    ensures Complete(Outputs(SseEvent(true, id), jsons))
    ensures forall w <- OutputList(SseEvent(true, id), jsons) :: Complete(w)
  {
    var sse := SseEvent(true, id);
    LabelIsPlain(id);
    assert sse[1..] == EventLabel(id);
    OutputEvents(sse, jsons);
    OutputListComplete(sse, jsons);
  }

  lemma IgnoredAround(before: string, text: string, after: string)
    requires Ignored(before) && Complete(text) && Ignored(after)
    ensures Own(before + (text + after)) == Own(text)
  {
    OwnConcat(text, after);
    OwnConcat(before, text + after);
    assert [] + (Own(text) + []) == Own(text);
  }

  lemma MissConcat(id: ReqIdent, jsons: seq<string>, failure: seq<string>)
    ensures Concat(FreshWrites(id, jsons, failure)) ==
            Opening(true) + (Outputs(SseEvent(true, id), jsons) + Concat(failure))
  {
    var outputs := OutputList(SseEvent(true, id), jsons);
    ConcatAppend([Opening(true)], outputs + failure);
    ConcatOne(Opening(true));
    ConcatAppend(outputs, failure);
    OutputListConcat(SseEvent(true, id), jsons);
  }

  /** These are the bytes that the handlers' methods write, after the opening. */
  lemma FreshWritesAgree(id: ReqIdent, jsons: seq<string>, fetches: seq<Fetch>, requesting: string, decoding: string)
    ensures var k, body := Leading(fetches), Outputs(SseEvent(true, id), jsons);
            Concat(FreshWrites(id, jsons, Failure(fetches, requesting, decoding))) ==
            Opening(true) + (if k == |fetches| then body else body + Complaint(fetches[k], requesting, decoding))
  {
    var body := Outputs(SseEvent(true, id), jsons);
    MissConcat(id, jsons, Failure(fetches, requesting, decoding));
    assert Concat([]) == "" && body + "" == body;
  }

  lemma MissAnswers(id: ReqIdent, jsons: seq<string>, failure: seq<string>)
    requires forall j <- jsons :: Breakless(j)
    requires forall t <- failure :: Ignored(t)
    ensures Answers(FreshWrites(id, jsons, failure), EventLabel(id), jsons)
  {
    OpeningIsIgnored(true);
    OwnOutputs(id, jsons);
    IgnoredAll(failure);
    MissConcat(id, jsons, failure);
    IgnoredAround(Opening(true), Outputs(SseEvent(true, id), jsons), Concat(failure));
  }

  lemma HitAnswers(first: ReqIdent, jsons: seq<string>)
    requires forall j <- jsons :: Breakless(j)
    ensures Answers(ReplayedWrites(first, jsons), EventLabel(first), jsons)
  {
    hide Own, Complete, Lines, Outputs, ViewsOf, Opening;
    var body := Outputs(SseEvent(true, first), jsons);
    OpeningIsIgnored(true);
    OwnOutputs(first, jsons);
    assert ReplayedWrites(first, jsons) == [Opening(true)] + [body];
    ConcatAppend([Opening(true)], [body]);
    ConcatOne(Opening(true));
    ConcatOne(body);
    NothingIgnored();
    assert body + "" == body;
    IgnoredAround(Opening(true), body, "");
  }

  // ----- in the stream -----

  /** Whatever the other groups do, as long as they leave no event open, a client reads exactly these answers
      from the group. */
  lemma AnswersInStream(cfg: Config, s: State, actions: seq<Action>, g: nat, writes: seq<string>, kind: string,
                        jsons: seq<string>)
    requires Reachable(cfg, s, actions) && s.finished && g < |cfg.groups|
    requires cfg.groups[g].Source? && cfg.groups[g].ops == Flushing(writes) && Answers(writes, kind, jsons)
    requires forall i :: 0 <= i < |cfg.groups| && i != g ==> WellFramed(cfg.groups[i])
    ensures Own(s.out) == Untag(TaggedEvents(s.log)) + [View("close", "")]
    ensures Pick(TaggedEvents(s.log), g) == ViewsOf(kind, jsons)
  {
    hide Succeeds, MayDeliver, Own, Complete;
    WritesExpected(cfg.groups[g].id, writes);
    assert WellFramed(cfg.groups[g]);
    MultiplexingKeepsFraming(cfg, s, actions);
  }

  /** What `MergeFreqs` writes when it has to compute the answer. */
  function FreqsWrites(id: ReqIdent, fetches: seq<Fetch>, marshal: (seq<Part>, string) -> string): seq<string> {
    FreshWrites(id, MergedAnswers(marshal, PartsOf(fetches[..Leading(fetches)])), Failure(fetches, FREQS, FREQS))
  }

  /** A client of the stream reads one growing answer for each part obtained before the first failure, under the
      group's own label; what is written about a failure it ignores. */
  lemma FreqsInStream(cfg: Config, s: State, actions: seq<Action>, g: nat, fetches: seq<Fetch>,
                      marshal: (seq<Part>, string) -> string)
    requires Reachable(cfg, s, actions) && s.finished && g < |cfg.groups|
    requires cfg.groups[g].Source? && cfg.groups[g].ops == Flushing(FreqsWrites(cfg.groups[g].id, fetches, marshal))
    requires forall i :: 0 <= i < |cfg.groups| && i != g ==> WellFramed(cfg.groups[i])
    requires forall f <- fetches :: OneLined(f)
    requires forall j <- MergedAnswers(marshal, PartsOf(fetches[..Leading(fetches)])) :: Breakless(j)
    ensures Pick(TaggedEvents(s.log), g) ==
            ViewsOf(EventLabel(cfg.groups[g].id), MergedAnswers(marshal, PartsOf(fetches[..Leading(fetches)])))
  {
    var id, k := cfg.groups[g].id, Leading(fetches);
    var jsons := MergedAnswers(marshal, PartsOf(fetches[..k]));
    FreqsIgnored();
    if k < |fetches| {
      ComplaintsIgnored(fetches[k], FREQS, FREQS);
    }
    MissAnswers(id, jsons, Failure(fetches, FREQS, FREQS));
    AnswersInStream(cfg, s, actions, g, FreqsWrites(id, fetches, marshal), EventLabel(id), jsons);
  }

  /** A hit repeats the events with the label of the request they were cached for, since the tile is no part of
      the cache id: a client gets them under the label it waits for exactly when that is the same tile and query
      (or there are none). */
  lemma HitInStreamIff(cfg: Config, s: State, actions: seq<Action>, g: nat, first: ReqIdent, jsons: seq<string>)
    requires Reachable(cfg, s, actions) && s.finished && g < |cfg.groups|
    requires cfg.groups[g].Source? && cfg.groups[g].ops == Flushing(ReplayedWrites(first, jsons))
    requires forall i :: 0 <= i < |cfg.groups| && i != g ==> WellFramed(cfg.groups[i])
    requires forall j <- jsons :: Breakless(j)
    ensures Pick(TaggedEvents(s.log), g) == ViewsOf(EventLabel(first), jsons)
    ensures Pick(TaggedEvents(s.log), g) == ViewsOf(EventLabel(cfg.groups[g].id), jsons) <==>
            first == cfg.groups[g].id || jsons == []
  {
    var own := cfg.groups[g].id;
    HitAnswers(first, jsons);
    AnswersInStream(cfg, s, actions, g, ReplayedWrites(first, jsons), EventLabel(first), jsons);
    LabelsIdentify(first, own);
    if jsons != [] {
      assert ViewsOf(EventLabel(first), jsons)[0] == View(EventLabel(first), jsons[0]);
      assert ViewsOf(EventLabel(own), jsons)[0] == View(EventLabel(own), jsons[0]);
    }
  }

  /** A route that does not flush, as that of `CollocationsTT`, delivers its answers but keeps every stream it is
      part of from closing. */
  lemma UnflushedAnswersNeverClose(cfg: Config, s: State, actions: seq<Action>, g: nat, writes: seq<string>)
    requires Reachable(cfg, s, actions) && g < |cfg.groups|
    requires cfg.groups[g].Source? && cfg.groups[g].ops == Writing(writes)
    ensures !s.finished
    ensures Resting(cfg, s) && !s.panicked ==> Seen(s.log, g) == writes
  {
    WritesExpected(cfg.groups[g].id, writes);
    WritingPuts(writes);
    FirstFlush(Writing(writes));
    assert Writing(writes)[..|Writing(writes)|] == Writing(writes);
    assert cfg.groups[g] in cfg.groups;
    if s.finished {
      RunDelivers(cfg, s, actions);
    }
    if Resting(cfg, s) {
      MaximalRunCloses(cfg, s, actions);
    }
  }
}
