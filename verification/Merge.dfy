/** Answers put together from several backend requests: `MergeFreqs` and `CollocationsTT` send an event
    for each part they obtain, and cache the whole run of events. */
module Merge {
  import opened Text
  import opened EventStream
  import opened Grouping
  import opened StreamMessages
  import opened StreamFraming
  import opened Counter
  import opened ReReading
  import opened CacheId
  import opened FileCache

  /** What of a decoded backend answer matters here. */
  datatype Part = Part(content: string, error: string)

  /** How a request for one part ends. Exporting fails without a body, which then cannot be decoded. */
  datatype Fetch =
    | BadURL
    | RequestFailed(detail: string)
    | ExportFailed(detail: string, decoding: string)
    | Undecodable(detail: string)
    | Obtained(part: Part)

  /** The lines written for a failure, each by a write of its own. */
  function Complaints(f: Fetch, requesting: string, decoding: string): seq<string>
    requires !f.Obtained?
  {
    match f
    case BadURL => ["Invalid URL\n"]
    case RequestFailed(d) => [requesting + d + "\n"]
    case ExportFailed(d, e) => [requesting + d + "\n", decoding + e + "\n"]
    case Undecodable(d) => [decoding + d + "\n"]
  }

  /** The text written for a failure. */
  function Complaint(f: Fetch, requesting: string, decoding: string): string
    requires !f.Obtained?
  {
    Concat(Complaints(f, requesting, decoding))
  }

  const FREQS := "failed to get partial freqs: "
  const COLLS := "failed to get partial tt-colls: "

  predicate AllObtained(fetches: seq<Fetch>) {
    forall i :: 0 <= i < |fetches| ==> fetches[i].Obtained?
  }

  /** How many parts are obtained before the first failure. */
  function Leading(fetches: seq<Fetch>): (k: nat)
    ensures k <= |fetches| && AllObtained(fetches[..k]) && (k < |fetches| ==> !fetches[k].Obtained?)
  {
    if fetches == [] || !fetches[0].Obtained? then 0
    else
      var k := Leading(fetches[1..]);
      assert forall i :: 0 < i <= k ==> fetches[i] == fetches[1..][..k][i - 1];
      k + 1
  }

  lemma LeadingIs(fetches: seq<Fetch>, k: nat)
    requires k <= |fetches| && AllObtained(fetches[..k]) && (k < |fetches| ==> !fetches[k].Obtained?)
    ensures Leading(fetches) == k
  {
    assert forall i :: 0 <= i < k ==> fetches[..k][i] == fetches[i];
    assert forall i :: 0 <= i < Leading(fetches) ==> fetches[..Leading(fetches)][i] == fetches[i];
  }

  function PartsOf(fetches: seq<Fetch>): (ps: seq<Part>)
    requires AllObtained(fetches)
    ensures |ps| == |fetches| && forall i :: 0 <= i < |ps| ==> ps[i] == fetches[i].part
  {
    if fetches == [] then [] else [fetches[0].part] + PartsOf(fetches[1..])
  }

  /** The first error that is not empty. */
  function FirstError(parts: seq<Part>): string {
    if parts == [] then "" else if parts[0].error != "" then parts[0].error else FirstError(parts[1..])
  }

  lemma {:induction false} FirstErrorAppend(parts: seq<Part>, p: Part)
    ensures FirstError(parts + [p]) == if FirstError(parts) == "" then p.error else FirstError(parts)
  {
    if parts == [] {
      assert [] + [p] == [p];
      assert [p][1..] == [];
    } else {
      assert (parts + [p])[1..] == parts[1..] + [p];
      FirstErrorAppend(parts[1..], p);
    }
  }

  /** The error carried is empty if and only if all parts' are; otherwise it is that of the first part with one. */
  lemma {:induction false} FirstErrorIff(parts: seq<Part>, k: nat)
    ensures FirstError(parts) == "" <==> forall i :: 0 <= i < |parts| ==> parts[i].error == ""
    ensures k < |parts| && parts[k].error != "" && (forall i :: 0 <= i < k ==> parts[i].error == "") ==>
              FirstError(parts) == parts[k].error
  {
    if parts != [] {
      FirstErrorIff(parts[1..], if k > 0 then k - 1 else 0);
      assert forall i :: 0 < i < |parts| ==> parts[i] == parts[1..][i - 1];
    }
  }

  function SseEvent(streaming: bool, id: ReqIdent): string {
    if streaming then " " + EventLabel(id) else ""
  }

  function Output(sse: string, json: string): string {
    "event:" + sse + "\n" + ("data: " + json + "\n" + "\n")
  }

  function Outputs(sse: string, jsons: seq<string>): string {
    if jsons == [] then "" else Outputs(sse, jsons[..|jsons| - 1]) + Output(sse, jsons[|jsons| - 1])
  }

  lemma OutputsStep(sse: string, jsons: seq<string>, json: string)
    ensures Outputs(sse, jsons + [json]) == Outputs(sse, jsons) + Output(sse, json)
  {
    assert (jsons + [json])[..|jsons|] == jsons;
  }

  function MergedAnswers(marshal: (seq<Part>, string) -> string, parts: seq<Part>): (js: seq<string>)
    ensures |js| == |parts|
  {
    if parts == [] then []
    else MergedAnswers(marshal, parts[..|parts| - 1]) + [marshal(parts, FirstError(parts))]
  }

  /** Event `i` carries the first `i + 1` parts and the first error among them. */
  lemma {:induction false} MergedAnswerAt(marshal: (seq<Part>, string) -> string, parts: seq<Part>, i: nat)
    requires i < |parts|
    ensures MergedAnswers(marshal, parts)[i] == marshal(parts[..i + 1], FirstError(parts[..i + 1]))
  {
    var n := |parts| - 1;
    if i < n {
      MergedAnswerAt(marshal, parts[..n], i);
      assert parts[..n][..i + 1] == parts[..i + 1];
    } else {
      assert parts[..i + 1] == parts;
    }
  }

  lemma MergeStep(sse: string, marshal: (seq<Part>, string) -> string, parts: seq<Part>, p: Part)
    ensures var more := parts + [p];
            Outputs(sse, MergedAnswers(marshal, more)) ==
            Outputs(sse, MergedAnswers(marshal, parts)) + Output(sse, marshal(more, FirstError(more)))
  {
    assert (parts + [p])[..|parts|] == parts;
    OutputsStep(sse, MergedAnswers(marshal, parts), marshal(parts + [p], FirstError(parts + [p])));
  }

  lemma PartsStep(fetches: seq<Fetch>, i: nat)
    requires i < |fetches| && AllObtained(fetches[..i]) && fetches[i].Obtained?
    ensures AllObtained(fetches[..i + 1])
    ensures PartsOf(fetches[..i + 1]) == PartsOf(fetches[..i]) + [fetches[i].part]
  {}

  /** Nothing is cached unless every part was obtained; then what is cached is what was written. */
  method MergeFreqs(sse: string, fetches: seq<Fetch>, marshal: (seq<Part>, string) -> string)
    returns (written: string, cached: Option<string>)
    ensures var k := Leading(fetches);
            var body := Outputs(sse, MergedAnswers(marshal, PartsOf(fetches[..k])));
            if k == |fetches| then written == body && cached == Some(body)
            else written == body + Complaint(fetches[k], FREQS, FREQS) && cached == None
  {
    var parts: seq<Part> := [];
    var error := "";
    var toCache := "";
    written := "";
    for i := 0 to |fetches|
      invariant AllObtained(fetches[..i]) && parts == PartsOf(fetches[..i])
      invariant error == FirstError(parts)
      invariant written == toCache == Outputs(sse, MergedAnswers(marshal, parts))
    {
      if !fetches[i].Obtained? {
        LeadingIs(fetches, i);
        written := written + Complaint(fetches[i], FREQS, FREQS);
        cached := None;
        return;
      }
      var freqPart := fetches[i].part;
      PartsStep(fetches, i);
      FirstErrorAppend(parts, freqPart);
      MergeStep(sse, marshal, parts, freqPart);
      parts := parts + [freqPart];
      if error == "" && freqPart.error != "" {
        error := freqPart.error;
      }
      var output := Output(sse, marshal(parts, error));
      written := written + output;
      toCache := toCache + output;
    }
    assert fetches[..|fetches|] == fetches;
    LeadingIs(fetches, |fetches|);
    cached := Some(toCache);
  }

  /** The parts by text type; of several for one type the last counts. */
  function ByType(types: seq<string>, parts: seq<Part>): map<string, Part>
    requires |types| == |parts|
  {
    if types == [] then map[]
    else
      var n := |types| - 1;
      ByType(types[..n], parts[..n])[types[n] := parts[n]]
  }

  function CollectedAnswers(marshal: (map<string, Part>, string) -> string, types: seq<string>, parts: seq<Part>)
    : (js: seq<string>)
    requires |types| == |parts|
    ensures |js| == |parts|
  {
    if parts == [] then []
    else
      var n := |parts| - 1;
      CollectedAnswers(marshal, types[..n], parts[..n]) + [marshal(ByType(types, parts), FirstError(parts))]
  }

  /** Event `i` carries the first `i + 1` parts by type and the first error among them. */
  lemma {:induction false} CollectedAnswerAt(marshal: (map<string, Part>, string) -> string, types: seq<string>,
                                             parts: seq<Part>, i: nat)
    requires i < |parts| == |types|
    ensures CollectedAnswers(marshal, types, parts)[i] ==
            marshal(ByType(types[..i + 1], parts[..i + 1]), FirstError(parts[..i + 1]))
  {
    var n := |parts| - 1;
    if i < n {
      CollectedAnswerAt(marshal, types[..n], parts[..n], i);
      assert parts[..n][..i + 1] == parts[..i + 1] && types[..n][..i + 1] == types[..i + 1];
    } else {
      assert parts[..i + 1] == parts && types[..i + 1] == types;
    }
  }

  /** Only the types asked for are there. */
  lemma {:induction false} TypesOf(types: seq<string>, parts: seq<Part>, kind: string)
    requires |types| == |parts|
    ensures kind in ByType(types, parts) <==> kind in types
  {
    if types != [] {
      var n := |types| - 1;
      TypesOf(types[..n], parts[..n], kind);
      assert types == types[..n] + [types[n]];
    }
  }

  lemma {:induction false} LastOfType(types: seq<string>, parts: seq<Part>, i: nat)
    requires i < |types| == |parts| && forall j :: i < j < |types| ==> types[j] != types[i]
    ensures types[i] in ByType(types, parts) && ByType(types, parts)[types[i]] == parts[i]
  {
    var n := |types| - 1;
    if i < n {
      LastOfType(types[..n], parts[..n], i);
    }
  }

  lemma CollectStep(sse: string, marshal: (map<string, Part>, string) -> string, types: seq<string>, i: nat,
                    parts: seq<Part>, p: Part)
    requires i < |types| && |parts| == i
    ensures var more := parts + [p];
            && ByType(types[..i + 1], more) == ByType(types[..i], parts)[types[i] := p]
            && Outputs(sse, CollectedAnswers(marshal, types[..i + 1], more)) ==
               Outputs(sse, CollectedAnswers(marshal, types[..i], parts)) +
               Output(sse, marshal(ByType(types[..i + 1], more), FirstError(more)))
  {
    var more := parts + [p];
    assert more[..i] == parts && types[..i + 1][..i] == types[..i];
    OutputsStep(sse, CollectedAnswers(marshal, types[..i], parts),
                marshal(ByType(types[..i + 1], more), FirstError(more)));
  }

  method CollocationsTT(sse: string, types: seq<string>, fetches: seq<Fetch>,
                        marshal: (map<string, Part>, string) -> string)
    returns (written: string, cached: Option<string>)
    requires |types| == |fetches|
    ensures var k := Leading(fetches);
            var body := Outputs(sse, CollectedAnswers(marshal, types[..k], PartsOf(fetches[..k])));
            if k == |fetches| then written == body && cached == Some(body)
            else written == body + Complaint(fetches[k], COLLS, FREQS) && cached == None
  {
    var parts: map<string, Part> := map[];
    var error := "";
    var toCache := "";
    written := "";
    ghost var all: seq<Part> := [];
    for i := 0 to |fetches|
      invariant AllObtained(fetches[..i]) && all == PartsOf(fetches[..i])
      invariant parts == ByType(types[..i], all) && error == FirstError(all)
      invariant written == toCache == Outputs(sse, CollectedAnswers(marshal, types[..i], all))
    {
      if !fetches[i].Obtained? {
        LeadingIs(fetches, i);
        written := written + Complaint(fetches[i], COLLS, FREQS);
        cached := None;
        return;
      }
      var ttCollPart := fetches[i].part;
      PartsStep(fetches, i);
      FirstErrorAppend(all, ttCollPart);
      CollectStep(sse, marshal, types, i, all, ttCollPart);
      all := all + [ttCollPart];
      parts := parts[types[i] := ttCollPart];
      if error == "" && ttCollPart.error != "" {
        error := ttCollPart.error;
      }
      var output := Output(sse, marshal(parts, error));
      written := written + output;
      toCache := toCache + output;
    }
    assert fetches[..|fetches|] == fetches && types[..|fetches|] == types;
    LeadingIs(fetches, |fetches|);
    cached := Some(toCache);
  }

  // ----- the events a client sees -----

  lemma OwnOutput(sse: string, json: string)
    requires (sse == "" || (sse[0] == ' ' && PlainKind(sse[1..]))) && Breakless(json)
    ensures Own(Output(sse, json)) == [View(if sse == "" then "message" else sse[1..], json)]
    ensures Complete(Output(sse, json))
  {
    if sse == "" {
      UntypedOutput(json);
    } else {
      assert "event:" + sse == "event: " + sse[1..];
      OwnEventText(sse[1..], json);
    }
  }

  lemma UntypedLine()
    ensures ProcessLine(INITIAL, "event:") == INITIAL
  {
    IndexOfNone("event", ":", ':');
    assert "event" + ":" == "event:";
    assert "event:"[..5] == "event" && "event:"[6..] == "";
  }

  lemma UntypedLines(json: string)
    requires Breakless(json)
    ensures Lines(Output("", json)) == ["event:", "data: " + json, ""]
    ensures EndsWith(Output("", json), '\n')
  {
    var rest := "data: " + json + "\n" + "\n";
    DataTextLines(json);
    LineFeedEnds("event:");
    assert Output("", json) == ("event:" + "\n") + rest;
    LinesConcat("event:" + "\n", rest);
    assert Output("", json)[|Output("", json)| - 1] == rest[|rest| - 1];
  }

  lemma UntypedOutput(json: string)
    requires Breakless(json)
    ensures Own(Output("", json)) == [View("message", json)] && Complete(Output("", json))
  {
    UntypedLines(json);
    UntypedLine();
    DataLine(INITIAL, json);
    RunThree(INITIAL, "event:", "data: " + json);
    DispatchOne(INITIAL, json);
    BlankLineSettles(INITIAL, Lines(Output("", json)));
  }

  function ViewsOf(kind: string, jsons: seq<string>): (vs: seq<View>)
    ensures |vs| == |jsons| && forall i :: 0 <= i < |vs| ==> vs[i] == View(kind, jsons[i])
  {
    if jsons == [] then [] else ViewsOf(kind, jsons[..|jsons| - 1]) + [View(kind, jsons[|jsons| - 1])]
  }

  /** The whole body is one event per part, in order: each a growing answer. */
  lemma {:induction false} OutputEvents(sse: string, jsons: seq<string>)
    requires sse == "" || (sse[0] == ' ' && PlainKind(sse[1..]))
    requires forall j <- jsons :: Breakless(j)
    ensures Own(Outputs(sse, jsons)) == ViewsOf(if sse == "" then "message" else sse[1..], jsons)
    ensures Complete(Outputs(sse, jsons))
  {
    if jsons == [] {
      assert Lines("") == [];
    } else {
      var n := |jsons| - 1;
      OutputEvents(sse, jsons[..n]);
      OwnOutput(sse, jsons[n]);
      OwnConcat(Outputs(sse, jsons[..n]), Output(sse, jsons[n]));
    }
  }

  /** In streaming mode both handlers begin with an empty object. */
  function Opening(streaming: bool): string {
    if streaming then "{}\n\n" else ""
  }

  lemma OpeningIsIgnored(streaming: bool)
    ensures Own(Opening(streaming)) == [] && Complete(Opening(streaming))
    ensures Lines(Opening(streaming)) == if streaming then ["{}", ""] else []
  {
    if streaming {
      LineFeedEnds("{}");
      LineFeedEnds("");
      assert "{}\n\n" == ("{}" + "\n") + ("" + "\n");
      LinesConcat("{}" + "\n", "" + "\n");
      assert Lines("{}\n\n") == ["{}", ""];
      assert IndexOf("{}", ':') == 2;
      assert ProcessLine(INITIAL, "{}") == INITIAL;
      RunTwo(INITIAL, "{}");
    } else {
      assert Lines("") == [];
    }
  }

  /** What is written in either mode is one event per part for a client, with nothing before them. */
  lemma AnswerEvents(streaming: bool, id: ReqIdent, jsons: seq<string>)
    requires forall j <- jsons :: Breakless(j)
    ensures Own(Opening(streaming) + Outputs(SseEvent(streaming, id), jsons)) ==
            ViewsOf(if streaming then EventLabel(id) else "message", jsons)
  {
    var sse := SseEvent(streaming, id);
    LabelIsPlain(id);
    assert streaming ==> sse[1..] == EventLabel(id);
    OutputEvents(sse, jsons);
    OpeningIsIgnored(streaming);
    OwnConcat(Opening(streaming), Outputs(sse, jsons));
    assert [] + Own(Outputs(sse, jsons)) == Own(Outputs(sse, jsons));
  }

  // ----- caching and replay -----

  /** A request; its body `data` has been read to decode it. `leftAt` is the position at which the requests
      for the parts leave the body, which they share. */
  datatype Call = Call(req: CacheId.Request, data: string, opts: Options, tag: string, streaming: bool, leftAt: nat,
                       getAt: Time, setAt: Time)

  function GetOf(c: Call): Op {
    Op.Get(c.req, c.data, c.tag, c.opts, c.getAt)
  }

  function SetOf(c: Call, body: string): Op {
    Op.Set(c.req, Rest(c.data, c.leftAt), c.tag, c.opts, c.setAt,
           Entry(200, body, ["Content-Type: text/event-stream"]))
  }

  /** A handler's effect on the cache and what it writes, when computing the answer would yield
      `(written, cached)`. Anything but a hit counts as a miss. */
  function Serve(files: Files, ttl: nat, c: Call, written: string, cached: Option<string>): (string, Files) {
    var (r, after) := FileStep(files, ttl, GetOf(c));
    if r.Hit? then (Opening(c.streaming) + r.entry.data, after)
    else
      (Opening(c.streaming) + written,
       match cached case Some(body) => FileStep(after, ttl, SetOf(c, body)).1 case None => after)
  }

  function FilesAfter(files: Files, ttl: nat, ops: seq<Op>): Files
    decreases |ops|
  {
    if ops == [] then files else FilesAfter(FileStep(files, ttl, ops[0]).1, ttl, ops[1..])
  }

  lemma {:induction false} LastAnswer(files: Files, ttl: nat, ops: seq<Op>, last: Op)
    ensures var rs := FileRun(files, ttl, ops + [last]);
            |rs| == |ops| + 1 && rs[|ops|] == FileStep(FilesAfter(files, ttl, ops), ttl, last).0
    decreases |ops|
  {
    if ops == [] {
      assert [] + [last] == [last];
      assert [last][1..] == [];
    } else {
      assert (ops + [last])[1..] == ops[1..] + [last];
      LastAnswer(FileStep(files, ttl, ops[0]).1, ttl, ops[1..], last);
    }
  }

  /** The same request once more. */
  predicate SameRequest(c: Call, d: Call) {
    c.req == d.req && c.data == d.data && c.opts == d.opts && c.tag == d.tag && c.streaming == d.streaming
  }

  /** What these handlers ask of the cache: a request body that is part of the id. */
  predicate Cacheable(c: Call) {
    c.opts.cacheablePOST && ShouldReadFromCache(c.req, c.opts) && c.leftAt <= |c.data|
  }

  lemma SamePathIff(c: Call, body: string)
    requires Cacheable(c)
    ensures PathOf(SetOf(c, body)) == PathOf(GetOf(c)) <==> c.leftAt == 0
  {
    var p, q := Preimage(c.req, c.opts, Rest(c.data, c.leftAt)), Preimage(c.req, c.opts, c.data);
    assert Rest(c.data, 0) == c.data;
    IdsAgreeIff(c.req, c.opts, c.data, c.leftAt, 0);
    TagsHaveOwnItems(c.tag, c.tag, p, q);
  }

  /** A miss says that the item is absent or expired. */
  lemma MissedSlot(files: Files, slots: Slots, ttl: nat, c: Call, start: Time)
    requires Represents(files, slots, ttl, start) && start <= c.getAt && Cacheable(c)
    requires !FileStep(files, ttl, GetOf(c)).0.Hit?
    ensures Represents(FileStep(files, ttl, GetOf(c)).1, slots, ttl, c.getAt)
    ensures PathOf(GetOf(c)) in slots ==> c.getAt - slots[PathOf(GetOf(c))].used > ttl as real
  {
    StepRepresents(files, slots, ttl, start, GetOf(c));
  }

  lemma AgainHit(files: Files, slots: Slots, ttl: nat, c: Call, body: string, mid: seq<Op>, again: Op)
    requires Represents(files, slots, ttl, c.getAt) && Cacheable(c) && c.leftAt == 0
    requires InTime([SetOf(c, body)] + (mid + [again]), c.getAt)
    requires forall i :: 0 <= i < |mid| ==> LeavesAlone(mid[i], PathOf(GetOf(c)))
    requires again.Get? && ShouldReadFromCache(again.req, again.opts) && PathOf(again) == PathOf(GetOf(c))
    requires again.now - c.setAt <= ttl as real
    ensures var between := FilesAfter(FileStep(files, ttl, SetOf(c, body)).1, ttl, mid);
            FileStep(between, ttl, again).0 == Hit(SetOf(c, body).value)
  {
    var stored := SetOf(c, body);
    SamePathIff(c, body);
    LastSetIsServed(files, slots, ttl, stored, mid, again, c.getAt);
    SetThenAnswer(files, ttl, stored, mid, again);
  }

  lemma AgainMiss(files: Files, slots: Slots, ttl: nat, c: Call, body: string, mid: seq<Op>, again: Op)
    requires Represents(files, slots, ttl, c.getAt) && Cacheable(c) && c.leftAt != 0
    requires InTime([SetOf(c, body)] + (mid + [again]), c.getAt)
    requires forall i :: 0 <= i < |mid| ==> LeavesAlone(mid[i], PathOf(GetOf(c)))
    requires again.Get? && PathOf(again) == PathOf(GetOf(c))
    requires PathOf(GetOf(c)) in slots ==> c.getAt - slots[PathOf(GetOf(c))].used > ttl as real
    ensures var between := FilesAfter(FileStep(files, ttl, SetOf(c, body)).1, ttl, mid);
            FileStep(between, ttl, again).0 == Miss
  {
    SamePathIff(c, body);
    assert LeavesAlone(SetOf(c, body), PathOf(GetOf(c)));
    ExpiredIsMissed(files, slots, ttl, PathOf(GetOf(c)), SetOf(c, body), mid, again, c.getAt);
    SetThenAnswer(files, ttl, SetOf(c, body), mid, again);
  }

  lemma SetThenAnswer(files: Files, ttl: nat, first: Op, mid: seq<Op>, again: Op)
    ensures var rs := FileRun(files, ttl, [first] + (mid + [again]));
            |rs| == |mid| + 2 &&
            rs[|mid| + 1] == FileStep(FilesAfter(FileStep(files, ttl, first).1, ttl, mid), ttl, again).0
  {
    var ops := [first] + mid;
    assert ops + [again] == [first] + (mid + [again]);
    assert ops[1..] == mid;
    LastAnswer(files, ttl, ops, again);
  }

  /** After a miss whose parts were all obtained, the same request is answered from the cache, within the
      time to live and with other items only changing in between, exactly when the requests for the parts
      left the shared body at its start; and then with the same bytes, whatever it would compute itself. */
  lemma ReplayIff(files: Files, slots: Slots, ttl: nat, c: Call, body: string, mid: seq<Op>, d: Call,
                  written: string, cached: Option<string>, start: Time)
    requires Represents(files, slots, ttl, start) && Cacheable(c) && SameRequest(c, d)
    requires InTime([GetOf(c), SetOf(c, body)] + (mid + [GetOf(d)]), start)
    requires !FileStep(files, ttl, GetOf(c)).0.Hit?
    requires forall i :: 0 <= i < |mid| ==> LeavesAlone(mid[i], PathOf(GetOf(c)))
    requires d.getAt - c.setAt <= ttl as real
    ensures var (first, after) := Serve(files, ttl, c, body, Some(body));
            var between := FilesAfter(after, ttl, mid);
            && (FileStep(between, ttl, GetOf(d)).0.Hit? <==> c.leftAt == 0)
            && (c.leftAt == 0 ==> Serve(between, ttl, d, written, cached).0 == first)
            && (c.leftAt == 0 ==> FileStep(between, ttl, GetOf(d)).0 ==
                                  Hit(Entry(200, body, ["Content-Type: text/event-stream"])))
  {
    var missed := FileStep(files, ttl, GetOf(c)).1;
    ServeMiss(files, ttl, c, body);
    SecondLookup(files, slots, ttl, c, body, mid, d, start);
    ServeHit(FilesAfter(FileStep(missed, ttl, SetOf(c, body)).1, ttl, mid), ttl, d, written, cached);
  }

  lemma SecondLookup(files: Files, slots: Slots, ttl: nat, c: Call, body: string, mid: seq<Op>, d: Call, start: Time)
    requires Represents(files, slots, ttl, start) && Cacheable(c) && SameRequest(c, d)
    requires InTime([GetOf(c), SetOf(c, body)] + (mid + [GetOf(d)]), start)
    requires !FileStep(files, ttl, GetOf(c)).0.Hit?
    requires forall i :: 0 <= i < |mid| ==> LeavesAlone(mid[i], PathOf(GetOf(c)))
    requires d.getAt - c.setAt <= ttl as real
    ensures var missed := FileStep(files, ttl, GetOf(c)).1;
            var between := FilesAfter(FileStep(missed, ttl, SetOf(c, body)).1, ttl, mid);
            FileStep(between, ttl, GetOf(d)).0 == if c.leftAt == 0 then Hit(SetOf(c, body).value) else Miss
  {
    TailTimes(GetOf(c), SetOf(c, body), mid, GetOf(d), start);
    MissedSlot(files, slots, ttl, c, start);
    AgainAnswered(FileStep(files, ttl, GetOf(c)).1, slots, ttl, c, body, mid, GetOf(d));
  }

  lemma AgainAnswered(files: Files, slots: Slots, ttl: nat, c: Call, body: string, mid: seq<Op>, again: Op)
    requires Represents(files, slots, ttl, c.getAt) && Cacheable(c)
    requires InTime([SetOf(c, body)] + (mid + [again]), c.getAt)
    requires forall i :: 0 <= i < |mid| ==> LeavesAlone(mid[i], PathOf(GetOf(c)))
    requires again.Get? && ShouldReadFromCache(again.req, again.opts) && PathOf(again) == PathOf(GetOf(c))
    requires PathOf(GetOf(c)) in slots ==> c.getAt - slots[PathOf(GetOf(c))].used > ttl as real
    requires again.now - c.setAt <= ttl as real
    ensures var between := FilesAfter(FileStep(files, ttl, SetOf(c, body)).1, ttl, mid);
            FileStep(between, ttl, again).0 == if c.leftAt == 0 then Hit(SetOf(c, body).value) else Miss
  {
    if c.leftAt == 0 {
      AgainHit(files, slots, ttl, c, body, mid, again);
    } else {
      AgainMiss(files, slots, ttl, c, body, mid, again);
    }
  }

  lemma ServeMiss(files: Files, ttl: nat, c: Call, body: string)
    requires !FileStep(files, ttl, GetOf(c)).0.Hit?
    ensures Serve(files, ttl, c, body, Some(body)) ==
            (Opening(c.streaming) + body, FileStep(FileStep(files, ttl, GetOf(c)).1, ttl, SetOf(c, body)).1)
  {}

  lemma ServeHit(files: Files, ttl: nat, c: Call, written: string, cached: Option<string>)
    ensures var r := FileStep(files, ttl, GetOf(c)).0;
            r.Hit? ==> Serve(files, ttl, c, written, cached).0 == Opening(c.streaming) + r.entry.data
  {}

  lemma TailTimes(a: Op, b: Op, mid: seq<Op>, last: Op, start: Time)
    requires InTime([a, b] + (mid + [last]), start)
    ensures start <= a.now <= b.now && InTime([b] + (mid + [last]), a.now)
  {
    var ops := [a, b] + (mid + [last]);
    assert ops[1..] == [b] + (mid + [last]);
    assert ops[0] == a && ops[1..][0] == b;
  }
}
