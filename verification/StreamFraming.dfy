/** What a client reads from the multiplexed stream: for every interleaving, the groups' own event
    sequences, each complete and in its own order, and the close event last. */
module StreamFraming {
  import opened Text
  import opened LineScanner
  import opened EventStream
  import opened Reframe
  import opened ReframeLines
  import opened ReframeMeaning
  import opened ReframeStability
  import opened Grouping
  import opened StreamMessages
  import opened StreamProtocol

  /** An event as a handler receives it. The last event ID is left out: it is state of the whole
      connection, so that an `id` field of one group shows up in the events of the others. */
  datatype View = View(kind: string, data: string)

  function Views(es: seq<Event>): seq<View> {
    if es == [] then [] else Views(es[..|es| - 1]) + [View(es[|es| - 1].kind, es[|es| - 1].data)]
  }

  lemma ViewsStep(es: seq<Event>, e: Event)
    ensures Views(es + [e]) == Views(es) + [View(e.kind, e.data)]
  {
    assert (es + [e])[..|es|] == es;
  }

  /** The events that a text dispatches on its own. */
  function Own(text: string): seq<View> {
    Views(Run(INITIAL, Lines(text)).events)
  }

  /** A client's new events depend only on the event being collected. */
  lemma {:induction false} RunViews(c: Client, d: Client, lines: seq<string>)
    requires c.kind == d.kind && c.data == d.data && d.events == []
    ensures Run(c, lines).kind == Run(d, lines).kind && Run(c, lines).data == Run(d, lines).data
    ensures Views(Run(c, lines).events) == Views(c.events) + Views(Run(d, lines).events)
    decreases |lines|
  {
    if lines == [] {
      assert Views(c.events) + [] == Views(c.events);
    } else {
      var c', d' := ProcessLine(c, lines[0]), ProcessLine(d, lines[0]);
      var blank := d'.(events := []);
      StepViews(c, d, lines[0]);
      RunViews(c', blank, lines[1..]);
      RunViews(d', blank, lines[1..]);
      Assoc(Views(c.events), Views(d'.events), Views(Run(blank, lines[1..]).events));
    }
  }

  lemma FieldViews(c: Client, d: Client, name: string, value: string)
    requires c.kind == d.kind && c.data == d.data
    ensures var c', d' := ProcessField(c, name, value), ProcessField(d, name, value);
            c'.kind == d'.kind && c'.data == d'.data && c'.events == c.events && d'.events == d.events
  {}

  lemma DispatchViews(c: Client, d: Client)
    requires c.kind == d.kind && c.data == d.data && d.events == []
    ensures Views(Dispatch(c).events) == Views(c.events) + Views(Dispatch(d).events)
  {
    if c.data == "" {
      assert Views(c.events) + [] == Views(c.events);
    } else {
      var e, f := Dispatch(c).events[|c.events|], Dispatch(d).events[0];
      ViewsStep(c.events, e);
      ViewsStep([], f);
      assert [] + [f] == [f] && [] + [View(f.kind, f.data)] == [View(f.kind, f.data)];
    }
  }

  lemma StepViews(c: Client, d: Client, line: string)
    requires c.kind == d.kind && c.data == d.data && d.events == []
    ensures var c', d' := ProcessLine(c, line), ProcessLine(d, line);
            c'.kind == d'.kind && c'.data == d'.data &&
            Views(c'.events) == Views(c.events) + Views(d'.events)
  {
    if line == "" {
      DispatchViews(c, d);
    } else {
      var i := IndexOf(line, ':');
      var name, value := line[..i], if i < |line| then DropSpace(line[i + 1..]) else "";
      FieldViews(c, d, name, value);
      assert Views(c.events) + [] == Views(c.events);
    }
  }

  /** A text that leaves no event pending and no line open, so that what follows it is read as if it came
      first. It need not end with a blank line: a line of error text is ignored by a client. */
  predicate Complete(text: string) {
    var c := Run(INITIAL, Lines(text));
    (text == "" || EndsWith(text, '\n')) && c.kind == "" && c.data == ""
  }

  lemma {:induction false} BlankLineSettles(c: Client, lines: seq<string>)
    requires lines != [] && lines[|lines| - 1] == ""
    ensures Run(c, lines).kind == "" && Run(c, lines).data == ""
    decreases |lines|
  {
    if |lines| > 1 {
      BlankLineSettles(ProcessLine(c, lines[0]), lines[1..]);
    } else {
      assert Run(c, lines) == Run(ProcessLine(c, ""), lines[1..]);
    }
  }

  /** In particular what consists of whole events. */
  lemma WholeIsComplete(text: string)
    requires Whole(text)
    ensures Complete(text)
  {
    if text == "" {
      assert Lines(text) == [];
    } else {
      BlankLineSettles(INITIAL, Lines(text));
    }
  }

  /** Complete texts can be interpreted one after the other. */
  lemma OwnConcat(a: string, b: string)
    requires Complete(a)
    ensures Own(a + b) == Own(a) + Own(b)
    ensures Complete(b) ==> Complete(a + b)
  {
    hide Run, Lines, Views;
    LinesConcat(a, b);
    var c := Run(INITIAL, Lines(a));
    RunConcat(INITIAL, Lines(a), Lines(b));
    RunViews(c, INITIAL, Lines(b));
    if b == "" {
      assert a + b == a;
    } else {
      assert (a + b)[|a + b| - 1] == b[|b| - 1];
    }
  }

  predicate Breakless(s: string) {
    forall c <- s :: !IsBreak(c)
  }

  predicate PlainKind(kind: string) {
    Breakless(kind) && kind != ""
  }

  /** An event text with one-line data is one event with exactly that data. */
  lemma OwnEventText(kind: string, data: string)
    requires PlainKind(kind) && Breakless(data)
    ensures Own(EventText(kind, data)) == [View(kind, data)]
    ensures Complete(EventText(kind, data))
  {
    EventTextLines(kind, data);
    EventLine(INITIAL, kind);
    var c := INITIAL.(kind := kind);
    DataLine(c, data);
    RunThree(INITIAL, "event: " + kind, "data: " + data);
    DispatchOne(c, data);
    WholeIsComplete(EventText(kind, data));
  }

  lemma EventLine(c: Client, kind: string)
    ensures ProcessLine(c, "event: " + kind) == c.(kind := kind)
  {
    FieldLine(c, "event", kind);
    assert "event" + ": " + kind == "event: " + kind;
  }

  lemma DataLine(c: Client, data: string)
    requires c.data == ""
    ensures ProcessLine(c, "data: " + data) == c.(data := data + "\n")
  {
    DataLineAdds(c, data);
    assert "" + data == data;
  }

  lemma DispatchOne(c: Client, data: string)
    requires c.events == []
    ensures Views(Dispatch(c.(data := data + "\n")).events) ==
            [View(if c.kind == "" then "message" else c.kind, data)]
  {
    assert (data + "\n")[..|data|] == data;
    var e := Event(if c.kind == "" then "message" else c.kind, data, c.idBuffer);
    assert Dispatch(c.(data := data + "\n")).events == [] + [e];
    ViewsStep([], e);
  }

  lemma EventTextLines(kind: string, data: string)
    requires Breakless(kind) && Breakless(data)
    ensures Lines(EventText(kind, data)) == ["event: " + kind, "data: " + data, ""]
    ensures EndsWith(EventText(kind, data), '\n')
  {
    DataTextLines(data);
    var first := "event: " + kind;
    LineFeedEnds(first);
    LinesConcat(first + "\n", "data: " + data + "\n" + "\n");
    assert EventText(kind, data) == (first + "\n") + ("data: " + data + "\n" + "\n");
  }

  lemma DataTextLines(data: string)
    requires Breakless(data)
    ensures Lines("data: " + data + "\n" + "\n") == ["data: " + data, ""]
    ensures EndsWith("data: " + data + "\n" + "\n", '\n')
  {
    var line := "data: " + data;
    LineFeedEnds(line);
    LineFeedEnds("");
    assert "" + "\n" == "\n";
    LinesConcat(line + "\n", "\n");
  }

  lemma RunThree(c: Client, l: string, m: string)
    ensures Run(c, [l, m, ""]) == Dispatch(ProcessLine(ProcessLine(c, l), m))
  {
    assert [l, m, ""][1..] == [m, ""] && [m, ""][1..] == [""] && [""][1..] == [];
    assert Run(c, [l, m, ""]) == Run(ProcessLine(c, l), [m, ""]);
    assert Run(ProcessLine(c, l), [m, ""]) == Run(ProcessLine(ProcessLine(c, l), m), [""]);
  }

  lemma OwnPing(ts: int)
    ensures Own(Render(Ping(ts))) == [View("message", Itoa(ts))]
    ensures Complete(Render(Ping(ts)))
  {
    var data := Itoa(ts);
    DataTextLines(data);
    DataLine(INITIAL, data);
    RunTwo(INITIAL, "data: " + data);
    DispatchOne(INITIAL, data);
    WholeIsComplete(Render(Ping(ts)));
  }

  lemma RunTwo(c: Client, l: string)
    ensures Run(c, [l, ""]) == Dispatch(ProcessLine(c, l))
  {
    assert [l, ""][1..] == [""] && [""][1..] == [];
    assert Run(c, [l, ""]) == Run(ProcessLine(c, l), [""]);
  }

  // ----- the status of a handler -----

  /** A handler sets its status first and then keeps it. */
  predicate KeepsStatus(ops: seq<Op>, status: int) {
    && ops != [] && ops[0] == SetStatus(status) && status != 0
    && forall k :: 1 <= k < |ops| ==> !ops[k].SetStatus?
  }

  lemma {:induction false} StatusKept(ops: seq<Op>, status: int, n: nat)
    requires KeepsStatus(ops, status) && 0 < n <= |ops|
    ensures StatusAt(ops, n) == status
  {
    if n > 1 {
      StatusKept(ops, status, n - 1);
    }
  }

  lemma KeptStatusOnly(ops: seq<Op>, status: int, other: int)
    requires KeepsStatus(ops, status) && MayHaveStatus(ops, other)
    ensures other == status
  {
    var n :| FirstPut(ops) < n <= |ops| && StatusAt(ops, n) == other;
    StatusKept(ops, status, n);
  }

  // ----- the stream -----

  /** A streaming handler that may succeed leaves no event open with any write before it flushes; other payloads are
      single lines. What is forwarded with an error status may be anything. */
  ghost predicate WellFramed(grp: Group) {
    match grp
    case Single(_, data) => Breakless(data)
    case Source(_, ops) => MaySucceed(ops) ==> forall chunk <- Expected(grp) :: Complete(chunk)
  }

  ghost predicate MaySucceed(ops: seq<Op>) {
    exists status :: MayHaveStatus(ops, status) && IsSuccess(status)
  }

  ghost predicate WellFramedConfig(cfg: Config) {
    forall grp <- cfg.groups :: WellFramed(grp)
  }

  /** Whatever a handler writes is forwarded with a success status. */
  ghost predicate Succeeds(grp: Group) {
    grp.Source? ==> forall status :: MayHaveStatus(grp.ops, status) ==> IsSuccess(status)
  }

  /** The events a group is to deliver. */
  function GroupViews(grp: Group): seq<View> {
    match grp
    case Single(id, data) => [View(EventLabel(id), data)]
    case Source(_, _) => Own(Concat(Expected(grp)))
  }

  /** What a client gets for a chunk that is forwarded with the given status. */
  function ForwardedView(id: ReqIdent, chunk: string, status: int): seq<View> {
    if IsSuccess(status) then Own(chunk) else [View(EventLabel(id), ErrorJson(status))]
  }

  function ForwardedViews(id: ReqIdent, chunks: seq<string>, statuses: seq<int>): seq<View>
    requires |chunks| == |statuses|
  {
    if chunks == [] then []
    else
      var n := |chunks| - 1;
      ForwardedViews(id, chunks[..n], statuses[..n]) + ForwardedView(id, chunks[n], statuses[n])
  }

  predicate ArePossible(ops: seq<Op>, statuses: seq<int>) {
    forall i :: 0 <= i < |statuses| ==> MayHaveStatus(ops, statuses[i])
  }

  /** The events that a group may deliver, depending on when its chunks are forwarded: for each chunk, in order,
      the chunk's own events or an error event, as its status then is. */
  ghost predicate MayDeliver(grp: Group, views: seq<View>) {
    match grp
    case Single(_, _) => views == GroupViews(grp)
    case Source(id, ops) =>
      exists statuses: seq<int> :: |statuses| == |Expected(grp)| && ArePossible(ops, statuses)
                                   && views == ForwardedViews(id, Expected(grp), statuses)
  }

  lemma ForwardedStep(id: ReqIdent, chunks: seq<string>, statuses: seq<int>, chunk: string, status: int)
    requires |chunks| == |statuses|
    ensures ForwardedViews(id, chunks + [chunk], statuses + [status]) ==
            ForwardedViews(id, chunks, statuses) + ForwardedView(id, chunk, status)
  {
    assert (chunks + [chunk])[..|chunks|] == chunks && (statuses + [status])[..|statuses|] == statuses;
  }

  lemma NothingIsComplete()
    ensures Complete("") && Own("") == []
  {
    assert Lines("") == [];
    assert Views(INITIAL.events) == [];
  }

  /** With success all along these are the events of all chunks together. */
  lemma {:induction false} ForwardedSuccess(id: ReqIdent, chunks: seq<string>, statuses: seq<int>)
    requires |chunks| == |statuses| && forall i :: 0 <= i < |statuses| ==> IsSuccess(statuses[i])
    requires forall i :: 0 <= i < |chunks| ==> Complete(chunks[i])
    ensures ForwardedViews(id, chunks, statuses) == Own(Concat(chunks)) && Complete(Concat(chunks))
  {
    hide Complete, Own;
    if chunks == [] {
      NothingIsComplete();
    } else {
      var n := |chunks| - 1;
      ForwardedSuccess(id, chunks[..n], statuses[..n]);
      assert chunks == chunks[..n] + [chunks[n]];
      ConcatAppend(chunks[..n], [chunks[n]]);
      ConcatOne(chunks[n]);
      OwnConcat(Concat(chunks[..n]), chunks[n]);
    }
  }

  /** A handler that fixes an error status before it writes, and keeps it, makes one error event of each write. */
  lemma {:induction false} ForwardedFailure(id: ReqIdent, chunks: seq<string>, statuses: seq<int>, status: int)
    requires |chunks| == |statuses| && !IsSuccess(status)
    requires forall i :: 0 <= i < |statuses| ==> statuses[i] == status
    ensures ForwardedViews(id, chunks, statuses) == seq(|chunks|, _ => View(EventLabel(id), ErrorJson(status)))
  {
    if chunks != [] {
      ForwardedFailure(id, chunks[..|chunks| - 1], statuses[..|chunks| - 1], status);
    }
  }

  /** An event together with the group it comes from, if it comes from one. */
  datatype Tagged = Tagged(source: Option<nat>, view: View)

  function Tag(source: Option<nat>, vs: seq<View>): (ts: seq<Tagged>)
    ensures |ts| == |vs| && forall i :: 0 <= i < |ts| ==> ts[i] == Tagged(source, vs[i])
  {
    if vs == [] then [] else [Tagged(source, vs[0])] + Tag(source, vs[1..])
  }

  function SourceOf(m: Msg): Option<nat> {
    if m.Ping? then None else Some(m.group)
  }

  /** All events of the log in the order they were written, each with its source. */
  function TaggedEvents(log: seq<Msg>): seq<Tagged> {
    if log == [] then []
    else
      var m := log[|log| - 1];
      TaggedEvents(log[..|log| - 1]) + Tag(SourceOf(m), Own(Render(m)))
  }

  function Untag(ts: seq<Tagged>): seq<View> {
    if ts == [] then [] else Untag(ts[..|ts| - 1]) + [ts[|ts| - 1].view]
  }

  /** The events of one group, in order. */
  function Pick(ts: seq<Tagged>, g: nat): seq<View> {
    if ts == [] then []
    else
      var rest, t := Pick(ts[..|ts| - 1], g), ts[|ts| - 1];
      if t.source == Some(g) then rest + [t.view] else rest
  }

  lemma {:induction false} AppendTag(ts: seq<Tagged>, source: Option<nat>, vs: seq<View>, g: nat)
    ensures Untag(ts + Tag(source, vs)) == Untag(ts) + vs
    ensures Pick(ts + Tag(source, vs), g) == if source == Some(g) then Pick(ts, g) + vs else Pick(ts, g)
    decreases |vs|
  {
    var all := ts + Tag(source, vs);
    if vs == [] {
      assert all == ts;
      assert Untag(ts) + vs == Untag(ts) && Pick(ts, g) + vs == Pick(ts, g);
    } else {
      var n := |vs| - 1;
      var last := Tagged(source, vs[n]);
      assert Tag(source, vs) == Tag(source, vs[..n]) + [last];
      assert all == (ts + Tag(source, vs[..n])) + [last];
      assert all[..|all| - 1] == ts + Tag(source, vs[..n]);
      AppendTag(ts, source, vs[..n], g);
      assert vs == vs[..n] + [vs[n]];
      Assoc(Untag(ts), vs[..n], [vs[n]]);
      Assoc(Pick(ts, g), vs[..n], [vs[n]]);
    }
  }

  lemma {:induction false} LogHas(log: seq<Msg>, m: Msg, g: nat)
    requires m in log && From(m, g)
    ensures m.data in Seen(log, g)
  {
    var last := log[|log| - 1];
    assert log == log[..|log| - 1] + [last];
    if m != last {
      LogHas(log[..|log| - 1], m, g);
    }
  }

  /** What a message is for a client. */
  function MessageViews(m: Msg): seq<View> {
    match m
    case Ready(_, id, data) => [View(EventLabel(id), data)]
    case Raw(_, id, data, status) => ForwardedView(id, data, status)
    case Ping(ts) => [View("message", Itoa(ts))]
  }

  lemma ErrorIsBreakless(status: int)
    ensures Breakless(ErrorJson(status))
  {
    var t := Itoa(status);
    assert forall c <- t :: !IsBreak(c);
    assert Breakless("{\"error\":\"") && Breakless("received error response") && Breakless(" from backend ");
    assert Breakless("(status: ") && Breakless(")\"}");
  }

  /** Every message of a finished run renders to complete events. */
  lemma MessageIsComplete(cfg: Config, m: Msg)
    requires WellFramedConfig(cfg) && Authentic(cfg, m)
    requires m.Raw? ==> m.data in Expected(cfg.groups[m.group])
    ensures Complete(Render(m)) && Own(Render(m)) == MessageViews(m)
    ensures HasPrefix(Render(m), BOM) ==> m.Raw? && HasPrefix(m.data, BOM)
  {
    hide MayHaveStatus;
    match m
    case Ready(g, id, data) =>
      assert WellFramed(cfg.groups[g]);
      LabelledIsComplete(id, data);
    case Raw(g, id, data, status) =>
      assert WellFramed(cfg.groups[g]);
      ErrorIsBreakless(status);
      LabelledIsComplete(id, ErrorJson(status));
    case Ping(ts) =>
      OwnPing(ts);
      assert Render(m)[0] == 'd';
  }

  lemma LabelledIsComplete(id: ReqIdent, data: string)
    requires Breakless(data)
    ensures Complete(EventText(EventLabel(id), data)) && !HasPrefix(EventText(EventLabel(id), data), BOM)
    ensures Own(EventText(EventLabel(id), data)) == [View(EventLabel(id), data)]
  {
    LabelIsPlain(id);
    OwnEventText(EventLabel(id), data);
    assert EventText(EventLabel(id), data)[0] == 'e';
  }

  lemma LabelIsPlain(id: ReqIdent)
    ensures PlainKind(EventLabel(id))
  {
    var t, q := Itoa(id.tileId), Itoa(id.queryIdx);
    assert forall c <- t :: !IsBreak(c);
    assert forall c <- q :: !IsBreak(c);
  }

  /** The events of a log of complete messages, parsed as one text. */
  lemma {:induction false} LogEvents(log: seq<Msg>)
    requires forall m <- log :: Complete(Render(m))
    ensures Own(RenderAll(log)) == Untag(TaggedEvents(log)) && Complete(RenderAll(log))
  {
    if log != [] {
      var rest, m := log[..|log| - 1], log[|log| - 1];
      LogEvents(rest);
      OwnConcat(RenderAll(rest), Render(m));
      AppendTag(TaggedEvents(rest), SourceOf(m), Own(Render(m)), 0);
    }
  }

  lemma {:induction false} LogHasNoMark(log: seq<Msg>)
    requires forall m <- log :: Complete(Render(m)) && !HasPrefix(Render(m), BOM)
    ensures Complete(RenderAll(log)) && !HasPrefix(RenderAll(log), BOM)
  {
    if log != [] {
      var rest, m := log[..|log| - 1], log[|log| - 1];
      assert m in log;
      LogHasNoMark(rest);
      OwnConcat(RenderAll(rest), Render(m));
      NoMark(RenderAll(rest), Render(m));
    }
  }

  lemma NoMark(a: string, b: string)
    requires Complete(a) && !HasPrefix(a, BOM) && !HasPrefix(b, BOM)
    ensures !HasPrefix(a + b, BOM)
  {
    assert forall k :: 0 <= k < |a| ==> (a + b)[k] == a[k];
    if a == "" {
      assert a + b == b;
    } else {
      assert (a + b)[|a| - 1] == '\n';
    }
  }

  /** The statuses with which a group's messages were forwarded, in order. */
  function StatusesOf(log: seq<Msg>, g: nat): seq<int> {
    if log == [] then []
    else
      var rest, m := StatusesOf(log[..|log| - 1], g), log[|log| - 1];
      if From(m, g) && m.Raw? then rest + [m.status] else rest
  }

  /** The events in the log of a group that streams are those of its chunks as they were forwarded. */
  lemma {:induction false} SourceEvents(cfg: Config, log: seq<Msg>, g: nat)
    requires g < |cfg.groups| && cfg.groups[g].Source?
    requires forall m <- log :: Authentic(cfg, m) && Own(Render(m)) == MessageViews(m)
    ensures |StatusesOf(log, g)| == |Seen(log, g)| && ArePossible(cfg.groups[g].ops, StatusesOf(log, g))
    ensures Pick(TaggedEvents(log), g) == ForwardedViews(cfg.groups[g].id, Seen(log, g), StatusesOf(log, g))
  {
    hide MayHaveStatus, ForwardedView, Own, Render;
    if log != [] {
      var rest, m := log[..|log| - 1], log[|log| - 1];
      assert m in log;
      SourceEvents(cfg, rest, g);
      AppendTag(TaggedEvents(rest), SourceOf(m), Own(Render(m)), g);
      if From(m, g) {
        ForwardedStep(cfg.groups[g].id, Seen(rest, g), StatusesOf(rest, g), m.data, m.status);
      }
    }
  }

  /** A group that answers once has one event for each of its messages, with the message's data. */
  lemma {:induction false} SingleEvents(cfg: Config, log: seq<Msg>, g: nat)
    requires g < |cfg.groups| && cfg.groups[g].Single?
    requires forall m <- log :: Authentic(cfg, m) && Own(Render(m)) == MessageViews(m)
    ensures |Pick(TaggedEvents(log), g)| == |Seen(log, g)|
    ensures forall i :: 0 <= i < |Seen(log, g)| ==> Pick(TaggedEvents(log), g)[i].data == Seen(log, g)[i]
  {
    hide Own, Render;
    if log != [] {
      var rest, m := log[..|log| - 1], log[|log| - 1];
      assert m in log;
      SingleEvents(cfg, rest, g);
      AppendTag(TaggedEvents(rest), SourceOf(m), Own(Render(m)), g);
    }
  }

  /** Where an event of a log may come from: a group, or the ticker. */
  predicate FromStream(cfg: Config, t: Tagged, log: seq<Msg>) {
    match t.source
    case Some(g) => g < |cfg.groups|
    case None => exists m :: m in log && m.Ping? && t.view == View("message", Itoa(m.ts))
  }

  lemma {:induction false} EventsHaveSources(cfg: Config, log: seq<Msg>, all: seq<Msg>)
    requires forall m <- log :: m in all && Authentic(cfg, m)
    requires forall m <- log :: Own(Render(m)) == MessageViews(m)
    ensures forall t <- TaggedEvents(log) :: FromStream(cfg, t, all)
  {
    if log != [] {
      var rest, m := log[..|log| - 1], log[|log| - 1];
      assert m in log;
      EventsHaveSources(cfg, rest, all);
      var more := Tag(SourceOf(m), Own(Render(m)));
      forall t <- TaggedEvents(log) ensures FromStream(cfg, t, all) {
        if t !in TaggedEvents(rest) {
          assert t in more;
        }
      }
    }
  }

  predicate NoMarks(cfg: Config) {
    forall grp <- cfg.groups :: forall chunk <- Expected(grp) :: !HasPrefix(chunk, BOM)
  }

  /** What a client reads: the tagged events of the log, then one close event. The events tagged with a group are
      the group's own, complete and in order, with an error event in place of each write that was forwarded with
      an error status; the others are pings, and there are no more. A byte order mark at the start of a chunk is
      part of the chunk's first line, unless it comes to stand at the very start of the stream. */
  lemma MultiplexingKeepsFraming(cfg: Config, s: State, actions: seq<Action>)
    requires Reachable(cfg, s, actions) && s.finished && WellFramedConfig(cfg)
    ensures Own(s.out) == Untag(TaggedEvents(s.log)) + [View("close", "")]
    ensures NoMarks(cfg) ==> Views(Interpret(s.out).events) == Own(s.out)
    ensures forall g :: 0 <= g < |cfg.groups| ==> MayDeliver(cfg.groups[g], Pick(TaggedEvents(s.log), g))
    ensures forall g :: 0 <= g < |cfg.groups| && Succeeds(cfg.groups[g]) ==>
              Pick(TaggedEvents(s.log), g) == GroupViews(cfg.groups[g])
    ensures forall t <- TaggedEvents(s.log) :: FromStream(cfg, t, s.log)
  {
    hide MayDeliver, Succeeds;
    RunDelivers(cfg, s, actions);
    FinishedStream(cfg, s.log);
    FinishedGroups(cfg, s.log);
    if NoMarks(cfg) {
      FinishedWithoutMarks(cfg, s.log);
    }
  }

  /** A log in which every group has delivered what it had to. */
  ghost predicate IsFinished(cfg: Config, log: seq<Msg>) {
    && WellFramedConfig(cfg) && (forall m <- log :: Authentic(cfg, m))
    && forall g :: 0 <= g < |cfg.groups| ==> Seen(log, g) == Expected(cfg.groups[g])
  }

  lemma FinishedStream(cfg: Config, log: seq<Msg>)
    requires IsFinished(cfg, log)
    ensures Own(RenderAll(log) + CLOSE_EVENT) == Untag(TaggedEvents(log)) + [View("close", "")]
  {
    hide Own, Complete, Render, RenderAll, WellFramedConfig;
    LogIsComplete(cfg, log);
    LogEvents(log);
    OwnEventText("close", "");
    OwnConcat(RenderAll(log), CLOSE_EVENT);
  }

  lemma FinishedGroups(cfg: Config, log: seq<Msg>)
    requires IsFinished(cfg, log)
    ensures forall g :: 0 <= g < |cfg.groups| ==> MayDeliver(cfg.groups[g], Pick(TaggedEvents(log), g))
    ensures forall g :: 0 <= g < |cfg.groups| && Succeeds(cfg.groups[g]) ==>
              Pick(TaggedEvents(log), g) == GroupViews(cfg.groups[g])
    ensures forall t <- TaggedEvents(log) :: FromStream(cfg, t, log)
  {
    hide MayDeliver, Succeeds;
    LogIsComplete(cfg, log);
    EventsHaveSources(cfg, log, log);
    forall g | 0 <= g < |cfg.groups|
      ensures MayDeliver(cfg.groups[g], Pick(TaggedEvents(log), g))
      ensures Succeeds(cfg.groups[g]) ==> Pick(TaggedEvents(log), g) == GroupViews(cfg.groups[g])
    {
      GroupIsComplete(cfg, log, g);
    }
  }

  lemma FinishedWithoutMarks(cfg: Config, log: seq<Msg>)
    requires NoMarks(cfg) && IsFinished(cfg, log)
    ensures !HasPrefix(RenderAll(log) + CLOSE_EVENT, BOM)
  {
    LogWithoutMarks(cfg, log);
    assert CLOSE_EVENT[0] == 'e';
    NoMark(RenderAll(log), CLOSE_EVENT);
  }

  lemma LogWithoutMarks(cfg: Config, log: seq<Msg>)
    requires NoMarks(cfg) && IsFinished(cfg, log)
    ensures Complete(RenderAll(log)) && !HasPrefix(RenderAll(log), BOM)
  {
    forall m <- log ensures Complete(Render(m)) && !HasPrefix(Render(m), BOM) {
      if m.Raw? {
        LogHas(log, m, m.group);
        assert cfg.groups[m.group] in cfg.groups;
      }
      MessageIsComplete(cfg, m);
    }
    LogHasNoMark(log);
  }

  /** Such a log consists of complete events. */
  lemma LogIsComplete(cfg: Config, log: seq<Msg>)
    requires IsFinished(cfg, log)
    ensures forall m <- log :: Complete(Render(m)) && Own(Render(m)) == MessageViews(m)
  {
    forall m <- log ensures Complete(Render(m)) && Own(Render(m)) == MessageViews(m) {
      if m.Raw? {
        LogHas(log, m, m.group);
      }
      MessageIsComplete(cfg, m);
    }
  }

  lemma GroupIsComplete(cfg: Config, log: seq<Msg>, g: nat)
    requires IsFinished(cfg, log) && g < |cfg.groups|
    requires forall m <- log :: Own(Render(m)) == MessageViews(m)
    ensures MayDeliver(cfg.groups[g], Pick(TaggedEvents(log), g))
    ensures Succeeds(cfg.groups[g]) ==> Pick(TaggedEvents(log), g) == GroupViews(cfg.groups[g])
  {
    hide Complete, Own, Render, MayHaveStatus;
    var grp := cfg.groups[g];
    assert WellFramed(grp);
    if grp.Source? {
      SourceEvents(cfg, log, g);
      if Succeeds(grp) {
        ForwardedSuccess(grp.id, Expected(grp), StatusesOf(log, g));
      }
    } else {
      SingleEvents(cfg, log, g);
      KindsOfGroup(cfg, log, g);
    }
  }

  lemma {:induction false} KindsOfGroup(cfg: Config, log: seq<Msg>, g: nat)
    requires g < |cfg.groups| && cfg.groups[g].Single?
    requires forall m <- log :: Authentic(cfg, m)
    requires forall m <- log :: Own(Render(m)) == MessageViews(m)
    ensures forall v <- Pick(TaggedEvents(log), g) :: v.kind == EventLabel(cfg.groups[g].id)
  {
    if log != [] {
      var rest, m := log[..|log| - 1], log[|log| - 1];
      assert m in log;
      KindsOfGroup(cfg, rest, g);
      AppendTag(TaggedEvents(rest), SourceOf(m), Own(Render(m)), g);
    }
  }

  /** A handler that refuses a request with an error status: the client gets one error event for each of its
      writes, whatever these say. */
  lemma RefusalIsReported(grp: Group, status: int, views: seq<View>)
    requires grp.Source? && KeepsStatus(grp.ops, status) && !IsSuccess(status) && MayDeliver(grp, views)
    ensures views == seq(|Expected(grp)|, _ => View(EventLabel(grp.id), ErrorJson(status)))
  {
    hide MayHaveStatus;
    var statuses: seq<int> :| |statuses| == |Expected(grp)| && ArePossible(grp.ops, statuses)
                              && views == ForwardedViews(grp.id, Expected(grp), statuses);
    forall i | 0 <= i < |statuses| ensures statuses[i] == status {
      KeptStatusOnly(grp.ops, status, statuses[i]);
    }
    ForwardedFailure(grp.id, Expected(grp), statuses, status);
  }

  /** A backend that streams itself: the client gets from its group what it would get from the backend's
      stream followed by a blank line, if it did not look for a byte order mark. Inside the combined stream
      a byte order mark is not taken off. */
  lemma StreamedBackend(body: string, id: ReqIdent, ops: seq<Op>)
    requires Readable(body) && !HidesBoundary(Scanned(body)) && Expected(Source(id, ops)) == Writes(body)
    ensures GroupViews(Source(id, ops)) == Views(Run(INITIAL, Lines(body) + [""]).events)
    ensures WellFramed(Source(id, ops))
  {
    ReframingKeepsRun(body);
    forall i | 0 <= i < |Writes(body)| ensures Complete(Writes(body)[i]) {
      WritesAreWhole(body, i);
      WholeIsComplete(Writes(body)[i]);
    }
  }
}
