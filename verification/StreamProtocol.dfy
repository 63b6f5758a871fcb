/** `StartStream` as a state machine: one worker per request group, a forwarder for each backend
    that streams itself, a closer waiting for all of them, a ticker, and the reader loop. Each action
    is one atomic step of one goroutine; any enabled action may happen next. */
module StreamProtocol {
  import opened Text
  import opened Grouping
  import opened StreamMessages

  const PIPE_CAPACITY: nat := 40

  /** What a route handler does with an event-source writer. Flushing closes the pipe, and whether a handler
      flushes at all is up to the handler. */
  datatype Op = SetStatus(code: int) | Put(chunk: string) | Flush

  /** A group either answers once, with the given payload, or streams. */
  datatype Group = Single(id: ReqIdent, data: string) | Source(id: ReqIdent, ops: seq<Op>)

  /** `recovers` says that the routes recover from a handler's panic, as those of the server do. */
  datatype Config = Config(groups: seq<Group>, requests: nat, recovers: bool)

  /** `reported` says that the forwarder has told the wait group; the handler may still be running. */
  datatype Worker =
    | Idle
    | Sending
    | Sent
    | Done
    | Pumping(next: nat, status: int, pipe: seq<string>, flushed: bool, hand: Option<Msg>, reported: bool)

  datatype Closer = NotStarted | Waiting | Stopped | Closed

  datatype State = State(spawned: nat, workers: seq<Worker>, wg: int, closer: Closer,
                         queue: seq<Msg>, open: bool, ticking: bool, panicked: bool,
                         log: seq<Msg>, out: string, finished: bool)

  datatype Action =
    | Spawn | StartCloser
    | Send(g: nat) | Handle(g: nat) | Take(g: nat) | Forward(g: nat) | Finish(g: nat)
    | StopTicker | CloseChannel
    | Tick(ts: int)
    | Deliver | End

  /** The channel holds twice as many messages as there are requests. Without requests it is
      unbuffered; a rendezvous is then a send immediately followed by a receive. */
  function Capacity(cfg: Config): nat {
    if cfg.requests == 0 then 1 else 2 * cfg.requests
  }

  function Initial(cfg: Config): State {
    State(0, seq(|cfg.groups|, _ => Idle), 0, NotStarted, [], true, true, false, [], "", false)
  }

  /** Sending blocks while the channel is full; on a closed channel it does not block but panics. */
  predicate CanSend(cfg: Config, s: State) {
    !s.open || |s.queue| < Capacity(cfg)
  }

  function Push(s: State, m: Msg): State {
    if s.open then s.(queue := s.queue + [m]) else s.(panicked := true)
  }

  function SetWorker(s: State, g: nat, w: Worker): State
    requires g < |s.workers|
  {
    s.(workers := s.workers[g := w])
  }

  predicate Enabled(cfg: Config, s: State, a: Action) {
    && !s.panicked && (s.finished ==> a.Handle?)
    && |s.workers| == |cfg.groups|
    && match a
       case Spawn => s.spawned < |cfg.groups|
       case StartCloser => s.spawned == |cfg.groups| && s.closer == NotStarted
       case Send(g) => g < |s.workers| && s.workers[g] == Sending && cfg.groups[g].Single? && CanSend(cfg, s)
       case Handle(g) =>
         g < |s.workers| && s.workers[g].Pumping? && cfg.groups[g].Source? && CanHandle(s.workers[g], cfg.groups[g].ops)
       case Take(g) =>
         g < |s.workers| && s.workers[g].Pumping? && s.workers[g].hand == None && s.workers[g].pipe != []
       case Forward(g) =>
         g < |s.workers| && s.workers[g].Pumping? && s.workers[g].hand.Some? && CanSend(cfg, s)
       case Finish(g) => g < |s.workers| && IsOver(s.workers[g])
       case StopTicker => s.closer == Waiting && s.wg == 0
       case CloseChannel => s.closer == Stopped
       case Tick(_) => s.ticking && CanSend(cfg, s)
       case Deliver => s.closer != NotStarted && s.queue != []
       case End => s.closer != NotStarted && s.queue == [] && !s.open
  }

  /** Writing blocks while the pipe is full, unless it is closed. */
  predicate CanHandle(w: Worker, ops: seq<Op>)
    requires w.Pumping?
  {
    w.next < |ops| && (ops[w.next].Put? && !w.flushed ==> |w.pipe| < PIPE_CAPACITY)
  }

  /** Writing to a closed pipe panics, and so does closing it again. */
  predicate Panics(w: Worker, ops: seq<Op>)
    requires w.Pumping? && w.next < |ops|
  {
    w.flushed && !ops[w.next].SetStatus?
  }

  /** All that is left to do is to report to the wait group. */
  predicate IsOver(w: Worker) {
    w == Sent || (w.Pumping? && w.flushed && w.pipe == [] && w.hand == None && !w.reported)
  }

  /** One step of a route handler. The first write implies status 200; a recovered panic ends the
      handler. */
  function HandlerStep(w: Worker, ops: seq<Op>): Worker
    requires w.Pumping? && w.next < |ops|
  {
    if Panics(w, ops) then
      w.(next := |ops|, status := if ops[w.next].Put? && w.status == 0 then 200 else w.status)
    else
      match ops[w.next]
      case SetStatus(code) => w.(next := w.next + 1, status := code)
      case Put(chunk) =>
        w.(next := w.next + 1, status := if w.status == 0 then 200 else w.status, pipe := w.pipe + [chunk])
      case Flush => w.(next := w.next + 1, flushed := true)
  }

  /** A worker of a group that streams starts its forwarder as well. */
  function FirstState(grp: Group): Worker {
    match grp
    case Single(_, _) => Sending
    case Source(_, _) => Pumping(0, 0, [], false, None, false)
  }

  function Reported(w: Worker): Worker {
    if w.Pumping? then w.(reported := true) else Done
  }

  function Fire(cfg: Config, s: State, a: Action): State
    requires Enabled(cfg, s, a)
  {
    match a
    case Spawn =>
      s.(spawned := s.spawned + 1, wg := s.wg + 1,
         workers := s.workers[s.spawned := FirstState(cfg.groups[s.spawned])])
    case StartCloser => s.(closer := Waiting)
    case Send(g) => SetWorker(Push(s, Ready(g, cfg.groups[g].id, cfg.groups[g].data)), g, Sent)
    case Handle(g) =>
      if Panics(s.workers[g], cfg.groups[g].ops) && !cfg.recovers then s.(panicked := true)
      else SetWorker(s, g, HandlerStep(s.workers[g], cfg.groups[g].ops))
    case Take(g) =>
      var w := s.workers[g];
      SetWorker(s, g, w.(pipe := w.pipe[1..], hand := Some(Raw(g, cfg.groups[g].id, w.pipe[0], w.status))))
    case Forward(g) => SetWorker(Push(s, s.workers[g].hand.value), g, s.workers[g].(hand := None))
    case Finish(g) =>
      if s.wg <= 0 then s.(panicked := true) else SetWorker(s, g, Reported(s.workers[g])).(wg := s.wg - 1)
    case StopTicker => s.(closer := Stopped, ticking := false)
    case CloseChannel => if s.open then s.(closer := Closed, open := false) else s.(panicked := true)
    case Tick(ts) => Push(s, Ping(ts))
    case Deliver =>
      s.(queue := s.queue[1..], log := s.log + [s.queue[0]], out := s.out + Render(s.queue[0]))
    case End => s.(out := s.out + CLOSE_EVENT, finished := true)
  }

  /** `t` is reached from `s` by the given actions. */
  predicate Trace(cfg: Config, s: State, actions: seq<Action>, t: State)
    decreases |actions|
  {
    if actions == [] then s == t
    else Enabled(cfg, s, actions[0]) && Trace(cfg, Fire(cfg, s, actions[0]), actions[1..], t)
  }

  /** What takes the process down: sending on a closed channel, closing it twice, reporting more often than was
      announced, and a misused writer where nobody recovers. That a run does not panic means that none of these
      happens in it. */
  lemma PanicsIff(cfg: Config, s: State, a: Action)
    requires Enabled(cfg, s, a)
    ensures Fire(cfg, s, a).panicked <==>
            || ((a.Send? || a.Forward? || a.Tick? || a.CloseChannel?) && !s.open)
            || (a.Finish? && s.wg <= 0)
            || (a.Handle? && !cfg.recovers && s.workers[a.g].flushed &&
                !cfg.groups[a.g].ops[s.workers[a.g].next].SetStatus?)
  {}

  /** A handler is held up only by a write to an open pipe that is full. */
  lemma HeldUpIff(w: Worker, ops: seq<Op>)
    requires w.Pumping? && w.next < |ops|
    ensures !CanHandle(w, ops) <==> ops[w.next].Put? && !w.flushed && |w.pipe| >= PIPE_CAPACITY
  {}

  // ----- the invariant -----

  function Puts(ops: seq<Op>): seq<string> {
    if ops == [] then []
    else Puts(ops[..|ops| - 1]) + (if ops[|ops| - 1].Put? then [ops[|ops| - 1].chunk] else [])
  }

  /** Where a handler first flushes; `|ops|` if it never does. */
  function FlushAt(ops: seq<Op>): (i: nat)
    ensures i <= |ops| && (i < |ops| ==> ops[i] == Flush)
    ensures forall k :: 0 <= k < i ==> ops[k] != Flush
  {
    if ops == [] || ops[0] == Flush then 0 else 1 + FlushAt(ops[1..])
  }

  predicate Flushes(ops: seq<Op>) {
    FlushAt(ops) < |ops|
  }

  /** A handler writes or flushes again after it has flushed. */
  predicate Misuses(ops: seq<Op>) {
    exists i :: FlushAt(ops) < i < |ops| && !ops[i].SetStatus?
  }

  /** Everything a group has to deliver: what its handler writes before flushing. */
  function Expected(grp: Group): seq<string> {
    match grp
    case Single(_, data) => [data]
    case Source(_, ops) => Puts(ops[..FlushAt(ops)])
  }

  predicate AllFlush(cfg: Config) {
    forall grp <- cfg.groups :: grp.Source? ==> Flushes(grp.ops)
  }

  predicate SomeMisuse(cfg: Config) {
    exists g :: 0 <= g < |cfg.groups| && cfg.groups[g].Source? && Misuses(cfg.groups[g].ops)
  }

  function InHand(w: Worker): seq<string>
    requires w.Pumping? && (w.hand.Some? ==> w.hand.value.Raw?)
  {
    if w.hand.Some? then [w.hand.value.data] else []
  }

  /** The status of the writer after the first `n` operations. */
  function StatusAt(ops: seq<Op>, n: nat): int
    requires n <= |ops|
  {
    if n == 0 then 0
    else
      var before := StatusAt(ops, n - 1);
      match ops[n - 1]
      case SetStatus(code) => code
      case Put(_) => if before == 0 then 200 else before
      case Flush => before
  }

  /** Where a handler first writes; `|ops|` if it never does. */
  function FirstPut(ops: seq<Op>): (i: nat)
    ensures i <= |ops| && (i < |ops| ==> ops[i].Put?)
    ensures forall k :: 0 <= k < i ==> !ops[k].Put?
  {
    if ops == [] || ops[0].Put? then 0 else 1 + FirstPut(ops[1..])
  }

  /** A status that a chunk of the group may be forwarded with: one that the writer has at some time after the
      first write. The forwarder reads it when it forwards, not when the chunk is written. */
  predicate MayHaveStatus(ops: seq<Op>, status: int) {
    exists n :: FirstPut(ops) < n <= |ops| && StatusAt(ops, n) == status
  }

  /** A message is the group's own. */
  predicate Authentic(cfg: Config, m: Msg) {
    match m
    case Ready(g, id, data) => g < |cfg.groups| && cfg.groups[g] == Single(id, data)
    case Raw(g, id, _, status) =>
      && g < |cfg.groups| && cfg.groups[g].Source? && cfg.groups[g].id == id
      && MayHaveStatus(cfg.groups[g].ops, status)
    case Ping(_) => true
  }

  /** How far a handler has come. Without recovery nobody has survived a misuse. */
  predicate Handled(ops: seq<Op>, w: Worker, recovers: bool)
    requires w.Pumping?
  {
    && w.next <= |ops|
    && (w.flushed <==> FlushAt(ops) < w.next)
    && (!recovers ==> forall i :: FlushAt(ops) < i < w.next ==> ops[i].SetStatus?)
  }

  /** What a handler has written so far. */
  function Written(ops: seq<Op>, w: Worker): seq<string>
    requires w.Pumping? && w.next <= |ops|
  {
    Puts(ops[..if w.flushed then FlushAt(ops) else w.next])
  }

  /** A worker's local state agrees with what its group has sent so far. */
  predicate Accounted(grp: Group, g: nat, w: Worker, seen: seq<string>, recovers: bool) {
    match w
    case Idle => seen == []
    case Sending => grp.Single? && seen == []
    case Sent => grp.Single? && seen == [grp.data]
    case Done => grp.Single? && seen == [grp.data]
    case Pumping(next, status, pipe, flushed, hand, reported) =>
      && grp.Source? && |pipe| <= PIPE_CAPACITY && Handled(grp.ops, w, recovers)
      && (next < |grp.ops| ==> status == StatusAt(grp.ops, next))
      && (pipe != [] ==> FirstPut(grp.ops) < next && MayHaveStatus(grp.ops, status))
      && (hand.Some? ==> hand.value.Raw? && hand.value.group == g && hand.value.id == grp.id &&
                         MayHaveStatus(grp.ops, hand.value.status))
      && (reported ==> flushed && pipe == [] && hand == None)
      && seen + (InHand(w) + pipe) == Written(grp.ops, w)
  }

  /** Counted by the wait group. */
  predicate Live(w: Worker) {
    w == Sending || w == Sent || (w.Pumping? && !w.reported)
  }

  /** Has told the wait group that it is done. */
  predicate HasReported(w: Worker) {
    w == Done || (w.Pumping? && w.reported)
  }

  function CountLive(ws: seq<Worker>): nat {
    if ws == [] then 0 else CountLive(ws[..|ws| - 1]) + (if Live(ws[|ws| - 1]) then 1 else 0)
  }

  /** All messages sent so far, in the order they entered the channel. */
  function SentBy(s: State): seq<Msg> {
    s.log + s.queue
  }

  ghost predicate Accounts(cfg: Config, ws: seq<Worker>, sent: seq<Msg>)
    requires |ws| == |cfg.groups|
  {
    && (forall g: nat :: g < |ws| ==> Accounted(cfg.groups[g], g, ws[g], Seen(sent, g), cfg.recovers))
    && (forall m <- sent :: Authentic(cfg, m))
  }

  predicate Spawned(ws: seq<Worker>, n: nat) {
    forall g :: 0 <= g < |ws| ==> (ws[g] == Idle <==> n <= g)
  }

  /** The counters and flags, apart from the messages. */
  predicate Control(cfg: Config, s: State) {
    && |s.workers| == |cfg.groups| && s.spawned <= |cfg.groups| <= cfg.requests
    && Spawned(s.workers, s.spawned)
    && s.wg == CountLive(s.workers)
    && (s.closer != NotStarted ==> s.spawned == |cfg.groups|)
    && (s.closer == Stopped || s.closer == Closed ==> s.wg == 0)
    && (s.open <==> s.closer != Closed)
    && (s.ticking <==> s.closer == NotStarted || s.closer == Waiting)
    && |s.queue| <= Capacity(cfg)
    && (s.finished ==> s.queue == [] && s.closer == Closed)
  }

  predicate OutputOk(s: State) {
    s.out == if s.finished then RenderAll(s.log) + CLOSE_EVENT else RenderAll(s.log)
  }

  /** The only panic is that of a handler from which nobody recovers. */
  ghost predicate Inv(cfg: Config, s: State) {
    && (s.panicked ==> !cfg.recovers && SomeMisuse(cfg))
    && Control(cfg, s) && Accounts(cfg, s.workers, SentBy(s)) && OutputOk(s)
  }

  lemma {:induction false} CountLiveUpdate(ws: seq<Worker>, g: nat, w: Worker)
    requires g < |ws|
    ensures CountLive(ws[g := w]) ==
            CountLive(ws) - (if Live(ws[g]) then 1 else 0) + (if Live(w) then 1 else 0)
    ensures Live(ws[g]) ==> CountLive(ws) > 0
  {
    var n := |ws| - 1;
    var us := ws[g := w];
    if g == n {
      assert us[..n] == ws[..n];
    } else {
      CountLiveUpdate(ws[..n], g, w);
      assert us[..n] == ws[..n][g := w];
    }
  }

  lemma NoneLive(ws: seq<Worker>)
    requires CountLive(ws) == 0
    ensures forall g :: 0 <= g < |ws| ==> !Live(ws[g])
  {
    forall g | 0 <= g < |ws| ensures !Live(ws[g]) {
      CountLiveUpdate(ws, g, Done);
    }
  }

  lemma {:induction false} CountIdle(ws: seq<Worker>)
    requires forall g :: 0 <= g < |ws| ==> ws[g] == Idle
    ensures CountLive(ws) == 0
  {
    if ws != [] {
      CountIdle(ws[..|ws| - 1]);
    }
  }

  lemma InitialInv(cfg: Config)
    requires |cfg.groups| <= cfg.requests
    ensures Inv(cfg, Initial(cfg))
  {
    CountIdle(Initial(cfg).workers);
  }

  /** A group's message enters the channel while its worker moves on. */
  lemma AccountsSend(cfg: Config, ws: seq<Worker>, sent: seq<Msg>, g: nat, w: Worker, m: Msg)
    requires |ws| == |cfg.groups| && g < |ws| && Accounts(cfg, ws, sent)
    requires From(m, g) && Authentic(cfg, m)
    requires Accounted(cfg.groups[g], g, w, Seen(sent, g) + [m.data], cfg.recovers)
    ensures Accounts(cfg, ws[g := w], sent + [m])
  {
    forall k: nat | k < |ws|
      ensures Accounted(cfg.groups[k], k, ws[g := w][k], Seen(sent + [m], k), cfg.recovers)
    {
      SeenStep(sent, m, k);
    }
  }

  lemma AccountsTick(cfg: Config, ws: seq<Worker>, sent: seq<Msg>, m: Msg)
    requires |ws| == |cfg.groups| && Accounts(cfg, ws, sent) && m.Ping?
    ensures Accounts(cfg, ws, sent + [m])
  {
    forall k: nat | k < |ws| ensures Accounted(cfg.groups[k], k, ws[k], Seen(sent + [m], k), cfg.recovers) {
      SeenStep(sent, m, k);
    }
  }

  lemma AccountsLocal(cfg: Config, ws: seq<Worker>, sent: seq<Msg>, g: nat, w: Worker)
    requires |ws| == |cfg.groups| && g < |ws| && Accounts(cfg, ws, sent)
    requires Accounted(cfg.groups[g], g, w, Seen(sent, g), cfg.recovers)
    ensures Accounts(cfg, ws[g := w], sent)
  {}

  lemma PushSent(s: State, m: Msg)
    requires s.open
    ensures SentBy(Push(s, m)) == SentBy(s) + [m]
  {}

  lemma PutsStep(ops: seq<Op>, i: nat)
    requires i < |ops|
    ensures Puts(ops[..i + 1]) == Puts(ops[..i]) + (if ops[i].Put? then [ops[i].chunk] else [])
  {
    assert ops[..i + 1][..i] == ops[..i];
  }

  lemma HandledStep(ops: seq<Op>, w: Worker, recovers: bool)
    requires w.Pumping? && w.next < |ops| && Handled(ops, w, recovers) && (recovers || !Panics(w, ops))
    ensures Handled(ops, HandlerStep(w, ops), recovers)
  {
    assert !w.flushed ==> w.next <= FlushAt(ops);
    assert w.next == FlushAt(ops) <==> !w.flushed && ops[w.next] == Flush;
  }

  lemma WrittenStep(ops: seq<Op>, w: Worker, recovers: bool)
    requires w.Pumping? && w.next < |ops| && Handled(ops, w, recovers)
    ensures HandlerStep(w, ops).next <= |ops|
    ensures Written(ops, HandlerStep(w, ops)) ==
            Written(ops, w) + (if ops[w.next].Put? && !w.flushed then [ops[w.next].chunk] else [])
  {
    PutsStep(ops, w.next);
    if !w.flushed && ops[w.next] == Flush {
      assert FlushAt(ops) == w.next;
    }
    assert Written(ops, w) + [] == Written(ops, w);
  }

  lemma StatusStep(ops: seq<Op>, w: Worker)
    requires w.Pumping? && w.next < |ops| && w.status == StatusAt(ops, w.next)
    requires w.pipe != [] ==> FirstPut(ops) < w.next && MayHaveStatus(ops, w.status)
    ensures var next := HandlerStep(w, ops);
            && (next.next < |ops| ==> next.status == StatusAt(ops, next.next))
            && (next.pipe != [] ==> FirstPut(ops) < next.next && MayHaveStatus(ops, next.status))
  {
    hide FirstPut;
    var status := StatusAt(ops, w.next + 1);
    if FirstPut(ops) <= w.next {
      assert MayHaveStatus(ops, status);
    }
  }

  lemma HandlerStepAccounted(grp: Group, g: nat, w: Worker, seen: seq<string>, recovers: bool)
    requires grp.Source? && w.Pumping? && CanHandle(w, grp.ops)
    requires Accounted(grp, g, w, seen, recovers) && (recovers || !Panics(w, grp.ops))
    ensures Accounted(grp, g, HandlerStep(w, grp.ops), seen, recovers)
  {
    hide MayHaveStatus, StatusAt, FirstPut;
    var op := grp.ops[w.next];
    assert op in grp.ops;
    StatusStep(grp.ops, w);
    HandledStep(grp.ops, w, recovers);
    WrittenStep(grp.ops, w, recovers);
    if !w.flushed && op.Put? {
      assert seen + (InHand(w) + (w.pipe + [op.chunk])) == (seen + (InHand(w) + w.pipe)) + [op.chunk];
    } else {
      assert Written(grp.ops, w) + [] == Written(grp.ops, w);
    }
  }

  /** A handler that panics without recovery misuses its writer. */
  lemma PanicIsMisuse(grp: Group, g: nat, w: Worker, seen: seq<string>, recovers: bool)
    requires grp.Source? && w.Pumping? && CanHandle(w, grp.ops) && Panics(w, grp.ops)
    requires Accounted(grp, g, w, seen, recovers)
    ensures Misuses(grp.ops)
  {
    assert FlushAt(grp.ops) < w.next && !grp.ops[w.next].SetStatus?;
  }

  predicate IsWorkerAction(a: Action) {
    a.Send? || a.Handle? || a.Take? || a.Forward? || a.Finish?
  }

  lemma ControlOfWorker(cfg: Config, s: State, g: nat, w: Worker)
    requires Control(cfg, s) && g < |s.workers| && s.workers[g] != Idle && w != Idle
    requires Live(s.workers[g]) == Live(w)
    ensures Control(cfg, SetWorker(s, g, w))
    ensures Live(w) ==> s.open
  {
    CountLiveUpdate(s.workers, g, w);
  }

  lemma SendKeepsInv(cfg: Config, s: State, g: nat, w: Worker, m: Msg)
    requires Inv(cfg, s) && g < |s.workers| && Live(s.workers[g]) && Live(w) && !s.finished && !s.panicked
    requires CanSend(cfg, s) && From(m, g) && Authentic(cfg, m)
    requires Accounted(cfg.groups[g], g, w, Seen(SentBy(s), g) + [m.data], cfg.recovers)
    ensures Inv(cfg, SetWorker(Push(s, m), g, w))
  {
    ControlOfWorker(cfg, s, g, w);
    var t := SetWorker(s, g, w);
    assert SetWorker(Push(s, m), g, w) == Push(t, m);
    PushSent(t, m);
    AccountsSend(cfg, s.workers, SentBy(s), g, w, m);
    ControlOfPush(cfg, t, m);
  }

  lemma ControlOfPush(cfg: Config, s: State, m: Msg)
    requires Control(cfg, s) && s.open && CanSend(cfg, s) && !s.finished
    ensures Control(cfg, Push(s, m))
    ensures OutputOk(s) ==> OutputOk(Push(s, m))
  {}

  lemma SingleSends(cfg: Config, s: State, g: nat)
    requires Inv(cfg, s) && Enabled(cfg, s, Send(g))
    ensures Inv(cfg, Fire(cfg, s, Send(g)))
  {
    assert Accounted(cfg.groups[g], g, s.workers[g], Seen(SentBy(s), g), cfg.recovers);
    SendKeepsInv(cfg, s, g, Sent, Ready(g, cfg.groups[g].id, cfg.groups[g].data));
  }

  lemma ForwarderSends(cfg: Config, s: State, g: nat)
    requires Inv(cfg, s) && Enabled(cfg, s, Forward(g))
    ensures Inv(cfg, Fire(cfg, s, Forward(g)))
  {
    var w := s.workers[g];
    var seen := Seen(SentBy(s), g);
    assert Accounted(cfg.groups[g], g, w, seen, cfg.recovers);
    HandEmptied(cfg.groups[g], g, w, seen, cfg.recovers);
    SendKeepsInv(cfg, s, g, w.(hand := None), w.hand.value);
  }

  lemma HandEmptied(grp: Group, g: nat, w: Worker, seen: seq<string>, recovers: bool)
    requires Accounted(grp, g, w, seen, recovers) && w.Pumping? && w.hand.Some?
    ensures w.hand.value.Raw? && Accounted(grp, g, w.(hand := None), seen + [w.hand.value.data], recovers)
  {
    assert (seen + [w.hand.value.data]) + ([] + w.pipe) == seen + ([w.hand.value.data] + w.pipe);
  }

  lemma LocalStepKeepsInv(cfg: Config, s: State, g: nat, w: Worker)
    requires Inv(cfg, s) && g < |s.workers| && s.workers[g].Pumping? && w.Pumping?
    requires w.reported == s.workers[g].reported
    requires Accounted(cfg.groups[g], g, w, Seen(SentBy(s), g), cfg.recovers)
    ensures Inv(cfg, SetWorker(s, g, w))
  {
    ControlOfWorker(cfg, s, g, w);
    AccountsLocal(cfg, s.workers, SentBy(s), g, w);
  }

  lemma HandleKeepsInv(cfg: Config, s: State, g: nat)
    requires Inv(cfg, s) && Enabled(cfg, s, Handle(g))
    ensures Inv(cfg, Fire(cfg, s, Handle(g)))
  {
    var w, grp, seen := s.workers[g], cfg.groups[g], Seen(SentBy(s), g);
    assert Accounted(grp, g, w, seen, cfg.recovers);
    if Panics(w, grp.ops) && !cfg.recovers {
      PanicIsMisuse(grp, g, w, seen, cfg.recovers);
    } else {
      HandlerStepAccounted(grp, g, w, seen, cfg.recovers);
      LocalStepKeepsInv(cfg, s, g, HandlerStep(w, grp.ops));
    }
  }

  lemma TakeAccounted(grp: Group, g: nat, w: Worker, seen: seq<string>, recovers: bool)
    requires w.Pumping? && w.hand == None && w.pipe != [] && Accounted(grp, g, w, seen, recovers)
    ensures var m := Raw(g, grp.id, w.pipe[0], w.status);
            Accounted(grp, g, w.(pipe := w.pipe[1..], hand := Some(m)), seen, recovers)
  {
    hide MayHaveStatus, StatusAt, FirstPut, Puts;
    assert [w.pipe[0]] + w.pipe[1..] == [] + w.pipe;
  }

  lemma TakeKeepsInv(cfg: Config, s: State, g: nat)
    requires Inv(cfg, s) && Enabled(cfg, s, Take(g))
    ensures Inv(cfg, Fire(cfg, s, Take(g)))
  {
    hide MayHaveStatus, StatusAt, FirstPut, Accounted;
    var w, grp := s.workers[g], cfg.groups[g];
    assert Accounted(grp, g, w, Seen(SentBy(s), g), cfg.recovers);
    TakeAccounted(grp, g, w, Seen(SentBy(s), g), cfg.recovers);
    LocalStepKeepsInv(cfg, s, g, w.(pipe := w.pipe[1..], hand := Some(Raw(g, grp.id, w.pipe[0], w.status))));
  }

  lemma FinishKeepsInv(cfg: Config, s: State, g: nat)
    requires Inv(cfg, s) && Enabled(cfg, s, Finish(g))
    ensures Inv(cfg, Fire(cfg, s, Finish(g)))
  {
    assert Accounted(cfg.groups[g], g, s.workers[g], Seen(SentBy(s), g), cfg.recovers);
    AccountsLocal(cfg, s.workers, SentBy(s), g, Reported(s.workers[g]));
    ControlOfFinish(cfg, s, g);
  }

  lemma ControlOfFinish(cfg: Config, s: State, g: nat)
    requires Control(cfg, s) && Enabled(cfg, s, Finish(g))
    ensures Control(cfg, Fire(cfg, s, Finish(g))) && !Fire(cfg, s, Finish(g)).panicked
  {
    CountLiveUpdate(s.workers, g, Reported(s.workers[g]));
  }

  lemma FirstAccounted(grp: Group, g: nat, recovers: bool)
    ensures Accounted(grp, g, FirstState(grp), [], recovers)
  {
    if grp.Source? {
      assert Puts(grp.ops[..0]) == [] + ([] + []);
    }
  }

  lemma ControlOfSpawn(cfg: Config, s: State)
    requires Control(cfg, s) && Enabled(cfg, s, Spawn)
    ensures Control(cfg, Fire(cfg, s, Spawn))
  {
    CountLiveUpdate(s.workers, s.spawned, FirstState(cfg.groups[s.spawned]));
  }

  lemma SpawnKeepsInv(cfg: Config, s: State)
    requires Inv(cfg, s) && Enabled(cfg, s, Spawn)
    ensures Inv(cfg, Fire(cfg, s, Spawn))
  {
    var g, grp := s.spawned, cfg.groups[s.spawned];
    assert Accounted(grp, g, s.workers[g], Seen(SentBy(s), g), cfg.recovers);
    FirstAccounted(grp, g, cfg.recovers);
    AccountsLocal(cfg, s.workers, SentBy(s), g, FirstState(grp));
    ControlOfSpawn(cfg, s);
  }

  lemma DeliverKeepsInv(cfg: Config, s: State)
    requires Inv(cfg, s) && Enabled(cfg, s, Deliver)
    ensures Inv(cfg, Fire(cfg, s, Deliver))
  {
    RenderStep(s.log, s.queue[0]);
    MovedHead(s.log, s.queue);
    assert Control(cfg, Fire(cfg, s, Deliver));
    assert OutputOk(Fire(cfg, s, Deliver));
  }

  lemma MovedHead(log: seq<Msg>, queue: seq<Msg>)
    requires queue != []
    ensures (log + [queue[0]]) + queue[1..] == log + queue
  {}

  lemma TickKeepsInv(cfg: Config, s: State, ts: int)
    requires Inv(cfg, s) && Enabled(cfg, s, Tick(ts))
    ensures Inv(cfg, Fire(cfg, s, Tick(ts)))
  {
    PushSent(s, Ping(ts));
    AccountsTick(cfg, s.workers, SentBy(s), Ping(ts));
  }

  /** Every step keeps the invariant; in particular nobody sends on the closed channel, the wait group
      never drops below zero, the channel is closed once, and if anything panics it is a handler that
      misuses its writer where nobody recovers. */
  lemma StepKeepsInv(cfg: Config, s: State, a: Action)
    requires Inv(cfg, s) && Enabled(cfg, s, a)
    ensures Inv(cfg, Fire(cfg, s, a))
  {
    match a
    case Spawn => SpawnKeepsInv(cfg, s);
    case Send(g) => SingleSends(cfg, s, g);
    case Forward(g) => ForwarderSends(cfg, s, g);
    case Handle(g) => HandleKeepsInv(cfg, s, g);
    case Take(g) => TakeKeepsInv(cfg, s, g);
    case Finish(g) => FinishKeepsInv(cfg, s, g);
    case Tick(ts) => TickKeepsInv(cfg, s, ts);
    case Deliver => DeliverKeepsInv(cfg, s);
    case StartCloser =>
    case StopTicker =>
    case CloseChannel =>
    case End =>
  }

  lemma {:induction false} TraceKeepsInv(cfg: Config, s: State, actions: seq<Action>, t: State)
    requires Inv(cfg, s) && Trace(cfg, s, actions, t)
    ensures Inv(cfg, t)
    decreases |actions|
  {
    if actions != [] {
      StepKeepsInv(cfg, s, actions[0]);
      TraceKeepsInv(cfg, Fire(cfg, s, actions[0]), actions[1..], t);
    }
  }

  predicate Reachable(cfg: Config, s: State, actions: seq<Action>) {
    |cfg.groups| <= cfg.requests && Trace(cfg, Initial(cfg), actions, s)
  }

  lemma {:induction false} StillUnwritten(cfg: Config, s: State, actions: seq<Action>, t: State)
    requires Trace(cfg, s, actions, t) && (s.closer == NotStarted ==> s.log == [] && s.out == "" && !s.finished)
    ensures t.closer == NotStarted ==> t.log == [] && t.out == "" && !t.finished
    decreases |actions|
  {
    if actions != [] {
      StillUnwritten(cfg, Fire(cfg, s, actions[0]), actions[1..], t);
    }
  }

  /** Nothing is written before all workers have been started. */
  lemma NothingIsWrittenEarly(cfg: Config, s: State, actions: seq<Action>)
    requires Reachable(cfg, s, actions) && s.spawned < |cfg.groups|
    ensures s.log == [] && s.out == "" && !s.finished
  {
    InitialInv(cfg);
    TraceKeepsInv(cfg, Initial(cfg), actions, s);
    StillUnwritten(cfg, Initial(cfg), actions, s);
  }

  lemma {:induction false} TicksFill(cfg: Config, s: State, ts: int, k: nat) returns (actions: seq<Action>, t: State)
    requires !s.panicked && !s.finished && |s.workers| == |cfg.groups| && s.ticking && s.open
    requires |s.queue| + k <= Capacity(cfg)
    ensures Trace(cfg, s, actions, t) && t == s.(queue := t.queue) && |t.queue| == |s.queue| + k
    decreases k
  {
    if k == 0 {
      actions, t := [], s;
    } else {
      var more: seq<Action>;
      more, t := TicksFill(cfg, Fire(cfg, s, Tick(ts)), ts, k - 1);
      actions := [Tick(ts)] + more;
      assert actions[1..] == more;
    }
  }

  /** The ticker need not wait for anybody at the beginning, not even if there are no requests. */
  lemma TicksAtOnce(cfg: Config, ts: int)
    ensures Enabled(cfg, Initial(cfg), Tick(ts))
  {}

  /** The channel takes twice as many messages as there are requests before anybody has to wait, and no more. */
  lemma ChannelFills(cfg: Config, ts: int) returns (actions: seq<Action>, s: State)
    requires |cfg.groups| <= cfg.requests && cfg.requests > 0
    ensures Reachable(cfg, s, actions) && |s.queue| == 2 * cfg.requests && s.ticking && !Enabled(cfg, s, Tick(ts))
  {
    actions, s := TicksFill(cfg, Initial(cfg), ts, 2 * cfg.requests);
  }

  /** In every run: a panic only where nobody recovers from a misused writer, the wait group counts exactly
      the unfinished workers, the channel stays within its capacity, and once it is closed every worker and
      forwarder has reported. */
  lemma RunIsSafe(cfg: Config, s: State, actions: seq<Action>)
    requires Reachable(cfg, s, actions)
    ensures s.panicked ==> !cfg.recovers && SomeMisuse(cfg)
    ensures s.wg == CountLive(s.workers)
    ensures |s.queue| <= if cfg.requests == 0 then 1 else 2 * cfg.requests
    ensures !s.open ==> forall g :: 0 <= g < |s.workers| ==> HasReported(s.workers[g])
    ensures s.closer == Stopped ==> forall g :: 0 <= g < |s.workers| ==> HasReported(s.workers[g])
  {
    InitialInv(cfg);
    TraceKeepsInv(cfg, Initial(cfg), actions, s);
    if s.wg == 0 {
      NoneLive(s.workers);
    }
  }

  /** A group whose forwarder has reported, or whose handler has run out with nothing left in the pipe, has
      delivered everything. */
  lemma AllDelivered(grp: Group, g: nat, w: Worker, seen: seq<string>, recovers: bool)
    requires Accounted(grp, g, w, seen, recovers) && w != Idle && w != Sending
    requires w.Pumping? ==> (w.flushed || w.next == |grp.ops|) && w.pipe == [] && w.hand == None
    ensures seen == Expected(grp)
  {
    if w.Pumping? {
      assert seen + ([] + []) == seen;
    }
  }

  /** When the close event has been written, every group's handler has flushed, every group's payloads have
      been written, each exactly once and in its own order, and the output is the rendering of the log and
      the close event. */
  lemma RunDelivers(cfg: Config, s: State, actions: seq<Action>)
    requires Reachable(cfg, s, actions) && s.finished
    ensures AllFlush(cfg)
    ensures forall g :: 0 <= g < |cfg.groups| ==> Seen(s.log, g) == Expected(cfg.groups[g])
    ensures forall m <- s.log :: Authentic(cfg, m)
    ensures s.out == RenderAll(s.log) + CLOSE_EVENT
  {
    InitialInv(cfg);
    TraceKeepsInv(cfg, Initial(cfg), actions, s);
    NoneLive(s.workers);
    assert SentBy(s) == s.log;
    forall g | 0 <= g < |cfg.groups|
      ensures Seen(s.log, g) == Expected(cfg.groups[g])
      ensures cfg.groups[g].Source? ==> Flushes(cfg.groups[g].ops)
    {
      assert Accounted(cfg.groups[g], g, s.workers[g], Seen(SentBy(s), g), cfg.recovers);
      AllDelivered(cfg.groups[g], g, s.workers[g], Seen(SentBy(s), g), cfg.recovers);
    }
  }

  // ----- progress -----

  function Cost(grp: Group, w: Worker): nat {
    match w
    case Idle => (match grp case Single(_, _) => 4 case Source(_, ops) => 4 * |ops| + 2)
    case Sending => 3
    case Sent => 1
    case Done => 0
    case Pumping(next, _, pipe, _, hand, reported) =>
      (match grp case Single(_, _) => 0 case Source(_, ops) => if next <= |ops| then 4 * (|ops| - next) else 0)
      + 3 * |pipe| + (if hand.Some? then 2 else 0) + (if reported then 0 else 1)
  }

  function TotalCost(groups: seq<Group>, ws: seq<Worker>): nat
    requires |groups| == |ws|
  {
    if ws == [] then 0
    else TotalCost(groups[..|ws| - 1], ws[..|ws| - 1]) + Cost(groups[|ws| - 1], ws[|ws| - 1])
  }

  /** How many steps other than ticks are still possible, at most, if no tick interferes. */
  function Measure(cfg: Config, s: State): nat
    requires |s.workers| == |cfg.groups|
  {
    TotalCost(cfg.groups, s.workers) + |s.queue|
    + (match s.closer case NotStarted => 3 case Waiting => 2 case Stopped => 1 case Closed => 0)
    + (if s.finished then 0 else 1) + (if s.panicked then 0 else 1)
  }

  lemma {:induction false} CostUpdate(groups: seq<Group>, ws: seq<Worker>, g: nat, w: Worker)
    requires |groups| == |ws| && g < |ws|
    ensures TotalCost(groups, ws[g := w]) ==
            TotalCost(groups, ws) - Cost(groups[g], ws[g]) + Cost(groups[g], w)
  {
    var n := |ws| - 1;
    var us := ws[g := w];
    if g == n {
      assert us[..n] == ws[..n];
    } else {
      CostUpdate(groups[..n], ws[..n], g, w);
      assert us[..n] == ws[..n][g := w];
    }
  }

  /** Every step but a tick uses up some of the measure; a tick adds one message. */
  lemma StepCost(cfg: Config, s: State, a: Action)
    requires Inv(cfg, s) && Enabled(cfg, s, a)
    ensures var t := Fire(cfg, s, a);
            |t.workers| == |cfg.groups| &&
            if a.Tick? then Measure(cfg, t) == Measure(cfg, s) + 1
            else Measure(cfg, t) < Measure(cfg, s)
  {
    if IsWorkerAction(a) {
      WorkerStepCost(cfg, s, a, a.g);
    } else if a == Spawn {
      SpawnCost(cfg, s);
    } else {
      ControlCost(cfg, s, a);
    }
  }

  lemma SpawnCost(cfg: Config, s: State)
    requires Control(cfg, s) && Enabled(cfg, s, Spawn)
    ensures var t := Fire(cfg, s, Spawn);
            |t.workers| == |cfg.groups| && Measure(cfg, t) < Measure(cfg, s)
  {
    var w := FirstState(cfg.groups[s.spawned]);
    CostUpdate(cfg.groups, s.workers, s.spawned, w);
    assert Cost(cfg.groups[s.spawned], w) < Cost(cfg.groups[s.spawned], Idle);
  }

  lemma ControlCost(cfg: Config, s: State, a: Action)
    requires Control(cfg, s) && Enabled(cfg, s, a) && !IsWorkerAction(a) && a != Spawn
    ensures var t := Fire(cfg, s, a);
            t.workers == s.workers &&
            if a.Tick? then Measure(cfg, t) == Measure(cfg, s) + 1 else Measure(cfg, t) < Measure(cfg, s)
  {}

  /** Sending moves a message from the worker to the queue, which is cheaper. */
  lemma CostOfSend(grp: Group, w: Worker, hand: Option<Msg>)
    requires w.Pumping? && w.hand.Some? && hand == None
    ensures Cost(grp, w.(hand := hand)) + 2 == Cost(grp, w)
  {}

  lemma CostOfHandle(grp: Group, w: Worker)
    requires grp.Source? && w.Pumping? && w.next < |grp.ops|
    ensures Cost(grp, HandlerStep(w, grp.ops)) < Cost(grp, w)
  {}

  lemma CostOfTake(grp: Group, w: Worker, m: Msg)
    requires w.Pumping? && w.hand == None && w.pipe != []
    ensures Cost(grp, w.(pipe := w.pipe[1..], hand := Some(m))) + 1 == Cost(grp, w)
  {}

  lemma CostOfFinish(grp: Group, w: Worker)
    requires IsOver(w)
    ensures Cost(grp, Reported(w)) < Cost(grp, w)
  {}

  lemma CostOfStep(cfg: Config, s: State, a: Action, g: nat)
    requires g < |s.workers| == |cfg.groups| && (Live(s.workers[g]) ==> s.open && s.wg > 0)
    requires Enabled(cfg, s, a) && IsWorkerAction(a) && a.g == g
    requires a.Forward? ==> !s.workers[g].reported
    ensures var t := Fire(cfg, s, a);
            && t.closer == s.closer && t.finished == s.finished
            && if t.panicked then t == s.(panicked := true)
               else t.workers == s.workers[g := t.workers[g]] &&
                    Cost(cfg.groups[g], t.workers[g]) + |t.queue| < Cost(cfg.groups[g], s.workers[g]) + |s.queue|
  {
    var grp, w := cfg.groups[g], s.workers[g];
    match a
    case Send(_) =>
    case Handle(_) => CostOfHandle(grp, w);
    case Take(_) => CostOfTake(grp, w, Raw(g, grp.id, w.pipe[0], w.status));
    case Forward(_) => CostOfSend(grp, w, None);
    case Finish(_) => CostOfFinish(grp, w);
  }

  lemma WorkerStepCost(cfg: Config, s: State, a: Action, g: nat)
    requires Inv(cfg, s) && Enabled(cfg, s, a) && IsWorkerAction(a) && a.g == g
    ensures var t := Fire(cfg, s, a);
            |t.workers| == |cfg.groups| && Measure(cfg, t) < Measure(cfg, s)
  {
    assert Accounted(cfg.groups[g], g, s.workers[g], Seen(SentBy(s), g), cfg.recovers);
    CountLiveUpdate(s.workers, g, Done);
    CostOfStep(cfg, s, a, g);
    var t := Fire(cfg, s, a);
    if !t.panicked {
      CostUpdate(cfg.groups, s.workers, g, t.workers[g]);
    }
  }

  function Ticks(actions: seq<Action>): nat {
    if actions == [] then 0 else (if actions[0].Tick? then 1 else 0) + Ticks(actions[1..])
  }

  /** A run is no longer than a bound fixed by its start plus two steps for each tick. */
  lemma {:induction false} RunIsBounded(cfg: Config, s: State, actions: seq<Action>, t: State)
    requires Inv(cfg, s) && Trace(cfg, s, actions, t)
    ensures |actions| <= Measure(cfg, s) + 2 * Ticks(actions)
    decreases |actions|
  {
    if actions != [] {
      var u := Fire(cfg, s, actions[0]);
      StepKeepsInv(cfg, s, actions[0]);
      StepCost(cfg, s, actions[0]);
      RunIsBounded(cfg, u, actions[1..], t);
    }
  }

  /** A state in which nothing but a tick can happen. */
  ghost predicate Resting(cfg: Config, s: State) {
    forall a: Action :: !a.Tick? ==> !Enabled(cfg, s, a)
  }

  /** Every run can be continued, without further ticks, until nothing but ticks can happen. */
  lemma {:induction false} RunsComeToRest(cfg: Config, s: State) returns (actions: seq<Action>, t: State)
    requires Inv(cfg, s)
    ensures Trace(cfg, s, actions, t) && Inv(cfg, t) && Resting(cfg, t) && Ticks(actions) == 0
    decreases Measure(cfg, s)
  {
    if a: Action :| !a.Tick? && Enabled(cfg, s, a) {
      StepKeepsInv(cfg, s, a);
      StepCost(cfg, s, a);
      var rest;
      rest, t := RunsComeToRest(cfg, Fire(cfg, s, a));
      actions := [a] + rest;
      assert actions[1..] == rest;
    } else {
      actions, t := [], s;
    }
  }

  lemma RestingControl(cfg: Config, s: State)
    requires Control(cfg, s) && Resting(cfg, s) && !s.panicked
    ensures s.queue == [] && s.spawned == |cfg.groups| && s.closer != NotStarted
    ensures s.wg == 0 ==> s.finished
  {
    if !s.finished {
      assert !Enabled(cfg, s, Spawn);
      assert !Enabled(cfg, s, StartCloser);
      assert !Enabled(cfg, s, Deliver);
      assert !Enabled(cfg, s, StopTicker);
      assert !Enabled(cfg, s, CloseChannel);
      assert !Enabled(cfg, s, End);
    }
  }

  /** At rest, without a panic, all that is left of a group is a handler that never flushed. */
  lemma RestingWorker(cfg: Config, s: State, g: nat)
    requires Control(cfg, s) && Resting(cfg, s) && !s.panicked && g < |s.workers|
    requires Accounted(cfg.groups[g], g, s.workers[g], Seen(SentBy(s), g), cfg.recovers)
    ensures var w := s.workers[g];
            && w != Idle && w != Sending && w != Sent
            && (w.Pumping? ==> w.hand == None && w.pipe == [])
            && (w.Pumping? ==> w.next == |cfg.groups[g].ops| && w.reported == w.flushed)
  {
    hide MayHaveStatus, StatusAt, FirstPut, Written, InHand;
    RestingControl(cfg, s);
    CountLiveUpdate(s.workers, g, Done);
    assert !Enabled(cfg, s, Send(g));
    assert !Enabled(cfg, s, Finish(g));
    if s.workers[g].Pumping? {
      assert !Enabled(cfg, s, Forward(g));
      assert !Enabled(cfg, s, Take(g));
      assert !Enabled(cfg, s, Handle(g));
    }
  }

  /** At rest a group has delivered everything, has reported exactly if its handler flushes, and has survived
      a misused writer only by recovery. */
  lemma RestingGroup(cfg: Config, s: State, g: nat)
    requires Inv(cfg, s) && Resting(cfg, s) && !s.panicked && g < |s.workers|
    ensures Seen(s.log, g) == Expected(cfg.groups[g])
    ensures cfg.groups[g].Source? ==>
              && (HasReported(s.workers[g]) <==> Flushes(cfg.groups[g].ops))
              && (!cfg.recovers ==> !Misuses(cfg.groups[g].ops))
    ensures cfg.groups[g].Single? ==> HasReported(s.workers[g])
  {
    RestingControl(cfg, s);
    assert SentBy(s) == s.log;
    assert Accounted(cfg.groups[g], g, s.workers[g], Seen(SentBy(s), g), cfg.recovers);
    RestingWorker(cfg, s, g);
    AllDelivered(cfg.groups[g], g, s.workers[g], Seen(s.log, g), cfg.recovers);
  }

  /** Every run that only ticks could extend: it has panicked exactly when some handler misuses its writer and
      nobody recovers; otherwise everything has been delivered, and the close event has been written exactly
      when the handler of every group that streams flushes. */
  lemma MaximalRunCloses(cfg: Config, s: State, actions: seq<Action>)
    requires Reachable(cfg, s, actions) && Resting(cfg, s)
    ensures s.panicked <==> !cfg.recovers && SomeMisuse(cfg)
    ensures !s.panicked ==> forall g :: 0 <= g < |cfg.groups| ==> Seen(s.log, g) == Expected(cfg.groups[g])
    ensures !s.panicked ==> (s.finished <==> AllFlush(cfg))
  {
    InitialInv(cfg);
    TraceKeepsInv(cfg, Initial(cfg), actions, s);
    if !s.panicked {
      forall g: nat | g < |cfg.groups|
        ensures Seen(s.log, g) == Expected(cfg.groups[g])
        ensures cfg.groups[g].Source? ==> (HasReported(s.workers[g]) <==> Flushes(cfg.groups[g].ops))
        ensures cfg.groups[g].Source? && !cfg.recovers ==> !Misuses(cfg.groups[g].ops)
        ensures cfg.groups[g].Single? ==> HasReported(s.workers[g])
      {
        RestingGroup(cfg, s, g);
      }
      if AllFlush(cfg) {
        AllReportedCloses(cfg, s);
      }
      if s.finished {
        RunDelivers(cfg, s, actions);
      }
    }
  }

  lemma AllReportedCloses(cfg: Config, s: State)
    requires Control(cfg, s) && Resting(cfg, s) && !s.panicked
    requires forall g :: 0 <= g < |s.workers| ==> HasReported(s.workers[g])
    ensures s.finished
  {
    if CountLive(s.workers) > 0 {
      var g := SomeLive(s.workers);
    }
    RestingControl(cfg, s);
  }

  /** So until the close event has been written, some goroutine other than the ticker can move, provided that
      all handlers flush and nothing has panicked. */
  lemma NeverStuck(cfg: Config, s: State, actions: seq<Action>) returns (a: Action)
    requires Reachable(cfg, s, actions) && !s.finished && !s.panicked && AllFlush(cfg)
    ensures !a.Tick? && Enabled(cfg, s, a)
  {
    if Resting(cfg, s) {
      MaximalRunCloses(cfg, s, actions);
    }
    a :| !a.Tick? && Enabled(cfg, s, a);
  }

  /** A handler that returns without flushing keeps the stream open for ever: no run writes the close event,
      and there is one, delivering everything, after which only pings happen. */
  lemma UnflushedHandlerHangs(cfg: Config, ts: int) returns (actions: seq<Action>, s: State)
    requires |cfg.groups| <= cfg.requests && !AllFlush(cfg) && (cfg.recovers || !SomeMisuse(cfg))
    ensures Reachable(cfg, s, actions) && Resting(cfg, s) && !s.finished && Enabled(cfg, s, Tick(ts))
    ensures forall g :: 0 <= g < |cfg.groups| ==> Seen(s.log, g) == Expected(cfg.groups[g])
    ensures forall more: seq<Action>, t: State :: Reachable(cfg, t, more) ==> !t.finished
  {
    InitialInv(cfg);
    actions, s := RunsComeToRest(cfg, Initial(cfg));
    MaximalRunCloses(cfg, s, actions);
    RestingControl(cfg, s);
    forall more: seq<Action>, t: State | Reachable(cfg, t, more) ensures !t.finished {
      if t.finished {
        RunDelivers(cfg, t, more);
      }
    }
  }

  /** Such as a Treq handler that refuses a request. */
  lemma RefusedRequestHangs(id: ReqIdent, error: string, recovers: bool, ts: int)
    returns (actions: seq<Action>, s: State)
    ensures var cfg := Config([Source(id, [SetStatus(401), Put(error)])], 1, recovers);
            && Reachable(cfg, s, actions) && Resting(cfg, s) && !s.finished && Enabled(cfg, s, Tick(ts))
            && Seen(s.log, 0) == [error]
  {
    var ops := [SetStatus(401), Put(error)];
    var cfg := Config([Source(id, ops)], 1, recovers);
    assert ops[1..] == [Put(error)] && [Put(error)][1..] == [];
    assert FlushAt(ops) == 2;
    PutsStep(ops, 0);
    PutsStep(ops, 1);
    assert ops[..0] == [] && [] + [] + [error] == [error];
    assert cfg.groups[0] in cfg.groups;
    actions, s := UnflushedHandlerHangs(cfg, ts);
    assert Expected(cfg.groups[0]) == [error];
  }

  /** A handler that writes or flushes after flushing takes the process down, unless somebody recovers. */
  lemma MisusePanics(cfg: Config) returns (actions: seq<Action>, s: State)
    requires |cfg.groups| <= cfg.requests && SomeMisuse(cfg) && !cfg.recovers
    ensures Reachable(cfg, s, actions) && s.panicked
  {
    InitialInv(cfg);
    actions, s := RunsComeToRest(cfg, Initial(cfg));
    MaximalRunCloses(cfg, s, actions);
  }

  lemma {:induction false} SomeLive(ws: seq<Worker>) returns (g: nat)
    requires CountLive(ws) > 0
    ensures g < |ws| && Live(ws[g])
  {
    if Live(ws[|ws| - 1]) {
      g := |ws| - 1;
    } else {
      g := SomeLive(ws[..|ws| - 1]);
    }
  }

  /** Once the closer has stopped the ticker there are no more ticks, so every run ends; and where it cannot go
      on, the close event has been written, unless a handler that went on after flushing has panicked. */
  lemma {:induction false} NoTicksAfterStop(cfg: Config, s: State, actions: seq<Action>, t: State)
    requires Inv(cfg, s) && Trace(cfg, s, actions, t) && !s.ticking
    ensures Ticks(actions) == 0 && |actions| <= Measure(cfg, s)
    ensures Resting(cfg, t) && !t.panicked ==> t.finished
    decreases |actions|
  {
    RunIsBounded(cfg, s, actions, t);
    if actions == [] {
      if Resting(cfg, t) && !t.panicked {
        RestingControl(cfg, t);
      }
    } else {
      StepKeepsInv(cfg, s, actions[0]);
      TickerStaysOff(cfg, s, actions[0]);
      NoTicksAfterStop(cfg, Fire(cfg, s, actions[0]), actions[1..], t);
    }
  }

  lemma TickerStaysOff(cfg: Config, s: State, a: Action)
    requires Enabled(cfg, s, a) && !s.ticking
    ensures !a.Tick? && !Fire(cfg, s, a).ticking
  {}
}
