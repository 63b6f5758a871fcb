/** Concurrent parts of one answer: each worker enters its part under a lock, takes a snapshot of the
    answer so far, and writes the snapshot as an event after releasing the lock. */
module FanOut {
  import opened Text

  /** Where a worker stands; the snapshot it took is the one of index `snap`. */
  datatype Phase = Working | Holding(snap: nat) | Written(snap: nat) | Failed

  /** `answer` is shared; `order` records which keys were entered, in order; `snaps` the snapshots taken,
      and `events` the indices of the snapshots written, in order. */
  datatype State<K(==), !R> =
    State(answer: map<K, R>, phases: map<K, Phase>, order: seq<K>, snaps: seq<map<K, R>>, events: seq<nat>)

  datatype Action<K> = Enter(key: K) | WriteEvent(key: K) | Fail(key: K)

  /** `results` holds what each worker obtains. */
  predicate Enabled<K, R>(s: State<K, R>, a: Action<K>) {
    && a.key in s.phases
    && match a
       case Enter(k) => s.phases[k].Working?
       case WriteEvent(k) => s.phases[k].Holding?
       case Fail(k) => s.phases[k].Working? || s.phases[k].Holding?
  }

  function Fire<K, R>(results: map<K, R>, s: State<K, R>, a: Action<K>): State<K, R>
    requires Enabled(s, a) && s.phases.Keys == results.Keys
  {
    match a
    case Enter(k) =>
      var answer := s.answer[k := results[k]];
      State(answer, s.phases[k := Holding(|s.snaps|)], s.order + [k], s.snaps + [answer], s.events)
    case WriteEvent(k) =>
      s.(phases := s.phases[k := Written(s.phases[k].snap)], events := s.events + [s.phases[k].snap])
    case Fail(k) => s.(phases := s.phases[k := Failed])
  }

  function Initial<K, R>(results: map<K, R>): State<K, R> {
    State(map[], map k | k in results :: Working, [], [], [])
  }

  ghost predicate IsRun<K, R>(results: map<K, R>, actions: seq<Action<K>>, states: seq<State<K, R>>) {
    && |states| == |actions| + 1 && states[0] == Initial(results)
    && forall i :: 0 <= i < |actions| ==>
         && states[i].phases.Keys == results.Keys && Enabled(states[i], actions[i])
         && states[i + 1] == Fire(results, states[i], actions[i])
  }

  /** The results of the given keys. */
  function Restricted<K, R>(results: map<K, R>, keys: seq<K>): map<K, R> {
    map k | k in results && k in keys :: results[k]
  }

  predicate NoDuplicates<T(==)>(s: seq<T>) {
    forall i, j :: 0 <= i < j < |s| ==> s[i] != s[j]
  }

  ghost predicate Inv<K, R>(results: map<K, R>, s: State<K, R>) {
    && s.phases.Keys == results.Keys
    && NoDuplicates(s.order) && NoDuplicates(s.events) && |s.snaps| == |s.order|
    && (forall i :: 0 <= i < |s.order| ==> s.order[i] in results && !s.phases[s.order[i]].Working?)
    && s.answer == Restricted(results, s.order)
    && (forall i :: 0 <= i < |s.snaps| ==> s.snaps[i] == Restricted(results, s.order[..i + 1]))
    && (forall k <- results :: s.phases[k].Holding? || s.phases[k].Written? ==>
          s.phases[k].snap < |s.order| && s.order[s.phases[k].snap] == k)
    && (forall i :: 0 <= i < |s.events| ==>
          s.events[i] < |s.order| && s.phases[s.order[s.events[i]]] == Written(s.events[i]))
    && (forall k <- results :: s.phases[k].Written? ==> s.phases[k].snap in s.events)
  }

  /** The shared answer and the snapshots after a key has been entered. */
  lemma AnswerGrows<K, R>(results: map<K, R>, order: seq<K>, k: K)
    requires k in results
    ensures Restricted(results, order)[k := results[k]] == Restricted(results, order + [k])
  {}

  lemma EnterKeepsInv<K, R>(results: map<K, R>, s: State<K, R>, k: K)
    requires Inv(results, s) && Enabled(s, Enter(k))
    ensures Inv(results, Fire(results, s, Enter(k)))
  {
    var t := Fire(results, s, Enter(k));
    assert k !in s.order;
    AnswerGrows(results, s.order, k);
    assert t.order[..|s.order| + 1] == t.order;
    forall i | 0 <= i < |t.snaps| ensures t.snaps[i] == Restricted(results, t.order[..i + 1]) {
      if i < |s.snaps| {
        assert t.order[..i + 1] == s.order[..i + 1];
      }
    }
  }

  lemma WriteKeepsInv<K, R>(results: map<K, R>, s: State<K, R>, k: K)
    requires Inv(results, s) && Enabled(s, WriteEvent(k))
    ensures Inv(results, Fire(results, s, WriteEvent(k)))
  {
    var t := Fire(results, s, WriteEvent(k));
    var snap := s.phases[k].snap;
    assert snap !in s.events;
    forall j <- results | t.phases[j].Written? ensures t.phases[j].snap in t.events {
      if j == k {
        assert t.events[|s.events|] == snap;
      } else {
        assert s.phases[j].snap in s.events;
      }
    }
  }

  lemma FailKeepsInv<K, R>(results: map<K, R>, s: State<K, R>, k: K)
    requires Inv(results, s) && Enabled(s, Fail(k))
    ensures Inv(results, Fire(results, s, Fail(k)))
  {}

  lemma {:induction false} RunKeepsInv<K, R>(results: map<K, R>, actions: seq<Action<K>>, states: seq<State<K, R>>,
                                             i: nat)
    requires IsRun(results, actions, states) && i < |states|
    ensures Inv(results, states[i])
  {
    if i > 0 {
      RunKeepsInv(results, actions, states, i - 1);
      match actions[i - 1]
      case Enter(k) => EnterKeepsInv(results, states[i - 1], k);
      case WriteEvent(k) => WriteKeepsInv(results, states[i - 1], k);
      case Fail(k) => FailKeepsInv(results, states[i - 1], k);
    } else {
      assert states[0].answer == Restricted(results, []);
    }
  }

  /** The snapshots form a chain: each adds one key to the one before, with that key's own result. */
  lemma SnapshotsGrow<K, R>(results: map<K, R>, actions: seq<Action<K>>, states: seq<State<K, R>>, n: nat, i: nat)
    requires IsRun(results, actions, states) && n < |states| && i < |states[n].snaps|
    ensures var s := states[n];
            && i < |s.order| && s.order[i] in results
            && s.snaps[i] == (if i == 0 then map[] else s.snaps[i - 1])[s.order[i] := results[s.order[i]]]
            && (i > 0 ==> s.order[i] !in s.snaps[i - 1])
  {
    RunKeepsInv(results, actions, states, n);
    SnapshotStep(results, states[n], i);
  }

  lemma SnapshotStep<K, R>(results: map<K, R>, s: State<K, R>, i: nat)
    requires Inv(results, s) && i < |s.snaps|
    ensures s.snaps[i] == (if i == 0 then map[] else s.snaps[i - 1])[s.order[i] := results[s.order[i]]]
    ensures i > 0 ==> s.order[i] !in s.snaps[i - 1]
  {
    var before, k := s.order[..i], s.order[i];
    assert s.order[..i + 1] == before + [k];
    AnswerGrows(results, before, k);
    assert Restricted(results, []) == map[];
  }

  lemma {:induction false} CardinalityOf<T>(s: seq<T>, all: set<T>)
    requires NoDuplicates(s) && forall x :: x in s <==> x in all
    ensures |s| == |all|
  {
    if s == [] {
      assert all == {};
    } else {
      var n := |s| - 1;
      assert s == s[..n] + [s[n]];
      CardinalityOf(s[..n], all - {s[n]});
    }
  }

  ghost predicate AllWritten<K, R>(results: map<K, R>, s: State<K, R>) {
    forall k <- results :: k in s.phases && s.phases[k].Written?
  }

  lemma AllEntered<K, R>(results: map<K, R>, s: State<K, R>)
    requires Inv(results, s) && AllWritten(results, s)
    ensures |s.order| == |results| && forall k :: k in s.order <==> k in results
  {
    forall k ensures k in s.order <==> k in results.Keys {
      if k in results {
        assert s.order[s.phases[k].snap] == k;
      }
    }
    CardinalityOf(s.order, results.Keys);
  }

  function Below(n: nat): (r: set<nat>)
    ensures |r| == n
    ensures forall i: nat :: i in r <==> i < n
  {
    if n == 0 then {} else Below(n - 1) + {n - 1}
  }

  lemma EventOf<K, R>(results: map<K, R>, s: State<K, R>, i: nat)
    requires Inv(results, s) && AllWritten(results, s) && i < |s.order|
    ensures i in s.events
  {
    var k := s.order[i];
    var j := s.phases[k].snap;
    assert s.order[j] == k;
    assert i == j;
  }

  lemma AllSnapshotsWritten<K, R>(results: map<K, R>, s: State<K, R>)
    requires Inv(results, s) && AllWritten(results, s)
    ensures |s.events| == |s.order|
  {
    forall i: nat ensures i in s.events <==> i in Below(|s.order|) {
      if i < |s.order| {
        EventOf(results, s, i);
      }
    }
    CardinalityOf(s.events, Below(|s.order|));
  }

  /** When every worker has written its event, there is one event for each, no snapshot is written twice,
      one event carries the complete answer, and the shared answer is complete too, whatever the schedule
      was: every key has its own result. */
  lemma AllPartsArrive<K, R>(results: map<K, R>, actions: seq<Action<K>>, states: seq<State<K, R>>)
    requires IsRun(results, actions, states) && AllWritten(results, states[|actions|])
    ensures var s := states[|actions|];
            && |s.events| == |s.snaps| == |results| && NoDuplicates(s.events)
            && s.answer == results
            && (results != map[] ==> |s.snaps| > 0 && |s.snaps| - 1 in s.events && s.snaps[|s.snaps| - 1] == results)
  {
    RunKeepsInv(results, actions, states, |actions|);
    CompleteState(results, states[|actions|]);
  }

  lemma AnswerComplete<K, R>(results: map<K, R>, s: State<K, R>)
    requires Inv(results, s) && forall k :: k in s.order <==> k in results
    ensures s.answer == results
    ensures s.order != [] ==> s.snaps[|s.order| - 1] == results
  {
    assert Restricted(results, s.order) == results;
    assert s.order[..|s.order|] == s.order;
  }

  lemma CompleteState<K, R>(results: map<K, R>, s: State<K, R>)
    requires Inv(results, s) && AllWritten(results, s)
    ensures |s.events| == |s.snaps| == |results| && s.answer == results
    ensures results != map[] ==> |s.snaps| > 0 && |s.snaps| - 1 in s.events && s.snaps[|s.snaps| - 1] == results
  {
    AllEntered(results, s);
    AllSnapshotsWritten(results, s);
    AnswerComplete(results, s);
    if results != map[] {
      EventOf(results, s, |s.order| - 1);
    }
  }

  // ----- what may happen -----

  /** A worker may fail until it has written its event. */
  lemma MayFail<K, R>(s: State<K, R>, k: K)
    requires k in s.phases
    ensures Enabled(s, Fail(k)) <==> !s.phases[k].Written? && !s.phases[k].Failed?
  {}

  /** The workers of `done` have finished, the others have not begun. */
  ghost predicate Halfway<K, R>(results: map<K, R>, done: set<K>, actions: seq<Action<K>>, states: seq<State<K, R>>) {
    && IsRun(results, actions, states)
    && var s := states[|actions|];
       s.phases.Keys == results.Keys &&
       forall k <- results :: if k in done then s.phases[k].Written? else s.phases[k].Working?
  }

  lemma OneMore<K, R>(results: map<K, R>, done: set<K>, actions: seq<Action<K>>, states: seq<State<K, R>>, k: K)
    returns (more: seq<Action<K>>, after: seq<State<K, R>>)
    requires Halfway(results, done, actions, states) && k in results && k !in done
    ensures Halfway(results, done + {k}, more, after)
  {
    var s := states[|actions|];
    var t := Fire(results, s, Enter(k));
    var u := Fire(results, t, WriteEvent(k));
    more, after := actions + [Enter(k), WriteEvent(k)], states + [t, u];
    forall i | 0 <= i < |more|
      ensures after[i].phases.Keys == results.Keys && Enabled(after[i], more[i])
      ensures after[i + 1] == Fire(results, after[i], more[i])
    {
      if i < |actions| {
        assert after[i] == states[i] && after[i + 1] == states[i + 1] && more[i] == actions[i];
      }
    }
  }

  /** For any results there is a schedule in which every worker writes its event. */
  lemma CompleteRun<K, R>(results: map<K, R>) returns (actions: seq<Action<K>>, states: seq<State<K, R>>)
    ensures IsRun(results, actions, states) && AllWritten(results, states[|actions|])
  {
    var done: set<K> := {};
    actions, states := [], [Initial(results)];
    while done != results.Keys
      invariant done <= results.Keys && Halfway(results, done, actions, states)
      decreases |results.Keys - done|
    {
      var k :| k in results.Keys - done;
      actions, states := OneMore(results, done, actions, states, k);
      assert results.Keys - (done + {k}) == (results.Keys - done) - {k};
      done := done + {k};
    }
  }

  // ----- the two answers -----

  /** `WithExamples` fills the slots of a list; a slot not yet filled holds the zero value. */
  function Slots<R>(answer: map<nat, R>, n: nat, zero: R): (r: seq<R>)
    ensures |r| == n
    ensures forall i :: 0 <= i < n ==> r[i] == if i in answer then answer[i] else zero
  {
    seq(n, i requires 0 <= i < n => if i in answer then answer[i] else zero)
  }

  function ByIndex<R>(lines: seq<R>): map<nat, R> {
    map i: nat | i < |lines| :: lines[i]
  }

  /** The complete answer holds translation `i` in slot `i`, for every schedule. */
  lemma TranslationsInOrder<R>(lines: seq<R>, zero: R, actions: seq<Action<nat>>, states: seq<State<nat, R>>)
    requires IsRun(ByIndex(lines), actions, states) && AllWritten(ByIndex(lines), states[|actions|])
    ensures Slots(states[|actions|].answer, |lines|, zero) == lines
  {
    AllPartsArrive(ByIndex(lines), actions, states);
  }

  /** In between, every slot of an event holds either its own translation or nothing. */
  lemma SlotsAreOwn<R>(lines: seq<R>, zero: R, actions: seq<Action<nat>>, states: seq<State<nat, R>>, n: nat,
                       i: nat, slot: nat)
    requires IsRun(ByIndex(lines), actions, states) && n < |states|
    requires i < |states[n].snaps| && slot < |lines|
    ensures var shown := Slots(states[n].snaps[i], |lines|, zero)[slot];
            shown == zero || shown == lines[slot]
  {
    RunKeepsInv(ByIndex(lines), actions, states, n);
  }

  /** `Subsets` collects the answers in a map; the complete one has exactly the requested subsets. */
  lemma SubsetsComplete<R>(answers: map<string, R>, actions: seq<Action<string>>, states: seq<State<string, R>>)
    requires IsRun(answers, actions, states) && AllWritten(answers, states[|actions|])
    ensures states[|actions|].answer.Keys == answers.Keys && states[|actions|].answer == answers
  {
    AllPartsArrive(answers, actions, states);
  }
}
