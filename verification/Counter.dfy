/** Counting the recent requests of a user: `UserActivity.NumReqSince`. */
module Counter {
  import opened Ring

  /** A point in time, in seconds. */
  type Time = real

  /** How many of the given times lie strictly after `since`. */
  function CountAfter(times: seq<Time>, since: Time): nat {
    if times == [] then 0
    else CountAfter(times[..|times| - 1], since) + (if times[|times| - 1] > since then 1 else 0)
  }

  predicate Sorted(times: seq<Time>) {
    forall i, j :: 0 <= i < j < |times| ==> times[i] <= times[j]
  }

  method NumReqSince(requests: CircularList<Time>, interval: real, now: Time) returns (ans: nat)
    requires requests.Valid()
    ensures ans == CountAfter(requests.Contents(), now - interval)
  {
    var limit := now - interval;
    ans := 0;
    ghost var all := requests.Contents();
    for i := 0 to requests.len
      invariant ans == CountAfter(all[..i], limit)
    {
      assert all[..i + 1][..i] == all[..i];
      var created := requests.At(i);
      if created > limit {
        ans := ans + 1;
      }
    }
    assert all[..|all|] == all;
  }

  lemma {:induction false} CountConcat(a: seq<Time>, b: seq<Time>, since: Time)
    ensures CountAfter(a + b, since) == CountAfter(a, since) + CountAfter(b, since)
  {
    if b == [] {
      assert a + b == a;
    } else {
      var n := |b| - 1;
      assert (a + b)[..|a + b| - 1] == a + b[..n];
      CountConcat(a, b[..n], since);
    }
  }

  lemma {:induction false} CountBounds(times: seq<Time>, since: Time)
    ensures CountAfter(times, since) <= |times|
    ensures CountAfter(times, since) == 0 <==> forall i :: 0 <= i < |times| ==> times[i] <= since
    ensures CountAfter(times, since) == |times| <==> forall i :: 0 <= i < |times| ==> times[i] > since
  {
    if times != [] {
      var n := |times| - 1;
      CountBounds(times[..n], since);
      assert forall i :: 0 <= i < n ==> times[..n][i] == times[i];
    }
  }

  function Min(a: nat, b: nat): nat {
    if a < b then a else b
  }

  /** Counting over the bounded list gives the number of requests in the window, capped by the
      capacity, exactly when no evicted request lies in the window or all kept ones do. */
  lemma BoundedCountIsExactWhen(history: seq<Time>, cap: nat, since: Time)
    requires cap > 0
    ensures var kept := LastN(history, cap);
            var evicted := history[..|history| - |kept|];
            CountAfter(kept, since) == Min(cap, CountAfter(history, since)) <==>
            (CountAfter(evicted, since) == 0 || CountAfter(kept, since) == cap)
  {
    var kept := LastN(history, cap);
    var evicted := history[..|history| - |kept|];
    assert history == evicted + kept;
    CountConcat(evicted, kept, since);
    CountBounds(kept, since);
    CountBounds(evicted, since);
  }

  /** For requests that arrive in order of their times, the bounded list loses nothing that matters. */
  lemma BoundedCounterRefinesHistory(history: seq<Time>, cap: nat, since: Time)
    requires cap > 0 && Sorted(history)
    ensures CountAfter(LastN(history, cap), since) == Min(cap, CountAfter(history, since))
  {
    var kept := LastN(history, cap);
    var n := |history| - |kept|;
    var evicted := history[..n];
    BoundedCountIsExactWhen(history, cap, since);
    CountBounds(kept, since);
    CountBounds(evicted, since);
    if CountAfter(evicted, since) != 0 {
      var i :| 0 <= i < |evicted| && evicted[i] > since;
      forall j | 0 <= j < |kept| ensures kept[j] > since {
        assert kept[j] == history[n + j] && history[i] <= history[n + j];
      }
    }
  }

  /** The bounded list after any sequence of appends. */
  function AppendAll(times: seq<Time>, cap: nat): seq<Time> {
    if times == [] then [] else Push(AppendAll(times[..|times| - 1], cap), times[|times| - 1], cap)
  }

  lemma {:induction false} AppendAllKeepsLast(times: seq<Time>, cap: nat)
    requires cap > 0
    ensures AppendAll(times, cap) == LastN(times, cap)
  {
    if times != [] {
      var n := |times| - 1;
      AppendAllKeepsLast(times[..n], cap);
      PushKeepsLast(times[..n], times[n], cap);
      assert times == times[..n] + [times[n]];
    }
  }

  /** Requests that report late can push a more recent one out of the list: with room for one
      request, the count misses the one still in the window. */
  lemma UnsortedHistoryUndercounts()
    ensures CountAfter(AppendAll([10.0, 1.0], 1), 5.0) == 0
    ensures Min(1, CountAfter([10.0, 1.0], 5.0)) == 1
  {
    var h := [10.0, 1.0];
    AppendAllKeepsLast(h, 1);
    assert h[1..] == [1.0] && [1.0][..0] == [];
    assert h[..1] == [10.0] && [10.0][..0] == [];
    assert CountAfter([1.0], 5.0) == CountAfter([], 5.0) + 0;
    assert CountAfter([10.0], 5.0) == CountAfter([], 5.0) + 1;
  }
}
