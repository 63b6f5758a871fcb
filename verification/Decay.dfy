/** `limitExceedings`: recent overruns of a limit, averaged with weights that decay with age. */
module Decay {
  import opened Ring
  import opened Counter

  datatype Exceeding = Exceeding(value: nat, at: Time)

  function MinReal(a: real, b: real): real {
    if a < b then a else b
  }

  /** What a measurement's overflow is divided by when the measurement is `age` seconds old. */
  function Damping(age: real, interval: int): (d: real)
    requires interval > 0
    ensures d >= 1.0
  {
    var decrRatio := 9.0 * MinReal(1.0, age / interval as real);
    DampingAtLeastOne(age, interval as real);
    1.0 + age * decrRatio
  }

  lemma DampingAtLeastOne(age: real, i: real)
    requires i > 0.0
    ensures age * (9.0 * MinReal(1.0, age / i)) >= 0.0
  {
    var q := age / i;
    assert q * i == age;
    if age >= 0.0 {
      assert q >= 0.0 by { NonNegativeQuotient(age, i); }
      NonNegativeProduct(age, 9.0 * MinReal(1.0, q));
    } else {
      assert q <= 0.0 by { NonNegativeQuotient(-age, i); assert (-age) / i == -q; }
      NonNegativeProduct(-age, 9.0 * -q);
    }
  }

  lemma NonNegativeQuotient(a: real, b: real)
    requires a >= 0.0 && b > 0.0
    ensures a / b >= 0.0
  {}

  lemma NonNegativeProduct(a: real, b: real)
    requires a >= 0.0 && b >= 0.0
    ensures a * b >= 0.0
  {}

  predicate InWindow(e: Exceeding, at: Time, interval: int) {
    at - e.at <= interval as real
  }

  function Weighted(e: Exceeding, at: Time, interval: int): real
    requires interval > 0
  {
    if InWindow(e, at, interval) then e.value as real / Damping(at - e.at, interval) else 0.0
  }

  function Weights(list: seq<Exceeding>, at: Time, interval: int): (ws: seq<real>)
    requires interval > 0
    ensures |ws| == |list|
  {
    if list == [] then []
    else Weights(list[..|list| - 1], at, interval) + [Weighted(list[|list| - 1], at, interval)]
  }

  function Total(ws: seq<real>): real {
    if ws == [] then 0.0 else Total(ws[..|ws| - 1]) + ws[|ws| - 1]
  }

  function WeightedSum(list: seq<Exceeding>, at: Time, interval: int): real
    requires interval > 0
  {
    Total(Weights(list, at, interval))
  }

  lemma {:induction false} WeightAt(list: seq<Exceeding>, at: Time, interval: int, i: nat)
    requires interval > 0 && i < |list|
    ensures Weights(list, at, interval)[i] == Weighted(list[i], at, interval)
  {
    var n := |list| - 1;
    if i < n {
      WeightAt(list[..n], at, interval, i);
    }
  }

  lemma SumStep(list: seq<Exceeding>, e: Exceeding, at: Time, interval: int)
    requires interval > 0
    ensures WeightedSum(list + [e], at, interval) ==
            WeightedSum(list, at, interval) + Weighted(e, at, interval)
  {
    assert (list + [e])[..|list|] == list;
    var ws := Weights(list, at, interval);
    assert (ws + [Weighted(e, at, interval)])[..|ws|] == ws;
  }

  /** The weighted overflow per measurement; measurements that left the window count as zero. */
  function Absolute(list: seq<Exceeding>, at: Time, interval: int): real
    requires interval > 0
  {
    if list == [] then 0.0 else WeightedSum(list, at, interval) / |list| as real
  }

  /** The same relative to the limit. */
  function Relative(list: seq<Exceeding>, at: Time, interval: int, limit: int): real
    requires interval > 0 && limit > 0
  {
    if list == [] then 0.0 else WeightedSum(list, at, interval) / |list| as real / limit as real
  }

  // ----- the object -----

  function ListOf(lists: map<int, seq<Exceeding>>, interval: int): seq<Exceeding> {
    if interval in lists then lists[interval] else []
  }

  /** Only a measurement that reaches the limit is stored. */
  function Registered(lists: map<int, seq<Exceeding>>, cap: nat, at: Time, interval: int,
                      numReq: nat, limit: int): map<int, seq<Exceeding>>
  {
    if numReq < limit then lists
    else lists[interval := Push(ListOf(lists, interval), Exceeding(Overflow(numReq, limit), at), cap)]
  }

  function Overflow(numReq: nat, limit: int): nat {
    if numReq - limit < 0 then 0 else numReq - limit
  }

  /** Below the limit nothing is stored. Otherwise the interval's list ends with the number of requests beyond the
      limit, after the newest of the measurements that were there; other intervals are left alone. */
  lemma MeasurementStored(lists: map<int, seq<Exceeding>>, cap: nat, at: Time, interval: int, numReq: nat,
                          limit: int, other: int)
    requires cap > 0
    ensures var after := Registered(lists, cap, at, interval, numReq, limit);
            && (numReq < limit ==> after == lists)
            && (other != interval ==> ListOf(after, other) == ListOf(lists, other))
            && (numReq >= limit ==>
                  var list := ListOf(after, interval);
                  && list != [] && list[|list| - 1].at == at && list[|list| - 1].value + limit == numReq
                  && list[..|list| - 1] == LastN(ListOf(lists, interval), cap - 1))
  {}

  lemma OneListChanged(before: map<int, seq<Exceeding>>, after: map<int, seq<Exceeding>>,
                       interval: int, list: seq<Exceeding>)
    requires after.Keys == before.Keys + {interval} && after[interval] == list
    requires forall k <- after :: k != interval ==> k in before && after[k] == before[k]
    ensures after == before[interval := list]
  {
    var expected := before[interval := list];
    assert after.Keys == expected.Keys;
    assert forall k <- after :: after[k] == expected[k];
  }

  lemma NextSum(list: seq<Exceeding>, i: nat, at: Time, interval: int)
    requires i < |list| && interval > 0
    ensures WeightedSum(list[..i + 1], at, interval) ==
            WeightedSum(list[..i], at, interval) + Weighted(list[i], at, interval)
  {
    SumStep(list[..i], list[i], at, interval);
    assert list[..i + 1] == list[..i] + [list[i]];
  }

  class LimitExceedings {
    const capacity: nat
    var entries: map<int, CircularList<Exceeding>>

    ghost predicate Valid()
      reads this, Objects()
    {
      && capacity > 0
      && (forall k <- entries :: entries[k].Valid() && entries[k].data.Length == capacity)
      && (forall k <- entries :: entries[k].len > 0)
      && (forall k <- entries, l <- entries :: k != l ==>
            entries[k].data != entries[l].data)
    }

    ghost function Objects(): set<object>
      reads this
    {
      (set k | k in entries :: entries[k] as object) + (set k | k in entries :: entries[k].data as object)
    }

    ghost function Lists(): (lists: map<int, seq<Exceeding>>)
      reads this, Objects()
      requires Valid()
      ensures lists.Keys == entries.Keys
    {
      map k | k in entries :: entries[k].Contents()
    }

    constructor (capacity: nat)
      requires capacity > 0
      ensures Valid() && Objects() == {} && Lists() == map[] && this.capacity == capacity
    {
      this.capacity := capacity;
      entries := map[];
    }

    method RegisterMeasurement(at: Time, interval: int, numReq: nat, limit: int)
      requires Valid()
      modifies this, Objects()
      ensures Valid() && fresh(Objects() - old(Objects()))
      ensures Lists() == Registered(old(Lists()), capacity, at, interval, numReq, limit)
    {
      hide LimitExceedings.Valid, LimitExceedings.Lists, LimitExceedings.Objects;
      if numReq < limit {
        return;
      }
      var item := Exceeding(Overflow(numReq, limit), at);
      ghost var before := Lists();
      ListsHold();
      if interval !in entries {
        StartList(interval, item);
      } else {
        AppendToList(interval, item);
      }
      ListsAfter(before, interval, Push(ListOf(before, interval), item, capacity));
    }

    lemma ListsHold()
      requires Valid()
      ensures forall k <- entries :: entries[k].Valid() && Lists()[k] == entries[k].Contents()
    {}

    lemma ListsAfter(before: map<int, seq<Exceeding>>, interval: int, list: seq<Exceeding>)
      requires Valid() && entries.Keys == before.Keys + {interval} && entries[interval].Contents() == list
      requires forall k <- before :: k != interval ==> entries[k].Contents() == before[k]
      ensures Lists() == before[interval := list]
    {
      OneListChanged(before, Lists(), interval, list);
    }

    method StartList(interval: int, item: Exceeding)
      requires Valid() && interval !in entries
      modifies this
      ensures Valid() && fresh(Objects() - old(Objects()))
      ensures entries.Keys == old(entries).Keys + {interval}
      ensures entries[interval].Contents() == Push([], item, capacity)
      ensures forall k <- old(entries) :: entries[k].Contents() == old(entries[k].Contents())
    {
      var list := NewList(item);
      entries := entries[interval := list];
      assert Objects() <= old(Objects()) + {list, list.data};
    }

    method NewList(item: Exceeding) returns (list: CircularList<Exceeding>)
      requires capacity > 0
      ensures fresh(list) && fresh(list.data) && list.data.Length == capacity
      ensures list.Valid() && list.len > 0 && list.Contents() == Push([], item, capacity)
    {
      list := new CircularList<Exceeding>(capacity);
      list.Append(item);
    }

    method AppendToList(interval: int, item: Exceeding)
      requires Valid() && interval in entries
      modifies Objects()
      ensures Valid() && entries == old(entries) && Objects() == old(Objects())
      ensures entries[interval].Contents() == Push(old(entries[interval].Contents()), item, capacity)
      ensures forall k <- entries :: k != interval ==> entries[k].Contents() == old(entries[k].Contents())
    {
      var list := entries[interval];
      list.Append(item);
    }

    method RelativeExceeding(at: Time, interval: int, limit: int) returns (ans: real)
      requires Valid() && interval > 0 && limit > 0
      ensures ans == Relative(ListOf(Lists(), interval), at, interval, limit)
    {
      ans := 0.0;
      if interval !in entries {
        return;
      }
      var list := entries[interval];
      ans := SumOf(list, at, interval);
      ans := ans / list.len as real / limit as real;
    }

    method AbsoluteExceeding(at: Time, interval: int) returns (ans: real)
      requires Valid() && interval > 0
      ensures ans == Absolute(ListOf(Lists(), interval), at, interval)
    {
      ans := 0.0;
      if interval !in entries {
        return;
      }
      var list := entries[interval];
      ans := SumOf(list, at, interval);
      ans := ans / list.len as real;
    }

    /** The loop shared by the two averages. */
    method SumOf(list: CircularList<Exceeding>, at: Time, interval: int) returns (ans: real)
      requires list.Valid() && interval > 0
      ensures ans == WeightedSum(list.Contents(), at, interval)
    {
      hide Weighted;
      ans := 0.0;
      ghost var all := list.Contents();
      for i := 0 to list.len
        invariant ans == WeightedSum(all[..i], at, interval)
      {
        var item := list.At(i);
        NextSum(all, i, at, interval);
        var weighted := WeightOf(item, at, interval);
        ans := ans + weighted;
      }
      assert all[..|all|] == all;
    }

    method WeightOf(item: Exceeding, at: Time, interval: int) returns (weighted: real)
      requires interval > 0
      ensures weighted == Weighted(item, at, interval)
    {
      var timeDiff := at - item.at;
      if timeDiff > interval as real {
        return 0.0;
      }
      var decrRatio := 9.0 * MinReal(1.0, timeDiff / interval as real);
      assert Damping(timeDiff, interval) == 1.0 + timeDiff * decrRatio;
      weighted := item.value as real / (1.0 + timeDiff * decrRatio);
    }
  }

  // ----- what the averages mean -----

  lemma DampingInWindow(age: real, interval: int)
    requires interval > 0 && 0.0 <= age <= interval as real
    ensures Damping(age, interval) == 1.0 + 9.0 * (age * (age / interval as real))
    ensures 1.0 <= Damping(age, interval) <= 1.0 + 9.0 * interval as real
  {
    WindowArithmetic(age, interval as real);
  }

  lemma WindowArithmetic(a: real, i: real)
    requires i > 0.0 && 0.0 <= a <= i
    ensures a * (9.0 * MinReal(1.0, a / i)) == 9.0 * (a * (a / i))
    ensures 0.0 <= a * (a / i) <= i
  {
    var q := a / i;
    NonNegativeQuotient(a, i);
    AtMostOne(a, i);
    TakeOutNine(a, q);
    Scale(a, q, 1.0);
    NonNegativeProduct(a, q);
  }

  lemma AtMostOne(a: real, i: real)
    requires i > 0.0 && a <= i
    ensures a / i <= 1.0
  {
    DivideMonotone(a, i, i);
    assert i / i == 1.0;
  }

  lemma TakeOutNine(a: real, q: real)
    ensures a * (9.0 * q) == 9.0 * (a * q)
  {}

  lemma Scale(a: real, x: real, y: real)
    requires a >= 0.0 && x <= y
    ensures a * x <= a * y
  {}

  /** The weight of a measurement in the window lies between 1 / (1 + 9 * interval) and 1. */
  lemma WeightBounds(age: real, interval: int)
    requires interval > 0 && 0.0 <= age <= interval as real
    ensures 1.0 / (1.0 + 9.0 * interval as real) <= 1.0 / Damping(age, interval) <= 1.0
  {
    DampingInWindow(age, interval);
    Reciprocal(Damping(age, interval), 1.0 + 9.0 * interval as real);
    Reciprocal(1.0, Damping(age, interval));
  }

  lemma Reciprocal(a: real, b: real)
    requires 0.0 < a <= b
    ensures 1.0 / b <= 1.0 / a
  {
    var x, y := 1.0 / a, 1.0 / b;
    assert x * a == 1.0 && y * b == 1.0;
    Scale(y, a, b);
    assert (x - y) * a >= 0.0;
    PositiveFactor(x - y, a);
  }

  lemma PositiveFactor(p: real, a: real)
    requires p * a >= 0.0 && a > 0.0
    ensures p >= 0.0
  {
    NonNegativeQuotient(p * a, a);
    assert (p * a) / a == p;
  }

  /** An older measurement is damped at least as much. */
  lemma DampingGrows(age: real, later: real, interval: int)
    requires interval > 0 && 0.0 <= age <= later <= interval as real
    ensures Damping(age, interval) <= Damping(later, interval)
  {
    DampingInWindow(age, interval);
    DampingInWindow(later, interval);
    QuotientGrows(age, later, interval as real);
  }

  lemma QuotientGrows(a: real, b: real, i: real)
    requires 0.0 <= a <= b && i > 0.0
    ensures a * (a / i) <= b * (b / i)
  {
    var p, q := a / i, b / i;
    DivideMonotone(a, b, i);
    NonNegativeQuotient(b, i);
    Scale(a, p, q);
    Scale(q, a, b);
    assert a * q == q * a && q * b == b * q;
  }

  lemma DivideByMore(v: real, a: real, b: real)
    requires v >= 0.0 && 0.0 < a <= b
    ensures 0.0 <= v / b <= v / a
  {
    Reciprocal(a, b);
    assert v / a == v * (1.0 / a) && v / b == v * (1.0 / b);
    Scale(v, 1.0 / b, 1.0 / a);
    NonNegativeQuotient(v, b);
  }

  lemma WeightedBounds(e: Exceeding, at: Time, interval: int)
    requires interval > 0
    ensures 0.0 <= Weighted(e, at, interval) <= e.value as real
  {
    if InWindow(e, at, interval) {
      DivideByMore(e.value as real, 1.0, Damping(at - e.at, interval));
    }
  }

  /** A measurement counts as long as it is no older than the interval, and only if it overran the limit. */
  lemma CountsIff(e: Exceeding, at: Time, interval: int)
    requires interval > 0
    ensures Weighted(e, at, interval) > 0.0 <==> at - e.at <= interval as real && e.value > 0
  {
    if InWindow(e, at, interval) {
      PositiveShare(e.value as real, Damping(at - e.at, interval));
    }
  }

  lemma PositiveShare(v: real, d: real)
    requires v >= 0.0 && d > 0.0
    ensures v / d > 0.0 <==> v > 0.0
  {
    assert v / d * d == v;
  }

  /** A new measurement counts in full. */
  lemma FreshWeight(x: Exceeding, interval: int)
    requires interval > 0
    ensures Weighted(x, x.at, interval) == x.value as real
  {
    var d := Damping(0.0, interval);
    assert d == 1.0;
  }

  /** How a measurement fades: it has a k-th of its weight left when nine times the square of its age is k - 1
      intervals. */
  lemma WeightLeftIff(e: Exceeding, at: Time, interval: int, k: real)
    requires interval > 0 && e.at <= at && InWindow(e, at, interval) && e.value > 0
    ensures Weighted(e, at, interval) * k == e.value as real <==>
            9.0 * ((at - e.at) * (at - e.at)) == (k - 1.0) * interval as real
  {
    var age, i, v := at - e.at, interval as real, e.value as real;
    var d := Damping(age, interval);
    DampingClosed(age, interval);
    ShareIff(v, d, k);
    assert (k - 1.0) * i == (d - 1.0) * i <==> k == d by { SameFactor(k - 1.0, d - 1.0, i); }
  }

  lemma DampingClosed(age: real, interval: int)
    requires interval > 0 && 0.0 <= age <= interval as real
    ensures (Damping(age, interval) - 1.0) * interval as real == 9.0 * (age * age)
  {
    var i := interval as real;
    var q := age / i;
    assert q * i == age;
    assert q <= 1.0 by { if q > 1.0 { ProductAbove(q, i); } }
    assert Damping(age, interval) == 1.0 + age * (9.0 * q) by { assert MinReal(1.0, q) == q; }
    Regroup(age, q, i);
  }

  lemma Regroup(age: real, q: real, i: real)
    requires q * i == age
    ensures age * (9.0 * q) * i == 9.0 * (age * age)
  {
    calc {
      age * (9.0 * q) * i;
      9.0 * age * (q * i);
      9.0 * (age * age);
    }
  }

  lemma ProductAbove(q: real, i: real)
    requires q > 1.0 && i > 0.0
    ensures q * i > i
  {}

  lemma SameFactor(a: real, b: real, i: real)
    requires i > 0.0
    ensures a * i == b * i <==> a == b
  {}

  lemma ShareIff(v: real, d: real, k: real)
    requires v > 0.0 && d >= 1.0
    ensures v / d * k == v <==> k == d
  {
    var w := v / d;
    assert w * d == v;
    SameFactor(k, d, w);
  }

  lemma WeightedFades(e: Exceeding, at: Time, later: Time, interval: int)
    requires interval > 0 && e.at <= at <= later
    ensures Weighted(e, later, interval) <= Weighted(e, at, interval)
  {
    WeightedBounds(e, at, interval);
    if InWindow(e, later, interval) {
      DampingGrows(at - e.at, later - e.at, interval);
      DivideByMore(e.value as real, Damping(at - e.at, interval), Damping(later - e.at, interval));
    }
  }

  lemma {:induction false} TotalBounds(ws: seq<real>, bound: real)
    requires forall i :: 0 <= i < |ws| ==> 0.0 <= ws[i] <= bound
    ensures 0.0 <= Total(ws) <= |ws| as real * bound
  {
    if ws != [] {
      var n := |ws| - 1;
      TotalBounds(ws[..n], bound);
      OneMore(n, bound);
    }
  }

  lemma OneMore(n: nat, bound: real)
    ensures (n + 1) as real * bound == n as real * bound + bound
  {}

  lemma SumBounds(list: seq<Exceeding>, at: Time, interval: int, largest: nat)
    requires interval > 0
    requires forall e <- list :: e.value <= largest
    ensures 0.0 <= WeightedSum(list, at, interval) <= |list| as real * largest as real
  {
    var ws := Weights(list, at, interval);
    forall i | 0 <= i < |ws| ensures 0.0 <= ws[i] <= largest as real {
      WeightAt(list, at, interval, i);
      WeightedBounds(list[i], at, interval);
    }
    TotalBounds(ws, largest as real);
  }

  lemma {:induction false} TotalMonotone(ws: seq<real>, us: seq<real>)
    requires |ws| == |us| && forall i :: 0 <= i < |ws| ==> ws[i] <= us[i]
    ensures Total(ws) <= Total(us)
  {
    if ws != [] {
      TotalMonotone(ws[..|ws| - 1], us[..|us| - 1]);
    }
  }

  lemma SumFades(list: seq<Exceeding>, at: Time, later: Time, interval: int)
    requires interval > 0 && at <= later
    requires forall e <- list :: e.at <= at
    ensures WeightedSum(list, later, interval) <= WeightedSum(list, at, interval)
  {
    var ws, us := Weights(list, later, interval), Weights(list, at, interval);
    forall i | 0 <= i < |ws| ensures ws[i] <= us[i] {
      WeightAt(list, later, interval, i);
      WeightAt(list, at, interval, i);
      WeightedFades(list[i], at, later, interval);
    }
    TotalMonotone(ws, us);
  }

  lemma DivideMonotone(a: real, b: real, d: real)
    requires a <= b && d > 0.0
    ensures a / d <= b / d
  {}

  /** The relative average lies between zero and the largest overflow divided by the limit. */
  lemma RelativeBounds(list: seq<Exceeding>, at: Time, interval: int, limit: int, largest: nat)
    requires interval > 0 && limit > 0
    requires forall e <- list :: e.value <= largest
    ensures 0.0 <= Relative(list, at, interval, limit) <= largest as real / limit as real
  {
    if list != [] {
      SumBounds(list, at, interval, largest);
      AverageBounds(WeightedSum(list, at, interval), |list| as real, largest as real, limit as real);
    } else {
      NonNegativeQuotient(largest as real, limit as real);
    }
  }

  lemma AverageBounds(s: real, n: real, m: real, l: real)
    requires n > 0.0 && l > 0.0 && 0.0 <= s <= n * m
    ensures 0.0 <= s / n / l <= m / l
  {
    DivideMonotone(s, n * m, n);
    assert (n * m) / n == m;
    DivideMonotone(s / n, m, l);
    NonNegativeQuotient(s, n);
    NonNegativeQuotient(s / n, l);
  }

  /** Without new measurements the relative average never grows. */
  lemma RelativeNeverGrows(list: seq<Exceeding>, at: Time, later: Time, interval: int, limit: int)
    requires interval > 0 && limit > 0 && at <= later
    requires forall e <- list :: e.at <= at
    ensures Relative(list, later, interval, limit) <= Relative(list, at, interval, limit)
  {
    if list != [] {
      var n := |list| as real;
      SumFades(list, at, later, interval);
      DivideMonotone(WeightedSum(list, later, interval), WeightedSum(list, at, interval), n);
      DivideMonotone(WeightedSum(list, later, interval) / n, WeightedSum(list, at, interval) / n, limit as real);
    }
  }

  lemma RelativeIsAbsoluteOverLimit(list: seq<Exceeding>, at: Time, interval: int, limit: int)
    requires interval > 0 && limit > 0
    ensures Relative(list, at, interval, limit) == Absolute(list, at, interval) / limit as real
  {}

  /** An average that reaches a threshold is backed by a measurement in the window whose own overflow
      reaches that share of the limit. */
  lemma ThresholdIsBacked(list: seq<Exceeding>, at: Time, interval: int, limit: int, threshold: real)
    returns (i: nat)
    requires interval > 0 && limit > 0 && threshold > 0.0
    requires Relative(list, at, interval, limit) >= threshold
    ensures i < |list| && InWindow(list[i], at, interval)
    ensures list[i].value as real >= threshold * limit as real && list[i].value > 0
  {
    AverageReaches(WeightedSum(list, at, interval), |list| as real, limit as real, threshold);
    i := SomeLarge(Weights(list, at, interval), threshold * limit as real);
    WeightAt(list, at, interval, i);
    WeightedBounds(list[i], at, interval);
  }

  lemma AverageReaches(s: real, n: real, l: real, threshold: real)
    requires n > 0.0 && l > 0.0 && threshold > 0.0
    requires s / n / l >= threshold
    ensures s >= n * (threshold * l) && threshold * l > 0.0
  {
    var q := s / n;
    ReachesTimes(q, l, threshold);
    ReachesTimes(s, n, threshold * l);
    assert threshold * l > 0.0;
    assert (threshold * l) * n == n * (threshold * l);
  }

  lemma ReachesTimes(a: real, d: real, t: real)
    requires d > 0.0 && a / d >= t
    ensures a >= t * d
  {
    var q := a / d;
    assert q * d == a;
    Scale(d, t, q);
    assert d * t == t * d && d * q == q * d;
  }

  lemma {:induction false} SomeLarge(ws: seq<real>, bound: real) returns (i: nat)
    requires ws != [] && Total(ws) >= |ws| as real * bound
    ensures i < |ws| && ws[i] >= bound
  {
    var n := |ws| - 1;
    OneMore(n, bound);
    if n == 0 {
      assert ws[..0] == [];
      i := 0;
    } else if ws[n] >= bound {
      i := n;
    } else {
      i := SomeLarge(ws[..n], bound);
    }
  }
}
