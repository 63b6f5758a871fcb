/** The circular list of the monitoring code: it keeps the last N appended items and is iterated from
    the oldest to the newest. */
module Ring {

  function LastN<T>(s: seq<T>, n: nat): seq<T> {
    if |s| <= n then s else s[|s| - n..]
  }

  /** Appending to a list that keeps `cap` items. */
  function Push<T>(s: seq<T>, x: T, cap: nat): seq<T> {
    LastN(s + [x], cap)
  }

  /** A bounded list holds the last items of everything that was appended. */
  lemma PushKeepsLast<T>(history: seq<T>, x: T, cap: nat)
    requires cap > 0
    ensures Push(LastN(history, cap), x, cap) == LastN(history + [x], cap)
  {}

  class CircularList<T(0)> {
    const data: array<T>
    var start: nat
    var len: nat

    ghost predicate Valid()
      reads this
    {
      0 < data.Length && start < data.Length && len <= data.Length
    }

    /** The items, oldest first. */
    ghost function Contents(): (s: seq<T>)
      reads this, data
      requires Valid()
      ensures |s| == len
    {
      if start + len <= data.Length then data[start..start + len]
      else data[start..] + data[..start + len - data.Length]
    }

    constructor (capacity: nat)
      requires capacity > 0
      ensures Valid() && fresh(data) && data.Length == capacity && Contents() == []
    {
      data := new T[capacity];
      start, len := 0, 0;
    }

    function At(i: nat): (x: T)
      reads this, data
      requires Valid() && i < len
      ensures x == Contents()[i]
    {
      if start + i < data.Length then data[start + i] else data[start + i - data.Length]
    }

    method Append(x: T)
      requires Valid()
      modifies this, data
      ensures Valid()
      ensures Contents() == Push(old(Contents()), x, data.Length)
    {
      ghost var before := Contents();
      if len < data.Length {
        var free := if start + len < data.Length then start + len else start + len - data.Length;
        data[free] := x;
        len := len + 1;
        assert Contents() == before + [x];
      } else {
        data[start] := x;
        start := if start + 1 == data.Length then 0 else start + 1;
        assert Contents() == before[1..] + [x] == (before + [x])[1..];
      }
    }

    method Last() returns (x: T)
      requires Valid() && len > 0
      ensures x == Contents()[|Contents()| - 1]
    {
      x := At(len - 1);
    }
  }
}
