/** A request body that can be read repeatedly: reaching the end rewinds it. */
module ReReading {
  import opened Text

  /** What one `Read` delivers, and where the reader stands afterwards. */
  datatype Delivery = Delivery(bytes: string, pos: nat, eof: bool)

  function Deliver(data: string, pos: nat, size: nat): Delivery {
    if pos >= |data| then Delivery("", 0, true)
    else
      var n := if size < |data| - pos then size else |data| - pos;
      Delivery(data[pos..pos + n], pos + n, false)
  }

  function Rest(data: string, pos: nat): string {
    if pos >= |data| then "" else data[pos..]
  }

  class ReReader {
    const data: string
    var pos: nat

    /** `data` is what the original body delivered. */
    constructor (data: string)
      ensures this.data == data && pos == 0
    {
      this.data := data;
      pos := 0;
    }

    method Read(p: array<char>) returns (n: nat, eof: bool)
      modifies this, p
      ensures n <= p.Length
      ensures var d := Deliver(data, old(pos), p.Length);
              p[..n] == d.bytes && pos == d.pos && eof == d.eof
      ensures p[n..] == old(p[n..])
    {
      if pos >= |data| {
        pos := 0;
        return 0, true;
      }
      n := 0;
      while n < p.Length && pos + n < |data|
        invariant n <= p.Length && pos == old(pos) && pos + n <= |data|
        invariant p[..n] == data[pos..pos + n]
        invariant p[n..] == old(p[..])[n..]
      {
        p[n] := data[pos + n];
        n := n + 1;
      }
      pos := pos + n;
      eof := false;
    }

    /** Reading to the end, as `io.ReadAll` does, with non-empty buffers of any sizes. */
    method ReadAll(sizes: nat -> nat) returns (all: string)
      requires forall k :: sizes(k) > 0
      modifies this
      ensures all == Rest(data, old(pos)) && pos == 0
    {
      all := "";
      ghost var goal := Rest(data, pos);
      var eof, k := false, 0;
      while !eof
        invariant eof ==> pos == 0 && all == goal
        invariant !eof ==> all + Rest(data, pos) == goal
        decreases !eof, |data| - pos
      {
        ghost var before, sofar := pos, all;
        var more;
        more, eof := ReadSome(sizes(k));
        all := all + more;
        Continued(data, before, sizes(k), sofar, goal);
        k := k + 1;
      }
    }

    method ReadSome(size: nat) returns (more: string, eof: bool)
      modifies this
      ensures Delivery(more, pos, eof) == Deliver(data, old(pos), size)
    {
      var p := new char[size];
      var n;
      n, eof := Read(p);
      more := p[..n];
    }
  }

  lemma Continued(data: string, pos: nat, size: nat, sofar: string, goal: string)
    requires sofar + Rest(data, pos) == goal
    ensures var d := Deliver(data, pos, size);
            if d.eof then d.bytes == "" && sofar + d.bytes == goal && d.pos == 0
            else (sofar + d.bytes) + Rest(data, d.pos) == goal
  {
    var d := Deliver(data, pos, size);
    if d.eof {
      assert sofar + "" == sofar;
    } else {
      assert d.bytes + Rest(data, d.pos) == Rest(data, pos);
      assert (sofar + d.bytes) + Rest(data, d.pos) == sofar + (d.bytes + Rest(data, d.pos));
    }
  }

  /** The bytes delivered until the end of the data is reported, and the position then. */
  function Drain(data: string, pos: nat, sizes: nat -> nat, k: nat): (string, nat)
    requires forall j :: sizes(j) > 0
    decreases |data| - pos
  {
    var d := Deliver(data, pos, sizes(k));
    if d.eof then (d.bytes, d.pos)
    else
      var (more, end) := Drain(data, d.pos, sizes, k + 1);
      (d.bytes + more, end)
  }

  /** Whatever the buffer sizes, reading to the end yields the rest of the data and rewinds. */
  lemma {:induction false} DrainYieldsRest(data: string, pos: nat, sizes: nat -> nat, k: nat)
    requires forall j :: sizes(j) > 0
    ensures Drain(data, pos, sizes, k) == (Rest(data, pos), 0)
    decreases |data| - pos
  {
    var d := Deliver(data, pos, sizes(k));
    if !d.eof {
      DrainYieldsRest(data, d.pos, sizes, k + 1);
      assert d.bytes + Rest(data, d.pos) == Rest(data, pos);
    }
  }

  /** The results of reading to the end `n` times in a row. */
  function Drains(data: string, pos: nat, sizes: nat -> nat, n: nat): seq<string>
    requires forall j :: sizes(j) > 0
    decreases n
  {
    if n == 0 then []
    else
      var (bytes, end) := Drain(data, pos, sizes, 0);
      [bytes] + Drains(data, end, sizes, n - 1)
  }

  /** The first of several full reads yields the rest, every later one the whole body. */
  lemma {:induction false} FullReadsAgree(data: string, pos: nat, sizes: nat -> nat, n: nat)
    requires forall j :: sizes(j) > 0
    ensures var rs := Drains(data, pos, sizes, n);
            |rs| == n && forall i :: 0 <= i < n ==> rs[i] == if i == 0 then Rest(data, pos) else data
    decreases n
  {
    if n > 0 {
      DrainYieldsRest(data, pos, sizes, 0);
      FullReadsAgree(data, 0, sizes, n - 1);
    }
  }
}
