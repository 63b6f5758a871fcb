/** `ThroughCacheResponse.writeSSEResponse`: a backend event stream is cut into whole events, each
    written (and copied for the cache) at once. */
module Reframe {
  import opened Text
  import opened LineScanner
  import opened EventStream

  /** Groups of consecutive non-blank lines; `open` holds the lines of the group being collected. */
  function Chunks(open: seq<string>, lines: seq<string>): seq<seq<string>>
    decreases |lines|
  {
    if lines == [] then (if open == [] then [] else [open])
    else if lines[0] == "" then
      (if open == [] then [] else [open]) + Chunks([], lines[1..])
    else Chunks(open + [lines[0]], lines[1..])
  }

  /** The bytes of one complete event. */
  function Block(chunk: seq<string>): string {
    Join(chunk, "\n") + "\n\n"
  }

  function Blocks(chunks: seq<seq<string>>): seq<string> {
    if chunks == [] then [] else [Block(chunks[0])] + Blocks(chunks[1..])
  }

  /** The writes made for a backend stream, one for each event. */
  function Writes(s: string): seq<string> {
    Blocks(Chunks([], Scanned(s)))
  }

  /** The whole output for a backend stream. */
  function Reframed(s: string): string {
    Concat(Writes(s))
  }

  predicate IsCacheableStatusCode(code: int) {
    200 <= code < 300
  }

  /** The codes of three digits that begin with 2. */
  lemma CacheableIff(code: int)
    ensures IsCacheableStatusCode(code) <==> code / 100 == 2
  {}

  /** The response writer of the client. */
  class ResponseLog {
    var writes: seq<string>

    constructor ()
      ensures writes == []
    {
      writes := [];
    }

    method Write(data: string)
      modifies this
      ensures writes == old(writes) + [data]
    {
      writes := writes + [data];
    }
  }

  lemma {:induction false} BlocksAppend(a: seq<seq<string>>, b: seq<seq<string>>)
    ensures Blocks(a + b) == Blocks(a) + Blocks(b)
  {
    if a == [] {
      assert a + b == b;
    } else {
      assert (a + b)[1..] == a[1..] + b;
      BlocksAppend(a[1..], b);
    }
  }

  /** One more event: how the expected output grows. */
  lemma OneMoreBlock(done: seq<seq<string>>, chunk: seq<string>)
    ensures Blocks(done + [chunk]) == Blocks(done) + [Block(chunk)]
    ensures Concat(Blocks(done + [chunk])) == Concat(Blocks(done)) + Block(chunk)
  {
    BlocksAppend(done, [chunk]);
    assert Blocks([chunk]) == [Block(chunk)];
    ConcatAppend(Blocks(done), [Block(chunk)]);
    ConcatOne(Block(chunk));
  }

  lemma ChunksStep(done: seq<seq<string>>, open: seq<string>, left: seq<string>)
    requires left != []
    ensures left[0] != "" ==> Chunks(open, left) == Chunks(open + [left[0]], left[1..])
    ensures left[0] == "" && open == [] ==> Chunks(open, left) == Chunks([], left[1..])
    ensures left[0] == "" && open != [] ==>
              done + Chunks(open, left) == (done + [open]) + Chunks([], left[1..])
  {}

  /** Writes one complete event to the client and to the bytes meant for the cache. */
  method WriteEvent(chunk: seq<string>, toCache: string, w: ResponseLog,
                    ghost before: seq<string>, ghost done: seq<seq<string>>)
    returns (cached: string)
    requires toCache == Concat(Blocks(done))
    requires w.writes == before + Blocks(done)
    modifies w
    ensures w.writes == before + Blocks(done + [chunk])
    ensures cached == Concat(Blocks(done + [chunk]))
  {
    var completeEvent := Join(chunk, "\n") + "\n\n";
    cached := toCache + completeEvent;
    w.Write(completeEvent);
    OneMoreBlock(done, chunk);
  }

  /** Copies the stream to the client event by event; `stored` is what is handed to the cache. */
  method WriteSSEResponse(body: string, status: int, w: ResponseLog) returns (stored: Option<string>)
    modifies w
    ensures w.writes == old(w.writes) + Writes(body)
    ensures stored == if IsCacheableStatusCode(status) then Some(Reframed(body)) else None
  {
    var scanner := new Scanner(body);
    var eventChunk: seq<string> := [];
    var toCache := "";
    ghost var done: seq<seq<string>> := [];
    ghost var all := Scanned(body);
    ghost var left := all;
    ghost var before := w.writes;
    var more, line := scanner.Scan();
    while more
      invariant scanner.Valid() && fresh(scanner)
      invariant left == if more then [line] + scanner.Rest() else []
      invariant Chunks([], all) == done + Chunks(eventChunk, left)
      invariant w.writes == before + Blocks(done)
      invariant toCache == Concat(Blocks(done))
      decreases |left|
    {
      ChunksStep(done, eventChunk, left);
      if line == "" {
        if |eventChunk| > 0 {
          toCache := WriteEvent(eventChunk, toCache, w, before, done);
          done := done + [eventChunk];
          eventChunk := [];
        }
      } else {
        eventChunk := eventChunk + [line];
      }
      left := left[1..];
      more, line := scanner.Scan();
    }
    if |eventChunk| > 0 {
      toCache := WriteEvent(eventChunk, toCache, w, before, done);
      done := done + [eventChunk];
    }
    assert Chunks([], all) == done;
    stored := if IsCacheableStatusCode(status) then Some(toCache) else None;
  }

  /** The writes a miss makes for a backend's answer. */
  function MissWrites(body: string, isDataStream: bool): seq<string> {
    if isDataStream then Writes(body) else [body]
  }

  /** The write a hit makes for cached data. */
  function HitWrites(data: string): seq<string> {
    [data]
  }

  /** What a miss writes to the client and hands to the cache. */
  method WriteResponse(body: string, status: int, isDataStream: bool, w: ResponseLog)
    returns (stored: Option<string>)
    modifies w
    ensures w.writes == old(w.writes) + MissWrites(body, isDataStream)
    ensures stored == if IsCacheableStatusCode(status) then Some(Concat(MissWrites(body, isDataStream))) else None
  {
    if isDataStream {
      stored := WriteSSEResponse(body, status, w);
    } else {
      stored := if IsCacheableStatusCode(status) then Some(body) else None;
      w.Write(body);
      ConcatOne(body);
    }
  }

  method WriteCachedResponse(data: string, w: ResponseLog)
    modifies w
    ensures w.writes == old(w.writes) + HitWrites(data)
  {
    w.Write(data);
  }
}
