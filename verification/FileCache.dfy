/** The file cache: one file per item, whose modification time says when the item was last used. */
module FileCache {
  import opened Text
  import opened Counter
  import opened CacheId

  /** What is stored; `headers` are the header lines. */
  datatype Entry = Entry(status: int, data: string, headers: seq<string>)

  // ----- a self-delimiting encoding -----

  datatype Word = Number(n: int) | Byte(c: char)

  datatype Decoded<+T> = Decoded(value: T, rest: seq<Word>) | Malformed

  function Bytes(s: string): seq<Word> {
    if s == "" then [] else [Byte(s[0])] + Bytes(s[1..])
  }

  function EncodeString(s: string): seq<Word> {
    [Number(|s|)] + Bytes(s)
  }

  function EncodeAll(lines: seq<string>): seq<Word> {
    if lines == [] then [] else EncodeString(lines[0]) + EncodeAll(lines[1..])
  }

  function Encode(e: Entry): seq<Word> {
    [Number(e.status)] + (EncodeString(e.data) + ([Number(|e.headers|)] + EncodeAll(e.headers)))
  }

  function TakeBytes(n: nat, ws: seq<Word>): Decoded<string> {
    if n == 0 then Decoded("", ws)
    else if ws == [] || !ws[0].Byte? then Malformed
    else
      match TakeBytes(n - 1, ws[1..])
      case Decoded(s, rest) => Decoded([ws[0].c] + s, rest)
      case Malformed => Malformed
  }

  function DecodeString(ws: seq<Word>): Decoded<string> {
    if ws == [] || !ws[0].Number? || ws[0].n < 0 then Malformed else TakeBytes(ws[0].n, ws[1..])
  }

  function DecodeAll(n: nat, ws: seq<Word>): Decoded<seq<string>> {
    if n == 0 then Decoded([], ws)
    else
      match DecodeString(ws)
      case Malformed => Malformed
      case Decoded(s, rest) =>
        match DecodeAll(n - 1, rest)
        case Malformed => Malformed
        case Decoded(more, end) => Decoded([s] + more, end)
  }

  function Decode(ws: seq<Word>): Option<Entry> {
    if ws == [] || !ws[0].Number? then None
    else
      match DecodeString(ws[1..])
      case Malformed => None
      case Decoded(data, rest) =>
        if rest == [] || !rest[0].Number? || rest[0].n < 0 then None
        else
          match DecodeAll(rest[0].n, rest[1..])
          case Malformed => None
          case Decoded(headers, _) => Some(Entry(ws[0].n, data, headers))
  }

  lemma TakeOneByte(n: nat, c: char, rest: seq<Word>)
    requires TakeBytes(n, rest).Decoded?
    ensures TakeBytes(n + 1, [Byte(c)] + rest) == Decoded([c] + TakeBytes(n, rest).value, TakeBytes(n, rest).rest)
  {
    assert ([Byte(c)] + rest)[1..] == rest;
  }

  lemma {:induction false} BytesRoundTrip(s: string, tail: seq<Word>)
    ensures TakeBytes(|s|, Bytes(s) + tail) == Decoded(s, tail)
  {
    if s == "" {
      assert [] + tail == tail;
    } else {
      var rest := Bytes(s[1..]) + tail;
      BytesRoundTrip(s[1..], tail);
      assert Bytes(s) + tail == [Byte(s[0])] + rest;
      TakeOneByte(|s| - 1, s[0], rest);
      assert [s[0]] + s[1..] == s;
    }
  }

  lemma StringRoundTrip(s: string, tail: seq<Word>)
    ensures DecodeString(EncodeString(s) + tail) == Decoded(s, tail)
  {
    BytesRoundTrip(s, tail);
    assert (EncodeString(s) + tail)[1..] == Bytes(s) + tail;
  }

  lemma {:induction false} AllRoundTrip(lines: seq<string>, tail: seq<Word>)
    ensures DecodeAll(|lines|, EncodeAll(lines) + tail) == Decoded(lines, tail)
  {
    if lines == [] {
      assert [] + tail == tail;
    } else {
      var rest := EncodeAll(lines[1..]) + tail;
      assert EncodeAll(lines) + tail == EncodeString(lines[0]) + rest;
      StringRoundTrip(lines[0], rest);
      AllRoundTrip(lines[1..], tail);
      assert [lines[0]] + lines[1..] == lines;
    }
  }

  /** An encoding is read back whatever follows it: what is left of older, longer content is ignored. */
  lemma RoundTrip(e: Entry, tail: seq<Word>)
    ensures Decode(Encode(e) + tail) == Some(e)
  {
    var ws := Encode(e) + tail;
    var headers := EncodeAll(e.headers) + tail;
    var rest := [Number(|e.headers|)] + headers;
    assert ws[1..] == EncodeString(e.data) + rest;
    StringRoundTrip(e.data, rest);
    assert rest[1..] == headers;
    AllRoundTrip(e.headers, tail);
  }

  // ----- the files -----

  datatype File = File(content: seq<Word>, mtime: Time)

  type Files = map<string, File>

  datatype Lookup = Hit(entry: Entry) | Miss | Broken

  /** The directory of a tag's items. */
  function Dir(tag: string): string {
    if tag == "" then "-" else tag
  }

  function ItemPath(tag: string, id: string): string {
    Dir(tag) + "/" + id + ".gob"
  }

  /** Writing from the start of a file that is not truncated. */
  function Overwrite(before: seq<Word>, data: seq<Word>): seq<Word> {
    data + (if |data| < |before| then before[|data|..] else [])
  }

  function LookUp(files: Files, path: string, ttl: nat, now: Time): (Lookup, Files) {
    if path !in files then (Miss, files)
    else if now - files[path].mtime > ttl as real then (Miss, files - {path})
    else
      var read := match Decode(files[path].content) case Some(e) => Hit(e) case None => Broken;
      (read, files[path := files[path].(mtime := now)])
  }

  function Store(files: Files, path: string, e: Entry, now: Time): Files {
    var content := if path in files then files[path].content else [];
    files[path := File(Overwrite(content, Encode(e)), now)]
  }

  function Flushed(files: Files, tag: string): Files {
    map p | p in files && !HasPrefix(p, tag) :: files[p]
  }

  /** A shorter entry leaves the end of a longer one in its file. */
  lemma FileNeverShrinks(before: seq<Word>, data: seq<Word>)
    ensures var after := Overwrite(before, data);
            && |after| == (if |before| > |data| then |before| else |data|) && data <= after
            && forall i :: |data| <= i < |before| ==> after[i] == before[i]
  {}

  /** Storing writes one file, from its start on and as of now, and leaves all others alone. */
  lemma StoreKeepsEnd(files: Files, path: string, e: Entry, now: Time, other: string)
    ensures var after := Store(files, path, e, now);
            && path in after && after[path].mtime == now && Encode(e) <= after[path].content
            && (path in files ==>
                  forall i :: |Encode(e)| <= i < |files[path].content| ==>
                    i < |after[path].content| && after[path].content[i] == files[path].content[i])
            && (other != path ==> (other in after <==> other in files))
            && (other != path && other in files ==> after[other] == files[other])
  {}

  /** A lookup leaves no expired item behind at its path, changes no other, and renews the one that it finds. */
  lemma LookUpRenews(files: Files, path: string, ttl: nat, now: Time, other: string)
    ensures var after := LookUp(files, path, ttl, now).1;
            && (path in after <==> path in files && now - files[path].mtime <= ttl as real)
            && (path in after ==> after[path].mtime == now && after[path].content == files[path].content)
            && (other != path ==> (other in after <==> other in files))
            && (other != path && other in files ==> after[other] == files[other])
  {}

  class FileStore {
    const ttlSecs: nat
    var files: Files

    constructor (ttlSecs: nat)
      ensures this.ttlSecs == ttlSecs && files == map[]
    {
      this.ttlSecs := ttlSecs;
      files := map[];
    }

    /** `body` is what is left to read of the request's body. */
    method Get(req: Request, body: string, tag: string, opts: Options, now: Time) returns (r: Lookup)
      modifies this
      ensures (r, files) == if ShouldReadFromCache(req, opts)
                            then LookUp(old(files), ItemPath(tag, Preimage(req, opts, body)), ttlSecs, now)
                            else (Miss, old(files))
    {
      if !ShouldReadFromCache(req, opts) {
        return Miss;
      }
      var filePath := ItemPath(tag, Preimage(req, opts, body));
      if filePath !in files {
        return Miss;
      }
      var mtime := files[filePath].mtime;
      if now - mtime > ttlSecs as real {
        files := files - {filePath};
        return Miss;
      }
      files := files[filePath := files[filePath].(mtime := now)];
      match Decode(files[filePath].content)
      case Some(e) => return Hit(e);
      case None => return Broken;
    }

    method Set(req: Request, body: string, tag: string, value: Entry, opts: Options, now: Time)
      modifies this
      ensures files == if ShouldWriteToCache(req, value.status, opts)
                       then Store(old(files), ItemPath(tag, Preimage(req, opts, body)), value, now)
                       else old(files)
    {
      if ShouldWriteToCache(req, value.status, opts) {
        var targetPath := ItemPath(tag, Preimage(req, opts, body));
        var present := if targetPath in files then files[targetPath].content else [];
        files := files[targetPath := File(Overwrite(present, Encode(value)), now)];
      }
    }

    method Flush(tag: string) returns (count: nat)
      modifies this
      ensures files == Flushed(old(files), tag)
      ensures count == |old(files)| - |files|
    {
      hide HasPrefix, Flushed;
      ghost var all := files;
      var matching := set p | p in files && HasPrefix(p, tag);
      ghost var reached := matching;
      count := 0;
      assert all - (reached - matching) == all;
      while matching != {}
        invariant matching <= reached <= all.Keys && files == all - (reached - matching)
        invariant count == |all| - |files|
        decreases |matching|
      {
        var path :| path in matching;
        RemoveOne(all, reached, matching, path);
        files := files - {path};
        matching := matching - {path};
        count := count + 1;
      }
      FlushedIs(all, tag);
    }
  }

  lemma RemoveOne(all: Files, reached: set<string>, left: set<string>, path: string)
    requires path in left && left <= reached <= all.Keys
    ensures var files := all - (reached - left);
            files - {path} == all - (reached - (left - {path})) && |files - {path}| == |files| - 1
  {
    var files := all - (reached - left);
    assert path in files;
    assert (files - {path}).Keys == files.Keys - {path};
    assert |files.Keys - {path}| == |files.Keys| - 1;
  }

  lemma FlushedIs(all: Files, tag: string)
    ensures all - (set p | p in all && HasPrefix(p, tag)) == Flushed(all, tag)
  {}

  // ----- refinement of a sliding-expiry map -----

  /** A stored entry and the time of its last use. */
  datatype Slot = Slot(entry: Entry, used: Time)

  type Slots = map<string, Slot>

  datatype Op =
    | Get(req: Request, body: string, tag: string, opts: Options, now: Time)
    | Set(req: Request, body: string, tag: string, opts: Options, now: Time, value: Entry)
    | Flush(tag: string, now: Time)

  function PathOf(op: Op): string
    requires !op.Flush?
  {
    ItemPath(op.tag, Preimage(op.req, op.opts, op.body))
  }

  /** A step of the file cache. */
  function FileStep(files: Files, ttl: nat, op: Op): (Lookup, Files) {
    match op
    case Get(req, body, tag, opts, now) =>
      if ShouldReadFromCache(req, opts) then LookUp(files, PathOf(op), ttl, now) else (Miss, files)
    case Set(req, body, tag, opts, now, value) =>
      (Miss, if ShouldWriteToCache(req, value.status, opts) then Store(files, PathOf(op), value, now) else files)
    case Flush(tag, now) => (Miss, Flushed(files, tag))
  }

  /** A step of the map: an entry can be had for `ttl` seconds after its last use, and nothing is ever
      cleared away but by flushing. */
  function SlotStep(slots: Slots, ttl: nat, op: Op): (Lookup, Slots) {
    match op
    case Get(req, body, tag, opts, now) =>
      var p := PathOf(op);
      if ShouldReadFromCache(req, opts) && p in slots && now - slots[p].used <= ttl as real
      then (Hit(slots[p].entry), slots[p := Slot(slots[p].entry, now)])
      else (Miss, slots)
    case Set(req, body, tag, opts, now, value) =>
      (Miss, if ShouldWriteToCache(req, value.status, opts) then slots[PathOf(op) := Slot(value, now)] else slots)
    case Flush(tag, now) => (Miss, map p | p in slots && !HasPrefix(p, tag) :: slots[p])
  }

  /** What never touches the cache: responses other than 200 and 201; requests other than GET, unless the options
      allow them; and requests that forbid it, where that is respected. */
  lemma BypassesCache(files: Files, ttl: nat, op: Op)
    requires !op.Flush?
    requires || (op.Set? && op.value.status !in {200, 201})
             || (op.req.httpMethod != "GET" && !op.opts.cacheablePOST)
             || (op.req.cacheControl == "no-cache" && op.opts.respectCacheControl)
    ensures FileStep(files, ttl, op) == (Miss, files)
  {}

  /** The file starts with the encoding of the entry. */
  predicate Holds(content: seq<Word>, e: Entry) {
    Encode(e) <= content
  }

  ghost predicate Represents(files: Files, slots: Slots, ttl: nat, now: Time) {
    && (forall p <- files :: p in slots && files[p].mtime == slots[p].used && Holds(files[p].content, slots[p].entry))
    && (forall p <- slots :: p in files || now - slots[p].used > ttl as real)
  }

  predicate InTime(ops: seq<Op>, start: Time)
    decreases |ops|
  {
    ops == [] || (ops[0].now >= start && InTime(ops[1..], ops[0].now))
  }

  function FileRun(files: Files, ttl: nat, ops: seq<Op>): seq<Lookup>
    decreases |ops|
  {
    if ops == [] then []
    else
      var (r, after) := FileStep(files, ttl, ops[0]);
      [r] + FileRun(after, ttl, ops[1..])
  }

  function SlotRun(slots: Slots, ttl: nat, ops: seq<Op>): seq<Lookup>
    decreases |ops|
  {
    if ops == [] then []
    else
      var (r, after) := SlotStep(slots, ttl, ops[0]);
      [r] + SlotRun(after, ttl, ops[1..])
  }

  lemma HoldsDecodes(content: seq<Word>, e: Entry)
    requires Holds(content, e)
    ensures Decode(content) == Some(e)
  {
    var tail := content[|Encode(e)|..];
    assert content == Encode(e) + tail;
    RoundTrip(e, tail);
  }

  lemma StoreRepresents(files: Files, slots: Slots, ttl: nat, start: Time, path: string, e: Entry, now: Time)
    requires Represents(files, slots, ttl, start) && start <= now
    ensures Represents(Store(files, path, e, now), slots[path := Slot(e, now)], ttl, now)
  {
    assert Holds(Store(files, path, e, now)[path].content, e);
  }

  lemma LookUpRepresents(files: Files, slots: Slots, ttl: nat, start: Time, path: string, now: Time)
    requires Represents(files, slots, ttl, start) && start <= now
    ensures var (r, after) := LookUp(files, path, ttl, now);
            if path in slots && now - slots[path].used <= ttl as real
            then r == Hit(slots[path].entry) && Represents(after, slots[path := Slot(slots[path].entry, now)], ttl, now)
            else r == Miss && Represents(after, slots, ttl, now)
  {
    if path in files {
      HoldsDecodes(files[path].content, slots[path].entry);
    }
  }

  lemma StepRepresents(files: Files, slots: Slots, ttl: nat, start: Time, op: Op)
    requires Represents(files, slots, ttl, start) && start <= op.now
    ensures FileStep(files, ttl, op).0 == SlotStep(slots, ttl, op).0
    ensures Represents(FileStep(files, ttl, op).1, SlotStep(slots, ttl, op).1, ttl, op.now)
  {
    match op
    case Get(_, _, _, _, now) => LookUpRepresents(files, slots, ttl, start, PathOf(op), now);
    case Set(_, _, _, _, now, value) => StoreRepresents(files, slots, ttl, start, PathOf(op), value, now);
    case Flush(_, _) =>
  }

  /** In every run the file cache answers as the sliding-expiry map does, although it overwrites longer
      files without truncating them and forgets expired items only when they are asked for. */
  lemma {:induction false} FilesRefineSlots(files: Files, slots: Slots, ttl: nat, ops: seq<Op>, start: Time)
    requires Represents(files, slots, ttl, start) && InTime(ops, start)
    ensures FileRun(files, ttl, ops) == SlotRun(slots, ttl, ops)
    decreases |ops|
  {
    if ops != [] {
      StepRepresents(files, slots, ttl, start, ops[0]);
      FilesRefineSlots(FileStep(files, ttl, ops[0]).1, SlotStep(slots, ttl, ops[0]).1, ttl, ops[1..], ops[0].now);
    }
  }

  /** Whether an operation neither replaces nor flushes an item. */
  predicate LeavesAlone(op: Op, path: string) {
    match op
    case Get(_, _, _, _, _) => true
    case Set(req, _, _, opts, _, value) => PathOf(op) != path || !ShouldWriteToCache(req, value.status, opts)
    case Flush(tag, _) => !HasPrefix(path, tag)
  }

  lemma {:induction false} ItemIsServed(slots: Slots, ttl: nat, path: string, mid: seq<Op>, last: Op, since: Time,
                                        start: Time)
    requires InTime(mid + [last], start) && path in slots && since <= slots[path].used <= start
    requires forall i :: 0 <= i < |mid| ==> LeavesAlone(mid[i], path)
    requires last.Get? && ShouldReadFromCache(last.req, last.opts) && PathOf(last) == path
    requires last.now - since <= ttl as real
    ensures var rs := SlotRun(slots, ttl, mid + [last]);
            |rs| == |mid| + 1 && rs[|mid|] == Hit(slots[path].entry)
    decreases |mid|
  {
    if mid == [] {
      assert mid + [last] == [last];
      assert [last][1..] == [];
    } else {
      StepServes(slots, ttl, path, mid[0], since, start);
      SlotRunStep(slots, ttl, mid, last);
      assert (mid + [last])[1..] == mid[1..] + [last];
      ItemIsServed(SlotStep(slots, ttl, mid[0]).1, ttl, path, mid[1..], last, since, mid[0].now);
    }
  }

  lemma StepServes(slots: Slots, ttl: nat, path: string, op: Op, since: Time, start: Time)
    requires start <= op.now && path in slots && since <= slots[path].used <= start && LeavesAlone(op, path)
    ensures var after := SlotStep(slots, ttl, op).1;
            path in after && after[path].entry == slots[path].entry && since <= after[path].used <= op.now
  {}

  lemma SlotRunStep(slots: Slots, ttl: nat, ops: seq<Op>, last: Op)
    requires ops != []
    ensures SlotRun(slots, ttl, ops + [last]) ==
            [SlotStep(slots, ttl, ops[0]).0] + SlotRun(SlotStep(slots, ttl, ops[0]).1, ttl, ops[1..] + [last])
  {
    assert (ops + [last])[1..] == ops[1..] + [last];
  }

  /** The value last stored for a request is served for `ttl` seconds at least, whatever else happens
      meanwhile to other items, and whatever the file contained before. */
  lemma LastSetIsServed(files: Files, slots: Slots, ttl: nat, first: Op, mid: seq<Op>, last: Op, start: Time)
    requires Represents(files, slots, ttl, start) && InTime([first] + (mid + [last]), start)
    requires first.Set? && ShouldWriteToCache(first.req, first.value.status, first.opts)
    requires last.Get? && ShouldReadFromCache(last.req, last.opts) && PathOf(last) == PathOf(first)
    requires forall i :: 0 <= i < |mid| ==> LeavesAlone(mid[i], PathOf(first))
    requires last.now - first.now <= ttl as real
    ensures var rs := FileRun(files, ttl, [first] + (mid + [last]));
            |rs| == |mid| + 2 && rs[|mid| + 1] == Hit(first.value)
  {
    var ops := [first] + (mid + [last]);
    assert ops[1..] == mid + [last];
    FilesRefineSlots(files, slots, ttl, ops, start);
    ItemIsServed(SlotStep(slots, ttl, first).1, ttl, PathOf(first), mid, last, first.now, first.now);
  }

  /** Each hit prolongs an item's life: what was found once is found again within the time to live from then on,
      however long ago it was stored. */
  lemma HitProlongsLife(files: Files, slots: Slots, ttl: nat, first: Op, mid: seq<Op>, last: Op, start: Time)
    requires Represents(files, slots, ttl, start) && InTime([first] + (mid + [last]), start)
    requires first.Get? && FileStep(files, ttl, first).0.Hit?
    requires last.Get? && ShouldReadFromCache(last.req, last.opts) && PathOf(last) == PathOf(first)
    requires forall i :: 0 <= i < |mid| ==> LeavesAlone(mid[i], PathOf(first))
    requires last.now - first.now <= ttl as real
    ensures var rs := FileRun(files, ttl, [first] + (mid + [last]));
            |rs| == |mid| + 2 && rs[|mid| + 1] == FileStep(files, ttl, first).0
  {
    var ops := [first] + (mid + [last]);
    assert ops[1..] == mid + [last];
    StepRepresents(files, slots, ttl, start, first);
    FilesRefineSlots(files, slots, ttl, ops, start);
    ItemIsServed(SlotStep(slots, ttl, first).1, ttl, PathOf(first), mid, last, first.now, first.now);
  }

  lemma {:induction false} StaysExpired(slots: Slots, ttl: nat, path: string, ops: seq<Op>, last: Op,
                                        start: Time)
    requires InTime(ops + [last], start) && (path in slots ==> start - slots[path].used > ttl as real)
    requires forall i :: 0 <= i < |ops| ==> LeavesAlone(ops[i], path)
    requires last.Get? && PathOf(last) == path
    ensures var rs := SlotRun(slots, ttl, ops + [last]);
            |rs| == |ops| + 1 && rs[|ops|] == Miss
    decreases |ops|
  {
    if ops == [] {
      assert ops + [last] == [last];
      assert [last][1..] == [];
    } else {
      assert (ops + [last])[1..] == ops[1..] + [last];
      StaysExpired(SlotStep(slots, ttl, ops[0]).1, ttl, path, ops[1..], last, ops[0].now);
    }
  }

  /** An item that is absent or expired is missed until something is stored for it. */
  lemma ExpiredIsMissed(files: Files, slots: Slots, ttl: nat, path: string, first: Op, mid: seq<Op>, again: Op,
                        start: Time)
    requires Represents(files, slots, ttl, start) && InTime([first] + (mid + [again]), start)
    requires LeavesAlone(first, path) && forall i :: 0 <= i < |mid| ==> LeavesAlone(mid[i], path)
    requires again.Get? && PathOf(again) == path
    requires path in slots ==> start - slots[path].used > ttl as real
    ensures var rs := FileRun(files, ttl, [first] + (mid + [again]));
            |rs| == |mid| + 2 && rs[|mid| + 1] == Miss
  {
    var ops := [first] + mid;
    assert ops + [again] == [first] + (mid + [again]);
    forall i | 0 <= i < |ops| ensures LeavesAlone(ops[i], path) {
      assert i > 0 ==> ops[i] == mid[i - 1];
    }
    FilesRefineSlots(files, slots, ttl, ops + [again], start);
    StaysExpired(slots, ttl, path, ops, again, start);
  }

  // ----- what a flush reaches -----

  function Slashes(s: string): nat {
    if s == "" then 0 else (if s[0] == '/' then 1 else 0) + Slashes(s[1..])
  }

  lemma {:induction false} SlashesConcat(a: string, b: string)
    ensures Slashes(a + b) == Slashes(a) + Slashes(b)
  {
    if a == "" {
      assert a + b == b;
    } else {
      assert (a + b)[1..] == a[1..] + b;
      SlashesConcat(a[1..], b);
    }
  }

  lemma SlashesAround(a: string, b: string)
    ensures Slashes(a + ['/'] + b) == Slashes(a) + 1 + Slashes(b)
  {
    var tail := ['/'] + b;
    assert a + ['/'] + b == a + tail;
    SlashesConcat(a, tail);
    assert tail[1..] == b;
  }

  lemma {:induction false} NoSlashes(s: string)
    ensures Slashes(s) == 0 <==> '/' !in s
  {
    if s != "" {
      NoSlashes(s[1..]);
      assert s == [s[0]] + s[1..];
    }
  }

  /** Flushing a tag that is no deeper reaches exactly the items whose directory's name begins with it. */
  lemma FlushReaches(tag: string, id: string, flushed: string)
    requires Slashes(flushed) <= Slashes(Dir(tag))
    ensures HasPrefix(ItemPath(tag, id), flushed) <==> HasPrefix(Dir(tag), flushed)
  {
    var dir, path := Dir(tag), ItemPath(tag, id);
    var n := |dir|;
    assert forall k :: 0 <= k < n ==> path[k] == dir[k];
    if HasPrefix(path, flushed) && |flushed| > n {
      assert flushed == dir + ['/'] + flushed[n + 1..] by {
        assert path[n] == '/';
        assert forall k :: 0 <= k <= n ==> flushed[k] == path[k];
      }
      SlashesAround(dir, flushed[n + 1..]);
    }
  }

  /** The first part of a path that has more than one. */
  lemma FirstPart(s: string) returns (head: string, rest: string)
    requires Slashes(s) > 0
    ensures s == head + ['/'] + rest && '/' !in head && Slashes(rest) == Slashes(s) - 1
  {
    NoSlashes(s);
    var i := IndexOf(s, '/');
    head, rest := s[..i], s[i + 1..];
    assert s == head + ['/'] + rest;
    assert forall k :: 0 <= k < i ==> head[k] == s[k];
    NoSlashes(head);
    SlashesAround(head, rest);
  }

  lemma {:induction false} SplitAtDepth(a: string, x: string, b: string, y: string)
    requires Slashes(a) == Slashes(b) && a + ['/'] + x == b + ['/'] + y
    ensures a == b && x == y
    decreases Slashes(a)
  {
    if Slashes(a) == 0 {
      NoSlashes(a);
      NoSlashes(b);
      SplitUnique(a, x, b, y, '/');
    } else {
      var p, s := FirstPart(a);
      var q, t := FirstPart(b);
      assert a + ['/'] + x == p + ['/'] + (s + ['/'] + x);
      assert b + ['/'] + y == q + ['/'] + (t + ['/'] + y);
      SplitUnique(p, s + ['/'] + x, q, t + ['/'] + y, '/');
      SplitAtDepth(s, x, t, y);
    }
  }

  /** Items of different tags of one depth, or of different ids, have files of their own. */
  lemma TagsHaveOwnItems(tag: string, other: string, id: string, otherId: string)
    requires Slashes(Dir(tag)) == Slashes(Dir(other))
    ensures ItemPath(tag, id) == ItemPath(other, otherId) <==> Dir(tag) == Dir(other) && id == otherId
  {
    if ItemPath(tag, id) == ItemPath(other, otherId) {
      var x, y := id + ".gob", otherId + ".gob";
      assert ItemPath(tag, id) == Dir(tag) + ['/'] + x && ItemPath(other, otherId) == Dir(other) + ['/'] + y;
      SplitAtDepth(Dir(tag), x, Dir(other), y);
      assert x[..|x| - 4] == id && y[..|y| - 4] == otherId;
    }
  }

  /** Items without a tag are kept in a directory of their own, and all others below their tag. */
  lemma DirectoryOf(tag: string, id: string)
    ensures HasPrefix(ItemPath(tag, id), (if tag == "" then "-" else tag) + "/")
    ensures ItemPath("", id) == ItemPath("-", id)
  {
    SamePrefix(Dir(tag) + "/", id + ".gob", "");
    assert Dir(tag) + "/" + "" == Dir(tag) + "/";
    assert ItemPath(tag, id) == Dir(tag) + "/" + (id + ".gob");
  }

  /** The tag of a service's items: the service's number and its type. */
  function ServiceKey(sid: string, kind: string): string {
    sid + "/" + kind
  }

  lemma ServiceKeyDepth(sid: string, kind: string)
    requires '/' !in sid && '/' !in kind
    ensures Slashes(ServiceKey(sid, kind)) == 1 && Dir(ServiceKey(sid, kind)) == ServiceKey(sid, kind)
  {
    NoSlashes(sid);
    NoSlashes(kind);
    assert ServiceKey(sid, kind) == sid + ['/'] + kind;
    SlashesAround(sid, kind);
  }

  lemma PrefixSplit(s: string, a: string, b: string)
    ensures HasPrefix(s, a + b) <==> HasPrefix(s, a) && HasPrefix(s[|a|..], b)
  {
    var p := a + b;
    assert forall k :: 0 <= k < |a| ==> p[k] == a[k];
    assert forall k :: 0 <= k < |b| ==> p[|a| + k] == b[k];
    if HasPrefix(s, p) {
      forall k | 0 <= k < |b| ensures s[|a|..][k] == b[k] {
        assert s[|a| + k] == p[|a| + k];
      }
    }
    if HasPrefix(s, a) && HasPrefix(s[|a|..], b) {
      forall k | |a| <= k < |p| ensures s[k] == p[k] {
        assert s[|a|..][k - |a|] == b[k - |a|];
      }
    }
  }

  /** Flushing a service's key reaches the items of all services with the same number whose type begins with the
      given one, and no others. */
  lemma ServiceFlushReaches(files: Files, sid: string, kind: string, id: string, flushedSid: string,
                            flushedKind: string)
    requires '/' !in sid && '/' !in kind && '/' !in flushedSid && '/' !in flushedKind
    ensures var path := ItemPath(ServiceKey(sid, kind), id);
            && (HasPrefix(path, ServiceKey(flushedSid, flushedKind)) <==>
                sid == flushedSid && HasPrefix(kind, flushedKind))
            && (path in Flushed(files, ServiceKey(flushedSid, flushedKind)) <==>
                path in files && !(sid == flushedSid && HasPrefix(kind, flushedKind)))
  {
    var key, flushed := ServiceKey(sid, kind), ServiceKey(flushedSid, flushedKind);
    ServiceKeyDepth(sid, kind);
    ServiceKeyDepth(flushedSid, flushedKind);
    FlushReaches(key, id, flushed);
    assert key == sid + ['/'] + kind && flushed == (flushedSid + ['/']) + flushedKind;
    PrefixSplit(key, flushedSid + ['/'], flushedKind);
    PrefixUpTo(sid, kind, flushedSid, '/');
    assert key[|sid| + 1..] == kind;
  }

  lemma ServicesHaveOwnItems(sid: string, kind: string, id: string, otherSid: string, otherKind: string,
                             otherId: string)
    requires '/' !in sid && '/' !in kind && '/' !in otherSid && '/' !in otherKind
    ensures ItemPath(ServiceKey(sid, kind), id) == ItemPath(ServiceKey(otherSid, otherKind), otherId) <==>
            sid == otherSid && kind == otherKind && id == otherId
  {
    ServiceKeyDepth(sid, kind);
    ServiceKeyDepth(otherSid, otherKind);
    TagsHaveOwnItems(ServiceKey(sid, kind), ServiceKey(otherSid, otherKind), id, otherId);
    if ServiceKey(sid, kind) == ServiceKey(otherSid, otherKind) {
      SplitUnique(sid, kind, otherSid, otherKind, '/');
    }
  }

  /** The types of services there are. */
  const SERVICE_TYPES: seq<string> :=
    ["treq", "kontext", "hex", "mquery", "kwords", "scollex", "frodo", "wss", "gunstick"]

  /** None of them is the beginning of another, so that flushing a whole key reaches that service alone. */
  lemma WholeKeyReachesOwn(files: Files, sid: string, kind: string, id: string, flushedSid: string,
                           flushedKind: string)
    requires '/' !in sid && '/' !in flushedSid && kind in SERVICE_TYPES && flushedKind in SERVICE_TYPES
    ensures var path := ItemPath(ServiceKey(sid, kind), id);
            path in Flushed(files, ServiceKey(flushedSid, flushedKind)) <==>
            path in files && !(sid == flushedSid && kind == flushedKind)
  {
    TypesAreParts(kind);
    TypesAreParts(flushedKind);
    ServiceFlushReaches(files, sid, kind, id, flushedSid, flushedKind);
    NoTypeBeginsAnother(kind, flushedKind);
  }

  lemma TypesAreParts(kind: string)
    requires kind in SERVICE_TYPES
    ensures '/' !in kind
  {}

  lemma NoTypeBeginsAnother(kind: string, start: string)
    requires kind in SERVICE_TYPES && start in SERVICE_TYPES
    ensures HasPrefix(kind, start) <==> kind == start
  {
    assert HasPrefix(kind, start) ==> kind[0] == start[0] && (kind[0] == 'k' ==> kind[1] == start[1]);
  }

  /** A part of a type reaches all that begin with it, though not those of a number that begins with the given
      one. */
  lemma PartOfTypeReachesSeveral(files: Files, id: string)
    ensures ItemPath("1/kontext", id) !in Flushed(files, "1/k") && ItemPath("1/kwords", id) !in Flushed(files, "1/k")
    ensures ItemPath("10/kontext", id) in files ==> ItemPath("10/kontext", id) in Flushed(files, "1/k")
  {
    assert ServiceKey("1", "kontext") == "1/kontext" && ServiceKey("1", "kwords") == "1/kwords";
    assert ServiceKey("10", "kontext") == "10/kontext" && ServiceKey("1", "k") == "1/k";
    ServiceFlushReaches(files, "1", "kontext", id, "1", "k");
    ServiceFlushReaches(files, "1", "kwords", id, "1", "k");
    ServiceFlushReaches(files, "10", "kontext", id, "1", "k");
  }
}
