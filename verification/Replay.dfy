/** A response that was cached when it was first delivered, and is delivered again from the cache. */
module Replay {
  import opened Text
  import opened LineScanner
  import opened EventStream
  import opened Reframe
  import opened ReframeMeaning
  import opened Counter
  import opened CacheId
  import opened FileCache

  /** Responses are cached without options: only answers to GET requests, whatever their cookies. */
  const NO_OPTIONS := Options([], "", false, false)

  /** The options of lookups: cookies to respect, and whether to respect a request not to use the cache. */
  predicate ForLookup(opts: Options) {
    !opts.cacheablePOST && opts.requestBody == ""
  }

  /** What a miss hands to the cache: whatever the status of success was, it is cached as 200. */
  function Stored(body: string, isDataStream: bool, headers: seq<string>): Entry {
    Entry(200, Concat(MissWrites(body, isDataStream)), headers)
  }

  function Caching(req: Request, tag: string, entry: Entry, at: Time): Op {
    Op.Set(req, "", tag, NO_OPTIONS, at, entry)
  }

  function Asking(req: Request, tag: string, opts: Options, at: Time): Op {
    Op.Get(req, "", tag, opts, at)
  }

  predicate SameTarget(req: Request, again: Request) {
    req.path == again.path && req.query == again.query
  }

  // ----- whether a lookup finds what was stored -----

  lemma JoinNotEmpty(parts: seq<string>, sep: string)
    requires parts != [] && parts[0] != ""
    ensures Join(parts, sep) != ""
  {
    if |parts| > 1 {
      assert Join(parts, sep) == parts[0] + sep + Join(parts[1..], sep);
    }
  }

  lemma CookiePartIff(req: Request, opts: Options)
    ensures CookiePart(req, opts) == "" <==> Picked(req.cookies, opts.respectCookies) == []
  {
    var picked := Picked(req.cookies, opts.respectCookies);
    var sorted := SortStrings(picked);
    SortStringsSorts(picked);
    assert |multiset(sorted)| == |sorted| && |multiset(picked)| == |picked|;
    if picked != [] {
      PickedAreNotEmpty(req.cookies, opts.respectCookies);
      assert |sorted| == |picked| > 0;
      assert sorted[0] in multiset(sorted);
      assert sorted[0] in picked;
      JoinNotEmpty(sorted, ";");
    }
  }

  /** Where a response is stored and where a lookup looks, for any two requests: the lookup's respected cookies are
      written after its target. */
  lemma SamePlaceIff(req: Request, again: Request, tag: string, opts: Options, entry: Entry, at: Time, later: Time)
    requires ForLookup(opts)
    ensures PathOf(Caching(req, tag, entry, at)) == PathOf(Asking(again, tag, opts, later)) <==>
            req.path + req.query == again.path + again.query + CookiePart(again, opts)
  {
    var stored, wanted := Preimage(req, NO_OPTIONS, ""), Preimage(again, opts, "");
    CookiePartIff(req, NO_OPTIONS);
    assert stored == req.path + req.query && wanted == again.path + again.query + CookiePart(again, opts);
    TagsHaveOwnItems(tag, tag, stored, wanted);
  }

  /** The item that a response was stored under is the one that a later lookup looks for exactly when the later
      request has none of the cookies that the lookup respects. */
  lemma FoundIff(req: Request, again: Request, tag: string, opts: Options, entry: Entry, at: Time, later: Time)
    requires SameTarget(req, again) && ForLookup(opts)
    ensures PathOf(Caching(req, tag, entry, at)) == PathOf(Asking(again, tag, opts, later)) <==>
            Picked(again.cookies, opts.respectCookies) == []
  {
    var target := again.path + again.query;
    CookiePartIff(again, opts);
    SamePlaceIff(req, again, tag, opts, entry, at, later);
    SameStart(target, "", CookiePart(again, opts));
    assert target + "" == target;
  }

  // ----- the later request -----

  /** A later request for the same that has none of the respected cookies is a hit while the time to live lasts,
      whatever else happens to the cache meanwhile. The client of the hit gets the bytes that the client of the
      miss got; for a stream it ends in the state it would reach on the backend's own stream followed by a blank
      line. */
  lemma HitRepeatsMiss(files: Files, slots: Slots, ttl: nat, req: Request, again: Request, tag: string,
                       opts: Options, body: string, isDataStream: bool, headers: seq<string>, at: Time,
                       mid: seq<Op>, later: Time, start: Time)
    requires Represents(files, slots, ttl, start) && req.httpMethod == "GET" && SameTarget(req, again)
    requires ForLookup(opts) && ShouldReadFromCache(again, opts)
    requires Picked(again.cookies, opts.respectCookies) == []
    requires InTime([Caching(req, tag, Stored(body, isDataStream, headers), at)]
                    + (mid + [Asking(again, tag, opts, later)]), start)
    requires later - at <= ttl as real
    requires forall i :: 0 <= i < |mid| ==> LeavesAlone(mid[i], PathOf(Asking(again, tag, opts, later)))
    ensures var rs := FileRun(files, ttl, [Caching(req, tag, Stored(body, isDataStream, headers), at)]
                                          + (mid + [Asking(again, tag, opts, later)]));
            && |rs| == |mid| + 2 && rs[|mid| + 1].Hit?
            && var hit := Concat(HitWrites(rs[|mid| + 1].entry.data));
               && rs[|mid| + 1].entry.status == 200 && rs[|mid| + 1].entry.headers == headers
               && hit == Concat(MissWrites(body, isDataStream)) && (!isDataStream ==> hit == body)
               && (isDataStream && Faithful(body) ==> Interpret(hit) == Run(INITIAL, Lines(StripBom(body)) + [""]))
  {
    var entry := Stored(body, isDataStream, headers);
    FoundIff(req, again, tag, opts, entry, at, later);
    LastSetIsServed(files, slots, ttl, Caching(req, tag, entry, at), mid, Asking(again, tag, opts, later), start);
    ConcatOne(entry.data);
    ConcatOne(body);
    if isDataStream && Faithful(body) {
      ReframingPreservesMeaning(body);
    }
  }

  /** After a response has been stored for a request whose item was absent or expired, the next request is a hit
      exactly when it has none of the respected cookies: with caching per session, whoever has a session never
      gets a cached response. */
  lemma HitIff(files: Files, slots: Slots, ttl: nat, req: Request, again: Request, tag: string, opts: Options,
               entry: Entry, at: Time, mid: seq<Op>, later: Time, start: Time)
    requires Represents(files, slots, ttl, start) && ShouldWriteToCache(req, entry.status, NO_OPTIONS)
    requires SameTarget(req, again) && ForLookup(opts) && ShouldReadFromCache(again, opts)
    requires InTime([Caching(req, tag, entry, at)] + (mid + [Asking(again, tag, opts, later)]), start)
    requires later - at <= ttl as real
    requires forall i :: 0 <= i < |mid| ==> LeavesAlone(mid[i], PathOf(Asking(again, tag, opts, later)))
    requires var path := PathOf(Asking(again, tag, opts, later));
             path in slots ==> start - slots[path].used > ttl as real
    ensures var rs := FileRun(files, ttl, [Caching(req, tag, entry, at)] + (mid + [Asking(again, tag, opts, later)]));
            && |rs| == |mid| + 2
            && rs[|mid| + 1] == if Picked(again.cookies, opts.respectCookies) == [] then Hit(entry) else Miss
  {
    var first, last := Caching(req, tag, entry, at), Asking(again, tag, opts, later);
    FoundIff(req, again, tag, opts, entry, at, later);
    if Picked(again.cookies, opts.respectCookies) == [] {
      LastSetIsServed(files, slots, ttl, first, mid, last, start);
    } else {
      ExpiredIsMissed(files, slots, ttl, PathOf(last), first, mid, last, start);
    }
  }

  /** A response is never served for another target: after it has been stored, a lookup without respected cookies,
      whose item was absent or expired, is a hit exactly when path and query are the same. */
  lemma OtherTargetMisses(files: Files, slots: Slots, ttl: nat, req: Request, again: Request, tag: string,
                          opts: Options, entry: Entry, at: Time, mid: seq<Op>, later: Time, start: Time)
    requires Represents(files, slots, ttl, start) && ShouldWriteToCache(req, entry.status, NO_OPTIONS)
    requires ForLookup(opts) && ShouldReadFromCache(again, opts)
    requires Picked(again.cookies, opts.respectCookies) == []
    requires InTime([Caching(req, tag, entry, at)] + (mid + [Asking(again, tag, opts, later)]), start)
    requires later - at <= ttl as real
    requires forall i :: 0 <= i < |mid| ==> LeavesAlone(mid[i], PathOf(Asking(again, tag, opts, later)))
    requires var path := PathOf(Asking(again, tag, opts, later));
             path in slots ==> start - slots[path].used > ttl as real
    ensures var rs := FileRun(files, ttl, [Caching(req, tag, entry, at)] + (mid + [Asking(again, tag, opts, later)]));
            && |rs| == |mid| + 2
            && rs[|mid| + 1] ==
               if req.path + req.query == again.path + again.query then Hit(entry) else Miss
  {
    var first, last := Caching(req, tag, entry, at), Asking(again, tag, opts, later);
    CookiePartIff(again, opts);
    SamePlaceIff(req, again, tag, opts, entry, at, later);
    assert again.path + again.query + "" == again.path + again.query;
    if req.path + req.query == again.path + again.query {
      LastSetIsServed(files, slots, ttl, first, mid, last, start);
    } else {
      ExpiredIsMissed(files, slots, ttl, PathOf(last), first, mid, last, start);
    }
  }
}
