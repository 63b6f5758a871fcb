/** Cache ids. An id is taken to be the bytes that are hashed, so equal ids mean equal bytes. */
module CacheId {
  import opened Text
  import opened ReReading

  datatype Cookie = Cookie(name: string, value: string)

  /** A request without its body; `query` is the encoded query, whose keys are sorted. */
  datatype Request = Request(httpMethod: string, path: string, query: string, cookies: seq<Cookie>,
                             cacheControl: string)

  datatype Options = Options(respectCookies: seq<string>, requestBody: string, cacheablePOST: bool,
                             respectCacheControl: bool)

  predicate ShouldReadFromCache(req: Request, opts: Options) {
    && (req.httpMethod == "GET" || opts.cacheablePOST)
    && (req.cacheControl != "no-cache" || !opts.respectCacheControl)
  }

  predicate ShouldWriteToCache(req: Request, status: int, opts: Options) {
    && (status == 200 || status == 201)
    && (req.httpMethod == "GET" || opts.cacheablePOST)
    && (req.cacheControl != "no-cache" || !opts.respectCacheControl)
  }

  /** What may be read may be stored, if it was a success; and nothing else. */
  lemma WritableIff(req: Request, status: int, opts: Options)
    ensures ShouldWriteToCache(req, status, opts) <==> ShouldReadFromCache(req, opts) && status in {200, 201}
  {}

  /** A GET request may be answered from the cache unless it forbids that where this is respected; any other request
      may only where the options say so, and then like GET. */
  lemma ReadableIff(req: Request, opts: Options, other: string)
    ensures req.httpMethod == "GET" ==>
              (ShouldReadFromCache(req, opts) <==> !(opts.respectCacheControl && req.cacheControl == "no-cache"))
    ensures other != "GET" ==>
              (ShouldReadFromCache(req.(httpMethod := other), opts) <==>
               opts.cacheablePOST && ShouldReadFromCache(req.(httpMethod := "GET"), opts))
  {}

  /** The first cookie of a name. */
  function CookieOf(cookies: seq<Cookie>, name: string): Option<Cookie> {
    if cookies == [] || name == "" then None
    else if cookies[0].name == name then Some(cookies[0])
    else CookieOf(cookies[1..], name)
  }

  function Picked(cookies: seq<Cookie>, names: seq<string>): seq<string> {
    if names == [] then []
    else
      var n := |names| - 1;
      Picked(cookies, names[..n]) + Pick(cookies, names[n])
  }

  function Pick(cookies: seq<Cookie>, name: string): seq<string> {
    match CookieOf(cookies, name)
    case Some(c) => [c.name + "=" + c.value]
    case None => []
  }

  /** The order of strings by their bytes. */
  predicate AtMost(a: string, b: string) {
    a == "" || (b != "" && (a[0] < b[0] || (a[0] == b[0] && AtMost(a[1..], b[1..]))))
  }

  function Insert(sorted: seq<string>, x: string): seq<string> {
    if sorted == [] || AtMost(x, sorted[0]) then [x] + sorted
    else [sorted[0]] + Insert(sorted[1..], x)
  }

  /** The result of `sort.Strings`. */
  function SortStrings(s: seq<string>): seq<string> {
    if s == [] then [] else Insert(SortStrings(s[1..]), s[0])
  }

  function CookiePart(req: Request, opts: Options): string {
    Join(SortStrings(Picked(req.cookies, opts.respectCookies)), ";")
  }

  function Preimage(req: Request, opts: Options, body: string): string {
    req.path + req.query + CookiePart(req, opts) + (if opts.cacheablePOST then body else opts.requestBody)
  }

  /** A body that is part of the id has been rewound afterwards; any other is left where it was. */
  method GenerateCacheId(req: Request, body: ReReader, opts: Options, sizes: nat -> nat) returns (id: string)
    requires forall k :: sizes(k) > 0
    modifies body
    ensures id == Preimage(req, opts, Rest(body.data, old(body.pos)))
    ensures body.pos == if opts.cacheablePOST then 0 else old(body.pos)
  {
    id := req.path + req.query;
    var cookiePart := "";
    if opts.respectCookies != [] {
      var hashCookies := [];
      for i := 0 to |opts.respectCookies|
        invariant hashCookies == Picked(req.cookies, opts.respectCookies[..i])
      {
        assert opts.respectCookies[..i + 1][..i] == opts.respectCookies[..i];
        match CookieOf(req.cookies, opts.respectCookies[i])
        case Some(c) => hashCookies := hashCookies + [c.name + "=" + c.value];
        case None =>
      }
      assert opts.respectCookies[..|opts.respectCookies|] == opts.respectCookies;
      hashCookies := SortStrings(hashCookies);
      cookiePart := Join(hashCookies, ";");
    }
    id := id + cookiePart;
    if opts.cacheablePOST {
      var reqData := body.ReadAll(sizes);
      id := id + reqData;
    } else {
      id := id + opts.requestBody;
    }
  }

  /** The ids of one request agree exactly when the body is not part of them, or stands at the same
      position both times: after an id has been generated, the next one is the same only if the body is
      either left alone or read up to its end. */
  lemma IdsAgreeIff(req: Request, opts: Options, data: string, p: nat, q: nat)
    requires p <= |data| && q <= |data|
    ensures Preimage(req, opts, Rest(data, p)) == Preimage(req, opts, Rest(data, q)) <==>
            !opts.cacheablePOST || p == q
  {
    var fixed := |Preimage(req, opts, "")|;
    assert |Preimage(req, opts, Rest(data, p))| == fixed + (if opts.cacheablePOST then |data| - p else 0);
    assert |Preimage(req, opts, Rest(data, q))| == fixed + (if opts.cacheablePOST then |data| - q else 0);
  }

  /** Two requests that agree in their respected cookies, asked with the same options and body, have one id if and
      only if their paths and queries, written one after the other, agree. */
  lemma TargetsIdentify(req: Request, other: Request, opts: Options, body: string)
    requires Picked(req.cookies, opts.respectCookies) == Picked(other.cookies, opts.respectCookies)
    ensures Preimage(req, opts, body) == Preimage(other, opts, body) <==>
            req.path + req.query == other.path + other.query
  {
    var end := CookiePart(req, opts) + (if opts.cacheablePOST then body else opts.requestBody);
    SameEnd(req.path + req.query, other.path + other.query, end);
    assert Preimage(req, opts, body) == (req.path + req.query) + end;
    assert Preimage(other, opts, body) == (other.path + other.query) + end;
  }

  lemma SameEnd(a: string, b: string, end: string)
    ensures a + end == b + end <==> a == b
  {
    if a + end == b + end {
      assert |a| == |b|;
      assert (a + end)[..|a|] == a && (b + end)[..|a|] == b;
    }
  }

  lemma SameStart(start: string, a: string, b: string)
    ensures start + a == start + b <==> a == b
  {
    if start + a == start + b {
      assert (start + a)[|start|..] == a && (start + b)[|start|..] == b;
    }
  }

  /** In particular a request for another path with the same query, or for the same path with another query, has an
      id of its own. */
  lemma PathAndQueryMatter(req: Request, opts: Options, body: string, path: string, query: string)
    ensures Preimage(req, opts, body) == Preimage(req.(path := path), opts, body) <==> path == req.path
    ensures Preimage(req, opts, body) == Preimage(req.(query := query), opts, body) <==> query == req.query
  {
    TargetsIdentify(req, req.(path := path), opts, body);
    TargetsIdentify(req, req.(query := query), opts, body);
    SameEnd(req.path, path, req.query);
    SameStart(req.path, req.query, query);
  }

  /** Which of the bodies is part of the id: the request's own where POST is cacheable, otherwise the one given with
      the options. */
  lemma BodyMatters(req: Request, opts: Options, body: string, other: string, given: string)
    ensures Preimage(req, opts, body) == Preimage(req, opts, other) <==> !opts.cacheablePOST || body == other
    ensures Preimage(req, opts, body) == Preimage(req, opts.(requestBody := given), body) <==>
            opts.cacheablePOST || given == opts.requestBody
  {
    var start := req.path + req.query + CookiePart(req, opts);
    SameStart(start, body, other);
    SameStart(start, opts.requestBody, given);
    assert CookiePart(req, opts.(requestBody := given)) == CookiePart(req, opts);
  }

  /** One respected cookie: the ids of requests for one target agree if and only if both have the same value, or
      neither has the cookie; all other cookies are ignored. */
  lemma RespectedCookieMatters(req: Request, cookies: seq<Cookie>, opts: Options, name: string, body: string)
    requires opts.respectCookies == [name]
    ensures Preimage(req, opts, body) == Preimage(req.(cookies := cookies), opts, body) <==>
            CookieOf(req.cookies, name) == CookieOf(cookies, name)
  {
    hide CookiePart, CookieOf;
    var other := req.(cookies := cookies);
    var end := if opts.cacheablePOST then body else opts.requestBody;
    PartOfOne(req, opts, name);
    PartOfOne(other, opts, name);
    var a, b := CookiePart(req, opts), CookiePart(other, opts);
    assert Preimage(req, opts, body) == (req.path + req.query) + (a + end);
    assert Preimage(other, opts, body) == (req.path + req.query) + (b + end);
    SameStart(req.path + req.query, a + end, b + end);
    SameEnd(a, b, end);
    NamesTheCookie(req.cookies, name);
    NamesTheCookie(cookies, name);
    if CookieOf(req.cookies, name).Some? && CookieOf(cookies, name).Some? {
      var x, y := CookieOf(req.cookies, name).value.value, CookieOf(cookies, name).value.value;
      assert a == (name + "=") + x && b == (name + "=") + y;
      SameStart(name + "=", x, y);
    }
  }

  lemma {:induction false} NamesTheCookie(cookies: seq<Cookie>, name: string)
    ensures CookieOf(cookies, name).Some? ==> CookieOf(cookies, name).value.name == name
  {
    if cookies != [] {
      NamesTheCookie(cookies[1..], name);
    }
  }

  lemma PartOfOne(req: Request, opts: Options, name: string)
    requires opts.respectCookies == [name]
    ensures CookiePart(req, opts) == match CookieOf(req.cookies, name)
                                     case Some(c) => c.name + "=" + c.value
                                     case None => ""
  {
    PickedOne(req.cookies, name);
    match CookieOf(req.cookies, name)
    case Some(c) =>
      var x := c.name + "=" + c.value;
      assert SortStrings([x]) == [x] by { assert [x][1..] == []; }
    case None =>
  }

  // ----- the order of the respected cookies does not matter -----

  lemma {:induction false} AtMostTotal(a: string, b: string)
    ensures AtMost(a, b) || AtMost(b, a)
  {
    if a != "" && b != "" && a[0] == b[0] {
      AtMostTotal(a[1..], b[1..]);
    }
  }

  lemma {:induction false} AtMostAntisymmetric(a: string, b: string)
    requires AtMost(a, b) && AtMost(b, a)
    ensures a == b
  {
    if a != "" {
      AtMostAntisymmetric(a[1..], b[1..]);
      assert a == [a[0]] + a[1..] && b == [b[0]] + b[1..];
    }
  }

  lemma {:induction false} AtMostTransitive(a: string, b: string, c: string)
    requires AtMost(a, b) && AtMost(b, c)
    ensures AtMost(a, c)
  {
    if a != "" && a[0] == b[0] == c[0] {
      AtMostTransitive(a[1..], b[1..], c[1..]);
    }
  }

  predicate LeastOf(x: string, s: seq<string>) {
    forall y <- s :: AtMost(x, y)
  }

  predicate InOrder(s: seq<string>) {
    s == [] || (LeastOf(s[0], s[1..]) && InOrder(s[1..]))
  }

  lemma LeastFurther(x: string, y: string, s: seq<string>)
    requires AtMost(x, y) && LeastOf(y, s)
    ensures LeastOf(x, [y] + s)
  {
    forall z <- [y] + s ensures AtMost(x, z) {
      if z != y {
        AtMostTransitive(x, y, z);
      }
    }
  }

  lemma LeastPermuted(x: string, s: seq<string>, y: string, t: seq<string>)
    requires LeastOf(x, s) && AtMost(x, y) && multiset(t) == multiset(s) + multiset{y}
    ensures LeastOf(x, t)
  {
    forall z <- t ensures AtMost(x, z) {
      assert z in multiset(t);
      assert z == y || z in s;
    }
  }

  lemma {:induction false} InsertKeepsOrder(sorted: seq<string>, x: string)
    requires InOrder(sorted)
    ensures InOrder(Insert(sorted, x)) && multiset(Insert(sorted, x)) == multiset(sorted) + multiset{x}
  {
    if sorted == [] {
    } else if AtMost(x, sorted[0]) {
      assert sorted == [sorted[0]] + sorted[1..];
      LeastFurther(x, sorted[0], sorted[1..]);
      assert ([x] + sorted)[1..] == sorted;
    } else {
      var y, rest := sorted[0], Insert(sorted[1..], x);
      InsertKeepsOrder(sorted[1..], x);
      AtMostTotal(x, y);
      LeastPermuted(y, sorted[1..], x, rest);
      assert sorted == [y] + sorted[1..] && ([y] + rest)[1..] == rest;
    }
  }

  lemma {:induction false} SortStringsSorts(s: seq<string>)
    ensures InOrder(SortStrings(s)) && multiset(SortStrings(s)) == multiset(s)
  {
    if s != [] {
      SortStringsSorts(s[1..]);
      InsertKeepsOrder(SortStrings(s[1..]), s[0]);
      assert s == [s[0]] + s[1..];
    }
  }

  lemma WithoutOne(s: seq<string>, i: nat)
    requires i < |s|
    ensures multiset(s[..i] + s[i + 1..]) == multiset(s) - multiset{s[i]}
  {
    assert s == s[..i] + ([s[i]] + s[i + 1..]);
  }

  lemma HeadsAgree(a: seq<string>, b: seq<string>)
    requires a != [] && b != [] && InOrder(a) && InOrder(b)
    requires a[0] in b && b[0] in a
    ensures a[0] == b[0]
  {
    if a[0] != b[0] {
      assert a == [a[0]] + a[1..] && b == [b[0]] + b[1..];
      assert b[0] in a[1..] && a[0] in b[1..];
      AtMostAntisymmetric(a[0], b[0]);
    }
  }

  lemma {:induction false} OneOrder(a: seq<string>, b: seq<string>)
    requires InOrder(a) && InOrder(b) && multiset(a) == multiset(b)
    ensures a == b
  {
    hide LeastOf;
    SameLength(a, b);
    if a != [] {
      HeadsAgree(a, b);
      TailsAgree(a, b);
      OneOrder(a[1..], b[1..]);
      assert a == [a[0]] + a[1..] && b == [b[0]] + b[1..];
    }
  }

  lemma SameLength(a: seq<string>, b: seq<string>)
    requires multiset(a) == multiset(b)
    ensures |a| == |b| && (a != [] ==> a[0] in b && b[0] in a)
  {
    assert |multiset(a)| == |a| && |multiset(b)| == |b|;
    assert a != [] ==> a[0] in multiset(b) && b[0] in multiset(a);
  }

  lemma TailsAgree(a: seq<string>, b: seq<string>)
    requires a != [] && b != [] && a[0] == b[0] && multiset(a) == multiset(b)
    ensures multiset(a[1..]) == multiset(b[1..])
  {
    WithoutHead(a);
    WithoutHead(b);
  }

  lemma WithoutHead(s: seq<string>)
    requires s != []
    ensures multiset(s[1..]) == multiset(s) - multiset{s[0]}
  {
    WithoutOne(s, 0);
    assert s[..0] + s[1..] == s[1..];
  }

  lemma PickedStep(cookies: seq<Cookie>, s: seq<string>, x: string)
    ensures Picked(cookies, s + [x]) == Picked(cookies, s) + Pick(cookies, x)
  {
    assert (s + [x])[..|s|] == s;
  }

  lemma {:induction false} PickedConcat(cookies: seq<Cookie>, a: seq<string>, b: seq<string>)
    ensures Picked(cookies, a + b) == Picked(cookies, a) + Picked(cookies, b)
  {
    if b == [] {
      assert a + b == a;
    } else {
      var n := |b| - 1;
      var before, x := b[..n], b[n];
      assert b == before + [x] && a + b == (a + before) + [x];
      PickedConcat(cookies, a, before);
      PickedStep(cookies, a + before, x);
      PickedStep(cookies, before, x);
      var p, q, r := Picked(cookies, a), Picked(cookies, before), Pick(cookies, x);
      assert (p + q) + r == p + (q + r);
    }
  }

  lemma PickedOne(cookies: seq<Cookie>, x: string)
    ensures Picked(cookies, [x]) == Pick(cookies, x)
  {
    assert [x][..0] == [];
    assert [] + Pick(cookies, x) == Pick(cookies, x);
  }

  lemma {:induction false} PickedPermuted(cookies: seq<Cookie>, a: seq<string>, b: seq<string>)
    requires multiset(a) == multiset(b)
    ensures multiset(Picked(cookies, a)) == multiset(Picked(cookies, b))
    decreases |a|
  {
    if a == [] {
      assert |multiset(b)| == 0;
    } else {
      var tail := TakeOut(cookies, a, a[0]);
      assert a[0] in multiset(b);
      var rest := TakeOut(cookies, b, a[0]);
      PickedPermuted(cookies, tail, rest);
    }
  }

  lemma TakeOut(cookies: seq<Cookie>, s: seq<string>, x: string) returns (rest: seq<string>)
    requires x in s
    ensures |rest| < |s| && multiset(rest) == multiset(s) - multiset{x}
    ensures multiset(Picked(cookies, s)) == multiset(Picked(cookies, rest)) + multiset(Pick(cookies, x))
  {
    var i :| 0 <= i < |s| && s[i] == x;
    rest := s[..i] + s[i + 1..];
    WithoutOne(s, i);
    PickedTakeOut(cookies, s, i);
  }

  lemma PickedTakeOut(cookies: seq<Cookie>, s: seq<string>, i: nat)
    requires i < |s|
    ensures multiset(Picked(cookies, s)) ==
            multiset(Picked(cookies, s[..i] + s[i + 1..])) + multiset(Pick(cookies, s[i]))
  {
    assert s == s[..i] + ([s[i]] + s[i + 1..]);
    PickedConcat(cookies, s[..i], [s[i]] + s[i + 1..]);
    PickedConcat(cookies, [s[i]], s[i + 1..]);
    PickedConcat(cookies, s[..i], s[i + 1..]);
    PickedOne(cookies, s[i]);
  }

  /** Listing the same cookies in another order gives the same id. */
  lemma CookieOrderIsIrrelevant(req: Request, opts: Options, other: seq<string>, body: string)
    requires multiset(other) == multiset(opts.respectCookies)
    ensures Preimage(req, opts.(respectCookies := other), body) == Preimage(req, opts, body)
  {
    var a, b := Picked(req.cookies, opts.respectCookies), Picked(req.cookies, other);
    PickedPermuted(req.cookies, opts.respectCookies, other);
    SortStringsSorts(a);
    SortStringsSorts(b);
    OneOrder(SortStrings(a), SortStrings(b));
  }

  // ----- which cookies make a difference -----

  lemma {:induction false} JoinIdentifies(a: seq<string>, b: seq<string>, sep: char)
    requires forall i :: 0 <= i < |a| ==> a[i] != "" && sep !in a[i]
    requires forall i :: 0 <= i < |b| ==> b[i] != "" && sep !in b[i]
    ensures Join(a, [sep]) == Join(b, [sep]) <==> a == b
  {
    if a != [] && b != [] {
      JoinHead(a, sep);
      JoinHead(b, sep);
      if |a| > 1 && |b| > 1 {
        JoinIdentifies(a[1..], b[1..], sep);
        if Join(a, [sep]) == Join(b, [sep]) {
          SplitUnique(a[0], Join(a[1..], [sep]), b[0], Join(b[1..], [sep]), sep);
        }
        assert a == [a[0]] + a[1..] && b == [b[0]] + b[1..];
      }
    } else if a != [] {
      JoinHead(a, sep);
    } else if b != [] {
      JoinHead(b, sep);
    }
  }

  lemma JoinHead(a: seq<string>, sep: char)
    requires a != [] && a[0] != "" && sep !in a[0]
    ensures Join(a, [sep]) != ""
    ensures |a| == 1 ==> Join(a, [sep]) == a[0]
    ensures |a| > 1 ==> Join(a, [sep]) == a[0] + [sep] + Join(a[1..], [sep]) && sep in Join(a, [sep])
  {
    if |a| > 1 {
      assert Join(a, [sep])[|a[0]|] == sep;
    }
  }

  lemma {:induction false} PickedAreNotEmpty(cookies: seq<Cookie>, names: seq<string>)
    ensures forall x <- Picked(cookies, names) :: x != ""
  {
    if names != [] {
      PickedAreNotEmpty(cookies, names[..|names| - 1]);
    }
  }

  /** Two requests for one target have one id if and only if they have the same respected cookies with the same
      values, whatever other cookies they have, and in whatever order; for cookies without a semicolon, which cannot
      be sent in one. */
  lemma CookiesIdentify(req: Request, cookies: seq<Cookie>, opts: Options, body: string)
    requires forall x <- Picked(req.cookies, opts.respectCookies) :: ';' !in x
    requires forall x <- Picked(cookies, opts.respectCookies) :: ';' !in x
    ensures Preimage(req, opts, body) == Preimage(req.(cookies := cookies), opts, body) <==>
            multiset(Picked(req.cookies, opts.respectCookies)) == multiset(Picked(cookies, opts.respectCookies))
  {
    hide Picked, SortStrings, InOrder;
    var other := req.(cookies := cookies);
    var a, b := Picked(req.cookies, opts.respectCookies), Picked(cookies, opts.respectCookies);
    var start, end := req.path + req.query, if opts.cacheablePOST then body else opts.requestBody;
    assert Preimage(req, opts, body) == start + (CookiePart(req, opts) + end);
    assert Preimage(other, opts, body) == start + (CookiePart(other, opts) + end);
    SameStart(start, CookiePart(req, opts) + end, CookiePart(other, opts) + end);
    SameEnd(CookiePart(req, opts), CookiePart(other, opts), end);
    SortedParts(req.cookies, opts.respectCookies);
    SortedParts(cookies, opts.respectCookies);
    JoinIdentifies(SortStrings(a), SortStrings(b), ';');
    if multiset(a) == multiset(b) {
      OneOrder(SortStrings(a), SortStrings(b));
    }
  }

  lemma SortedParts(cookies: seq<Cookie>, names: seq<string>)
    requires forall x <- Picked(cookies, names) :: ';' !in x
    ensures var sorted := SortStrings(Picked(cookies, names));
            && InOrder(sorted) && multiset(sorted) == multiset(Picked(cookies, names))
            && forall i :: 0 <= i < |sorted| ==> sorted[i] != "" && ';' !in sorted[i]
  {
    hide Picked, SortStrings, InOrder;
    var picked := Picked(cookies, names);
    var sorted := SortStrings(picked);
    SortStringsSorts(picked);
    PickedAreNotEmpty(cookies, names);
    forall i | 0 <= i < |sorted| ensures sorted[i] != "" && ';' !in sorted[i] {
      assert sorted[i] in multiset(sorted);
      assert sorted[i] in picked;
    }
  }
}
