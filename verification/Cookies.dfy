/** Rewriting the cookies of a request before it is passed on. */
module Cookies {
  import opened Text
  import opened CacheId

  function Named(cookies: seq<Cookie>, name: string): seq<Cookie> {
    if cookies == [] then []
    else (if cookies[0].name == name then [cookies[0]] else []) + Named(cookies[1..], name)
  }

  function Others(cookies: seq<Cookie>, names: set<string>): seq<Cookie> {
    if cookies == [] then []
    else (if cookies[0].name in names then [] else [cookies[0]]) + Others(cookies[1..], names)
  }

  /** Gives every cookie called `name` the value `value`. */
  function Revalued(cookies: seq<Cookie>, name: string, value: string): (r: seq<Cookie>)
    ensures |r| == |cookies|
  {
    if cookies == [] then []
    else
      var c := cookies[0];
      [if c.name == name then Cookie(name, value) else c] + Revalued(cookies[1..], name, value)
  }

  /** Calls every cookie called `name` by `other`. */
  function Renamed(cookies: seq<Cookie>, name: string, other: string): (r: seq<Cookie>)
    ensures |r| == |cookies|
  {
    if cookies == [] then []
    else
      var c := cookies[0];
      [if c.name == name then Cookie(other, c.value) else c] + Renamed(cookies[1..], name, other)
  }

  function Mapped(cookies: seq<Cookie>, frontend: string, backend: string): seq<Cookie> {
    match CookieOf(cookies, frontend)
    case None => cookies
    case Some(ec) =>
      if CookieOf(cookies, backend).Some? then Revalued(cookies, backend, ec.value)
      else Renamed(cookies, frontend, backend)
  }

  /** The request's cookies with one replaced. */
  function Replaced(cookies: seq<Cookie>, c: Cookie): seq<Cookie> {
    Others(cookies, {c.name}) + [c]
  }

  lemma OthersNext(cookies: seq<Cookie>, i: nat, kept: seq<Cookie>, names: set<string>)
    requires i < |cookies|
    ensures kept + Others(cookies[i..], names) ==
            (if cookies[i].name in names then kept else kept + [cookies[i]]) + Others(cookies[i + 1..], names)
  {
    assert cookies[i..][1..] == cookies[i + 1..];
  }

  class ClientRequest {
    var cookies: seq<Cookie>
    var headers: map<string, string>

    constructor (cookies: seq<Cookie>, headers: map<string, string>)
      ensures this.cookies == cookies && this.headers == headers
    {
      this.cookies, this.headers := cookies, headers;
    }

    method AddCookie(c: Cookie)
      modifies this`cookies
      ensures cookies == old(cookies) + [c]
    {
      cookies := cookies + [c];
    }

    method MapFrontendCookieToBackend(frontendCookie: string, backendCookie: string)
      modifies this`cookies
      ensures cookies == Mapped(old(cookies), frontendCookie, backendCookie)
    {
      if CookieOf(cookies, frontendCookie) == None {
        return;
      }
      var ec := CookieOf(cookies, frontendCookie).value;
      if CookieOf(cookies, backendCookie).Some? {
        SetValues(backendCookie, ec.value);
      } else {
        Rename(frontendCookie, backendCookie);
      }
    }

    method SetValues(name: string, value: string)
      modifies this`cookies
      ensures cookies == Revalued(old(cookies), name, value)
    {
      var allCookies := cookies;
      cookies := [];
      for i := 0 to |allCookies|
        invariant cookies + Revalued(allCookies[i..], name, value) == Revalued(allCookies, name, value)
      {
        var c := allCookies[i];
        if c.name == name {
          c := c.(value := value);
        }
        assert allCookies[i..][1..] == allCookies[i + 1..];
        ghost var later := Revalued(allCookies[i + 1..], name, value);
        assert cookies + ([c] + later) == (cookies + [c]) + later;
        AddCookie(c);
      }
    }

    method Rename(name: string, other: string)
      modifies this`cookies
      ensures cookies == Renamed(old(cookies), name, other)
    {
      var allCookies := cookies;
      cookies := [];
      for i := 0 to |allCookies|
        invariant cookies + Renamed(allCookies[i..], name, other) == Renamed(allCookies, name, other)
      {
        var c := allCookies[i];
        if c.name == name {
          c := c.(name := other);
        }
        assert allCookies[i..][1..] == allCookies[i + 1..];
        ghost var later := Renamed(allCookies[i + 1..], name, other);
        assert cookies + ([c] + later) == (cookies + [c]) + later;
        AddCookie(c);
      }
    }

    method DeleteCookie(name: string)
      modifies this`cookies
      ensures cookies == Others(old(cookies), {name})
    {
      var kept: seq<Cookie> := [];
      for i := 0 to |cookies|
        invariant cookies == old(cookies)
        invariant kept + Others(cookies[i..], {name}) == Others(cookies, {name})
      {
        OthersNext(cookies, i, kept, {name});
        if cookies[i].name != name {
          kept := kept + [cookies[i]];
        }
      }
      cookies := kept;
    }

    /** The cookies part of `ProcessReqHeaders`: the session is passed either in a header of its own or as
        the backend's cookie. */
    method ProcessReqHeaders(frontendCookie: string, authCookie: string, useHeaderXApiKey: bool)
      modifies this
      ensures cookies == if useHeaderXApiKey then old(cookies) else Mapped(old(cookies), frontendCookie, authCookie)
      ensures headers == if useHeaderXApiKey
                         then old(headers)["X-Api-Key" := SessionText(old(cookies), frontendCookie, authCookie)]
                         else old(headers)
    {
      var mapped := CookieOf(cookies, frontendCookie).Some?;
      if useHeaderXApiKey {
        var value := CookieValue(cookies, if mapped then frontendCookie else authCookie);
        headers := headers["X-Api-Key" := value];
      } else if mapped {
        MapFrontendCookieToBackend(frontendCookie, authCookie);
      }
    }

    /** Applying the fallback cookie. */
    method Replace(c: Cookie)
      modifies this`cookies
      ensures cookies == Replaced(old(cookies), c)
    {
      DeleteCookie(c.name);
      AddCookie(c);
    }
  }

  /** The value of the first cookie of a name, empty if there is none. */
  function CookieValue(cookies: seq<Cookie>, name: string): string {
    if cookies == [] then "" else if cookies[0].name == name then cookies[0].value else CookieValue(cookies[1..], name)
  }

  function SessionText(cookies: seq<Cookie>, frontend: string, auth: string): string {
    CookieValue(cookies, if CookieOf(cookies, frontend).Some? then frontend else auth)
  }

  // ----- what mapping means -----

  /** The session is the same whichever way it is passed: the header holds the value that the backend would find
      under its own cookie's name after the mapping. */
  lemma HeaderEqualsCookie(cookies: seq<Cookie>, frontend: string, auth: string)
    requires auth != "" && (CookieOf(cookies, frontend).Some? || CookieOf(cookies, auth).Some?)
    ensures CookieOf(Mapped(cookies, frontend, auth), auth).Some?
    ensures CookieOf(Mapped(cookies, frontend, auth), auth).value.value == SessionText(cookies, frontend, auth)
  {
    MappingPassesSession(cookies, frontend, auth);
    FirstValue(cookies, frontend);
    FirstValue(cookies, auth);
  }

  lemma {:induction false} FirstValue(cookies: seq<Cookie>, name: string)
    ensures CookieOf(cookies, name).Some? ==> CookieValue(cookies, name) == CookieOf(cookies, name).value.value
    ensures CookieOf(cookies, name) == None && name != "" ==> CookieValue(cookies, name) == ""
  {
    if cookies != [] && cookies[0].name != name {
      FirstValue(cookies[1..], name);
    }
  }

  lemma {:induction false} RevaluedFacts(cookies: seq<Cookie>, name: string, value: string, other: string)
    requires name != other
    ensures Others(Revalued(cookies, name, value), {name, other}) == Others(cookies, {name, other})
    ensures CookieOf(Revalued(cookies, name, value), other) == CookieOf(cookies, other)
    ensures Revalued(Revalued(cookies, name, value), name, value) == Revalued(cookies, name, value)
  {
    if cookies != [] {
      RevaluedFacts(cookies[1..], name, value, other);
    }
  }

  lemma {:induction false} RevaluedFirst(cookies: seq<Cookie>, name: string, value: string)
    ensures CookieOf(Revalued(cookies, name, value), name) ==
            if CookieOf(cookies, name).Some? then Some(Cookie(name, value)) else None
    ensures Others(Revalued(cookies, name, value), {name}) == Others(cookies, {name})
    ensures Revalued(Revalued(cookies, name, value), name, value) == Revalued(cookies, name, value)
  {
    if cookies != [] {
      RevaluedFirst(cookies[1..], name, value);
    }
  }

  lemma {:induction false} RenamedFacts(cookies: seq<Cookie>, name: string, other: string)
    requires name != other && name != "" && other != "" && CookieOf(cookies, other) == None
    ensures Others(Renamed(cookies, name, other), {name, other}) == Others(cookies, {name, other})
    ensures CookieOf(Renamed(cookies, name, other), name) == None
    ensures CookieOf(Renamed(cookies, name, other), other) ==
            match CookieOf(cookies, name) case Some(c) => Some(Cookie(other, c.value)) case None => None
  {
    if cookies != [] {
      RenamedFacts(cookies[1..], name, other);
    }
  }

  lemma {:induction false} CookieOfNamed(cookies: seq<Cookie>, name: string)
    ensures CookieOf(cookies, name).Some? ==> name != "" && CookieOf(cookies, name).value.name == name
  {
    if cookies != [] {
      CookieOfNamed(cookies[1..], name);
    }
  }

  /** When the frontend cookie is present, the backend finds its first value under the backend's name;
      all other cookies keep their order and values, and none is added or lost. */
  lemma MappingPassesSession(cookies: seq<Cookie>, frontend: string, backend: string)
    requires backend != ""
    ensures |Mapped(cookies, frontend, backend)| == |cookies|
    ensures Others(Mapped(cookies, frontend, backend), {frontend, backend}) == Others(cookies, {frontend, backend})
    ensures CookieOf(cookies, frontend).Some? ==>
              CookieOf(Mapped(cookies, frontend, backend), backend) ==
              Some(Cookie(backend, CookieOf(cookies, frontend).value.value))
    ensures CookieOf(cookies, frontend) == None ==> Mapped(cookies, frontend, backend) == cookies
  {
    CookieOfNamed(cookies, frontend);
    if CookieOf(cookies, frontend).Some? {
      var value := CookieOf(cookies, frontend).value.value;
      if CookieOf(cookies, backend).Some? {
        RevaluedFirst(cookies, backend, value);
        if frontend != backend {
          RevaluedFacts(cookies, backend, value, frontend);
          assert {frontend, backend} == {backend, frontend};
        } else {
          assert {frontend, backend} == {backend};
        }
      } else {
        RenamedFacts(cookies, frontend, backend);
      }
    }
  }

  /** Mapping a second time, as happens to requests for Treq, changes nothing. */
  lemma MappingTwice(cookies: seq<Cookie>, frontend: string, backend: string)
    requires backend != ""
    ensures Mapped(Mapped(cookies, frontend, backend), frontend, backend) == Mapped(cookies, frontend, backend)
  {
    CookieOfNamed(cookies, frontend);
    if CookieOf(cookies, frontend).Some? {
      var value := CookieOf(cookies, frontend).value.value;
      if CookieOf(cookies, backend).Some? {
        RevaluedFirst(cookies, backend, value);
        if frontend != backend {
          RevaluedFacts(cookies, backend, value, frontend);
        }
      } else {
        RenamedFacts(cookies, frontend, backend);
      }
    }
  }

  lemma {:induction false} OthersHasNone(cookies: seq<Cookie>, name: string, more: seq<Cookie>)
    ensures CookieOf(Others(cookies, {name}) + more, name) == CookieOf(more, name)
    ensures Named(Others(cookies, {name}) + more, name) == Named(more, name)
  {
    if cookies == [] {
      assert [] + more == more;
    } else {
      OthersHasNone(cookies[1..], name, more);
      var rest := Others(cookies[1..], {name}) + more;
      if cookies[0].name != name {
        assert Others(cookies, {name}) + more == [cookies[0]] + rest;
      } else {
        assert Others(cookies, {name}) + more == rest;
      }
    }
  }

  /** Deleting cookies by name keeps all others of every other name, in order. */
  lemma {:induction false} OthersKeepNamed(cookies: seq<Cookie>, names: set<string>, other: string)
    ensures Named(Others(cookies, names), other) == if other in names then [] else Named(cookies, other)
    ensures |Others(cookies, names)| <= |cookies|
  {
    if cookies != [] {
      var rest := Others(cookies[1..], names);
      OthersKeepNamed(cookies[1..], names, other);
      if cookies[0].name in names {
        assert Others(cookies, names) == rest;
        assert [] + Named(cookies[1..], other) == Named(cookies[1..], other);
      } else {
        assert Others(cookies, names) == [cookies[0]] + rest && ([cookies[0]] + rest)[1..] == rest;
      }
    }
  }

  lemma {:induction false} OthersKeepsRest(cookies: seq<Cookie>, name: string, other: string, more: seq<Cookie>)
    requires name != other
    ensures CookieOf(Others(cookies, {name}) + more, other) == CookieOf(cookies + more, other)
  {
    if cookies == [] {
      assert [] + more == more;
    } else {
      OthersKeepsRest(cookies[1..], name, other, more);
      assert cookies + more == [cookies[0]] + (cookies[1..] + more);
      var rest := Others(cookies[1..], {name}) + more;
      if cookies[0].name != name {
        assert Others(cookies, {name}) + more == [cookies[0]] + rest;
      } else {
        assert Others(cookies, {name}) + more == rest;
      }
    }
  }

  lemma {:induction false} CookieOfConcat(cookies: seq<Cookie>, c: Cookie, name: string)
    requires c.name != name
    ensures CookieOf(cookies + [c], name) == CookieOf(cookies, name)
  {
    if cookies != [] {
      assert (cookies + [c])[1..] == cookies[1..] + [c];
      CookieOfConcat(cookies[1..], c, name);
    }
  }

  /** After a cookie has been replaced it is the only one of its name, and other names are untouched. */
  lemma ReplacedIsOnlyOne(cookies: seq<Cookie>, c: Cookie, other: string)
    requires c.name != ""
    ensures Named(Replaced(cookies, c), c.name) == [c]
    ensures CookieOf(Replaced(cookies, c), c.name) == Some(c)
    ensures other != c.name ==> CookieOf(Replaced(cookies, c), other) == CookieOf(cookies, other)
  {
    OthersHasNone(cookies, c.name, [c]);
    assert [c][1..] == [];
    if other != c.name {
      OthersKeepsRest(cookies, c.name, other, [c]);
      CookieOfConcat(cookies, c, other);
    }
  }

  /** What a Treq request sends to the backend: the fallback cookie is applied first, and the frontend
      cookie mapped afterwards. */
  function SentByAnyPath(cookies: seq<Cookie>, fallback: Cookie, frontend: string, useHeaderXApiKey: bool)
    : seq<Cookie>
  {
    var applied := Replaced(cookies, fallback);
    var processed := if useHeaderXApiKey then applied else Mapped(applied, frontend, fallback.name);
    Mapped(processed, frontend, fallback.name)
  }

  /** Queries with examples apply the fallback cookie once more, after the mapping. */
  function SentByWithExamples(mapped: seq<Cookie>, fallback: Cookie): seq<Cookie> {
    Replaced(mapped, fallback)
  }

  /** The backend receives the fallback session exactly when the request does not bring a frontend cookie
      of another value. A frontend cookie that names no session, which is why the fallback is needed,
      replaces the fallback again. With examples it is always received. */
  lemma FallbackReachesBackendIff(cookies: seq<Cookie>, fallback: Cookie, frontend: string, useHeaderXApiKey: bool)
    requires fallback.name != ""
    ensures CookieOf(SentByAnyPath(cookies, fallback, frontend, useHeaderXApiKey), fallback.name) == Some(fallback)
            <==> frontend == fallback.name || CookieOf(cookies, frontend) == None ||
                 CookieOf(cookies, frontend).value.value == fallback.value
    ensures var sent := SentByAnyPath(cookies, fallback, frontend, useHeaderXApiKey);
            CookieOf(SentByWithExamples(sent, fallback), fallback.name) == Some(fallback)
  {
    ReplacedIsOnlyOne(SentByAnyPath(cookies, fallback, frontend, useHeaderXApiKey), fallback, frontend);
    var applied := Replaced(cookies, fallback);
    ReplacedIsOnlyOne(cookies, fallback, frontend);
    MappingTwice(applied, frontend, fallback.name);
    MappingPassesSession(applied, frontend, fallback.name);
  }
}
