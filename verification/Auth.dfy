/** Session values and the evaluation of a request by the CNC guard. */
module Auth {
  import opened Text
  import opened CacheId
  import opened Cookies

  datatype SessionType = CNC | Simple | NoSession

  datatype Session = CNCSession(selector: string, validator: string) | SimpleSession(value: string) | NoneSession

  function SessionFrom(kind: SessionType, v: string): Session {
    match kind
    case CNC =>
      var i := IndexOf(v, '-');
      if i < |v| then CNCSession(v[..i], v[i + 1..]) else CNCSession("", "")
    case Simple => SimpleSession(v)
    case NoSession => NoneSession
  }

  predicate IsZero(s: Session) {
    match s
    case CNCSession(selector, validator) => selector == "" && validator == ""
    case SimpleSession(value) => value == ""
    case NoneSession => true
  }

  function SessionString(s: Session): string {
    match s
    case CNCSession(selector, validator) => selector + "-" + validator
    case SimpleSession(value) => value
    case NoneSession => ""
  }

  /** The text of a session value gives back the value exactly when the selector has no dash. */
  lemma CNCRoundTrip(s: Session)
    requires s.CNCSession?
    ensures SessionFrom(CNC, SessionString(s)) == s <==> '-' !in s.selector
  {
    var v := SessionString(s);
    assert v[|s.selector|] == '-';
    if '-' !in s.selector {
      assert v == s.selector + ("-" + s.validator);
      IndexOfNone(s.selector, "-" + s.validator, '-');
      assert v[..|s.selector|] == s.selector && v[|s.selector| + 1..] == s.validator;
    } else {
      var i :| 0 <= i < |s.selector| && s.selector[i] == '-';
      assert v[i] == '-';
      assert |v[..IndexOf(v, '-')]| <= i;
    }
  }

  /** Conversely, a text is kept exactly when it has a dash; all others become the zero value. */
  lemma CNCTextRoundTrip(v: string)
    ensures SessionString(SessionFrom(CNC, v)) == v <==> '-' in v
    ensures '-' !in v ==> IsZero(SessionFrom(CNC, v))
  {
    var i := IndexOf(v, '-');
    if i < |v| {
      assert v == v[..i] + "-" + v[i + 1..];
    } else {
      assert forall k :: 0 <= k < |v| ==> v[k] != '-';
      assert (SessionString(SessionFrom(CNC, v)))[0] == '-';
    }
  }

  datatype User = Invalid | Valid(id: nat)

  /** What a lookup of a session leads to. */
  datatype Finding = Found(user: User) | LookupFailed

  datatype BanTest = NotBanned | Banned | BanTestFailed

  /** Everything about a request and its surroundings that decides its evaluation. */
  datatype Case = Case(cookies: seq<Cookie>, clientIP: string, allowed: bool, ban: BanTest)

  /** `session` is empty when none is reported. */
  datatype Evaluation = Evaluation(status: int, client: User, session: string, failed: bool,
                                   requiresFallbackCookie: bool)

  predicate ForbidsAccess(e: Evaluation) {
    400 <= e.status < 500
  }

  /** The codes of three digits that begin with 4. */
  lemma ForbidsIff(e: Evaluation)
    ensures ForbidsAccess(e) <==> e.status / 100 == 4
  {}

  /** `find` says whom a session value belongs to; `invalidUserIsOK` is a property of the finder. */
  datatype GuardConf = GuardConf(backendCookie: string, frontendCookie: string, kind: SessionType, hasLimits: bool,
                                 invalidUserIsOK: bool, find: Session -> Finding)

  function FrontendOrBackendSession(conf: GuardConf, cookies: seq<Cookie>): (Session, bool) {
    var front := SessionFrom(conf.kind, CookieValue(cookies, conf.frontendCookie));
    if !IsZero(front) then (front, true)
    else (SessionFrom(conf.kind, CookieValue(cookies, conf.backendCookie)), false)
  }

  /** The session the request is evaluated with, if there is one. */
  function SessionUsed(conf: GuardConf, cookies: seq<Cookie>, fallback: Option<Cookie>): Option<Session> {
    var own := FrontendOrBackendSession(conf, cookies).0;
    if !IsZero(own) then Some(own)
    else match fallback case None => None case Some(c) => Some(SessionFrom(CNC, c.value))
  }

  class Guard {
    const conf: GuardConf
    var rateLimiters: set<string>

    constructor (conf: GuardConf)
      ensures this.conf == conf && rateLimiters == {}
    {
      this.conf := conf;
      rateLimiters := {};
    }

    method EvaluateRequest(c: Case, fallbackCookie: Option<Cookie>) returns (e: Evaluation)
      modifies this
      ensures e == Evaluate(conf, c, fallbackCookie)
      ensures rateLimiters == old(rateLimiters) + (if TakesToken(conf, c, fallbackCookie) then {c.clientIP} else {})
    {
      var requiresFallbackCookie := false;
      var cookieValue := FrontendOrBackendSession(conf, c.cookies).0;
      if IsZero(cookieValue) {
        requiresFallbackCookie := true;
        if fallbackCookie == None {
          return Evaluation(401, Invalid, "", true, true);
        }
        cookieValue := SessionFrom(CNC, fallbackCookie.value.value);
      }
      var finding := conf.find(SessionFrom(conf.kind, SessionString(cookieValue)));
      if finding.LookupFailed? {
        return Evaluation(500, Invalid, "", true, requiresFallbackCookie);
      }
      if finding.user == Invalid {
        if conf.invalidUserIsOK {
          return Evaluation(200, Invalid, "", false, false);
        }
        return Evaluation(401, Invalid, "", false, true);
      }
      if conf.hasLimits {
        rateLimiters := rateLimiters + {c.clientIP};
        if !c.allowed {
          return Evaluation(429, finding.user, SessionString(cookieValue), false, requiresFallbackCookie);
        }
      }
      match c.ban
      case BanTestFailed => return Evaluation(500, Invalid, "", true, requiresFallbackCookie);
      case Banned => return Evaluation(403, Invalid, "", false, requiresFallbackCookie);
      case NotBanned =>
        return Evaluation(200, finding.user, SessionString(cookieValue), false, requiresFallbackCookie);
    }
  }

  /** Whom the session a request is evaluated with belongs to; `None` when there is no session. */
  function Identified(conf: GuardConf, c: Case, fallback: Option<Cookie>): Option<Finding> {
    match SessionUsed(conf, c.cookies, fallback)
    case None => None
    case Some(s) => Some(conf.find(SessionFrom(conf.kind, SessionString(s))))
  }

  predicate TakesToken(conf: GuardConf, c: Case, fallback: Option<Cookie>) {
    match Identified(conf, c, fallback)
    case Some(Found(Valid(_))) => conf.hasLimits
    case _ => false
  }

  /** Own sessions are tried before the fallback cookie; then the user, the rate and the ban decide. */
  function Evaluate(conf: GuardConf, c: Case, fallback: Option<Cookie>): Evaluation {
    var lacksOwn := IsZero(FrontendOrBackendSession(conf, c.cookies).0);
    match Identified(conf, c, fallback)
    case None => Evaluation(401, Invalid, "", true, true)
    case Some(LookupFailed) => Evaluation(500, Invalid, "", true, lacksOwn)
    case Some(Found(Invalid)) =>
      if conf.invalidUserIsOK then Evaluation(200, Invalid, "", false, false)
      else Evaluation(401, Invalid, "", false, true)
    case Some(Found(user)) =>
      if conf.hasLimits && !c.allowed then
        Evaluation(429, user, SessionString(SessionUsed(conf, c.cookies, fallback).value), false, lacksOwn)
      else
        match c.ban
        case BanTestFailed => Evaluation(500, Invalid, "", true, lacksOwn)
        case Banned => Evaluation(403, Invalid, "", false, lacksOwn)
        case NotBanned =>
          Evaluation(200, user, SessionString(SessionUsed(conf, c.cookies, fallback).value), false, lacksOwn)
  }

  /** Which sessions are none. */
  lemma ZeroIff(kind: SessionType, v: string)
    ensures IsZero(SessionFrom(kind, v)) <==>
            match kind
            case CNC => '-' !in v || v == "-"
            case Simple => v == ""
            case NoSession => true
  {
    if kind == CNC {
      CNCTextRoundTrip(v);
      assert '-' in v && v != "-" ==> |v| > 1;
    }
  }

  lemma LookedUpAsIs(kind: SessionType, v: string)
    ensures SessionFrom(kind, SessionString(SessionFrom(kind, v))) == SessionFrom(kind, v)
  {
    if kind == CNC {
      CNCRoundTrip(SessionFrom(CNC, v));
    }
  }

  /** Whom a request is made for: the owner of the frontend cookie's session if that is one; or else of the backend
      cookie's; or else of the fallback cookie's, read as a CNC session; or else nobody. */
  lemma WhoIsAsked(conf: GuardConf, c: Case, fallback: Option<Cookie>)
    ensures var front := SessionFrom(conf.kind, CookieValue(c.cookies, conf.frontendCookie));
            var back := SessionFrom(conf.kind, CookieValue(c.cookies, conf.backendCookie));
            Identified(conf, c, fallback) ==
            if !IsZero(front) then Some(conf.find(front))
            else if !IsZero(back) then Some(conf.find(back))
            else if fallback == None then None
            else Some(conf.find(SessionFrom(conf.kind, SessionString(SessionFrom(CNC, fallback.value.value)))))
    ensures FrontendOrBackendSession(conf, c.cookies).1 <==>
            !IsZero(SessionFrom(conf.kind, CookieValue(c.cookies, conf.frontendCookie)))
  {
    LookedUpAsIs(conf.kind, CookieValue(c.cookies, conf.frontendCookie));
    LookedUpAsIs(conf.kind, CookieValue(c.cookies, conf.backendCookie));
  }

  /** A valid user is found, and is not over the limit. */
  predicate MayPass(conf: GuardConf, c: Case, fallback: Option<Cookie>) {
    && Identified(conf, c, fallback).Some? && Identified(conf, c, fallback).value.Found?
    && Identified(conf, c, fallback).value.user.Valid? && (conf.hasLimits ==> c.allowed)
  }

  /** Each status has its reason: nobody to ask or an unknown user; too many requests of a known user; a ban of a
      known user within the limit; a failed lookup or ban test; and only for the rest acceptance. */
  lemma StatusIff(conf: GuardConf, c: Case, fallback: Option<Cookie>)
    ensures var e, asked := Evaluate(conf, c, fallback), Identified(conf, c, fallback);
            && (e.status == 401 <==> asked == None || (asked == Some(Found(Invalid)) && !conf.invalidUserIsOK))
            && (e.status == 429 <==> asked.Some? && asked.value.Found? && asked.value.user.Valid? &&
                                     conf.hasLimits && !c.allowed)
            && (e.status == 403 <==> MayPass(conf, c, fallback) && c.ban == Banned)
            && (e.status == 500 <==> asked == Some(LookupFailed) ||
                                     (MayPass(conf, c, fallback) && c.ban == BanTestFailed))
            && (e.status == 200 <==> (asked == Some(Found(Invalid)) && conf.invalidUserIsOK) ||
                                     (MayPass(conf, c, fallback) && c.ban == NotBanned))
            && (e.failed <==> e.status == 500 || asked == None)
  {}

  /** The user and the session are reported of a request that is accepted for a valid user or over the limit; no
      others are named. The fallback cookie is asked for when the request had no session of its own or its user is
      unknown, except where unknown users will do. */
  lemma ReportsWhom(conf: GuardConf, c: Case, fallback: Option<Cookie>)
    ensures var e, asked := Evaluate(conf, c, fallback), Identified(conf, c, fallback);
            var own := FrontendOrBackendSession(conf, c.cookies).0;
            && (if asked.Some? && asked.value != Found(Invalid) && (e.status == 200 || e.status == 429)
                then asked.value == Found(e.client) && e.client.Valid? &&
                     e.session == SessionString(if IsZero(own) then SessionFrom(CNC, fallback.value.value) else own)
                else e.client == Invalid && e.session == "")
            && (e.requiresFallbackCookie <==>
                  if asked == Some(Found(Invalid)) then !conf.invalidUserIsOK else IsZero(own))
  {
    hide SessionFrom, SessionString, IsZero, CookieValue;
  }

  /** Nobody gets in who is banned or over the limit. */
  lemma AcceptedMeans(conf: GuardConf, c: Case, fallback: Option<Cookie>)
    requires Evaluate(conf, c, fallback).status == 200 && Evaluate(conf, c, fallback).client.Valid?
    ensures c.ban == NotBanned && (conf.hasLimits ==> c.allowed)
    ensures Identified(conf, c, fallback) == Some(Found(Evaluate(conf, c, fallback).client))
  {
    StatusIff(conf, c, fallback);
    ReportsWhom(conf, c, fallback);
  }

  /** A token is taken from the client's limiter exactly for the requests of known users. */
  lemma TokenIff(conf: GuardConf, c: Case, fallback: Option<Cookie>)
    ensures TakesToken(conf, c, fallback) <==>
            conf.hasLimits && exists id :: Identified(conf, c, fallback) == Some(Found(Valid(id)))
  {
    if TakesToken(conf, c, fallback) {
      var id := Identified(conf, c, fallback).value.user.id;
      assert Identified(conf, c, fallback) == Some(Found(Valid(id)));
    }
  }

  /** The request's own session is there and not refused for lack of a valid user. */
  predicate OwnSessionAccepted(conf: GuardConf, cookies: seq<Cookie>) {
    var own := FrontendOrBackendSession(conf, cookies).0;
    && !IsZero(own)
    && (conf.find(SessionFrom(conf.kind, SessionString(own))) != Found(Invalid) || conf.invalidUserIsOK)
  }

  /** Status 401 always asks for the fallback cookie; any other status asks for it only when it is there
      and was used. */
  lemma FallbackIsRequired(conf: GuardConf, c: Case, fallback: Option<Cookie>)
    ensures var e := Evaluate(conf, c, fallback);
            && (e.status == 401 ==> e.requiresFallbackCookie)
            && (e.status != 401 && e.requiresFallbackCookie ==>
                  && fallback.Some?
                  && SessionUsed(conf, c.cookies, fallback) == Some(SessionFrom(CNC, fallback.value.value)))
  {}

  /** The description of the field promises that the fallback cookie is only asked for when it is defined.
      That holds exactly when the cookie is defined or the request's own session is accepted. */
  lemma FallbackIsDefinedIff(conf: GuardConf, c: Case, fallback: Option<Cookie>)
    ensures (Evaluate(conf, c, fallback).requiresFallbackCookie ==> fallback.Some?) <==>
            fallback.Some? || OwnSessionAccepted(conf, c.cookies)
  {
    var own := FrontendOrBackendSession(conf, c.cookies).0;
    if fallback == None && !IsZero(own) {
      assert SessionUsed(conf, c.cookies, fallback) == Some(own);
    }
  }

  /** A request without cookies, before the first login, asks for a fallback cookie that is not there. */
  lemma FirstRequestLacksFallback(conf: GuardConf, clientIP: string, allowed: bool, ban: BanTest)
    ensures var e := Evaluate(conf, Case([], clientIP, allowed, ban), None);
            e.requiresFallbackCookie && e.status == 401
    ensures !OwnSessionAccepted(conf, [])
  {
    assert SessionFrom(conf.kind, "") == match conf.kind
                                         case CNC => CNCSession("", "")
                                         case Simple => SimpleSession("")
                                         case NoSession => NoneSession;
  }

  /** The fallback cookie's value is read as a CNC session whatever kind of session is configured. It is
      looked up as it stands exactly when that does no harm: for a plain session value without a dash, it
      is lost. */
  lemma FallbackValueIsKeptIff(kind: SessionType, v: string)
    ensures SessionFrom(kind, SessionString(SessionFrom(CNC, v))) == SessionFrom(kind, v) <==>
            kind != Simple || '-' in v
  {
    CNCTextRoundTrip(v);
    CNCTextRoundTrip("-");
  }

  /** A frontend cookie that is no session lets the guard accept the request on behalf of the fallback user,
      and then keeps the backend from seeing the fallback session. */
  lemma UselessCookieHidesFallback(conf: GuardConf, c: Case, fallback: Cookie, id: nat, useHeaderXApiKey: bool)
    requires conf.kind == CNC && fallback.name == conf.backendCookie && conf.backendCookie != ""
    requires CookieOf(c.cookies, conf.frontendCookie).Some? && conf.frontendCookie != conf.backendCookie
    requires '-' !in CookieOf(c.cookies, conf.frontendCookie).value.value
    requires '-' !in CookieValue(c.cookies, conf.backendCookie)
    requires '-' in fallback.value && conf.find(SessionFrom(CNC, fallback.value)) == Found(Valid(id))
    requires (conf.hasLimits ==> c.allowed) && c.ban == NotBanned
    ensures var e := Evaluate(conf, c, Some(fallback));
            e.status == 200 && e.client == Valid(id) && e.requiresFallbackCookie
    ensures CookieOf(SentByAnyPath(c.cookies, fallback, conf.frontendCookie, useHeaderXApiKey), fallback.name)
            != Some(fallback)
  {
    var front := CookieOf(c.cookies, conf.frontendCookie).value.value;
    FirstValue(c.cookies, conf.frontendCookie);
    CNCTextRoundTrip(front);
    CNCTextRoundTrip(CookieValue(c.cookies, conf.backendCookie));
    CNCTextRoundTrip(fallback.value);
    assert SessionUsed(conf, c.cookies, Some(fallback)) == Some(SessionFrom(CNC, fallback.value));
    FallbackReachesBackendIff(c.cookies, fallback, conf.frontendCookie, useHeaderXApiKey);
  }

  /** For instance a frontend cookie with the value "x". */
  lemma CookieXHidesFallback(conf: GuardConf, useHeaderXApiKey: bool)
    requires conf == GuardConf("backend", "frontend", CNC, false, false, conf.find)
    requires conf.find(CNCSession("a", "b")) == Found(Valid(1))
    ensures var cookies, fallback := [Cookie("frontend", "x")], Cookie("backend", "a-b");
            var e := Evaluate(conf, Case(cookies, "", true, NotBanned), Some(fallback));
            && e.status == 200 && e.requiresFallbackCookie
            && CookieOf(SentByAnyPath(cookies, fallback, "frontend", useHeaderXApiKey), "backend") != Some(fallback)
  {
    var cookies, fallback := [Cookie("frontend", "x")], Cookie("backend", "a-b");
    assert CookieOf(cookies, "frontend") == Some(cookies[0]);
    assert cookies[1..] == [] && CookieValue(cookies, "backend") == "";
    assert "a-b"[1] == '-' && IndexOf("a-b", '-') == 1;
    assert "a-b"[..1] == "a" && "a-b"[2..] == "b";
    UselessCookieHidesFallback(conf, Case(cookies, "", true, NotBanned), fallback, 1, useHeaderXApiKey);
  }
}
