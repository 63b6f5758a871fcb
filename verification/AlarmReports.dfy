/** The reports of whole runs of `AlarmTicker`, with users being deleted and starting over: what stands
    behind a report, and how far reports about one user are apart. */
module AlarmReports {
  import opened Text
  import opened Ring
  import opened Counter
  import opened Decay
  import opened Alarms
  import opened AlarmRuns

  /** The times of all requests a user made in a run. */
  function Requests(events: seq<Event>, key: string): seq<Time> {
    if events == [] then []
    else
      var n := |events| - 1;
      Requests(events[..n], key) +
      (if events[n].Request? && events[n].user == key then [events[n].at] else [])
  }

  /** The reports an event leads to. */
  function ReportsOf(sv: Service, users: map<string, User>, e: Event): seq<Report>
    requires IsService(sv) && IsEvent(sv, e)
  {
    if e.Request? then Process(sv, users, e.user, e.at, e.order).reports else []
  }

  /** The reports about a user in a run with cleanups. */
  function Reported(sv: Service, m: int, events: seq<Event>, key: string): seq<Report>
    requires IsService(sv) && WellTimed(sv, events)
  {
    if events == [] then []
    else
      var n := |events| - 1;
      var e := events[n];
      Reported(sv, m, events[..n], key) +
      if e.Request? && e.user == key then ReportsOf(sv, UsersAfter(sv, m, events[..n], true), e) else []
  }

  // ----- every report is backed by a real overrun -----

  /** In the window of `interval` seconds that ended when event `k` came, the user had made at least
      `bound` requests. */
  predicate Overran(events: seq<Event>, key: string, interval: int, k: nat, bound: real) {
    && k < |events| && events[k].Request? && events[k].user == key
    && CountAfter(Requests(events[..k + 1], key), events[k].at - interval as real) as real >= bound
  }

  predicate Explains(events: seq<Event>, key: string, interval: int, limit: int, k: nat, x: Exceeding) {
    && k < |events| && events[k].at == x.at
    && (x.value > 0 ==> Overran(events, key, interval, k, (limit + x.value) as real))
  }

  ghost predicate Explainable(events: seq<Event>, key: string, interval: int, limit: int, x: Exceeding) {
    exists k: nat :: Explains(events, key, interval, limit, k, x)
  }

  ghost predicate Explained(events: seq<Event>, key: string, interval: int, limit: int, list: seq<Exceeding>) {
    forall i :: 0 <= i < |list| ==> Explainable(events, key, interval, limit, list[i])
  }

  ghost predicate IsSuffix(s: seq<Time>, all: seq<Time>) {
    |s| <= |all| && all[|all| - |s|..] == s
  }

  /** The stored measurements of a user come from real requests. */
  ghost predicate Sound(sv: Service, events: seq<Event>, key: string, u: User) {
    && IsSuffix(u.requests, Requests(events, key))
    && forall i <- sv.limits :: Explained(events, key, i, sv.limits[i], ListOf(u.lists, i))
  }

  predicate BackedBy(events: seq<Event>, r: Report, bound: real, k: nat) {
    k < |events| && r.created - events[k].at <= r.interval as real && Overran(events, r.user, r.interval, k, bound)
  }

  /** What counts as an overrun worth a report. */
  function Raised(limit: int, threshold: real): real {
    (1.0 + threshold) * limit as real
  }

  ghost predicate BackedUpTo(events: seq<Event>, r: Report, bound: real) {
    exists k: nat :: BackedBy(events, r, bound, k)
  }

  ghost predicate Backed(sv: Service, events: seq<Event>, r: Report) {
    BackedUpTo(events, r, Raised(r.limit, sv.conf.threshold))
  }

  lemma ExplainsStill(events: seq<Event>, e: Event, key: string, interval: int, limit: int, k: nat, x: Exceeding)
    requires Explains(events, key, interval, limit, k, x)
    ensures Explains(events + [e], key, interval, limit, k, x)
  {
    assert (events + [e])[..k + 1] == events[..k + 1];
  }

  lemma ExplainedStill(events: seq<Event>, e: Event, key: string, interval: int, limit: int, list: seq<Exceeding>)
    requires Explained(events, key, interval, limit, list)
    ensures Explained(events + [e], key, interval, limit, list)
  {
    forall i | 0 <= i < |list| ensures Explainable(events + [e], key, interval, limit, list[i]) {
      var k: nat :| Explains(events, key, interval, limit, k, list[i]);
      ExplainsStill(events, e, key, interval, limit, k, list[i]);
    }
  }

  lemma SuffixCounts(s: seq<Time>, all: seq<Time>, since: Time)
    requires IsSuffix(s, all)
    ensures CountAfter(s, since) <= CountAfter(all, since)
  {
    var n := |all| - |s|;
    assert all == all[..n] + s;
    CountConcat(all[..n], s, since);
  }

  lemma ExplainedPush(events: seq<Event>, key: string, interval: int, limit: int, list: seq<Exceeding>,
                      x: Exceeding, cap: nat)
    requires Explained(events, key, interval, limit, list) && Explainable(events, key, interval, limit, x)
    ensures Explained(events, key, interval, limit, Push(list, x, cap))
  {}

  /** What the last event, a request of `key`, measures in the bounded list, the whole history confirms. */
  lemma MeasurementExplained(sv: Service, events: seq<Event>, key: string, u: User, c: Check, numReq: nat)
    requires IsService(sv) && c.interval in sv.limits && c.limit == sv.limits[c.interval]
    requires events != [] && events[|events| - 1].Request? && events[|events| - 1].user == key
    requires c.t0 == c.counted == events[|events| - 1].at
    requires Sound(sv, events, key, u) && numReq == CountAfter(u.requests, c.counted - c.interval as real)
    ensures Sound(sv, events, key, Measured(sv.conf, u, c, numReq))
  {
    if numReq >= c.limit {
      var k := |events| - 1;
      var x := Exceeding(Overflow(numReq, c.limit), c.t0);
      assert events[..k + 1] == events;
      SuffixCounts(u.requests, Requests(events, key), c.counted - c.interval as real);
      assert Explains(events, key, c.interval, c.limit, k, x);
      ExplainedPush(events, key, c.interval, c.limit, ListOf(u.lists, c.interval), x, sv.conf.exceedingCap);
    }
  }

  lemma OverrunArithmetic(limit: int, value: nat, threshold: real)
    requires value as real >= threshold * limit as real
    ensures (limit + value) as real >= Raised(limit, threshold)
  {
    var l := limit as real;
    assert (1.0 + threshold) * l == l + threshold * l;
  }

  lemma ExplanationBacks(events: seq<Event>, x: Exceeding, c: Check, r: Report, bound: real)
    requires Explainable(events, r.user, c.interval, c.limit, x)
    requires InWindow(x, c.t0, c.interval) && x.value > 0 && bound <= (c.limit + x.value) as real
    requires r.created == c.t0 && r.interval == c.interval
    ensures BackedUpTo(events, r, bound)
  {
    var k: nat :| Explains(events, r.user, c.interval, c.limit, k, x);
    assert BackedBy(events, r, bound, k);
  }

  lemma ListBacks(sv: Service, events: seq<Event>, key: string, list: seq<Exceeding>, c: Check, r: Report)
    requires IsService(sv) && IsCheck(c) && Explained(events, key, c.interval, c.limit, list)
    requires Relative(list, c.t0, c.interval, c.limit) >= sv.conf.threshold
    requires r.user == key && r.created == c.t0 && r.interval == c.interval && r.limit == c.limit
    ensures Backed(sv, events, r)
  {
    var i := ThresholdIsBacked(list, c.t0, c.interval, c.limit, sv.conf.threshold);
    OverrunArithmetic(c.limit, list[i].value, sv.conf.threshold);
    ExplanationBacks(events, list[i], c, r, Raised(c.limit, sv.conf.threshold));
  }

  ghost predicate AllBacked(sv: Service, events: seq<Event>, rs: seq<Report>) {
    forall i :: 0 <= i < |rs| ==> Backed(sv, events, rs[i])
  }

  lemma CheckBacked(sv: Service, events: seq<Event>, key: string, u: User, c: Check)
    requires IsService(sv) && c.interval in sv.limits && c.limit == sv.limits[c.interval]
    requires events != [] && events[|events| - 1].Request? && events[|events| - 1].user == key
    requires c.t0 == c.counted == events[|events| - 1].at
    requires Sound(sv, events, key, u)
    ensures var r := CheckOne(sv.conf, key, u, c);
            Sound(sv, events, key, r.user) && AllBacked(sv, events, r.reports)
  {
    var numReq := Observe(sv.conf, u, c).numReq;
    MeasurementExplained(sv, events, key, u, c, numReq);
    ObservedAverage(sv.conf, u, c);
    var r := CheckOne(sv.conf, key, u, c);
    if r.reports != [] {
      var list := ListOf(Measured(sv.conf, u, c, numReq).lists, c.interval);
      ListBacks(sv, events, key, list, c, r.reports[0]);
    }
  }

  lemma {:induction false} ChecksBacked(sv: Service, events: seq<Event>, key: string, u: User, cs: seq<Check>)
    requires IsService(sv) && AreChecks(cs)
    requires events != [] && events[|events| - 1].Request? && events[|events| - 1].user == key
    requires forall i :: 0 <= i < |cs| ==>
               && cs[i].interval in sv.limits && cs[i].limit == sv.limits[cs[i].interval]
               && cs[i].t0 == cs[i].counted == events[|events| - 1].at
    requires Sound(sv, events, key, u)
    ensures var r := CheckAll(sv.conf, key, u, cs);
            Sound(sv, events, key, r.user) && AllBacked(sv, events, r.reports)
  {
    if cs != [] {
      var n := |cs| - 1;
      ChecksBacked(sv, events, key, u, cs[..n]);
      CheckBacked(sv, events, key, CheckAll(sv.conf, key, u, cs[..n]).user, cs[n]);
    }
  }

  ghost predicate AllSound(sv: Service, events: seq<Event>, users: map<string, User>) {
    forall key :: Sound(sv, events, key, UserOf(users, key))
  }

  /** A user's state stays sound when any event is added to the history, as long as the user itself does
      not change, or has its new request appended. */
  lemma SoundStill(sv: Service, events: seq<Event>, e: Event, key: string, u: User)
    requires Sound(sv, events, key, u) && IsService(sv)
    ensures e.Request? && e.user == key ==> Sound(sv, events + [e], key, Received(sv.conf, u, e.at))
    ensures !(e.Request? && e.user == key) ==> Sound(sv, events + [e], key, u)
  {
    RequestsStep(events, e, key);
    ListsStill(sv, events, e, key, u.lists);
    SuffixPush(u.requests, Requests(events, key), e.at, sv.conf.requestCap);
    assert Requests(events, key) + [] == Requests(events, key);
  }

  lemma RequestsStep(events: seq<Event>, e: Event, key: string)
    ensures Requests(events + [e], key) ==
            Requests(events, key) + (if e.Request? && e.user == key then [e.at] else [])
  {
    assert (events + [e])[..|events|] == events;
  }

  lemma ListsStill(sv: Service, events: seq<Event>, e: Event, key: string, lists: map<int, seq<Exceeding>>)
    requires forall i <- sv.limits :: Explained(events, key, i, sv.limits[i], ListOf(lists, i))
    ensures forall i <- sv.limits :: Explained(events + [e], key, i, sv.limits[i], ListOf(lists, i))
  {
    forall i <- sv.limits ensures Explained(events + [e], key, i, sv.limits[i], ListOf(lists, i)) {
      ExplainedStill(events, e, key, i, sv.limits[i], ListOf(lists, i));
    }
  }

  lemma SuffixPush(s: seq<Time>, all: seq<Time>, x: Time, cap: nat)
    requires IsSuffix(s, all)
    ensures IsSuffix(Push(s, x, cap), all + [x])
  {}

  lemma RequestSound(sv: Service, events: seq<Event>, e: Event, u: User)
    requires IsService(sv) && e.Request? && IsEvent(sv, e) && Sound(sv, events, e.user, u)
    ensures var r := CheckAll(sv.conf, e.user, Received(sv.conf, u, e.at), ChecksAt(sv, e.order, e.at));
            Sound(sv, events + [e], e.user, r.user) && AllBacked(sv, events + [e], r.reports)
  {
    SoundStill(sv, events, e, e.user, u);
    ChecksBacked(sv, events + [e], e.user, Received(sv.conf, u, e.at), ChecksAt(sv, e.order, e.at));
  }

  lemma EventSound(sv: Service, m: int, events: seq<Event>, e: Event, users: map<string, User>)
    requires IsService(sv) && IsEvent(sv, e) && AllSound(sv, events, users)
    ensures AllSound(sv, events + [e], After(sv, m, users, e, true))
    ensures AllBacked(sv, events + [e], ReportsOf(sv, users, e))
  {
    if e.Request? {
      RequestSound(sv, events, e, UserOf(users, e.user));
    }
    var after := After(sv, m, users, e, true);
    forall key ensures Sound(sv, events + [e], key, UserOf(after, key)) {
      SoundStill(sv, events, e, key, UserOf(users, key));
      NewUserSound(sv, events + [e], key);
      OthersKeep(sv, m, users, e, key);
    }
  }

  /** An event leaves the users it is not about alone, or deletes them. */
  lemma OthersKeep(sv: Service, m: int, users: map<string, User>, e: Event, key: string)
    requires IsService(sv) && IsEvent(sv, e)
    ensures var u := UserOf(After(sv, m, users, e, true), key);
            !(e.Request? && e.user == key) ==> u == UserOf(users, key) || u == NEW_USER
  {}

  lemma NewUserSound(sv: Service, events: seq<Event>, key: string)
    ensures Sound(sv, events, key, NEW_USER)
  {
    var all := Requests(events, key);
    assert all[|all|..] == [];
  }

  lemma {:induction false} RunSound(sv: Service, m: int, events: seq<Event>)
    requires IsService(sv) && WellTimed(sv, events)
    ensures AllSound(sv, events, UsersAfter(sv, m, events, true))
  {
    if events == [] {
      forall key ensures Sound(sv, events, key, NEW_USER) {
        NewUserSound(sv, events, key);
      }
    } else {
      var n := |events| - 1;
      RunSound(sv, m, events[..n]);
      assert events == events[..n] + [events[n]];
      EventSound(sv, m, events[..n], events[n], UsersAfter(sv, m, events[..n], true));
    }
  }

  lemma BackedStill(events: seq<Event>, e: Event, r: Report, bound: real)
    requires BackedUpTo(events, r, bound)
    ensures BackedUpTo(events + [e], r, bound)
  {
    hide CountAfter, Requests;
    var k: nat :| BackedBy(events, r, bound, k);
    assert (events + [e])[..k + 1] == events[..k + 1];
    assert BackedBy(events + [e], r, bound, k);
  }

  lemma AllBackedStill(sv: Service, events: seq<Event>, e: Event, rs: seq<Report>)
    requires AllBacked(sv, events, rs)
    ensures AllBacked(sv, events + [e], rs)
  {
    forall i | 0 <= i < |rs| ensures Backed(sv, events + [e], rs[i]) {
      BackedStill(events, e, rs[i], Raised(rs[i].limit, sv.conf.threshold));
    }
  }

  /** Every report of every run is backed by a real overrun: not longer than the interval before the
      report, a request of that user came such that the user's requests in the interval up to it, counted
      over the whole run, exceed the limit by the threshold. */
  lemma {:induction false} ReportsAreBacked(sv: Service, m: int, events: seq<Event>, key: string)
    requires IsService(sv) && WellTimed(sv, events)
    ensures AllBacked(sv, events, Reported(sv, m, events, key))
  {
    if events != [] {
      var n := |events| - 1;
      var users := UsersAfter(sv, m, events[..n], true);
      ReportsAreBacked(sv, m, events[..n], key);
      RunSound(sv, m, events[..n]);
      EventSound(sv, m, events[..n], events[n], users);
      AllBackedStill(sv, events[..n], events[n], Reported(sv, m, events[..n], key));
      assert events == events[..n] + [events[n]];
    }
  }

  // ----- throttling over runs -----

  /** How what is stored about a user relates to the reports made about it so far: a user without a last
      report has never been reported, or was deleted more than `m` seconds after its last report. */
  predicate Throttled(rs: seq<Report>, u: User, m: int, now: Time) {
    match u.lastReport
    case Some(last) =>
      && rs != [] && rs[|rs| - 1].created == last
      && u.requests != [] && last <= u.requests[|u.requests| - 1] <= now
    case None => rs != [] ==> rs[|rs| - 1].created + m as real < now
  }

  function Gap(m: int): real {
    MinReal(MIN_REPORTS_INTERVAL, m as real)
  }

  lemma {:induction false} ChecksKeepRequests(conf: Conf, key: string, u: User, cs: seq<Check>)
    requires AreChecks(cs)
    ensures CheckAll(conf, key, u, cs).user.requests == u.requests
  {
    if cs != [] {
      ChecksKeepRequests(conf, key, u, cs[..|cs| - 1]);
    }
  }

  /** All reports a request leads to carry its time. */
  lemma ReportsCarryTime(conf: Conf, key: string, u: User, cs: seq<Check>, at: Time)
    requires AreChecks(cs) && forall i :: 0 <= i < |cs| ==> cs[i].t0 == at
    ensures var rs := CheckAll(conf, key, u, cs).reports;
            |rs| <= 1 && (rs != [] ==> rs[0].created == at)
  {
    var rs := CheckAll(conf, key, u, cs).reports;
    OneReportPerRequest(conf, key, u, cs, at);
    ChecksDecide(conf, key, u, cs);
    DecisionsAreThrottled(conf, key, u.lastReport, cs, CheckAll(conf, key, u, cs).observed);
    if rs != [] {
      var j :| 0 <= j < |cs| && cs[j].t0 == rs[0].created;
    }
  }

  lemma RequestThrottled(sv: Service, m: int, rs: seq<Report>, u: User, now: Time, e: Event)
    requires IsService(sv) && e.Request? && IsEvent(sv, e) && now <= e.at && m >= 0
    requires Spaced(rs, Gap(m)) && Throttled(rs, u, m, now)
    ensures var r := CheckAll(sv.conf, e.user, Received(sv.conf, u, e.at), ChecksAt(sv, e.order, e.at));
            Spaced(rs + r.reports, Gap(m)) && Throttled(rs + r.reports, r.user, m, e.at)
  {
    var received := Received(sv.conf, u, e.at);
    var cs := ChecksAt(sv, e.order, e.at);
    var r := CheckAll(sv.conf, e.user, received, cs);
    ReportsAreThrottled(sv.conf, e.user, received, cs);
    ReportsCarryTime(sv.conf, e.user, received, cs, e.at);
    ChecksKeepRequests(sv.conf, e.user, received, cs);
    ThrottledStep(m, rs, u, now, e.at, r.reports, r.user);
  }

  lemma ThrottledStep(m: int, rs: seq<Report>, u: User, now: Time, at: Time, more: seq<Report>, after: User)
    requires m >= 0 && now <= at && Spaced(rs, Gap(m)) && Throttled(rs, u, m, now)
    requires after.requests != [] && after.requests[|after.requests| - 1] == at
    requires |more| <= 1 && (more != [] ==> more[0].created == at)
    requires AllAfter(more, u.lastReport, MIN_REPORTS_INTERVAL)
    requires after.lastReport == if more == [] then u.lastReport else Some(more[|more| - 1].created)
    ensures Spaced(rs + more, Gap(m)) && Throttled(rs + more, after, m, at)
  {
    if more == [] {
      assert rs + more == rs;
    } else {
      assert more == [more[0]];
      OneMoreReport(rs, more[0], Gap(m));
    }
  }

  lemma OneMoreReport(rs: seq<Report>, r: Report, gap: real)
    requires Spaced(rs, gap) && gap >= 0.0
    requires rs != [] ==> r.created - rs[|rs| - 1].created > gap
    ensures Spaced(rs + [r], gap)
  {}

  lemma CleanupThrottled(m: int, rs: seq<Report>, u: User, now: Time, at: Time)
    requires Throttled(rs, u, m, now) && now <= at
    ensures Throttled(rs, u, m, at)
    ensures IsIdle(u, at - m as real) ==> Throttled(rs, NEW_USER, m, at)
  {}

  lemma {:induction false} RunThrottled(sv: Service, m: int, events: seq<Event>, key: string, now: Time)
    requires IsService(sv) && WellTimed(sv, events) && m >= 0
    requires events != [] ==> events[|events| - 1].at <= now
    ensures var rs := Reported(sv, m, events, key);
            Spaced(rs, Gap(m)) && Throttled(rs, UserOf(UsersAfter(sv, m, events, true), key), m, now)
  {
    if events != [] {
      var n := |events| - 1;
      var e := events[n];
      var rs := Reported(sv, m, events[..n], key);
      var u := UserOf(UsersAfter(sv, m, events[..n], true), key);
      RunThrottled(sv, m, events[..n], key, e.at);
      if e.Request? && e.user == key {
        RequestThrottled(sv, m, rs, u, e.at, e);
      } else {
        assert rs + [] == rs;
        CleanupThrottled(m, rs, u, e.at, e.at);
      }
      CleanupThrottled(m, Reported(sv, m, events, key), UserOf(UsersAfter(sv, m, events, true), key), e.at, now);
    }
  }

  /** Over whole runs, reports about one user are more than two minutes apart, or more than the longest
      interval if that is shorter: a cleanup may forget a user's last report. */
  lemma ReportsAreSpaced(sv: Service, m: int, events: seq<Event>, key: string)
    requires IsService(sv) && IsMax(sv.limits, m) && WellTimed(sv, events)
    ensures Spaced(Reported(sv, m, events, key), Gap(m))
    ensures m as real >= MIN_REPORTS_INTERVAL ==> Spaced(Reported(sv, m, events, key), MIN_REPORTS_INTERVAL)
  {
    RunThrottled(sv, m, events, key, if events == [] then 0.0 else events[|events| - 1].at);
  }

  // ----- the bound is sharp -----

  const TIGHT := Conf(10, 10, 0.5)

  /** A service with one limit of one request. */
  function TightService(m: int): Service {
    Service(TIGHT, map[m := 1])
  }

  lemma FirstRequest(m: int, key: string, at: Time)
    requires m > 0
    ensures var c := Check(m, 1, at, at);
            CheckOne(TIGHT, key, User([at], map[], None), c) ==
            Outcome(User([at], map[m := [Exceeding(0, at)]], None), [], [Observation(1, 0.0)])
  {
    var x := Exceeding(0, at);
    assert CountAfter([at], at - m as real) == 1 by { assert [at][..0] == []; }
    assert Push([], x, 10) == [x];
    SumStep([], x, at, m);
    assert [] + [x] == [x];
    assert Weighted(x, at, m) == 0.0;
  }

  lemma BothCounted(m: int, at: Time)
    requires m > 0
    ensures CountAfter([at, at], at - m as real) == 2
  {
    var since := at - m as real;
    assert CountAfter([at], since) == 1 by { assert [at][..0] == []; }
    assert CountAfter([at, at], since) == CountAfter([at], since) + 1 by { assert [at, at][..1] == [at]; }
  }

  lemma SumOfTwo(x: Exceeding, y: Exceeding, at: Time, m: int)
    requires m > 0
    ensures WeightedSum([x, y], at, m) == Weighted(x, at, m) + Weighted(y, at, m)
  {
    SumStep([], x, at, m);
    SumStep([x], y, at, m);
    assert [] + [x] == [x] && [x] + [y] == [x, y];
  }

  lemma RelativeOfTwo(x: Exceeding, y: Exceeding, at: Time, m: int)
    requires m > 0 && WeightedSum([x, y], at, m) == 1.0
    ensures Relative([x, y], at, m, 1) == 0.5
  {}

  lemma HalfOfTwo(m: int, at: Time)
    requires m > 0
    ensures Relative([Exceeding(0, at), Exceeding(1, at)], at, m, 1) == 0.5
  {
    var x, y := Exceeding(0, at), Exceeding(1, at);
    SumOfTwo(x, y, at, m);
    FreshWeight(x, m);
    FreshWeight(y, m);
    RelativeOfTwo(x, y, at, m);
  }

  lemma SecondObserved(m: int, at: Time)
    requires m > 0
    ensures var c := Check(m, 1, at, at);
            var u := User([at, at], map[m := [Exceeding(0, at)]], None);
            Observe(TIGHT, u, c) == Observation(2, 0.5)
  {
    var c := Check(m, 1, at, at);
    var u := User([at, at], map[m := [Exceeding(0, at)]], None);
    var x, y := Exceeding(0, at), Exceeding(1, at);
    BothCounted(m, at);
    HalfOfTwo(m, at);
    assert Push([x], y, 10) == [x, y];
    assert ListOf(Measured(TIGHT, u, c, 2).lists, m) == [x, y];
    ObserveIs(TIGHT, u, c, 2, 0.5);
  }

  lemma SecondRequest(m: int, key: string, at: Time)
    requires m > 0
    ensures var c := Check(m, 1, at, at);
            var r := CheckOne(TIGHT, key, User([at, at], map[m := [Exceeding(0, at)]], None), c);
            r.reports == [Report(key, at, m, 2, 1)] && r.user.requests == [at, at] && r.user.lastReport == Some(at)
  {
    SecondObserved(m, at);
  }

  lemma OneCheck(m: int, key: string, u: User, at: Time)
    requires m > 0
    ensures var sv := TightService(m);
            var c := Check(m, 1, at, at);
            CheckAll(TIGHT, key, u, ChecksAt(sv, [m], at)) == Then(Outcome(u, [], []), CheckOne(TIGHT, key, u, c))
  {
    var c := Check(m, 1, at, at);
    assert ChecksAt(TightService(m), [m], at) == [c];
    assert [c][..0] == [];
  }

  lemma FirstProcessed(m: int, users: map<string, User>, key: string, at: Time)
    requires m > 0 && key !in users
    ensures var r := Process(TightService(m), users, key, at, [m]);
            r.user == User([at], map[m := [Exceeding(0, at)]], None) && r.reports == []
  {
    assert Received(TightService(m).conf, NEW_USER, at) == User([at], map[], None);
    OneCheck(m, key, User([at], map[], None), at);
    FirstRequest(m, key, at);
  }

  lemma SecondProcessed(m: int, users: map<string, User>, key: string, at: Time)
    requires m > 0 && key in users && users[key] == User([at], map[m := [Exceeding(0, at)]], None)
    ensures var r := Process(TightService(m), users, key, at, [m]);
            r.user.requests == [at, at] && r.reports == [Report(key, at, m, 2, 1)]
  {
    var u := User([at, at], map[m := [Exceeding(0, at)]], None);
    assert Received(TightService(m).conf, users[key], at) == u;
    OneCheck(m, key, u, at);
    SecondRequest(m, key, at);
    assert [] + [Report(key, at, m, 2, 1)] == [Report(key, at, m, 2, 1)];
  }

  lemma Step(sv: Service, m: int, events: seq<Event>, e: Event, key: string)
    requires IsService(sv) && IsEvent(sv, e) && WellTimed(sv, events) && WellTimed(sv, events + [e])
    ensures var users := UsersAfter(sv, m, events, true);
            && UsersAfter(sv, m, events + [e], true) == After(sv, m, users, e, true)
            && (e.Cleanup? ==> Reported(sv, m, events + [e], key) == Reported(sv, m, events, key))
            && (e.Request? && e.user == key ==>
                  Reported(sv, m, events + [e], key) == Reported(sv, m, events, key) + ReportsOf(sv, users, e))
  {
    assert (events + [e])[..|events|] == events;
  }

  lemma ExtendTimed(sv: Service, events: seq<Event>, e: Event)
    requires WellTimed(sv, events) && IsEvent(sv, e)
    requires events != [] ==> events[|events| - 1].at <= e.at
    ensures WellTimed(sv, events + [e])
  {}

  lemma TightIsService(m: int)
    requires m > 0
    ensures IsService(TightService(m)) && IsMax(TightService(m).limits, m) && AreLimits([m], TightService(m).limits)
  {}

  /** A run and what it leads to. */
  ghost predicate LeadsTo(sv: Service, m: int, events: seq<Event>, key: string, users: map<string, User>,
                          rs: seq<Report>)
  {
    && IsService(sv) && WellTimed(sv, events)
    && UsersAfter(sv, m, events, true) == users && Reported(sv, m, events, key) == rs
  }

  lemma LeadsFurther(sv: Service, m: int, events: seq<Event>, key: string, users: map<string, User>,
                     rs: seq<Report>, e: Event)
    requires LeadsTo(sv, m, events, key, users, rs) && IsEvent(sv, e)
    requires events != [] ==> events[|events| - 1].at <= e.at
    requires e.Request? ==> e.user == key
    ensures LeadsTo(sv, m, events + [e], key, After(sv, m, users, e, true), rs + ReportsOf(sv, users, e))
  {
    ExtendTimed(sv, events, e);
    Step(sv, m, events, e, key);
  }

  lemma FirstLeads(m: int, events: seq<Event>, key: string, rs: seq<Report>, at: Time)
    requires m > 0
    requires LeadsTo(TightService(m), m, events, key, map[], rs)
    requires events != [] ==> events[|events| - 1].at <= at
    ensures LeadsTo(TightService(m), m, events + [Request(key, at, [m])], key,
                    map[key := User([at], map[m := [Exceeding(0, at)]], None)], rs)
  {
    TightIsService(m);
    FirstProcessed(m, map[], key, at);
    LeadsFurther(TightService(m), m, events, key, map[], rs, Request(key, at, [m]));
    assert rs + [] == rs;
  }

  lemma AfterSecond(m: int, key: string, at: Time) returns (u: User)
    requires m > 0
    ensures u.requests == [at, at]
    ensures var sv := TightService(m);
            var users := map[key := User([at], map[m := [Exceeding(0, at)]], None)];
            var e := Request(key, at, [m]);
            && IsService(sv) && IsEvent(sv, e)
            && After(sv, m, users, e, true) == map[key := u]
            && ReportsOf(sv, users, e) == [Report(key, at, m, 2, 1)]
  {
    TightIsService(m);
    var users := map[key := User([at], map[m := [Exceeding(0, at)]], None)];
    SecondProcessed(m, users, key, at);
    u := Process(TightService(m), users, key, at, [m]).user;
    assert users[key := u] == map[key := u];
  }

  lemma SecondLeads(m: int, events: seq<Event>, key: string, rs: seq<Report>, at: Time) returns (u: User)
    requires m > 0
    requires LeadsTo(TightService(m), m, events, key, map[key := User([at], map[m := [Exceeding(0, at)]], None)], rs)
    requires events != [] ==> events[|events| - 1].at <= at
    ensures u.requests == [at, at]
    ensures LeadsTo(TightService(m), m, events + [Request(key, at, [m])], key, map[key := u],
                    rs + [Report(key, at, m, 2, 1)])
  {
    TightIsService(m);
    u := AfterSecond(m, key, at);
    var users := map[key := User([at], map[m := [Exceeding(0, at)]], None)];
    LeadsFurther(TightService(m), m, events, key, users, rs, Request(key, at, [m]));
  }

  lemma CleanupLeads(m: int, events: seq<Event>, key: string, rs: seq<Report>, at: Time, u: User, later: Time)
    requires m > 0 && m as real < later - at
    requires LeadsTo(TightService(m), m, events, key, map[key := u], rs)
    requires events != [] ==> events[|events| - 1].at <= later
    requires u.requests == [at, at]
    ensures LeadsTo(TightService(m), m, events + [Cleanup(later)], key, map[], rs)
  {
    TightIsService(m);
    LeadsFurther(TightService(m), m, events, key, map[key := u], rs, Cleanup(later));
    assert Cleaned(map[key := u], later - m as real) == map[];
    assert rs + [] == rs;
  }

  /** The run in which a cleanup at `later` makes the service forget that it has just reported a user. */
  function ForgetfulRun(m: int, key: string, later: Time): seq<Event> {
    var e, f := Request(key, 0.0, [m]), Request(key, later, [m]);
    [] + [e] + [e] + [Cleanup(later)] + [f] + [f]
  }

  /** A cleanup that comes after the longest interval lets two more requests be reported again. */
  lemma ForgottenReport(m: int, key: string, later: Time)
    requires m > 0 && m as real < later
    ensures var sv := TightService(m);
            var run := ForgetfulRun(m, key, later);
            && IsService(sv) && IsMax(sv.limits, m) && WellTimed(sv, run)
            && Reported(sv, m, run, key) == [Report(key, 0.0, m, 2, 1)] + [Report(key, later, m, 2, 1)]
  {
    TightIsService(m);
    var u := ForgetfulRunLeads(m, key, later);
  }

  lemma ForgetfulRunLeads(m: int, key: string, later: Time) returns (u: User)
    requires m > 0 && m as real < later
    ensures LeadsTo(TightService(m), m, ForgetfulRun(m, key, later), key, map[key := u],
                    [Report(key, 0.0, m, 2, 1)] + [Report(key, later, m, 2, 1)])
  {
    var e := Request(key, 0.0, [m]);
    var first := Report(key, 0.0, m, 2, 1);
    var none: seq<Event> := [];
    StartLeads(m, key);
    u := BothLead(m, none, key, [], 0.0);
    assert [] + [first] == [first];
    CleanupLeads(m, none + [e] + [e], key, [first], 0.0, u, later);
    u := BothLead(m, none + [e] + [e] + [Cleanup(later)], key, [first], later);
  }

  lemma BothLead(m: int, events: seq<Event>, key: string, rs: seq<Report>, at: Time) returns (u: User)
    requires m > 0 && LeadsTo(TightService(m), m, events, key, map[], rs)
    requires events != [] ==> events[|events| - 1].at <= at
    ensures u.requests == [at, at]
    ensures var e := Request(key, at, [m]);
            LeadsTo(TightService(m), m, events + [e] + [e], key, map[key := u], rs + [Report(key, at, m, 2, 1)])
  {
    FirstLeads(m, events, key, rs, at);
    u := SecondLeads(m, events + [Request(key, at, [m])], key, rs, at);
  }

  lemma StartLeads(m: int, key: string)
    requires m > 0
    ensures LeadsTo(TightService(m), m, [], key, map[], [])
  {
    TightIsService(m);
  }

  /** Whether the two minutes hold for all services with longest interval `m`, in all their runs. */
  ghost predicate KeepsTwoMinutes(m: int) {
    forall sv: Service, events: seq<Event>, key: string ::
      IsService(sv) && IsMax(sv.limits, m) && WellTimed(sv, events) ==>
        Spaced(Reported(sv, m, events, key), MIN_REPORTS_INTERVAL)
  }

  /** The two minutes between reports are kept in spite of cleanups exactly when the longest interval is
      no shorter. */
  lemma TwoMinutesKeptIff(m: int)
    requires m > 0
    ensures KeepsTwoMinutes(m) <==> m as real >= MIN_REPORTS_INTERVAL
  {
    if m as real >= MIN_REPORTS_INTERVAL {
      forall sv: Service, events: seq<Event>, key: string
        | IsService(sv) && IsMax(sv.limits, m) && WellTimed(sv, events)
        ensures Spaced(Reported(sv, m, events, key), MIN_REPORTS_INTERVAL)
      {
        ReportsAreSpaced(sv, m, events, key);
      }
    } else {
      ForgottenReport(m, "", MIN_REPORTS_INTERVAL);
      NotSpaced(Report("", 0.0, m, 2, 1), Report("", MIN_REPORTS_INTERVAL, m, 2, 1));
      var run := ForgetfulRun(m, "", MIN_REPORTS_INTERVAL);
      assert !Spaced(Reported(TightService(m), m, run, ""), MIN_REPORTS_INTERVAL);
    }
  }

  lemma NotSpaced(a: Report, b: Report)
    requires b.created - a.created <= MIN_REPORTS_INTERVAL
    ensures !Spaced([a] + [b], MIN_REPORTS_INTERVAL)
  {
    var rs := [a] + [b];
    assert rs[0] == a && rs[1] == b;
  }
}
