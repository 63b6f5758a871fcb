/** `checkServiceUsage`: what one request of a user triggers. */
module Alarms {
  import opened Text
  import opened Ring
  import opened Counter
  import opened Decay

  const MIN_REPORTS_INTERVAL: real := 120.0

  datatype Conf = Conf(requestCap: nat, exceedingCap: nat, threshold: real)

  /** The state kept for one user of a service. */
  datatype User = User(requests: seq<Time>, lists: map<int, seq<Exceeding>>, lastReport: Option<Time>)

  const NEW_USER := User([], map[], None)

  /** One turn of the loop over a service's limits, with the clock readings taken in it: `t0` at its
      start and `counted` inside the counting. */
  datatype Check = Check(interval: int, limit: int, t0: Time, counted: Time)

  datatype Report = Report(user: string, created: Time, interval: int, numReq: nat, limit: int)

  /** What a turn measures. */
  datatype Observation = Observation(numReq: nat, movAvg: real)

  datatype Outcome = Outcome(user: User, reports: seq<Report>, observed: seq<Observation>)

  predicate IsCheck(c: Check) {
    c.interval > 0 && c.limit > 0
  }

  predicate AreChecks(cs: seq<Check>) {
    forall i :: 0 <= i < |cs| ==> IsCheck(cs[i])
  }

  /** A user is not reported again within two minutes. */
  predicate MayReport(last: Option<Time>, t0: Time) {
    last == None || last.value < t0 - MIN_REPORTS_INTERVAL
  }

  function Observe(conf: Conf, u: User, c: Check): Observation
    requires IsCheck(c)
  {
    var numReq := CountAfter(u.requests, c.counted - c.interval as real);
    var lists := Measured(conf, u, c, numReq).lists;
    Observation(numReq, Relative(ListOf(lists, c.interval), c.t0, c.interval, c.limit))
  }

  /** Whether a measurement leads to a report. */
  function Decide(conf: Conf, key: string, measured: User, c: Check, obs: Observation): Outcome {
    if obs.movAvg >= conf.threshold && MayReport(measured.lastReport, c.t0) then
      Outcome(measured.(lastReport := Some(c.t0)),
              [Report(key, c.t0, c.interval, obs.numReq, c.limit)], [obs])
    else Outcome(measured, [], [obs])
  }

  function Measured(conf: Conf, u: User, c: Check, numReq: nat): User {
    u.(lists := Registered(u.lists, conf.exceedingCap, c.t0, c.interval, numReq, c.limit))
  }

  function CheckOne(conf: Conf, key: string, u: User, c: Check): Outcome
    requires IsCheck(c)
  {
    var obs := Observe(conf, u, c);
    Decide(conf, key, Measured(conf, u, c, obs.numReq), c, obs)
  }

  function CheckAll(conf: Conf, key: string, u: User, cs: seq<Check>): Outcome
    requires AreChecks(cs)
  {
    if cs == [] then Outcome(u, [], [])
    else
      var before := CheckAll(conf, key, u, cs[..|cs| - 1]);
      var last := CheckOne(conf, key, before.user, cs[|cs| - 1]);
      Then(before, last)
  }

  function Then(before: Outcome, last: Outcome): Outcome {
    Outcome(last.user, before.reports + last.reports, before.observed + last.observed)
  }

  lemma CheckAllStep(conf: Conf, key: string, u: User, cs: seq<Check>, i: nat)
    requires AreChecks(cs) && i < |cs|
    ensures var before := CheckAll(conf, key, u, cs[..i]);
            CheckAll(conf, key, u, cs[..i + 1]) == Then(before, CheckOne(conf, key, before.user, cs[i]))
  {
    assert cs[..i + 1][..i] == cs[..i];
  }

  lemma ObserveIs(conf: Conf, u: User, c: Check, numReq: nat, movAvg: real)
    requires IsCheck(c)
    requires numReq == CountAfter(u.requests, c.counted - c.interval as real)
    requires movAvg == Relative(ListOf(Measured(conf, u, c, numReq).lists, c.interval), c.t0, c.interval, c.limit)
    ensures Observation(numReq, movAvg) == Observe(conf, u, c)
  {}

  /** A user after a request. */
  function Received(conf: Conf, u: User, at: Time): User {
    u.(requests := Push(u.requests, at, conf.requestCap))
  }

  /** The object behind a `User`. */
  class UserActivity {
    const requests: CircularList<Time>
    const numReqAboveLimit: LimitExceedings
    var lastReportAt: Option<Time>
    ghost var user: User
    ghost var Repr: set<object>

    ghost predicate Valid()
      reads requests, numReqAboveLimit, numReqAboveLimit.Objects()
    {
      && requests.Valid() && numReqAboveLimit.Valid()
      && requests !in numReqAboveLimit.Objects() && requests.data !in numReqAboveLimit.Objects()
    }

    ghost function Value(): User
      reads `lastReportAt, requests, requests.data, numReqAboveLimit, numReqAboveLimit.Objects()
      requires Valid()
    {
      User(requests.Contents(), numReqAboveLimit.Lists(), lastReportAt)
    }

    /** The user's own objects are in `Repr`, and `user` is what they stand for. */
    ghost predicate Owns()
      reads this, Repr
    {
      && this in Repr && requests in Repr && requests.data in Repr && numReqAboveLimit in Repr
      && numReqAboveLimit.Objects() <= Repr && Valid() && user == Value()
    }

    predicate HasSizes(conf: Conf) {
      requests.data.Length == conf.requestCap && numReqAboveLimit.capacity == conf.exceedingCap
    }

    constructor (conf: Conf)
      requires conf.requestCap > 0 && conf.exceedingCap > 0
      ensures Owns() && HasSizes(conf) && user == NEW_USER && fresh(Repr)
    {
      requests := new CircularList<Time>(conf.requestCap);
      numReqAboveLimit := new LimitExceedings(conf.exceedingCap);
      lastReportAt := None;
      user := NEW_USER;
      new;
      Repr := {this, requests, requests.data, numReqAboveLimit};
    }

    /** What the loop over the incoming requests does with a user. */
    method ReceiveAndCheck(conf: Conf, key: string, at: Time, checks: seq<Check>) returns (reports: seq<Report>)
      requires Owns() && HasSizes(conf) && AreChecks(checks)
      modifies Repr
      ensures Owns() && old(Repr) <= Repr && fresh(Repr - old(Repr))
      ensures var r := CheckAll(conf, key, Received(conf, old(user), at), checks);
              user == r.user && reports == r.reports
    {
      hide UserActivity.Valid, UserActivity.Value, CheckAll;
      Receive(conf, at);
      reports := CheckServiceUsage(conf, key, checks);
      user := Value();
      Repr := Repr + numReqAboveLimit.Objects();
    }

    method Receive(conf: Conf, at: Time)
      requires Owns() && HasSizes(conf)
      modifies this`user, requests, requests.data
      ensures Owns() && user == Received(conf, old(user), at)
      ensures numReqAboveLimit.Objects() == old(numReqAboveLimit.Objects())
    {
      requests.Append(at);
      user := user.(requests := requests.Contents());
    }

    method CheckServiceUsage(conf: Conf, key: string, checks: seq<Check>) returns (reports: seq<Report>)
      requires Valid() && AreChecks(checks)
      requires numReqAboveLimit.capacity == conf.exceedingCap
      modifies this`lastReportAt, numReqAboveLimit, numReqAboveLimit.Objects()
      ensures Valid() && fresh(numReqAboveLimit.Objects() - old(numReqAboveLimit.Objects()))
      ensures Value() == CheckAll(conf, key, old(Value()), checks).user
      ensures reports == CheckAll(conf, key, old(Value()), checks).reports
    {
      hide LimitExceedings.Valid, LimitExceedings.Lists, CheckOne, Then;
      reports := [];
      ghost var start := Value();
      ghost var outcome := Outcome(start, [], []);
      for i := 0 to |checks|
        invariant Valid() && fresh(numReqAboveLimit.Objects() - old(numReqAboveLimit.Objects()))
        invariant outcome == CheckAll(conf, key, start, checks[..i])
        invariant Value() == outcome.user && reports == outcome.reports
      {
        reports, outcome := NextLimit(conf, key, checks, i, start, outcome, reports);
      }
      assert checks[..|checks|] == checks;
    }

    method NextLimit(conf: Conf, key: string, checks: seq<Check>, i: nat, ghost start: User,
                     ghost before: Outcome, sofar: seq<Report>)
      returns (reports: seq<Report>, ghost after: Outcome)
      requires Valid() && AreChecks(checks) && i < |checks|
      requires before == CheckAll(conf, key, start, checks[..i])
      requires Value() == before.user && sofar == before.reports
      requires numReqAboveLimit.capacity == conf.exceedingCap
      modifies this`lastReportAt, numReqAboveLimit, numReqAboveLimit.Objects()
      ensures Valid() && fresh(numReqAboveLimit.Objects() - old(numReqAboveLimit.Objects()))
      ensures after == CheckAll(conf, key, start, checks[..i + 1])
      ensures Value() == after.user && reports == after.reports
    {
      CheckAllStep(conf, key, start, checks, i);
      after := Then(before, CheckOne(conf, key, before.user, checks[i]));
      reports := CheckLimit(conf, key, checks[i]);
      reports := sofar + reports;
    }

    /** One turn of the loop. */
    method CheckLimit(conf: Conf, key: string, c: Check) returns (reports: seq<Report>)
      requires Valid() && IsCheck(c)
      requires numReqAboveLimit.capacity == conf.exceedingCap
      modifies this`lastReportAt, numReqAboveLimit, numReqAboveLimit.Objects()
      ensures Valid() && fresh(numReqAboveLimit.Objects() - old(numReqAboveLimit.Objects()))
      ensures Value() == CheckOne(conf, key, old(Value()), c).user
      ensures reports == CheckOne(conf, key, old(Value()), c).reports
    {
      var obs := Measure(conf, c);
      reports := ReportIfDue(conf, key, c, obs);
    }

    method Measure(conf: Conf, c: Check) returns (obs: Observation)
      requires Valid() && IsCheck(c)
      requires numReqAboveLimit.capacity == conf.exceedingCap
      modifies numReqAboveLimit, numReqAboveLimit.Objects()
      ensures Valid() && fresh(numReqAboveLimit.Objects() - old(numReqAboveLimit.Objects()))
      ensures obs == Observe(conf, old(Value()), c)
      ensures Value() == Measured(conf, old(Value()), c, obs.numReq)
    {
      hide LimitExceedings.Valid, LimitExceedings.Lists;
      ghost var u := Value();
      var numReq := Count(c);
      Register(conf, c, numReq);
      var movAvg := Average(c);
      obs := Observation(numReq, movAvg);
      ObserveIs(conf, u, c, numReq, movAvg);
    }

    method Count(c: Check) returns (numReq: nat)
      requires Valid()
      ensures Valid() && Value() == old(Value()) && numReqAboveLimit.Objects() == old(numReqAboveLimit.Objects())
      ensures numReq == CountAfter(Value().requests, c.counted - c.interval as real)
    {
      numReq := NumReqSince(requests, c.interval as real, c.counted);
    }

    method Average(c: Check) returns (movAvg: real)
      requires Valid() && IsCheck(c)
      ensures Valid() && Value() == old(Value()) && numReqAboveLimit.Objects() == old(numReqAboveLimit.Objects())
      ensures movAvg == Relative(ListOf(Value().lists, c.interval), c.t0, c.interval, c.limit)
    {
      movAvg := numReqAboveLimit.RelativeExceeding(c.t0, c.interval, c.limit);
    }

    method Register(conf: Conf, c: Check, numReq: nat)
      requires Valid() && numReqAboveLimit.capacity == conf.exceedingCap
      modifies numReqAboveLimit, numReqAboveLimit.Objects()
      ensures Valid() && fresh(numReqAboveLimit.Objects() - old(numReqAboveLimit.Objects()))
      ensures Value() == Measured(conf, old(Value()), c, numReq)
    {
      numReqAboveLimit.RegisterMeasurement(c.t0, c.interval, numReq, c.limit);
    }

    method ReportIfDue(conf: Conf, key: string, c: Check, obs: Observation) returns (reports: seq<Report>)
      requires Valid()
      modifies this`lastReportAt
      ensures Valid() && numReqAboveLimit.Objects() == old(numReqAboveLimit.Objects())
      ensures Value() == Decide(conf, key, old(Value()), c, obs).user
      ensures reports == Decide(conf, key, old(Value()), c, obs).reports
    {
      reports := [];
      if obs.movAvg >= conf.threshold {
        if MayReport(lastReportAt, c.t0) {
          reports := [Report(key, c.t0, c.interval, obs.numReq, c.limit)];
          lastReportAt := Some(c.t0);
        }
      }
    }
  }

  // ----- throttling, for arbitrary clock readings -----

  predicate Spaced(rs: seq<Report>, gap: real) {
    forall i, j :: 0 <= i < j < |rs| ==> rs[j].created - rs[i].created > gap
  }

  predicate AllAfter(rs: seq<Report>, last: Option<Time>, gap: real) {
    last.Some? ==> forall i :: 0 <= i < |rs| ==> rs[i].created - last.value > gap
  }

  /** The decisions taken for given measurements, leaving out how these come about. */
  function DecideAll(conf: Conf, key: string, last: Option<Time>, cs: seq<Check>, obs: seq<Observation>)
    : (Option<Time>, seq<Report>)
    requires |obs| == |cs|
  {
    if cs == [] then (last, [])
    else
      var n := |cs| - 1;
      var (before, reports) := DecideAll(conf, key, last, cs[..n], obs[..n]);
      if obs[n].movAvg >= conf.threshold && MayReport(before, cs[n].t0) then
        (Some(cs[n].t0), reports + [Report(key, cs[n].t0, cs[n].interval, obs[n].numReq, cs[n].limit)])
      else (before, reports)
  }

  lemma {:induction false} ChecksDecide(conf: Conf, key: string, u: User, cs: seq<Check>)
    requires AreChecks(cs)
    ensures var r := CheckAll(conf, key, u, cs);
            |r.observed| == |cs| &&
            DecideAll(conf, key, u.lastReport, cs, r.observed) == (r.user.lastReport, r.reports)
  {
    if cs != [] {
      var n := |cs| - 1;
      ChecksDecide(conf, key, u, cs[..n]);
      var before := CheckAll(conf, key, u, cs[..n]);
      var obs := Observe(conf, before.user, cs[n]);
      assert CheckAll(conf, key, u, cs).observed == before.observed + [obs];
      assert (before.observed + [obs])[..n] == before.observed;
      assert before.reports + [] == before.reports;
    }
  }

  lemma SpacedAppend(rs: seq<Report>, r: Report, gap: real, last: Option<Time>)
    requires Spaced(rs, gap) && AllAfter(rs, last, gap) && gap >= 0.0
    requires rs != [] ==> r.created - rs[|rs| - 1].created > gap
    requires rs == [] && last.Some? ==> r.created - last.value > gap
    ensures Spaced(rs + [r], gap) && AllAfter(rs + [r], last, gap)
  {}

  lemma {:induction false} DecisionsAreThrottled(conf: Conf, key: string, last: Option<Time>,
                                                 cs: seq<Check>, obs: seq<Observation>)
    requires |obs| == |cs|
    ensures var (now, rs) := DecideAll(conf, key, last, cs, obs);
            && Spaced(rs, MIN_REPORTS_INTERVAL) && AllAfter(rs, last, MIN_REPORTS_INTERVAL)
            && now == (if rs == [] then last else Some(rs[|rs| - 1].created))
            && forall i :: 0 <= i < |rs| ==> exists j :: 0 <= j < |cs| && cs[j].t0 == rs[i].created
  {
    if cs != [] {
      var n := |cs| - 1;
      DecisionsAreThrottled(conf, key, last, cs[..n], obs[..n]);
      var (before, rs) := DecideAll(conf, key, last, cs[..n], obs[..n]);
      assert forall i :: 0 <= i < |rs| ==> exists j :: 0 <= j < n && cs[..n][j] == cs[j] && cs[j].t0 == rs[i].created;
      if obs[n].movAvg >= conf.threshold && MayReport(before, cs[n].t0) {
        var r := Report(key, cs[n].t0, cs[n].interval, obs[n].numReq, cs[n].limit);
        SpacedAppend(rs, r, MIN_REPORTS_INTERVAL, last);
      }
    }
  }

  /** The reports about one user are more than two minutes apart from each other and from the last
      one before, whatever the clock did and in whatever order the limits were visited. */
  lemma ReportsAreThrottled(conf: Conf, key: string, u: User, cs: seq<Check>)
    requires AreChecks(cs)
    ensures var r := CheckAll(conf, key, u, cs);
            && Spaced(r.reports, MIN_REPORTS_INTERVAL)
            && AllAfter(r.reports, u.lastReport, MIN_REPORTS_INTERVAL)
            && r.user.lastReport ==
                 if r.reports == [] then u.lastReport else Some(r.reports[|r.reports| - 1].created)
  {
    ChecksDecide(conf, key, u, cs);
    DecisionsAreThrottled(conf, key, u.lastReport, cs, CheckAll(conf, key, u, cs).observed);
  }

  /** The first of the measurements that reaches the threshold, or `|obs|`. */
  function FirstCrossing(conf: Conf, obs: seq<Observation>): (j: nat)
    ensures j <= |obs| && forall i :: 0 <= i < j ==> obs[i].movAvg < conf.threshold
    ensures j < |obs| ==> obs[j].movAvg >= conf.threshold
  {
    if obs == [] || obs[0].movAvg >= conf.threshold then 0 else 1 + FirstCrossing(conf, obs[1..])
  }

  lemma {:induction false} FirstDecision(conf: Conf, key: string, last: Option<Time>, cs: seq<Check>,
                                         obs: seq<Observation>, at: Time)
    requires |obs| == |cs| && forall i :: 0 <= i < |cs| ==> cs[i].t0 == at
    ensures var j := FirstCrossing(conf, obs);
            DecideAll(conf, key, last, cs, obs) ==
            if MayReport(last, at) && j < |cs|
            then (Some(at), [Report(key, at, cs[j].interval, obs[j].numReq, cs[j].limit)]) else (last, [])
  {
    if cs != [] {
      var n := |cs| - 1;
      FirstDecision(conf, key, last, cs[..n], obs[..n], at);
      PrefixCrossing(conf, obs, n);
      var i := FirstCrossing(conf, obs[..n]);
      if MayReport(last, at) && i < n {
        assert cs[..n][i] == cs[i] && obs[..n][i] == obs[i];
        assert !MayReport(Some(at), at);
      } else {
        assert DecideAll(conf, key, last, cs[..n], obs[..n]) == (last, []);
        assert [] + [Report(key, at, cs[n].interval, obs[n].numReq, cs[n].limit)] ==
               [Report(key, at, cs[n].interval, obs[n].numReq, cs[n].limit)];
      }
    }
  }

  lemma PrefixCrossing(conf: Conf, obs: seq<Observation>, n: nat)
    requires |obs| == n + 1
    ensures var i, j := FirstCrossing(conf, obs[..n]), FirstCrossing(conf, obs);
            j == if i < n then i else if obs[n].movAvg >= conf.threshold then n else n + 1
  {
    var i, j := FirstCrossing(conf, obs[..n]), FirstCrossing(conf, obs);
    assert forall k :: 0 <= k < n ==> obs[..n][k] == obs[k];
  }

  /** With one clock reading for a request, it is reported exactly when some limit's average reaches the
      threshold and the user's last report is more than two minutes old; the report is about the first
      such limit visited. */
  lemma ReportedIff(conf: Conf, key: string, u: User, cs: seq<Check>, at: Time)
    requires AreChecks(cs) && forall i :: 0 <= i < |cs| ==> cs[i].t0 == at
    ensures var r := CheckAll(conf, key, u, cs);
            var j := FirstCrossing(conf, r.observed);
            && |r.observed| == |cs|
            && r.reports == if MayReport(u.lastReport, at) && j < |cs|
                            then [Report(key, at, cs[j].interval, r.observed[j].numReq, cs[j].limit)] else []
  {
    ChecksDecide(conf, key, u, cs);
    FirstDecision(conf, key, u.lastReport, cs, CheckAll(conf, key, u, cs).observed, at);
  }

  lemma {:induction false} ChecksKeep(conf: Conf, key: string, u: User, cs: seq<Check>, interval: int)
    requires AreChecks(cs) && forall i :: 0 <= i < |cs| ==> cs[i].interval != interval
    ensures var after := CheckAll(conf, key, u, cs).user;
            after.requests == u.requests && ListOf(after.lists, interval) == ListOf(u.lists, interval)
  {
    if cs != [] {
      ChecksKeep(conf, key, u, cs[..|cs| - 1], interval);
    }
  }

  lemma {:induction false} ObservedAt(conf: Conf, key: string, u: User, cs: seq<Check>, j: nat)
    requires AreChecks(cs) && j < |cs|
    ensures |CheckAll(conf, key, u, cs).observed| == |cs|
    ensures CheckAll(conf, key, u, cs).observed[j] == Observe(conf, CheckAll(conf, key, u, cs[..j]).user, cs[j])
  {
    var n := |cs| - 1;
    hide Observe, Measured;
    if j < n {
      ObservedAt(conf, key, u, cs[..n], j);
      assert cs[..n][..j] == cs[..j];
    } else if n > 0 {
      ObservedAt(conf, key, u, cs[..n], 0);
    }
  }

  lemma FirstMeasurement(conf: Conf, u: User, c: Check)
    requires IsCheck(c) && conf.exceedingCap > 0 && ListOf(u.lists, c.interval) == []
    ensures var obs := Observe(conf, u, c);
            && obs.numReq == CountAfter(u.requests, c.counted - c.interval as real)
            && obs.movAvg == if obs.numReq >= c.limit then (obs.numReq - c.limit) as real / c.limit as real else 0.0
  {
    var numReq := Observe(conf, u, c).numReq;
    if numReq >= c.limit {
      var x := Exceeding(numReq - c.limit, c.t0);
      assert Push([], x, conf.exceedingCap) == [x];
      FreshWeight(x, c.interval);
      SumStep([], x, c.t0, c.interval);
      assert [] + [x] == [x];
    }
  }

  /** Who has not overrun a limit before, and then has at least 1 + threshold times the limit in the window, is
      reported, unless reported within the last two minutes: about that limit, or one visited earlier. */
  lemma OverrunIsReported(conf: Conf, key: string, u: User, cs: seq<Check>, at: Time, j: nat)
    requires AreChecks(cs) && (forall i :: 0 <= i < |cs| ==> cs[i].t0 == at) && j < |cs|
    requires forall i :: 0 <= i < j ==> cs[i].interval != cs[j].interval
    requires conf.exceedingCap > 0 && conf.threshold >= 0.0
    requires u.lastReport == None || at - u.lastReport.value > 120.0
    requires ListOf(u.lists, cs[j].interval) == []
    requires CountAfter(u.requests, cs[j].counted - cs[j].interval as real) as real >=
             (1.0 + conf.threshold) * cs[j].limit as real
    ensures var r := CheckAll(conf, key, u, cs);
            && |r.reports| == 1 && r.reports[0].user == key && r.reports[0].created == at
            && exists i :: 0 <= i <= j && r.reports[0].interval == cs[i].interval
  {
    hide CheckAll, Observe, CountAfter, ListOf;
    var c := cs[j];
    var before := CheckAll(conf, key, u, cs[..j]).user;
    ChecksKeep(conf, key, u, cs[..j], c.interval);
    FirstMeasurement(conf, before, c);
    ObservedAt(conf, key, u, cs, j);
    ShareReached(CountAfter(u.requests, c.counted - c.interval as real), c.limit, conf.threshold);
    ReportedIff(conf, key, u, cs, at);
  }

  lemma ShareReached(numReq: nat, limit: int, threshold: real)
    requires limit > 0 && threshold >= 0.0 && numReq as real >= (1.0 + threshold) * limit as real
    ensures numReq >= limit && (numReq - limit) as real / limit as real >= threshold
  {
    var l := limit as real;
    NonNegativeProduct(threshold, l);
    assert (1.0 + threshold) * l == l + threshold * l;
    DivideMonotone(threshold * l, (numReq - limit) as real, l);
    assert threshold * l / l == threshold;
  }

  /** At most one report for a request, provided handling it takes no more than two minutes. */
  lemma OneReportPerRequest(conf: Conf, key: string, u: User, cs: seq<Check>, start: Time)
    requires AreChecks(cs)
    requires forall i :: 0 <= i < |cs| ==> start <= cs[i].t0 <= start + MIN_REPORTS_INTERVAL
    ensures |CheckAll(conf, key, u, cs).reports| <= 1
  {
    var rs := CheckAll(conf, key, u, cs).reports;
    ChecksDecide(conf, key, u, cs);
    DecisionsAreThrottled(conf, key, u.lastReport, cs, CheckAll(conf, key, u, cs).observed);
    AtMostOne(rs, start);
  }

  lemma AtMostOne(rs: seq<Report>, start: Time)
    requires Spaced(rs, MIN_REPORTS_INTERVAL)
    requires forall i :: 0 <= i < |rs| ==> start <= rs[i].created <= start + MIN_REPORTS_INTERVAL
    ensures |rs| <= 1
  {
    FirstGap(rs);
    FirstSpan(rs, start);
  }

  lemma FirstGap(rs: seq<Report>)
    requires Spaced(rs, MIN_REPORTS_INTERVAL)
    ensures |rs| >= 2 ==> rs[1].created - rs[0].created > MIN_REPORTS_INTERVAL
  {}

  lemma FirstSpan(rs: seq<Report>, start: Time)
    requires forall i :: 0 <= i < |rs| ==> start <= rs[i].created <= start + MIN_REPORTS_INTERVAL
    ensures |rs| >= 2 ==> rs[1].created - rs[0].created <= MIN_REPORTS_INTERVAL
  {}
}
