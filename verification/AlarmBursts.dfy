/** A user who sends many requests at one instant: exactly when the alarm goes off. */
module AlarmBursts {
  import opened Text
  import opened Ring
  import opened Counter
  import opened Decay
  import opened Alarms
  import opened AlarmRuns
  import opened AlarmReports

  /** A service with one limit. */
  ghost predicate HasOneLimit(sv: Service, interval: int, limit: int) {
    IsService(sv) && interval > 0 && limit > 0 && sv.limits == map[interval := limit]
  }

  /** `n` requests of one user, all at the same time. */
  function Burst(key: string, at: Time, interval: int, n: nat): seq<Event> {
    if n == 0 then [] else Burst(key, at, interval, n - 1) + [Request(key, at, [interval])]
  }

  function Times(at: Time, n: nat): seq<Time> {
    if n == 0 then [] else Times(at, n - 1) + [at]
  }

  /** The measurements of the requests that reach the limit: 0, 1, 2, ... requests beyond it. */
  function Ramp(at: Time, n: nat): seq<Exceeding> {
    if n == 0 then [] else Ramp(at, n - 1) + [Exceeding(n - 1, at)]
  }

  /** How many of `n` requests reach the limit. */
  function Reaching(n: nat, limit: int): nat {
    if n < limit then 0 else n - limit + 1
  }

  /** The mean of the overflows 0 .. n - limit is half of the last one. */
  predicate Crosses(n: nat, limit: int, threshold: real) {
    n >= limit && (n - limit) as real >= 2.0 * threshold * limit as real
  }

  /** The first of `n` requests that crosses the threshold, or `n + 1`. */
  function FirstCross(n: nat, limit: int, threshold: real): (q: nat)
    ensures q <= n + 1
    ensures forall i: nat :: i < q ==> i <= n && !Crosses(i, limit, threshold)
    ensures q <= n ==> Crosses(q, limit, threshold)
  {
    if n == 0 then (if Crosses(0, limit, threshold) then 0 else 1)
    else
      var q := FirstCross(n - 1, limit, threshold);
      if q < n || Crosses(n, limit, threshold) then q else n + 1
  }

  function SumBelow(n: nat): nat {
    if n == 0 then 0 else SumBelow(n - 1) + (n - 1)
  }

  lemma {:induction false} TwiceSumBelow(n: nat)
    ensures 2 * SumBelow(n) == n * (n - 1)
  {
    if n > 0 {
      TwiceSumBelow(n - 1);
    }
  }

  lemma {:induction false} RampSum(at: Time, n: nat, interval: int)
    requires interval > 0
    ensures WeightedSum(Ramp(at, n), at, interval) == SumBelow(n) as real
    ensures |Ramp(at, n)| == n
  {
    if n > 0 {
      var x := Exceeding(n - 1, at);
      RampSum(at, n - 1, interval);
      SumStep(Ramp(at, n - 1), x, at, interval);
      FreshWeight(x, interval);
    }
  }

  lemma TwiceAsReal(sum: nat, n: nat)
    requires 2 * sum == n * (n - 1)
    ensures 2.0 * sum as real == n as real * (n as real - 1.0)
  {
    assert (2 * sum) as real == 2.0 * sum as real;
    assert (n * (n - 1)) as real == n as real * (n - 1) as real;
  }

  lemma RampMean(at: Time, n: nat, interval: int, limit: int)
    requires interval > 0 && limit > 0 && n > 0
    ensures Relative(Ramp(at, n), at, interval, limit) == (n - 1) as real / 2.0 / limit as real
  {
    hide WeightedSum;
    RampSum(at, n, interval);
    TwiceSumBelow(n);
    TwiceAsReal(SumBelow(n), n);
    HalfOf(SumBelow(n) as real, n as real);
  }

  lemma HalfOf(s: real, n: real)
    requires n > 0.0 && 2.0 * s == n * (n - 1.0)
    ensures s / n == (n - 1.0) / 2.0
  {
    var h := (n - 1.0) / 2.0;
    assert s == n * h;
    QuotientIs(s, n, h);
  }

  lemma QuotientIs(s: real, n: real, h: real)
    requires n > 0.0 && s == n * h
    ensures s / n == h
  {
    assert (n * h) / n == h;
  }

  lemma MeanCrossesIff(k: nat, limit: int, threshold: real)
    requires limit > 0
    ensures k as real / 2.0 / limit as real >= threshold <==> k as real >= 2.0 * threshold * limit as real
  {
    var l := limit as real;
    var h := k as real / 2.0;
    if h / l >= threshold {
      ReachesTimes(h, l, threshold);
    }
    if h >= threshold * l {
      DivideMonotone(threshold * l, h, l);
      assert threshold * l / l == threshold;
    }
    assert 2.0 * threshold * l == 2.0 * (threshold * l);
  }

  lemma RampCrossesIff(at: Time, n: nat, interval: int, limit: int, threshold: real)
    requires interval > 0 && limit > 0 && threshold > 0.0
    ensures Relative(Ramp(at, Reaching(n, limit)), at, interval, limit) >= threshold <==>
            Crosses(n, limit, threshold)
  {
    hide Relative;
    if n >= limit {
      RampMean(at, Reaching(n, limit), interval, limit);
      MeanCrossesIff(n - limit, limit, threshold);
    } else {
      EmptyMean(at, interval, limit);
    }
  }

  lemma EmptyMean(at: Time, interval: int, limit: int)
    requires interval > 0 && limit > 0
    ensures Relative([], at, interval, limit) == 0.0
  {}

  lemma {:induction false} AllCounted(at: Time, n: nat, interval: int)
    requires interval > 0
    ensures CountAfter(Times(at, n), at - interval as real) == n && |Times(at, n)| == n
  {
    if n > 0 {
      AllCounted(at, n - 1, interval);
      assert Times(at, n)[..n - 1] == Times(at, n - 1);
    }
  }

  /** What is known about the user after `n` requests. */
  ghost predicate InBurst(u: User, at: Time, interval: int, limit: int, n: nat, reported: bool) {
    && u.requests == Times(at, n) && ListOf(u.lists, interval) == Ramp(at, Reaching(n, limit))
    && u.lastReport == if reported then Some(at) else None
  }

  function ReportFor(key: string, at: Time, interval: int, limit: int, n: nat): Report {
    Report(key, at, interval, n, limit)
  }

  lemma NextMeasured(conf: Conf, u: User, at: Time, interval: int, limit: int, n: nat, reported: bool)
    requires interval > 0 && limit > 0 && InBurst(u, at, interval, limit, n, reported)
    requires n + 1 <= conf.requestCap && Reaching(n + 1, limit) <= conf.exceedingCap
    ensures var c := Check(interval, limit, at, at);
            var r := Received(conf, u, at);
            InBurst(Measured(conf, r, c, n + 1), at, interval, limit, n + 1, reported)
  {
    hide CountAfter, WeightedSum;
    AllCounted(at, n, interval);
    RampSum(at, Reaching(n, limit), interval);
    var r := Received(conf, u, at);
    assert r.requests == Times(at, n + 1);
    if n + 1 >= limit {
      var x := Exceeding(n + 1 - limit, at);
      assert Push(Ramp(at, Reaching(n, limit)), x, conf.exceedingCap) == Ramp(at, Reaching(n + 1, limit));
    }
  }

  lemma NextObserved(conf: Conf, u: User, at: Time, interval: int, limit: int, n: nat, reported: bool)
    requires interval > 0 && limit > 0 && InBurst(u, at, interval, limit, n, reported) && conf.threshold > 0.0
    requires n + 1 <= conf.requestCap && Reaching(n + 1, limit) <= conf.exceedingCap
    ensures var obs := Observe(conf, Received(conf, u, at), Check(interval, limit, at, at));
            obs.numReq == n + 1 && (obs.movAvg >= conf.threshold <==> Crosses(n + 1, limit, conf.threshold))
  {
    var c := Check(interval, limit, at, at);
    var r := Received(conf, u, at);
    hide Relative, Ramp, CountAfter, Crosses;
    NextMeasured(conf, u, at, interval, limit, n, reported);
    AllCounted(at, n + 1, interval);
    ObservedAverage(conf, r, c);
    RampCrossesIff(at, n + 1, interval, limit, conf.threshold);
  }

  lemma NextDecided(conf: Conf, key: string, u: User, at: Time, interval: int, limit: int, n: nat, reported: bool)
    requires interval > 0 && limit > 0 && InBurst(u, at, interval, limit, n, reported) && conf.threshold > 0.0
    requires n + 1 <= conf.requestCap && Reaching(n + 1, limit) <= conf.exceedingCap
    ensures var r := CheckOne(conf, key, Received(conf, u, at), Check(interval, limit, at, at));
            var now := !reported && Crosses(n + 1, limit, conf.threshold);
            && InBurst(r.user, at, interval, limit, n + 1, reported || now)
            && r.reports == if now then [ReportFor(key, at, interval, limit, n + 1)] else []
  {
    hide Relative, CountAfter, Crosses, Observe, Measured, Ramp;
    NextMeasured(conf, u, at, interval, limit, n, reported);
    NextObserved(conf, u, at, interval, limit, n, reported);
  }

  lemma OneLimitChecked(sv: Service, users: map<string, User>, key: string, at: Time, interval: int, limit: int)
    requires HasOneLimit(sv, interval, limit)
    ensures var r := Process(sv, users, key, at, [interval]);
            var one := CheckOne(sv.conf, key, Received(sv.conf, UserOf(users, key), at),
                                Check(interval, limit, at, at));
            r.user == one.user && r.reports == one.reports
  {
    var c := Check(interval, limit, at, at);
    assert ChecksAt(sv, [interval], at) == [c];
    assert [c][..0] == [];
    var u := Received(sv.conf, UserOf(users, key), at);
    assert CheckAll(sv.conf, key, u, [c]) == Then(Outcome(u, [], []), CheckOne(sv.conf, key, u, c));
  }

  lemma {:induction false} BurstIsTimed(sv: Service, key: string, at: Time, interval: int, limit: int, n: nat)
    requires HasOneLimit(sv, interval, limit)
    ensures WellTimed(sv, Burst(key, at, interval, n)) && |Burst(key, at, interval, n)| == n
    ensures forall i :: 0 <= i < n ==> Burst(key, at, interval, n)[i] == Request(key, at, [interval])
  {
    if n > 0 {
      BurstIsTimed(sv, key, at, interval, limit, n - 1);
      assert AreLimits([interval], sv.limits);
    }
  }

  /** What a burst leads to: at most one report, about the first request that crosses the threshold. */
  ghost predicate IsBurstOutcome(sv: Service, m: int, key: string, at: Time, interval: int, limit: int, n: nat)
    requires HasOneLimit(sv, interval, limit) && WellTimed(sv, Burst(key, at, interval, n))
  {
    var q := FirstCross(n, limit, sv.conf.threshold);
    var events := Burst(key, at, interval, n);
    && Reported(sv, m, events, key) == (if q <= n then [ReportFor(key, at, interval, limit, q)] else [])
    && InBurst(UserOf(UsersAfter(sv, m, events, true), key), at, interval, limit, n, q <= n)
  }

  /** Of a new user's requests at one instant, the first that is reported is the first for which the overrun is
      twice the threshold's share of the limit: the mean of all overruns on the way is half the last one. It is
      the only one reported. */
  lemma {:induction false} BurstReportedIff(sv: Service, m: int, key: string, at: Time, interval: int, limit: int,
                                            n: nat)
    requires HasOneLimit(sv, interval, limit)
    requires n <= sv.conf.requestCap && Reaching(n, limit) <= sv.conf.exceedingCap
    ensures WellTimed(sv, Burst(key, at, interval, n))
    ensures IsBurstOutcome(sv, m, key, at, interval, limit, n)
  {
    BurstIsTimed(sv, key, at, interval, limit, n);
    if n > 0 {
      BurstReportedIff(sv, m, key, at, interval, limit, n - 1);
      BurstStep(sv, m, key, at, interval, limit, n);
    }
  }

  lemma BurstStep(sv: Service, m: int, key: string, at: Time, interval: int, limit: int, n: nat)
    requires HasOneLimit(sv, interval, limit) && n > 0
    requires n <= sv.conf.requestCap && Reaching(n, limit) <= sv.conf.exceedingCap
    requires WellTimed(sv, Burst(key, at, interval, n - 1)) && WellTimed(sv, Burst(key, at, interval, n))
    requires IsBurstOutcome(sv, m, key, at, interval, limit, n - 1)
    ensures IsBurstOutcome(sv, m, key, at, interval, limit, n)
  {
    hide InBurst, Process, CheckOne, Received, WellTimed, Crosses, Reported, UsersAfter;
    var before, e := Burst(key, at, interval, n - 1), Request(key, at, [interval]);
    var users := UsersAfter(sv, m, before, true);
    var q := FirstCross(n - 1, limit, sv.conf.threshold);
    NextDecided(sv.conf, key, UserOf(users, key), at, interval, limit, n - 1, q <= n - 1);
    OneLimitChecked(sv, users, key, at, interval, limit);
    Step(sv, m, before, e, key);
  }

  /** So a burst is reported if and only if its last request crosses the threshold. */
  lemma BurstAlarmsIff(sv: Service, m: int, key: string, at: Time, interval: int, limit: int, n: nat)
    requires HasOneLimit(sv, interval, limit) && limit > 0
    requires n <= sv.conf.requestCap && Reaching(n, limit) <= sv.conf.exceedingCap
    ensures WellTimed(sv, Burst(key, at, interval, n))
    ensures Reported(sv, m, Burst(key, at, interval, n), key) != [] <==>
            n >= limit && (n - limit) as real >= 2.0 * sv.conf.threshold * limit as real
  {
    hide Reported, UsersAfter, InBurst, WellTimed, IsService, HasOneLimit;
    BurstReportedIff(sv, m, key, at, interval, limit, n);
    assert Crosses(n, limit, sv.conf.threshold) ==> FirstCross(n, limit, sv.conf.threshold) <= n;
  }
}
