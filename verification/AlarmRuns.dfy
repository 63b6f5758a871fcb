/** The request step and the cleanup of `AlarmTicker`, over whole runs. All clock readings of one step
    are taken to be equal, and a request's creation time to be the time it is processed. */
module AlarmRuns {
  import opened Text
  import opened Ring
  import opened Counter
  import opened Decay
  import opened Alarms

  /** The limits of a service: requests allowed per interval (in seconds). */
  datatype Service = Service(conf: Conf, limits: map<int, int>)

  ghost predicate IsService(sv: Service) {
    && sv.conf.requestCap > 0 && sv.conf.exceedingCap > 0 && sv.conf.threshold > 0.0
    && forall i <- sv.limits :: i > 0 && sv.limits[i] > 0
  }

  /** `order` is the order in which the limits happen to be visited. */
  datatype Event = Request(user: string, at: Time, order: seq<int>) | Cleanup(at: Time)

  predicate AreLimits(order: seq<int>, limits: map<int, int>) {
    forall k :: 0 <= k < |order| ==> order[k] in limits
  }

  predicate VisitsAll(order: seq<int>, limits: map<int, int>) {
    forall i <- limits :: exists k :: 0 <= k < |order| && order[k] == i
  }

  function ChecksAt(sv: Service, order: seq<int>, at: Time): (cs: seq<Check>)
    requires IsService(sv) && AreLimits(order, sv.limits)
    ensures |cs| == |order| && AreChecks(cs)
    ensures forall k :: 0 <= k < |cs| ==> cs[k] == Check(order[k], sv.limits[order[k]], at, at)
  {
    if order == [] then []
    else
      [Check(order[0], sv.limits[order[0]], at, at)] + ChecksAt(sv, order[1..], at)
  }

  predicate IsMax(limits: map<int, int>, m: int) {
    m >= 0 && (forall i <- limits :: i <= m) && (m == 0 || m in limits)
  }

  /** It is the greatest interval, or zero when there is no limit. */
  lemma MaxIs(limits: map<int, int>, m: int)
    requires forall i <- limits :: i > 0
    ensures IsMax(limits, m) <==>
            (m in limits || (m == 0 && forall i :: i !in limits)) && forall i <- limits :: i <= m
  {}

  function UserOf(users: map<string, User>, key: string): User {
    if key in users then users[key] else NEW_USER
  }

  function Process(sv: Service, users: map<string, User>, key: string, at: Time, order: seq<int>): Outcome
    requires IsService(sv) && AreLimits(order, sv.limits)
  {
    CheckAll(sv.conf, key, Received(sv.conf, UserOf(users, key), at), ChecksAt(sv, order, at))
  }

  predicate IsIdle(u: User, oldest: Time) {
    u.requests != [] && u.requests[|u.requests| - 1] < oldest
  }

  function Cleaned(users: map<string, User>, oldest: Time): map<string, User> {
    map k | k in users && !IsIdle(users[k], oldest) :: users[k]
  }

  /** A cleanup under way: the users in `todo` have not been looked at yet. */
  function Cleaning(users: map<string, User>, todo: set<string>, oldest: Time): map<string, User> {
    map k | k in users && (k in todo || !IsIdle(users[k], oldest)) :: users[k]
  }

  lemma CleaningStep(users: map<string, User>, todo: set<string>, oldest: Time, key: string)
    requires todo <= users.Keys && key in todo
    ensures Cleaning(users, todo - {key}, oldest) ==
            if IsIdle(users[key], oldest) then Cleaning(users, todo, oldest) - {key} else Cleaning(users, todo, oldest)
    ensures key in Cleaning(users, todo, oldest) && Cleaning(users, todo, oldest)[key] == users[key]
  {}

  lemma CleaningEnds(users: map<string, User>, oldest: Time)
    ensures Cleaning(users, users.Keys, oldest) == users && Cleaning(users, {}, oldest) == Cleaned(users, oldest)
  {}

  lemma WithNewUser(sv: Service, users: map<string, User>, key: string, at: Time, order: seq<int>)
    requires IsService(sv) && AreLimits(order, sv.limits) && key !in users
    ensures var r := Process(sv, users, key, at, order);
            && Process(sv, users[key := NEW_USER], key, at, order) == r
            && users[key := NEW_USER][key := r.user] == users[key := r.user]
  {}

  class AlarmTicker {
    const service: Service
    var clientRequests: map<string, UserActivity>
    var reports: seq<Report>
    ghost var Repr: set<object>

    /** Every user has objects of its own. */
    ghost predicate Valid()
      reads this, Repr
    {
      && this !in Repr
      && (forall k <- clientRequests :: clientRequests[k] in Repr)
      && (forall k <- clientRequests :: clientRequests[k] in clientRequests[k].Repr && clientRequests[k].Repr <= Repr)
      && (forall k <- clientRequests :: clientRequests[k].Owns() && clientRequests[k].HasSizes(service.conf))
      && (forall k <- clientRequests, l <- clientRequests ::
            k != l ==> clientRequests[k].Repr !! clientRequests[l].Repr)
    }

    ghost function Users(): (users: map<string, User>)
      reads this, Repr
      requires Valid()
      ensures users.Keys == clientRequests.Keys
    {
      map k | k in clientRequests :: clientRequests[k].user
    }

    constructor (service: Service)
      ensures Valid() && this.service == service && Users() == map[] && reports == []
    {
      this.service := service;
      clientRequests, reports, Repr := map[], [], {};
    }

    method ProcessRequest(key: string, at: Time, order: seq<int>)
      requires Valid() && IsService(service) && AreLimits(order, service.limits)
      modifies this, Repr
      ensures Valid() && fresh(Repr - old(Repr))
      ensures var r := Process(service, old(Users()), key, at, order);
              Users() == old(Users())[key := r.user] && reports == old(reports) + r.reports
    {
      hide AlarmTicker.Valid, AlarmTicker.Users, IsService, AreLimits, Process;
      ghost var users := Users();
      if key !in clientRequests {
        AddUser(key);
        WithNewUser(service, users, key, at, order);
      }
      CheckUser(key, at, order);
    }

    method CheckUser(key: string, at: Time, order: seq<int>)
      requires Valid() && IsService(service) && AreLimits(order, service.limits) && key in clientRequests
      modifies this`reports, this`Repr, Repr
      ensures Valid() && fresh(Repr - old(Repr))
      ensures var r := Process(service, old(Users()), key, at, order);
              Users() == old(Users())[key := r.user] && reports == old(reports) + r.reports
    {
      hide UserActivity.Owns, UserActivity.HasSizes, AreLimits, CheckAll, ChecksAt;
      var userActivity := clientRequests[key];
      var newReports := userActivity.ReceiveAndCheck(service.conf, key, at, ChecksAt(service, order, at));
      Repr, reports := Repr + userActivity.Repr, reports + newReports;
    }

    method AddUser(key: string)
      requires Valid() && IsService(service) && key !in clientRequests
      modifies this`clientRequests, this`Repr
      ensures Valid() && fresh(Repr - old(Repr))
      ensures key in clientRequests && Users() == old(Users())[key := NEW_USER]
    {
      hide UserActivity.Owns, UserActivity.HasSizes, AreLimits, CheckAll, ChecksAt;
      var userActivity := new UserActivity(service.conf);
      clientRequests, Repr := clientRequests[key := userActivity], Repr + userActivity.Repr;
    }

    lemma UserOf(userID: string)
      requires Valid() && userID in clientRequests
      ensures clientRequests[userID].Owns() && Users()[userID] == clientRequests[userID].user
    {}

    method LastBefore(userID: string, oldestTime: Time) returns (idle: bool)
      requires Valid() && userID in clientRequests
      ensures idle == IsIdle(Users()[userID], oldestTime)
    {
      hide AlarmTicker.Valid, AlarmTicker.Users;
      UserOf(userID);
      var limitInfo := clientRequests[userID];
      if limitInfo.requests.len == 0 {
        return false;
      }
      var mostRecent := limitInfo.requests.Last();
      idle := mostRecent < oldestTime;
    }

    method Delete(userID: string)
      requires Valid() && userID in clientRequests
      modifies this`clientRequests
      ensures Valid() && Users() == old(Users()) - {userID}
    {
      hide UserActivity.Owns, UserActivity.HasSizes, AreLimits, CheckAll, ChecksAt;
      clientRequests := clientRequests - {userID};
    }

    /** Removes the users whose last request is older than every interval. */
    method RemoveUsersWithNoRecentActivity(now: Time, order: seq<int>)
      requires Valid() && AreLimits(order, service.limits)
      requires VisitsAll(order, service.limits)
      modifies this`clientRequests
      ensures Valid()
      ensures exists m :: IsMax(service.limits, m) && Users() == Cleaned(old(Users()), now - m as real)
    {
      hide AlarmTicker.Valid, AlarmTicker.Users, Cleaning, Cleaned, IsIdle, IsMax, VisitsAll, AreLimits;
      var maxInterval := MaxInterval(service.limits, order);
      var oldestTime := now - maxInterval as real;
      ghost var users := Users();
      var todo := clientRequests.Keys;
      CleaningEnds(users, oldestTime);
      while todo != {}
        invariant Valid() && todo <= users.Keys
        invariant Users() == Cleaning(users, todo, oldestTime)
        decreases |todo|
      {
        var userID :| userID in todo;
        CleaningStep(users, todo, oldestTime, userID);
        todo := todo - {userID};
        var idle := LastBefore(userID, oldestTime);
        if idle {
          Delete(userID);
        }
      }
    }
  }

  method MaxInterval(limits: map<int, int>, order: seq<int>) returns (maxInterval: int)
    requires AreLimits(order, limits)
    requires VisitsAll(order, limits)
    ensures IsMax(limits, maxInterval)
  {
    maxInterval := 0;
    for n := 0 to |order|
      invariant maxInterval >= 0 && (maxInterval == 0 || maxInterval in limits)
      invariant forall k :: 0 <= k < n ==> order[k] <= maxInterval
    {
      if order[n] > maxInterval {
        maxInterval := order[n];
      }
    }
  }

  predicate IsEvent(sv: Service, e: Event) {
    e.Request? ==> AreLimits(e.order, sv.limits)
  }

  /** A run: clock readings never decrease. */
  predicate WellTimed(sv: Service, events: seq<Event>) {
    && (forall i :: 0 <= i < |events| ==> IsEvent(sv, events[i]))
    && forall i, j :: 0 <= i < j < |events| ==> events[i].at <= events[j].at
  }

  // ----- cleanup never hides an alarm -----

  /** The users after an event; `cleaning` says whether cleanups take place. */
  function After(sv: Service, m: int, users: map<string, User>, e: Event, cleaning: bool): map<string, User>
    requires IsService(sv) && IsEvent(sv, e)
  {
    match e
    case Request(key, at, order) => users[key := Process(sv, users, key, at, order).user]
    case Cleanup(at) => if cleaning then Cleaned(users, at - m as real) else users
  }

  /** What an event measures: nothing for a cleanup, one observation per limit for a request. */
  function Seen(sv: Service, users: map<string, User>, e: Event): seq<seq<Observation>>
    requires IsService(sv) && IsEvent(sv, e)
  {
    if e.Request? then [Process(sv, users, e.user, e.at, e.order).observed] else []
  }

  /** The users after a run that starts with none. */
  function UsersAfter(sv: Service, m: int, events: seq<Event>, cleaning: bool): map<string, User>
    requires IsService(sv) && WellTimed(sv, events)
  {
    if events == [] then map[]
    else
      var n := |events| - 1;
      After(sv, m, UsersAfter(sv, m, events[..n], cleaning), events[n], cleaning)
  }

  /** Everything the requests of a run measure, in order. */
  function Observed(sv: Service, m: int, events: seq<Event>, cleaning: bool): seq<seq<Observation>>
    requires IsService(sv) && WellTimed(sv, events)
  {
    if events == [] then []
    else
      var n := |events| - 1;
      Observed(sv, m, events[..n], cleaning) + Seen(sv, UsersAfter(sv, m, events[..n], cleaning), events[n])
  }

  function NumRequests(events: seq<Event>): nat {
    if events == [] then 0
    else NumRequests(events[..|events| - 1]) + (if events[|events| - 1].Request? then 1 else 0)
  }

  /** Every request of a run is measured against every limit visited for it. */
  lemma {:induction false} EveryRequestIsMeasured(sv: Service, m: int, events: seq<Event>, cleaning: bool)
    requires IsService(sv) && WellTimed(sv, events)
    ensures |Observed(sv, m, events, cleaning)| == NumRequests(events)
    ensures events != [] && events[|events| - 1].Request? ==>
              |Observed(sv, m, events, cleaning)[NumRequests(events) - 1]| == |events[|events| - 1].order|
  {
    if events != [] {
      var n := |events| - 1;
      var e := events[n];
      EveryRequestIsMeasured(sv, m, events[..n], cleaning);
      if e.Request? {
        var users := UsersAfter(sv, m, events[..n], cleaning);
        ObservedLength(sv.conf, e.user, Received(sv.conf, UserOf(users, e.user), e.at), ChecksAt(sv, e.order, e.at));
      }
    }
  }

  lemma ObservedLength(conf: Conf, key: string, u: User, cs: seq<Check>)
    requires AreChecks(cs)
    ensures |CheckAll(conf, key, u, cs).observed| == |cs|
  {
    if cs != [] {
      ObservedAt(conf, key, u, cs, 0);
    }
  }

  /** The same counts, and averages at least as large. */
  predicate Dominates(a: seq<Observation>, b: seq<Observation>) {
    |a| == |b| && forall i :: 0 <= i < |a| ==> a[i].numReq == b[i].numReq && a[i].movAvg >= b[i].movAvg
  }

  /** `small` is the end of `big`, and what `big` has in addition lies before `oldest`. */
  predicate TimesTail(big: seq<Time>, small: seq<Time>, oldest: Time) {
    && |small| <= |big| && big[|big| - |small|..] == small
    && forall i :: 0 <= i < |big| - |small| ==> big[i] < oldest
  }

  predicate ListTail(big: seq<Exceeding>, small: seq<Exceeding>, oldest: Time) {
    && |small| <= |big| && big[|big| - |small|..] == small
    && forall i :: 0 <= i < |big| - |small| ==> big[i].at < oldest
  }

  /** How the requests of a user in the run with cleanups relate to those in the run without. */
  predicate RequestsRelated(big: seq<Time>, small: seq<Time>, oldest: Time, cap: nat, now: Time) {
    |big| <= cap && TimesTail(big, small, oldest) && Sorted(small) && (forall k :: 0 <= k < |small| ==> small[k] <= now)
  }

  /** The same for the overruns of an interval; none is newer than the last request. */
  predicate ListsRelated(big: seq<Exceeding>, small: seq<Exceeding>, oldest: Time, cap: nat, requests: seq<Time>) {
    && |big| <= cap && ListTail(big, small, oldest)
    && (small == [] || requests != [])
    && forall k :: 0 <= k < |small| ==> small[k].at <= requests[|requests| - 1]
  }

  ghost predicate Related(sv: Service, w: User, o: User, oldest: Time, now: Time) {
    && RequestsRelated(o.requests, w.requests, oldest, sv.conf.requestCap, now)
    && forall i :: ListsRelated(ListOf(o.lists, i), ListOf(w.lists, i), oldest, sv.conf.exceedingCap, w.requests)
  }

  lemma TimesTailPush(big: seq<Time>, small: seq<Time>, oldest: Time, x: Time, cap: nat)
    requires TimesTail(big, small, oldest) && |big| <= cap && cap > 0
    ensures TimesTail(Push(big, x, cap), Push(small, x, cap), oldest)
  {}

  lemma ListTailPush(big: seq<Exceeding>, small: seq<Exceeding>, oldest: Time, x: Exceeding, cap: nat)
    requires ListTail(big, small, oldest) && |big| <= cap && cap > 0
    ensures ListTail(Push(big, x, cap), Push(small, x, cap), oldest)
  {}

  /** Requests before `oldest` are in no window, so both users count the same. */
  lemma TailCounts(big: seq<Time>, small: seq<Time>, oldest: Time, since: Time)
    requires TimesTail(big, small, oldest) && oldest <= since
    ensures CountAfter(big, since) == CountAfter(small, since)
  {
    var n := |big| - |small|;
    assert big == big[..n] + small;
    CountConcat(big[..n], small, since);
    CountBounds(big[..n], since);
  }

  lemma {:induction false} OldWeighNothing(list: seq<Exceeding>, at: Time, interval: int)
    requires interval > 0 && forall i :: 0 <= i < |list| ==> !InWindow(list[i], at, interval)
    ensures WeightedSum(list, at, interval) == 0.0
  {
    if list != [] {
      var n := |list| - 1;
      OldWeighNothing(list[..n], at, interval);
      SumStep(list[..n], list[n], at, interval);
      assert list == list[..n] + [list[n]];
    }
  }

  lemma {:induction false} SumConcat(a: seq<Exceeding>, b: seq<Exceeding>, at: Time, interval: int)
    requires interval > 0
    ensures WeightedSum(a + b, at, interval) == WeightedSum(a, at, interval) + WeightedSum(b, at, interval)
  {
    if b == [] {
      assert a + b == a;
    } else {
      var n := |b| - 1;
      SumConcat(a, b[..n], at, interval);
      SumStep(a + b[..n], b[n], at, interval);
      SumStep(b[..n], b[n], at, interval);
      assert a + b == (a + b[..n]) + [b[n]] && b == b[..n] + [b[n]];
    }
  }

  lemma AverageOfFewer(s: real, n: real, k: real, l: real)
    requires s >= 0.0 && 0.0 < n <= k && l > 0.0
    ensures s / n / l >= s / k / l
  {
    DivideByMore(s, n, k);
    DivideMonotone(s / k, s / n, l);
  }

  /** Old measurements weigh nothing but lengthen the list, so the average without them is at least
      as large. */
  lemma TailAverages(big: seq<Exceeding>, small: seq<Exceeding>, oldest: Time, at: Time, interval: int, limit: int)
    requires ListTail(big, small, oldest) && oldest <= at - interval as real
    requires interval > 0 && limit > 0
    ensures Relative(small, at, interval, limit) >= Relative(big, at, interval, limit)
  {
    var n := |big| - |small|;
    assert big == big[..n] + small;
    SumConcat(big[..n], small, at, interval);
    OldWeighNothing(big[..n], at, interval);
    if small != [] {
      var m := LargestOf(small);
      SumBounds(small, at, interval, m);
      AverageOfFewer(WeightedSum(small, at, interval), |small| as real, |big| as real, limit as real);
    } else {
      assert WeightedSum(big, at, interval) == 0.0;
    }
  }

  lemma {:induction false} LargestOf(list: seq<Exceeding>) returns (m: nat)
    ensures forall e <- list :: e.value <= m
  {
    m := 0;
    if list != [] {
      var n := |list| - 1;
      m := LargestOf(list[..n]);
      m := if m < list[n].value then list[n].value else m;
      assert list == list[..n] + [list[n]];
    }
  }

  lemma ListsRelatedPush(big: seq<Exceeding>, small: seq<Exceeding>, oldest: Time, cap: nat,
                         requests: seq<Time>, x: Exceeding)
    requires cap > 0 && ListsRelated(big, small, oldest, cap, requests)
    requires requests != [] && x.at == requests[|requests| - 1]
    ensures ListsRelated(Push(big, x, cap), Push(small, x, cap), oldest, cap, requests)
  {
    ListTailPush(big, small, oldest, x, cap);
    PushKeepsAll(small, x, cap);
  }

  lemma PushKeepsAll(list: seq<Exceeding>, x: Exceeding, cap: nat)
    ensures forall k :: 0 <= k < |Push(list, x, cap)| ==> Push(list, x, cap)[k] in list + [x]
    ensures |Push(list, x, cap)| <= cap
  {}

  lemma RegisteredList(lists: map<int, seq<Exceeding>>, cap: nat, at: Time, c: Check, numReq: nat, i: int)
    ensures ListOf(Registered(lists, cap, at, c.interval, numReq, c.limit), i) ==
            if numReq >= c.limit && i == c.interval
            then Push(ListOf(lists, i), Exceeding(Overflow(numReq, c.limit), at), cap) else ListOf(lists, i)
  {}

  /** Both runs store the same measurement. */
  lemma RegisteredRelated(big: map<int, seq<Exceeding>>, small: map<int, seq<Exceeding>>, oldest: Time, cap: nat,
                          requests: seq<Time>, at: Time, c: Check, numReq: nat, i: int)
    requires cap > 0 && ListsRelated(ListOf(big, i), ListOf(small, i), oldest, cap, requests)
    requires Recent(requests, at)
    ensures ListsRelated(ListOf(Registered(big, cap, at, c.interval, numReq, c.limit), i),
                         ListOf(Registered(small, cap, at, c.interval, numReq, c.limit), i), oldest, cap, requests)
  {
    RegisteredList(big, cap, at, c, numReq, i);
    RegisteredList(small, cap, at, c, numReq, i);
    if numReq >= c.limit && i == c.interval {
      ListsRelatedPush(ListOf(big, i), ListOf(small, i), oldest, cap, requests,
                       Exceeding(Overflow(numReq, c.limit), at));
    }
  }

  predicate Recent(requests: seq<Time>, at: Time) {
    requests != [] && requests[|requests| - 1] == at
  }

  lemma MeasuredRelated(sv: Service, w: User, o: User, oldest: Time, at: Time, c: Check, numReq: nat)
    requires IsService(sv) && c.t0 == at
    requires Related(sv, w, o, oldest, at) && Recent(w.requests, at)
    ensures Related(sv, Measured(sv.conf, w, c, numReq), Measured(sv.conf, o, c, numReq), oldest, at)
  {
    var wm, om := Measured(sv.conf, w, c, numReq), Measured(sv.conf, o, c, numReq);
    var cap := sv.conf.exceedingCap;
    forall i ensures ListsRelated(ListOf(om.lists, i), ListOf(wm.lists, i), oldest, cap, w.requests) {
      RegisteredRelated(o.lists, w.lists, oldest, cap, w.requests, at, c, numReq, i);
    }
  }

  lemma CountsAgree(sv: Service, w: User, o: User, oldest: Time, c: Check)
    requires IsService(sv) && IsCheck(c) && oldest <= c.counted - c.interval as real
    requires TimesTail(o.requests, w.requests, oldest)
    ensures Observe(sv.conf, w, c).numReq == Observe(sv.conf, o, c).numReq
  {
    TailCounts(o.requests, w.requests, oldest, c.counted - c.interval as real);
  }

  lemma ObservedAverage(conf: Conf, u: User, c: Check)
    requires IsCheck(c)
    ensures Observe(conf, u, c).movAvg ==
            Relative(ListOf(Measured(conf, u, c, Observe(conf, u, c).numReq).lists, c.interval), c.t0, c.interval,
                     c.limit)
  {}

  lemma ObserveRelated(sv: Service, w: User, o: User, oldest: Time, at: Time, c: Check)
    requires IsService(sv) && IsCheck(c) && c.t0 == at && c.counted == at
    requires oldest <= at - c.interval as real
    requires Related(sv, w, o, oldest, at) && Recent(w.requests, at)
    ensures Observe(sv.conf, w, c).numReq == Observe(sv.conf, o, c).numReq
    ensures Observe(sv.conf, w, c).movAvg >= Observe(sv.conf, o, c).movAvg
  {
    CountsAgree(sv, w, o, oldest, c);
    var numReq := Observe(sv.conf, w, c).numReq;
    MeasuredRelated(sv, w, o, oldest, at, c, numReq);
    MeasuredAverages(sv, Measured(sv.conf, w, c, numReq), Measured(sv.conf, o, c, numReq), oldest, at, c);
    ObservedAverage(sv.conf, w, c);
    ObservedAverage(sv.conf, o, c);
  }

  lemma MeasuredAverages(sv: Service, wm: User, om: User, oldest: Time, at: Time, c: Check)
    requires IsCheck(c) && Related(sv, wm, om, oldest, at) && oldest <= at - c.interval as real
    ensures Relative(ListOf(wm.lists, c.interval), at, c.interval, c.limit) >=
            Relative(ListOf(om.lists, c.interval), at, c.interval, c.limit)
  {
    TailAverages(ListOf(om.lists, c.interval), ListOf(wm.lists, c.interval), oldest, at, c.interval, c.limit);
  }

  /** One turn of the loop over the limits, in both runs. */
  lemma CheckRelated(sv: Service, key: string, w: User, o: User, oldest: Time, at: Time, c: Check)
    requires IsService(sv) && IsCheck(c) && c.t0 == at && c.counted == at
    requires oldest <= at - c.interval as real
    requires Related(sv, w, o, oldest, at) && Recent(w.requests, at)
    ensures var a, b := CheckOne(sv.conf, key, w, c), CheckOne(sv.conf, key, o, c);
            && Dominates(a.observed, b.observed)
            && Related(sv, a.user, b.user, oldest, at) && Recent(a.user.requests, at)
  {
    ObserveRelated(sv, w, o, oldest, at, c);
    MeasuredRelated(sv, w, o, oldest, at, c, Observe(sv.conf, w, c).numReq);
    CheckKeepsMeasured(sv.conf, key, w, c);
    CheckKeepsMeasured(sv.conf, key, o, c);
  }

  /** Reporting changes nothing but the time of the last report. */
  lemma CheckKeepsMeasured(conf: Conf, key: string, u: User, c: Check)
    requires IsCheck(c)
    ensures var r := CheckOne(conf, key, u, c);
            var obs := Observe(conf, u, c);
            && r.observed == [obs]
            && r.user.requests == u.requests && r.user.lists == Measured(conf, u, c, obs.numReq).lists
  {}

  lemma {:induction false} ChecksRelated(sv: Service, key: string, w: User, o: User, oldest: Time, at: Time,
                                         cs: seq<Check>)
    requires IsService(sv) && AreChecks(cs)
    requires forall i :: 0 <= i < |cs| ==>
               oldest <= at - cs[i].interval as real && cs[i].t0 == at && cs[i].counted == at
    requires Related(sv, w, o, oldest, at) && Recent(w.requests, at)
    ensures var a, b := CheckAll(sv.conf, key, w, cs), CheckAll(sv.conf, key, o, cs);
            && Dominates(a.observed, b.observed)
            && Related(sv, a.user, b.user, oldest, at) && Recent(a.user.requests, at)
  {
    if cs != [] {
      var n := |cs| - 1;
      ChecksRelated(sv, key, w, o, oldest, at, cs[..n]);
      var a, b := CheckAll(sv.conf, key, w, cs[..n]), CheckAll(sv.conf, key, o, cs[..n]);
      var c := cs[n];
      CheckRelated(sv, key, a.user, b.user, oldest, at, c);
      DominatesConcat(a.observed, b.observed, CheckOne(sv.conf, key, a.user, c).observed,
                      CheckOne(sv.conf, key, b.user, c).observed);
    }
  }

  lemma DominatesConcat(a: seq<Observation>, b: seq<Observation>, c: seq<Observation>, d: seq<Observation>)
    requires Dominates(a, b) && Dominates(c, d)
    ensures Dominates(a + c, b + d)
  {}

  lemma RequestsRelatedPush(big: seq<Time>, small: seq<Time>, oldest: Time, cap: nat, now: Time, at: Time)
    requires cap > 0 && RequestsRelated(big, small, oldest, cap, now) && now <= at
    ensures RequestsRelated(Push(big, at, cap), Push(small, at, cap), oldest, cap, at)
    ensures Recent(Push(small, at, cap), at)
    ensures small != [] ==> small[|small| - 1] <= at
  {
    TimesTailPush(big, small, oldest, at, cap);
    SortedPush(small, cap, at);
  }

  lemma SortedPush(times: seq<Time>, cap: nat, at: Time)
    requires cap > 0 && Sorted(times) && forall k :: 0 <= k < |times| ==> times[k] <= at
    ensures Sorted(Push(times, at, cap)) && Recent(Push(times, at, cap), at)
    ensures forall k :: 0 <= k < |Push(times, at, cap)| ==> Push(times, at, cap)[k] <= at
  {
    var all := times + [at];
    assert forall k :: 0 <= k < |all| ==> all[k] <= at;
    assert Sorted(all);
  }

  lemma ReceivedRelated(sv: Service, w: User, o: User, oldest: Time, now: Time, at: Time)
    requires IsService(sv) && Related(sv, w, o, oldest, now) && now <= at
    ensures Related(sv, Received(sv.conf, w, at), Received(sv.conf, o, at), oldest, at)
    ensures Recent(Received(sv.conf, w, at).requests, at)
  {
    var cap := sv.conf.requestCap;
    var requests := Push(w.requests, at, cap);
    RequestsRelatedPush(o.requests, w.requests, oldest, cap, now, at);
    forall i ensures ListsRelated(ListOf(o.lists, i), ListOf(w.lists, i), oldest, sv.conf.exceedingCap, requests) {
      MoreRecent(ListOf(o.lists, i), ListOf(w.lists, i), oldest, sv.conf.exceedingCap, w.requests, requests);
    }
  }

  lemma MoreRecent(big: seq<Exceeding>, small: seq<Exceeding>, oldest: Time, cap: nat,
                   requests: seq<Time>, more: seq<Time>)
    requires ListsRelated(big, small, oldest, cap, requests)
    requires more != [] && (requests != [] ==> requests[|requests| - 1] <= more[|more| - 1])
    ensures ListsRelated(big, small, oldest, cap, more)
  {}

  ghost predicate AllRelated(sv: Service, w: map<string, User>, o: map<string, User>, oldest: Time, now: Time) {
    forall k :: Related(sv, UserOf(w, k), UserOf(o, k), oldest, now)
  }

  lemma RequestRelated(sv: Service, w: map<string, User>, o: map<string, User>, oldest: Time, now: Time,
                       key: string, at: Time, order: seq<int>)
    requires IsService(sv) && AreLimits(order, sv.limits)
    requires Related(sv, UserOf(w, key), UserOf(o, key), oldest, now)
    requires now <= at && forall i :: 0 <= i < |order| ==> oldest <= at - order[i] as real
    ensures var a, b := Process(sv, w, key, at, order), Process(sv, o, key, at, order);
            Dominates(a.observed, b.observed) && Related(sv, a.user, b.user, oldest, at)
  {
    ReceivedRelated(sv, UserOf(w, key), UserOf(o, key), oldest, now, at);
    ChecksRelated(sv, key, Received(sv.conf, UserOf(w, key), at), Received(sv.conf, UserOf(o, key), at), oldest, at,
                  ChecksAt(sv, order, at));
  }

  lemma LaterRelated(sv: Service, w: User, o: User, oldest: Time, now: Time, later: Time, at: Time)
    requires Related(sv, w, o, oldest, now) && oldest <= later && now <= at
    ensures Related(sv, w, o, later, at)
  {
    forall i ensures ListsRelated(ListOf(o.lists, i), ListOf(w.lists, i), later, sv.conf.exceedingCap, w.requests) {
      assert ListsRelated(ListOf(o.lists, i), ListOf(w.lists, i), oldest, sv.conf.exceedingCap, w.requests);
    }
  }

  lemma KeyRelated(sv: Service, w: map<string, User>, o: map<string, User>, oldest: Time, now: Time,
                   key: string, at: Time, a: User, b: User, k: string)
    requires Related(sv, UserOf(w, k), UserOf(o, k), oldest, now) && now <= at && Related(sv, a, b, oldest, at)
    ensures Related(sv, UserOf(w[key := a], k), UserOf(o[key := b], k), oldest, at)
  {
    if k == key {
      assert UserOf(w[key := a], k) == a && UserOf(o[key := b], k) == b;
    } else {
      assert UserOf(w[key := a], k) == UserOf(w, k) && UserOf(o[key := b], k) == UserOf(o, k);
      LaterRelated(sv, UserOf(w, k), UserOf(o, k), oldest, now, oldest, at);
    }
  }

  lemma UpdateRelated(sv: Service, w: map<string, User>, o: map<string, User>, oldest: Time, now: Time,
                      key: string, at: Time, a: User, b: User)
    requires AllRelated(sv, w, o, oldest, now) && now <= at && Related(sv, a, b, oldest, at)
    ensures AllRelated(sv, w[key := a], o[key := b], oldest, at)
  {
    var w1, o1 := w[key := a], o[key := b];
    forall k ensures Related(sv, UserOf(w1, k), UserOf(o1, k), oldest, at) {
      KeyRelated(sv, w, o, oldest, now, key, at, a, b, k);
    }
  }

  /** A deleted user starts over with nothing; what the other run still has of it is in no window. */
  lemma CleanupRelated(sv: Service, w: map<string, User>, o: map<string, User>, oldest: Time, now: Time,
                       later: Time, at: Time)
    requires AllRelated(sv, w, o, oldest, now) && now <= at && oldest <= later
    ensures AllRelated(sv, Cleaned(w, later), o, later, at)
  {
    var w1 := Cleaned(w, later);
    forall k ensures Related(sv, UserOf(w1, k), UserOf(o, k), later, at) {
      LaterRelated(sv, UserOf(w, k), UserOf(o, k), oldest, now, later, at);
      if k in w && IsIdle(w[k], later) {
        IdleIsForgettable(sv, w[k], UserOf(o, k), later, at);
      }
    }
  }

  lemma IdleIsForgettable(sv: Service, w: User, o: User, later: Time, now: Time)
    requires Related(sv, w, o, later, now) && IsIdle(w, later)
    ensures Related(sv, NEW_USER, o, later, now)
  {
    AllRequestsOld(o.requests, w.requests, later, sv.conf.requestCap, now);
    forall i ensures ListsRelated(ListOf(o.lists, i), [], later, sv.conf.exceedingCap, []) {
      AllOld(ListOf(o.lists, i), ListOf(w.lists, i), later, sv.conf.exceedingCap, w.requests);
    }
  }

  lemma AllRequestsOld(big: seq<Time>, small: seq<Time>, later: Time, cap: nat, now: Time)
    requires RequestsRelated(big, small, later, cap, now)
    requires Sorted(small) && small != [] && small[|small| - 1] < later
    ensures RequestsRelated(big, [], later, cap, now)
  {
    var n := |big| - |small|;
    forall k | 0 <= k < |big| ensures big[k] < later {
      if k >= n {
        assert big[n..][k - n] == big[k];
      }
    }
    assert big[|big|..] == [];
  }

  lemma AllOld(big: seq<Exceeding>, small: seq<Exceeding>, later: Time, cap: nat, requests: seq<Time>)
    requires ListsRelated(big, small, later, cap, requests)
    requires requests != [] && requests[|requests| - 1] < later
    ensures ListsRelated(big, [], later, cap, [])
  {
    var n := |big| - |small|;
    forall k | 0 <= k < |big| ensures big[k].at < later {
      if k >= n {
        assert big[n..][k - n] == big[k];
      }
    }
    assert big[|big|..] == [];
  }

  predicate AllDominate(a: seq<seq<Observation>>, b: seq<seq<Observation>>) {
    |a| == |b| && forall i :: 0 <= i < |a| ==> Dominates(a[i], b[i])
  }

  lemma AllDominateConcat(a: seq<seq<Observation>>, b: seq<seq<Observation>>,
                          c: seq<seq<Observation>>, d: seq<seq<Observation>>)
    requires AllDominate(a, b) && AllDominate(c, d)
    ensures AllDominate(a + c, b + d)
  {}

  lemma RequestEvent(sv: Service, m: int, w: map<string, User>, o: map<string, User>, oldest: Time, now: Time,
                     key: string, at: Time, order: seq<int>)
    requires IsService(sv) && IsMax(sv.limits, m) && AreLimits(order, sv.limits) && now <= at
    requires AllRelated(sv, w, o, oldest, now) && oldest <= now - m as real
    ensures var a, b := Process(sv, w, key, at, order), Process(sv, o, key, at, order);
            Dominates(a.observed, b.observed) && AllRelated(sv, w[key := a.user], o[key := b.user], oldest, at)
  {
    WithinLongest(sv, m, order, oldest, at);
    RequestRelated(sv, w, o, oldest, now, key, at, order);
    UpdateRelated(sv, w, o, oldest, now, key, at, Process(sv, w, key, at, order).user,
                  Process(sv, o, key, at, order).user);
  }

  lemma EventRelated(sv: Service, m: int, w: map<string, User>, o: map<string, User>, oldest: Time, now: Time, e: Event)
    returns (later: Time)
    requires IsService(sv) && IsMax(sv.limits, m) && IsEvent(sv, e) && now <= e.at
    requires AllRelated(sv, w, o, oldest, now) && oldest <= now - m as real
    ensures AllRelated(sv, After(sv, m, w, e, true), After(sv, m, o, e, false), later, e.at)
    ensures later <= e.at - m as real
    ensures AllDominate(Seen(sv, w, e), Seen(sv, o, e))
  {
    hide AllRelated, Process, Dominates, Cleaned, IsService, IsMax;
    match e
    case Request(key, at, order) =>
      later := oldest;
      RequestEvent(sv, m, w, o, oldest, now, key, at, order);
    case Cleanup(at) =>
      later := at - m as real;
      CleanupRelated(sv, w, o, oldest, now, later, at);
  }

  lemma {:induction false} RunsRelated(sv: Service, m: int, events: seq<Event>, now: Time) returns (oldest: Time)
    requires IsService(sv) && IsMax(sv.limits, m) && WellTimed(sv, events)
    requires events != [] ==> events[|events| - 1].at <= now
    ensures oldest <= now - m as real
    ensures AllRelated(sv, UsersAfter(sv, m, events, true), UsersAfter(sv, m, events, false), oldest, now)
  {
    if events == [] {
      oldest := now - m as real;
    } else {
      var n := |events| - 1;
      oldest := RunsRelated(sv, m, events[..n], events[n].at);
      var w, o := UsersAfter(sv, m, events[..n], true), UsersAfter(sv, m, events[..n], false);
      oldest := EventRelated(sv, m, w, o, oldest, events[n].at, events[n]);
      AllLater(sv, After(sv, m, w, events[n], true), After(sv, m, o, events[n], false), oldest, events[n].at, now);
    }
  }

  lemma AllLater(sv: Service, w: map<string, User>, o: map<string, User>, oldest: Time, now: Time, at: Time)
    requires AllRelated(sv, w, o, oldest, now) && now <= at
    ensures AllRelated(sv, w, o, oldest, at)
  {
    forall k ensures Related(sv, UserOf(w, k), UserOf(o, k), oldest, at) {
      LaterRelated(sv, UserOf(w, k), UserOf(o, k), oldest, now, oldest, at);
    }
  }

  /** Cleanup never hides an alarm: at every request the run with cleanups counts the same requests in
      every window as the run without, and measures an average at least as large. */
  lemma {:induction false} CleanupHidesNothing(sv: Service, m: int, events: seq<Event>)
    requires IsService(sv) && IsMax(sv.limits, m) && WellTimed(sv, events)
    ensures AllDominate(Observed(sv, m, events, true), Observed(sv, m, events, false))
  {
    if events != [] {
      var n := |events| - 1;
      var e := events[n];
      var w, o := UsersAfter(sv, m, events[..n], true), UsersAfter(sv, m, events[..n], false);
      CleanupHidesNothing(sv, m, events[..n]);
      var oldest := RunsRelated(sv, m, events[..n], e.at);
      var later := EventRelated(sv, m, w, o, oldest, e.at, e);
      AllDominateConcat(Observed(sv, m, events[..n], true), Observed(sv, m, events[..n], false),
                        Seen(sv, w, e), Seen(sv, o, e));
    }
  }

  lemma WithinLongest(sv: Service, m: int, order: seq<int>, oldest: Time, at: Time)
    requires IsMax(sv.limits, m) && AreLimits(order, sv.limits) && oldest <= at - m as real
    ensures forall i :: 0 <= i < |order| ==> oldest <= at - order[i] as real
  {}

  /** Hence every turn of a limit loop that reaches the threshold without cleanups also reaches it with
      them. */
  lemma CleanupHidesNoAlarm(sv: Service, m: int, events: seq<Event>, i: nat, j: nat)
    requires IsService(sv) && IsMax(sv.limits, m) && WellTimed(sv, events)
    ensures var a, b := Observed(sv, m, events, true), Observed(sv, m, events, false);
            && |a| == |b|
            && (i < |a| ==> |a[i]| == |b[i]|)
            && (i < |a| && j < |a[i]| ==>
                  && a[i][j].numReq == b[i][j].numReq
                  && (b[i][j].movAvg >= sv.conf.threshold ==> a[i][j].movAvg >= sv.conf.threshold))
  {
    CleanupHidesNothing(sv, m, events);
    var a, b := Observed(sv, m, events, true), Observed(sv, m, events, false);
    assert i < |a| ==> Dominates(a[i], b[i]);
  }
}
