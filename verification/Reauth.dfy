/** The fallback cookie shared by all Treq requests: every interleaving of their evaluation, of the login
    that concurrent requests share, and of the uses of the cookie. */
module Reauth {
  import opened Text
  import opened CacheId
  import opened Auth

  /** Where a request stands. The evaluation is kept, as the code keeps it in `reqProps`. */
  datatype Phase =
    | Arrived
    | Judged(e: Evaluation)
    | Waiting(e: Evaluation)
    | Released(e: Evaluation, loginFailed: bool)
    | Continuing(e: Evaluation)
    | Finished

  datatype Login = LoginFailed | NoCookie | GotCookie(cookie: Cookie)

  /** `loggingIn` says that the shared call is under way; `crashed` that a missing cookie was
      dereferenced. */
  datatype State = State(fallback: Option<Cookie>, loggingIn: bool, phases: seq<Phase>, crashed: bool)

  datatype Action =
    | EvaluateIt(i: nat, c: Case)
    | Decide(i: nat)
    | LoginEnds(result: Login)
    | Resume(i: nat)
    | UseFallback(i: nat)
    | Finish(i: nat)

  predicate Enabled(s: State, a: Action) {
    match a
    case EvaluateIt(i, _) => i < |s.phases| && s.phases[i].Arrived?
    case Decide(i) => i < |s.phases| && s.phases[i].Judged?
    case LoginEnds(_) => s.loggingIn
    case Resume(i) => i < |s.phases| && s.phases[i].Released?
    case UseFallback(i) => i < |s.phases| && s.phases[i].Continuing? && s.phases[i].e.requiresFallbackCookie
    case Finish(i) => i < |s.phases| && s.phases[i].Continuing?
  }

  /** After status 401 a request waits for the shared login; other refusals end it. */
  function Decided(e: Evaluation): Phase {
    if e.status == 401 then Waiting(e)
    else if e.failed || ForbidsAccess(e) then Finished
    else Continuing(e)
  }

  function Resumed(p: Phase, fallback: Option<Cookie>): Phase
    requires p.Released?
  {
    if p.loginFailed || fallback == None then Finished else Continuing(p.e)
  }

  /** The end of the login releases all who wait for it. */
  function Release(phases: seq<Phase>, loginFailed: bool): (r: seq<Phase>)
    ensures |r| == |phases|
    ensures forall i :: 0 <= i < |r| ==>
              r[i] == if phases[i].Waiting? then Released(phases[i].e, loginFailed) else phases[i]
  {
    if phases == [] then []
    else
      [if phases[0].Waiting? then Released(phases[0].e, loginFailed) else phases[0]] +
      Release(phases[1..], loginFailed)
  }

  function Fire(conf: GuardConf, s: State, a: Action): State
    requires Enabled(s, a)
  {
    match a
    case EvaluateIt(i, c) => s.(phases := s.phases[i := Judged(Evaluate(conf, c, s.fallback))])
    case Decide(i) =>
      var p := Decided(s.phases[i].e);
      s.(phases := s.phases[i := p], loggingIn := s.loggingIn || p.Waiting?)
    case LoginEnds(result) =>
      State(if result.GotCookie? then Some(result.cookie) else s.fallback, false,
            Release(s.phases, result.LoginFailed?), s.crashed)
    case Resume(i) => s.(phases := s.phases[i := Resumed(s.phases[i], s.fallback)])
    case UseFallback(i) => s.(crashed := s.crashed || s.fallback == None)
    case Finish(i) => s.(phases := s.phases[i := Finished])
  }

  predicate PhaseOk(p: Phase, fallback: Option<Cookie>) {
    match p
    case Judged(e) => if e.status == 401 then e.requiresFallbackCookie else e.requiresFallbackCookie ==> fallback.Some?
    case Waiting(e) => e.status == 401 && e.requiresFallbackCookie
    case Released(e, _) => e.status == 401 && e.requiresFallbackCookie
    case Continuing(e) =>
      (e.status == 401 ==> e.requiresFallbackCookie) && (e.requiresFallbackCookie ==> fallback.Some?)
    case _ => true
  }

  ghost predicate Inv(s: State) {
    && !s.crashed
    && (forall i :: 0 <= i < |s.phases| ==> PhaseOk(s.phases[i], s.fallback))
    && (s.loggingIn <==> exists i :: 0 <= i < |s.phases| && s.phases[i].Waiting?)
  }

  function Initial(n: nat): State {
    State(None, false, seq(n, i => Arrived), false)
  }

  ghost predicate IsRun(conf: GuardConf, n: nat, actions: seq<Action>, states: seq<State>) {
    && |states| == |actions| + 1 && states[0] == Initial(n)
    && forall k :: 0 <= k < |actions| ==>
         Enabled(states[k], actions[k]) && states[k + 1] == Fire(conf, states[k], actions[k])
  }

  /** A step of one request. */
  lemma UpdateKeepsInv(s: State, i: nat, p: Phase)
    requires Inv(s) && i < |s.phases| && !s.phases[i].Waiting? && PhaseOk(p, s.fallback)
    ensures Inv(s.(phases := s.phases[i := p], loggingIn := s.loggingIn || p.Waiting?))
  {
    var t := s.(phases := s.phases[i := p], loggingIn := s.loggingIn || p.Waiting?);
    if p.Waiting? {
      assert t.phases[i].Waiting?;
    } else {
      SameWaiting(s, t, i);
    }
  }

  lemma LoginKeepsInv(s: State, fallback: Option<Cookie>, loginFailed: bool)
    requires Inv(s) && (s.fallback.Some? ==> fallback.Some?)
    ensures Inv(State(fallback, false, Release(s.phases, loginFailed), s.crashed))
  {
    hide Release;
    var after := Release(s.phases, loginFailed);
    forall i | 0 <= i < |after| ensures PhaseOk(after[i], fallback) && !after[i].Waiting? {
      assert PhaseOk(s.phases[i], s.fallback);
    }
  }

  lemma StepKeepsInv(conf: GuardConf, s: State, a: Action)
    requires Inv(s) && Enabled(s, a)
    ensures Inv(Fire(conf, s, a))
    ensures s.fallback.Some? ==> Fire(conf, s, a).fallback.Some?
  {
    match a
    case EvaluateIt(i, c) =>
      FallbackIsRequired(conf, c, s.fallback);
      UpdateKeepsInv(s, i, Judged(Evaluate(conf, c, s.fallback)));
    case Decide(i) => UpdateKeepsInv(s, i, Decided(s.phases[i].e));
    case LoginEnds(result) =>
      LoginKeepsInv(s, if result.GotCookie? then Some(result.cookie) else s.fallback, result.LoginFailed?);
    case Resume(i) => UpdateKeepsInv(s, i, Resumed(s.phases[i], s.fallback));
    case UseFallback(_) =>
    case Finish(i) => UpdateKeepsInv(s, i, Finished);
  }

  lemma SameWaiting(s: State, t: State, i: nat)
    requires i < |s.phases| == |t.phases| && !s.phases[i].Waiting? && !t.phases[i].Waiting?
    requires forall k :: 0 <= k < |s.phases| && k != i ==> t.phases[k] == s.phases[k]
    ensures (exists k :: 0 <= k < |s.phases| && s.phases[k].Waiting?) <==>
            (exists k :: 0 <= k < |t.phases| && t.phases[k].Waiting?)
  {
    if k :| 0 <= k < |s.phases| && s.phases[k].Waiting? {
      assert t.phases[k].Waiting?;
    }
    if k :| 0 <= k < |t.phases| && t.phases[k].Waiting? {
      assert s.phases[k].Waiting?;
    }
  }

  lemma {:induction false} RunKeepsInv(conf: GuardConf, n: nat, actions: seq<Action>, states: seq<State>, k: nat)
    requires IsRun(conf, n, actions, states) && k < |states|
    ensures Inv(states[k])
  {
    if k > 0 {
      RunKeepsInv(conf, n, actions, states, k - 1);
      StepKeepsInv(conf, states[k - 1], actions[k - 1]);
    }
  }

  /** The fallback cookie once set stays set. */
  lemma {:induction false} FallbackStays(conf: GuardConf, n: nat, actions: seq<Action>, states: seq<State>,
                                         j: nat, k: nat)
    requires IsRun(conf, n, actions, states) && j <= k < |states| && states[j].fallback.Some?
    ensures states[k].fallback.Some?
  {
    if j < k {
      FallbackStays(conf, n, actions, states, j, k - 1);
      RunKeepsInv(conf, n, actions, states, k - 1);
      StepKeepsInv(conf, states[k - 1], actions[k - 1]);
    }
  }

  /** In every interleaving the fallback cookie is there whenever it is used, and a request that goes on
      after status 401 does use it. */
  lemma FallbackIsNeverMissing(conf: GuardConf, n: nat, actions: seq<Action>, states: seq<State>, k: nat, i: nat)
    requires IsRun(conf, n, actions, states) && k < |states|
    ensures !states[k].crashed
    ensures k < |actions| && actions[k].UseFallback? ==> states[k].fallback.Some?
    ensures i < |states[k].phases| && states[k].phases[i].Continuing? && states[k].phases[i].e.status == 401 ==>
              states[k].phases[i].e.requiresFallbackCookie && Enabled(states[k], UseFallback(i))
  {
    RunKeepsInv(conf, n, actions, states, k);
    if k < |actions| && actions[k].UseFallback? {
      assert Enabled(states[k], actions[k]);
    }
  }

  /** From its arrival on: an accepted request goes on at once; one with status 401 waits for the login under way,
      or starts it, and goes on if that has not failed and there is a fallback cookie then; any other ends. */
  lemma HowItGoesOn(conf: GuardConf, s: State, i: nat, c: Case, result: Login)
    requires i < |s.phases| && s.phases[i].Arrived?
    ensures var e := Evaluate(conf, c, s.fallback);
            var judged := Fire(conf, s, EvaluateIt(i, c));
            && Enabled(judged, Decide(i))
            && var decided := Fire(conf, judged, Decide(i));
               if e.status == 200 then decided.phases[i] == Continuing(e) && decided.loggingIn == s.loggingIn
               else if e.status != 401 then decided.phases[i] == Finished && decided.loggingIn == s.loggingIn
               else
                 && decided.phases[i] == Waiting(e) && Enabled(decided, LoginEnds(result))
                 && var after := Fire(conf, decided, LoginEnds(result));
                    && Enabled(after, Resume(i)) && !after.loggingIn
                    && after.fallback == (if result.GotCookie? then Some(result.cookie) else s.fallback)
                    && Fire(conf, after, Resume(i)).phases[i] ==
                       if result.LoginFailed? || after.fallback == None then Finished else Continuing(e)
  {
    StatusIff(conf, c, s.fallback);
    StatusIsOneOf(conf, c, s.fallback);
  }

  /** What must not happen: the cookie is used although there is none. */
  lemma MissingFallbackCrashes(conf: GuardConf, s: State, i: nat)
    requires Enabled(s, UseFallback(i))
    ensures Fire(conf, s, UseFallback(i)).crashed <==> s.crashed || s.fallback == None
  {}

  /** The evaluation that a request carries with it. */
  function Carried(p: Phase): Option<Evaluation> {
    match p
    case Judged(e) => Some(e)
    case Waiting(e) => Some(e)
    case Released(e, _) => Some(e)
    case Continuing(e) => Some(e)
    case _ => None
  }

  ghost predicate JudgedAs(conf: GuardConf, actions: seq<Action>, states: seq<State>, j: nat, i: nat, e: Evaluation) {
    && j < |actions| && j < |states| && actions[j].EvaluateIt? && actions[j].i == i
    && e == Evaluate(conf, actions[j].c, states[j].fallback)
  }

  lemma {:induction false} CarriesItsEvaluation(conf: GuardConf, n: nat, actions: seq<Action>, states: seq<State>,
                                                k: nat, i: nat)
    requires IsRun(conf, n, actions, states) && k < |states| && i < |states[k].phases|
    requires Carried(states[k].phases[i]).Some?
    ensures exists j: nat :: j < k && JudgedAs(conf, actions, states, j, i, Carried(states[k].phases[i]).value)
    ensures states[k].phases[i].Continuing? ==>
              var e := states[k].phases[i].e;
              e.status == 401 || !(e.failed || ForbidsAccess(e))
  {
    if k > 0 {
      var before, a := states[k - 1], actions[k - 1];
      assert |before.phases| == |states[k].phases|;
      if a.EvaluateIt? && a.i == i {
        assert JudgedAs(conf, actions, states, k - 1, i, Carried(states[k].phases[i]).value);
      } else {
        StepCarries(conf, before, a, i);
        RunKeepsInv(conf, n, actions, states, k - 1);
        CarriesItsEvaluation(conf, n, actions, states, k - 1, i);
      }
    }
  }

  lemma StepCarries(conf: GuardConf, s: State, a: Action, i: nat)
    requires Enabled(s, a) && i < |s.phases| && !(a.EvaluateIt? && a.i == i)
    requires Carried(Fire(conf, s, a).phases[i]).Some?
    ensures Carried(Fire(conf, s, a).phases[i]) == Carried(s.phases[i])
    ensures Fire(conf, s, a).phases[i].Continuing? && !s.phases[i].Continuing? ==>
              s.phases[i].Released? || Decided(s.phases[i].e).Continuing?
  {}

  /** In every interleaving, a request that goes on has been evaluated before, with the fallback cookie of that
      moment: it was accepted, and then its user was neither banned nor over the limit; or it had no session and
      goes on after a login. A banned, limited or failed request never goes on. */
  lemma OnlyAcceptedGoOn(conf: GuardConf, n: nat, actions: seq<Action>, states: seq<State>, k: nat, i: nat)
    returns (j: nat)
    requires IsRun(conf, n, actions, states) && k < |states| && i < |states[k].phases|
    requires states[k].phases[i].Continuing?
    ensures j < k && JudgedAs(conf, actions, states, j, i, states[k].phases[i].e)
    ensures var e, c := states[k].phases[i].e, actions[j].c;
            && (e.status == 200 || e.status == 401)
            && (e.status == 200 && e.client.Valid? ==> c.ban == NotBanned && (conf.hasLimits ==> c.allowed))
  {
    CarriesItsEvaluation(conf, n, actions, states, k, i);
    j :| j < k && JudgedAs(conf, actions, states, j, i, states[k].phases[i].e);
    StatusIff(conf, actions[j].c, states[j].fallback);
    StatusIsOneOf(conf, actions[j].c, states[j].fallback);
    if states[k].phases[i].e.status == 200 && states[k].phases[i].e.client.Valid? {
      AcceptedMeans(conf, actions[j].c, states[j].fallback);
    }
  }

  lemma StatusIsOneOf(conf: GuardConf, c: Case, fallback: Option<Cookie>)
    ensures Evaluate(conf, c, fallback).status in {200, 401, 403, 429, 500}
  {}

  /** Who waits is released by the end of a login that is under way: the only state in which nothing can
      happen any more is the one in which all requests are finished. */
  lemma NobodyWaitsForever(conf: GuardConf, n: nat, actions: seq<Action>, states: seq<State>, k: nat, i: nat)
    requires IsRun(conf, n, actions, states) && k < |states| && i < |states[k].phases|
    ensures states[k].phases[i].Waiting? ==>
              && Enabled(states[k], LoginEnds(NoCookie))
              && forall result :: Fire(conf, states[k], LoginEnds(result)).phases[i].Released?
    ensures (forall a: Action :: !Enabled(states[k], a)) ==> states[k].phases[i] == Finished
  {
    RunKeepsInv(conf, n, actions, states, k);
    var s := states[k];
    if forall a: Action :: !Enabled(s, a) {
      assert !Enabled(s, EvaluateIt(i, Case([], "", true, NotBanned))) && !Enabled(s, Decide(i));
      assert !Enabled(s, Resume(i)) && !Enabled(s, Finish(i)) && !Enabled(s, LoginEnds(NoCookie));
    }
  }
}
