/** Provider failover (router.ts, the two attempt loops): attempts are tried in order, a provider
    that throws is not called again, and a refusal moves on unless it is the last attempt. */
module Failover {
  import opened Options

  datatype Attempt = Attempt(provider: string, model: string)

  /** What calling an attempt would give; a stream may also end before its first chunk. */
  datatype Reply = Answer | Refusal | Empty | Failure

  datatype AttemptError = AttemptError(provider: string, model: string, refused: bool)

  /** The attempts in order, the registered providers, and each attempt's reply if it is called. */
  datatype Plan = Plan(attempts: seq<Attempt>, registered: set<string>, replies: seq<Reply>)

  predicate Valid(plan: Plan) { |plan.replies| == |plan.attempts| }

  datatype Outcome = Outcome(
    chosen: Option<nat>, usedFallback: bool, errors: seq<AttemptError>, calls: seq<nat>, lastError: Option<nat>)

  // ---------------------------------------------------------------- what should happen

  /** Passed over without a call: not registered, or the same provider failed on an earlier attempt. */
  ghost predicate Skipped(plan: Plan, i: nat)
    requires Valid(plan) && i < |plan.attempts|
  {
    plan.attempts[i].provider !in plan.registered
    || exists j: nat :: j < i && plan.attempts[j].provider == plan.attempts[i].provider && plan.replies[j] == Failure
  }

  /** A refusal is only taken from the very last attempt. */
  predicate Accepted(plan: Plan, i: nat)
    requires Valid(plan) && i < |plan.attempts|
  {
    plan.replies[i] == Answer || (plan.replies[i] == Refusal && i == |plan.attempts| - 1)
  }

  ghost predicate Serves(plan: Plan, i: nat)
    requires Valid(plan) && i < |plan.attempts|
  {
    !Skipped(plan, i) && Accepted(plan, i)
  }

  ghost predicate FirstToServe(plan: Plan, i: nat)
    requires Valid(plan)
  {
    i < |plan.attempts| && Serves(plan, i) && forall j: nat :: j < i ==> !Serves(plan, j)
  }

  /** The calls made among the first n attempts, none of which serves. */
  ghost function Called(plan: Plan, n: nat): seq<nat>
    requires Valid(plan) && n <= |plan.attempts|
  {
    if n == 0 then [] else Called(plan, n - 1) + if Skipped(plan, n - 1) then [] else [n - 1]
  }

  function ErrorOf(plan: Plan, i: nat): AttemptError
    requires Valid(plan) && i < |plan.attempts|
  {
    AttemptError(plan.attempts[i].provider, plan.attempts[i].model, plan.replies[i] == Refusal)
  }

  /** Their errors, in order; an empty stream leaves none. */
  ghost function Errors(plan: Plan, n: nat): seq<AttemptError>
    requires Valid(plan) && n <= |plan.attempts|
  {
    if n == 0 then []
    else Errors(plan, n - 1) + if Skipped(plan, n - 1) || plan.replies[n - 1] == Empty then [] else [ErrorOf(plan, n - 1)]
  }

  ghost function LastFailure(plan: Plan, n: nat): Option<nat>
    requires Valid(plan) && n <= |plan.attempts|
  {
    if n == 0 then None
    else if !Skipped(plan, n - 1) && plan.replies[n - 1] == Failure then Some(n - 1)
    else LastFailure(plan, n - 1)
  }

  ghost predicate Follows(plan: Plan, routedFallback: bool, r: Outcome)
    requires Valid(plan)
  {
    match r.chosen
    case Some(i) =>
      FirstToServe(plan, i) && r.calls == Called(plan, i) + [i] && r.errors == Errors(plan, i)
      && r.lastError == LastFailure(plan, i) && r.usedFallback == (routedFallback || i != 0)
    case None =>
      (forall i: nat :: i < |plan.attempts| ==> !Serves(plan, i))
      && r.calls == Called(plan, |plan.attempts|) && r.errors == Errors(plan, |plan.attempts|)
      && r.lastError == LastFailure(plan, |plan.attempts|) && r.usedFallback == routedFallback
  }

  // ---------------------------------------------------------------- the loops as written

  ghost predicate Blacklist(plan: Plan, n: nat, failedProviders: set<string>)
    requires Valid(plan) && n <= |plan.attempts|
  {
    forall p :: p in failedProviders <==>
      p in plan.registered && exists j: nat :: j < n && plan.attempts[j].provider == p && plan.replies[j] == Failure
  }

  lemma BlacklistSkips(plan: Plan, n: nat, failedProviders: set<string>)
    requires Valid(plan) && n < |plan.attempts| && Blacklist(plan, n, failedProviders)
    ensures Skipped(plan, n) <==>
              plan.attempts[n].provider in failedProviders || plan.attempts[n].provider !in plan.registered
  {
  }

  lemma BlacklistGrows(plan: Plan, n: nat, failedProviders: set<string>)
    requires Valid(plan) && n < |plan.attempts| && Blacklist(plan, n, failedProviders)
    ensures var p := plan.attempts[n].provider;
            Blacklist(plan, n + 1, if plan.replies[n] == Failure && p in plan.registered then failedProviders + {p}
                                   else failedProviders)
  {
  }

  /** The completion loop; `replies` never holds Empty here. */
  method Complete(plan: Plan, routedFallback: bool) returns (r: Outcome)
    requires Valid(plan) && Empty !in plan.replies
    ensures Follows(plan, routedFallback, r)
  {
    hide Skipped, Blacklist;
    var failedProviders: set<string> := {};
    var errors, calls, lastError := [], [], None;
    assert Blacklist(plan, 0, {}) by { BlacklistEmpty(plan); }
    for i := 0 to |plan.attempts|
      invariant Blacklist(plan, i, failedProviders) && (forall j: nat :: j < i ==> !Serves(plan, j))
      invariant calls == Called(plan, i) && errors == Errors(plan, i) && lastError == LastFailure(plan, i)
    {
      var attempt := plan.attempts[i];
      BlacklistSkips(plan, i, failedProviders);
      BlacklistGrows(plan, i, failedProviders);
      if attempt.provider in failedProviders || attempt.provider !in plan.registered {
        StillBlacklisted(plan, i, failedProviders);
        continue;
      }
      calls := calls + [i];
      assert plan.replies[i] in plan.replies;
      if plan.replies[i] == Failure {
        lastError := Some(i);
        failedProviders := failedProviders + {attempt.provider};
        errors := errors + [AttemptError(attempt.provider, attempt.model, false)];
        continue;
      }
      if plan.replies[i] == Refusal && i < |plan.attempts| - 1 {
        errors := errors + [AttemptError(attempt.provider, attempt.model, true)];
        continue;
      }
      return Outcome(Some(i), routedFallback || i != 0, errors, calls, lastError);
    }
    r := Outcome(None, routedFallback, errors, calls, lastError);
  }

  /** The streaming loop: the reply is the first chunk, and a stream without one is passed over. */
  method Stream(plan: Plan, routedFallback: bool) returns (r: Outcome)
    requires Valid(plan)
    ensures Follows(plan, routedFallback, r)
  {
    hide Skipped, Blacklist;
    var failedProviders: set<string> := {};
    var errors, calls, lastError := [], [], None;
    assert Blacklist(plan, 0, {}) by { BlacklistEmpty(plan); }
    for i := 0 to |plan.attempts|
      invariant Blacklist(plan, i, failedProviders) && (forall j: nat :: j < i ==> !Serves(plan, j))
      invariant calls == Called(plan, i) && errors == Errors(plan, i) && lastError == LastFailure(plan, i)
    {
      var attempt := plan.attempts[i];
      BlacklistSkips(plan, i, failedProviders);
      BlacklistGrows(plan, i, failedProviders);
      if attempt.provider in failedProviders || attempt.provider !in plan.registered {
        StillBlacklisted(plan, i, failedProviders);
        continue;
      }
      calls := calls + [i];
      var first := plan.replies[i];
      if first == Failure {
        lastError := Some(i);
        failedProviders := failedProviders + {attempt.provider};
        errors := errors + [AttemptError(attempt.provider, attempt.model, false)];
        continue;
      }
      if first == Refusal && i < |plan.attempts| - 1 {
        errors := errors + [AttemptError(attempt.provider, attempt.model, true)];
        continue;
      }
      if first == Empty { continue; }
      return Outcome(Some(i), routedFallback || i != 0, errors, calls, lastError);
    }
    r := Outcome(None, routedFallback, errors, calls, lastError);
  }

  lemma BlacklistEmpty(plan: Plan)
    requires Valid(plan)
    ensures Blacklist(plan, 0, {})
  {
  }

  lemma StillBlacklisted(plan: Plan, n: nat, failedProviders: set<string>)
    requires Valid(plan) && n < |plan.attempts| && Blacklist(plan, n, failedProviders)
    requires plan.attempts[n].provider in failedProviders || plan.attempts[n].provider !in plan.registered
    ensures Blacklist(plan, n + 1, failedProviders)
  {
  }

  // ---------------------------------------------------------------- main results

  lemma {:induction false} CalledFacts(plan: Plan, n: nat)
    requires Valid(plan) && n <= |plan.attempts|
    ensures forall k :: 0 <= k < |Called(plan, n)| ==> Called(plan, n)[k] < n && !Skipped(plan, Called(plan, n)[k])
    ensures forall a, b :: 0 <= a < b < |Called(plan, n)| ==> Called(plan, n)[a] < Called(plan, n)[b]
  {
    hide Skipped;
    if n > 0 { CalledFacts(plan, n - 1); }
  }

  /** The specification leaves no freedom: one outcome follows a plan. */
  lemma OutcomeIsUnique(plan: Plan, routedFallback: bool, a: Outcome, b: Outcome)
    requires Valid(plan) && Follows(plan, routedFallback, a) && Follows(plan, routedFallback, b)
    ensures a == b
  {
    hide Serves, Called, Errors, LastFailure;
    assert a.chosen.Some? && b.chosen.Some? ==> a.chosen.value == b.chosen.value;
  }

  /** No provider is called again after it throws. */
  lemma NeverCalledAfterFailure(plan: Plan, routedFallback: bool, r: Outcome, a: nat, b: nat)
    requires Valid(plan) && Follows(plan, routedFallback, r) && a < b < |r.calls|
    ensures r.calls[a] < r.calls[b] < |plan.attempts|
    ensures plan.attempts[r.calls[a]].provider == plan.attempts[r.calls[b]].provider ==>
              plan.replies[r.calls[a]] != Failure
  {
    hide Skipped;
    var n := if r.chosen.Some? then r.chosen.value else |plan.attempts|;
    CalledFacts(plan, n);
    var i, j := r.calls[a], r.calls[b];
    assert i < j && !Skipped(plan, j);
    NotSkipped(plan, i, j);
  }

  lemma NotSkipped(plan: Plan, i: nat, j: nat)
    requires Valid(plan) && i < j < |plan.attempts| && !Skipped(plan, j)
    ensures plan.attempts[i].provider == plan.attempts[j].provider ==> plan.replies[i] != Failure
  {
  }

  /** A first attempt that answers is used at once, with no error and no other call. */
  lemma FirstAnswerIsClean(plan: Plan, routedFallback: bool, r: Outcome)
    requires Valid(plan) && Follows(plan, routedFallback, r)
    ensures r.chosen == Some(0) ==> r.errors == [] && r.calls == [0] && r.usedFallback == routedFallback
    ensures |plan.attempts| > 0 && plan.attempts[0].provider in plan.registered && plan.replies[0] == Answer
            ==> r.chosen == Some(0)
  {
    if |plan.attempts| > 0 && plan.attempts[0].provider in plan.registered && plan.replies[0] == Answer {
      assert Serves(plan, 0);
    }
  }

  lemma {:induction false} ErrorPerCall(plan: Plan, n: nat)
    requires Valid(plan) && n <= |plan.attempts| && Empty !in plan.replies
    ensures |Errors(plan, n)| == |Called(plan, n)|
    ensures forall k :: 0 <= k < |Errors(plan, n)| ==>
              Called(plan, n)[k] < n && Errors(plan, n)[k] == ErrorOf(plan, Called(plan, n)[k])
  {
    hide Skipped, ErrorOf;
    if n > 0 {
      ErrorPerCall(plan, n - 1);
      assert plan.replies[n - 1] in plan.replies;
    }
  }

  /** The attempts called are exactly those up to the chosen one, or all, whose provider is registered
      and has not thrown on an earlier attempt; each once, in order. */
  lemma CalledIff(plan: Plan, routedFallback: bool, r: Outcome, i: nat)
    requires Valid(plan) && Follows(plan, routedFallback, r)
    ensures i in r.calls <==>
              i < |plan.attempts| && (r.chosen.Some? ==> i <= r.chosen.value)
              && plan.attempts[i].provider in plan.registered
              && forall j: nat :: j < i && plan.replies[j] == Failure ==> plan.attempts[j].provider != plan.attempts[i].provider
    ensures forall a, b :: 0 <= a < b < |r.calls| ==> r.calls[a] < r.calls[b]
  {
    var n := if r.chosen.Some? then r.chosen.value else |plan.attempts|;
    CalledIs(plan, n);
    CalledFacts(plan, n);
    if r.chosen.Some? { assert !Skipped(plan, n); }
  }

  lemma {:induction false} CalledIs(plan: Plan, n: nat)
    requires Valid(plan) && n <= |plan.attempts|
    ensures forall i: nat :: i in Called(plan, n) <==> i < n && !Skipped(plan, i)
  {
    hide Skipped;
    if n > 0 { CalledIs(plan, n - 1); }
  }

  /** A fallback is reported when the router had already fallen back or an attempt after the first is
      chosen; the last error is that of the last call that threw. */
  lemma FallbackAndLastError(plan: Plan, routedFallback: bool, r: Outcome)
    requires Valid(plan) && Follows(plan, routedFallback, r)
    ensures r.usedFallback <==> routedFallback || (r.chosen.Some? && r.chosen.value > 0)
    ensures match r.lastError
            case Some(k) =>
              k in r.calls && k < |plan.attempts| && plan.replies[k] == Failure
              && forall i :: i in r.calls && i > k ==> i < |plan.attempts| && plan.replies[i] != Failure
            case None => forall i :: i in r.calls ==> i < |plan.attempts| && plan.replies[i] != Failure
  {
    var n := if r.chosen.Some? then r.chosen.value else |plan.attempts|;
    LastFailureIs(plan, n);
    if r.chosen.Some? { assert Accepted(plan, n); }
  }

  lemma {:induction false} LastFailureIs(plan: Plan, n: nat)
    requires Valid(plan) && n <= |plan.attempts|
    ensures match LastFailure(plan, n)
            case Some(k) =>
              k in Called(plan, n) && k < n && plan.replies[k] == Failure
              && forall i :: i in Called(plan, n) && i > k ==> i < n && plan.replies[i] != Failure
            case None => forall i :: i in Called(plan, n) ==> i < n && plan.replies[i] != Failure
  {
    hide Skipped;
    if n > 0 {
      LastFailureIs(plan, n - 1);
      CalledIs(plan, n - 1);
      CalledIs(plan, n);
    }
  }

  /** Without empty streams the errors are exactly the calls that did not serve, in order. */
  lemma ErrorsMatchCalls(plan: Plan, routedFallback: bool, r: Outcome)
    requires Valid(plan) && Follows(plan, routedFallback, r) && Empty !in plan.replies
    ensures |r.calls| == |r.errors| + if r.chosen.Some? then 1 else 0
    ensures forall k :: 0 <= k < |r.errors| ==>
              var c := r.calls[k];
              c < |plan.attempts| && !Accepted(plan, c)
              && r.errors[k] == AttemptError(plan.attempts[c].provider, plan.attempts[c].model, plan.replies[c] == Refusal)
  {
    hide Skipped, Errors, Called;
    var n := if r.chosen.Some? then r.chosen.value else |plan.attempts|;
    ErrorPerCall(plan, n);
    CalledFacts(plan, n);
    forall k | 0 <= k < |r.errors| ensures !Accepted(plan, r.calls[k]) {
      assert !Serves(plan, r.calls[k]);
    }
  }

  /** When exactly the request fails: every attempt is skipped, throws, is empty, or is a refusal
      that is not the very last attempt. A refused answer is thrown away even if every later
      attempt turns out to be skipped. */
  lemma FailsExactlyWhen(plan: Plan, routedFallback: bool, r: Outcome)
    requires Valid(plan) && Follows(plan, routedFallback, r)
    ensures r.chosen.None? <==>
              forall i: nat :: i < |plan.attempts| ==>
                Skipped(plan, i) || plan.replies[i] in {Failure, Empty}
                || (plan.replies[i] == Refusal && i + 1 < |plan.attempts|)
  {
    hide Skipped;
    if r.chosen.Some? { assert Serves(plan, r.chosen.value); }
    forall i: nat | i < |plan.attempts|
      ensures !Serves(plan, i) <==>
                Skipped(plan, i) || plan.replies[i] in {Failure, Empty}
                || (plan.replies[i] == Refusal && i + 1 < |plan.attempts|)
    {
    }
  }

  /** One refusal followed by an unregistered provider: the only reply is discarded. */
  lemma RefusalCanBeLost(a: Attempt, b: Attempt, routedFallback: bool, r: Outcome)
    requires a.provider != b.provider
    requires Follows(Plan([a, b], {a.provider}, [Refusal, Answer]), routedFallback, r)
    ensures r.chosen.None? && r.calls == [0] && r.lastError.None?
  {
    var plan := Plan([a, b], {a.provider}, [Refusal, Answer]);
    assert plan.attempts[1] == b;
    assert Skipped(plan, 1) && !Skipped(plan, 0);
    assert !Accepted(plan, 0);
    assert Called(plan, 1) == [0];
    assert LastFailure(plan, 1) == None;
  }
}
