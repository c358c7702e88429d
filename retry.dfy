/**
 * `_call_with_retry` of backend/services/gemini_service.py (lines 39-71):
 * the models of a fallback list are tried in order, each up to MaxRetries
 * times; a rate-limit error sleeps 5 * 2^attempt seconds and retries the
 * same model, any other error moves on to the next model, and when every
 * call failed the last error is raised again.
 *
 * The model call is an oracle: `respond(k)` is what the k-th call made by
 * the loop (counting from 0) returns or raises. Sleeps are recorded, not
 * performed.
 */
module Retry {
  import opened Wrappers

  const FallbackModels: seq<string> := ["gemini-2.0-flash", "gemini-1.5-flash", "gemini-1.5-pro"]
  const MaxRetries: nat := 3
  const RetryBaseDelay: nat := 5

  /** A Python exception: its class name and `str(e)`. */
  datatype Exc = Exc(kind: string, message: string)

  /** A model response; `text` is `response.text`, which may be None. */
  datatype Reply = Reply(text: Option<string>)

  datatype CallOutcome = Respond(reply: Reply) | Raise(exc: Exc)

  /** One call: which model of the list (by position and name) and which
    * attempt on it. */
  datatype Call = Call(index: nat, model: string, attempt: nat)

  datatype RetryResult = Returned(reply: Reply) | Raised(exc: Exc)

  /** Everything the loop did: the calls in order, the sleeps in order, and
    * how it ended. */
  datatype Trace = Trace(calls: seq<Call>, sleeps: seq<nat>, result: RetryResult)

  /** What `raise last_error` raises when `last_error` is still None. */
  const RaiseNone := Exc("TypeError", "exceptions must derive from BaseException")

  /** Python's `sub in s` for strings. */
  predicate Contains(s: string, sub: string)
    decreases |s|
  {
    |s| >= |sub| && (s[..|sub|] == sub || Contains(s[1..], sub))
  }

  /** The rate-limit test of line 61. */
  predicate IsRateLimited(e: Exc) {
    Contains(e.message, "429") || Contains(e.message, "RESOURCE_EXHAUSTED")
  }

  function Pow2(n: nat): (p: nat)
    ensures p >= 1
  {
    if n == 0 then 1 else 2 * Pow2(n - 1)
  }

  /** `RETRY_BASE_DELAY * (2 ** attempt)`. */
  function Backoff(attempt: nat): nat {
    RetryBaseDelay * Pow2(attempt)
  }

  function Prepend(c: Call, sleeps: seq<nat>, t: Trace): Trace {
    Trace([c] + t.calls, sleeps + t.sleeps, t.result)
  }

  /** The rest of the loop from model `i`, attempt `attempt`, with `k` calls
    * made so far and `last` the error recorded last. */
  function RunFrom(models: seq<string>, i: nat, attempt: nat, respond: nat -> CallOutcome, k: nat, last: Option<Exc>): Trace
    requires i <= |models| && attempt <= MaxRetries
    decreases |models| - i, MaxRetries - attempt
  {
    if i == |models| then Trace([], [], Raised(last.GetOr(RaiseNone)))
    else if attempt == MaxRetries then RunFrom(models, i + 1, 0, respond, k, last)
    else
      var c := Call(i, models[i], attempt);
      match respond(k)
      case Respond(r) => Trace([c], [], Returned(r))
      case Raise(e) =>
        if IsRateLimited(e) then Prepend(c, [Backoff(attempt)], RunFrom(models, i, attempt + 1, respond, k + 1, Some(e)))
        else Prepend(c, [], RunFrom(models, i + 1, 0, respond, k + 1, Some(e)))
  }

  /** The whole loop. */
  function Run(models: seq<string>, respond: nat -> CallOutcome): Trace {
    RunFrom(models, 0, 0, respond, 0, None)
  }

  /** `_call_with_retry`, loop for loop. */
  method CallWithRetry(models: seq<string>, respond: nat -> CallOutcome) returns (t: Trace)
    ensures t == Run(models, respond)
  {
    var lastError: Option<Exc> := None;
    var calls: seq<Call> := [];
    var sleeps: seq<nat> := [];
    var i := 0;
    while i < |models|
      invariant 0 <= i <= |models|
      invariant Run(models, respond) == Joined(calls, sleeps, RunFrom(models, i, 0, respond, |calls|, lastError))
    {
      var attempt := 0;
      while attempt < MaxRetries
        invariant 0 <= attempt <= MaxRetries
        invariant Run(models, respond) == Joined(calls, sleeps, RunFrom(models, i, attempt, respond, |calls|, lastError))
      {
        var outcome := respond(|calls|);
        var c := Call(i, models[i], attempt);
        match outcome {
          case Respond(r) =>
            return Trace(calls + [c], sleeps, Returned(r));
          case Raise(e) =>
            lastError := Some(e);
            if IsRateLimited(e) {
              JoinedStep(calls, sleeps, c, [Backoff(attempt)], RunFrom(models, i, attempt + 1, respond, |calls| + 1, lastError));
              calls, sleeps := calls + [c], sleeps + [Backoff(attempt)];
            } else {
              JoinedStep(calls, sleeps, c, [], RunFrom(models, i + 1, 0, respond, |calls| + 1, lastError));
              calls := calls + [c];
              assert sleeps + [] == sleeps;
              break;
            }
        }
        attempt := attempt + 1;
      }
      i := i + 1;
    }
    t := Trace(calls, sleeps, Raised(lastError.GetOr(RaiseNone)));
    assert Joined(calls, sleeps, RunFrom(models, i, 0, respond, |calls|, lastError)) == t;
  }

  function Joined(calls: seq<Call>, sleeps: seq<nat>, t: Trace): Trace {
    Trace(calls + t.calls, sleeps + t.sleeps, t.result)
  }

  lemma JoinedStep(calls: seq<Call>, sleeps: seq<nat>, c: Call, s: seq<nat>, t: Trace)
    ensures Joined(calls, sleeps, Prepend(c, s, t)) == Joined(calls + [c], sleeps + s, t)
  {
    assert calls + ([c] + t.calls) == (calls + [c]) + t.calls;
    assert sleeps + (s + t.sleeps) == (sleeps + s) + t.sleeps;
  }

  /** At most MaxRetries calls per model still to try. */
  lemma {:induction false} CallsBound(models: seq<string>, i: nat, attempt: nat, respond: nat -> CallOutcome, k: nat, last: Option<Exc>)
    requires i <= |models| && attempt <= MaxRetries
    ensures |RunFrom(models, i, attempt, respond, k, last).calls| + (if i < |models| then attempt else 0)
      <= MaxRetries * (|models| - i)
    decreases |models| - i, MaxRetries - attempt
  {
    if i < |models| {
      if attempt == MaxRetries {
        CallsBound(models, i + 1, 0, respond, k, last);
      } else if respond(k).Raise? {
        var e := respond(k).exc;
        if IsRateLimited(e) {
          CallsBound(models, i, attempt + 1, respond, k + 1, Some(e));
        } else {
          CallsBound(models, i + 1, 0, respond, k + 1, Some(e));
        }
      }
    }
  }

  lemma BackoffValues(attempt: nat)
    requires attempt < MaxRetries
    ensures Backoff(attempt) == 5 || Backoff(attempt) == 10 || Backoff(attempt) == 20
  {
    if attempt > 0 {
      assert Pow2(attempt) == 2 * Pow2(attempt - 1);
      if attempt > 1 {
        assert Pow2(attempt - 1) == 2 * Pow2(attempt - 2);
      }
    }
  }

  /** The sleeps made, in order, given the calls and what each raised:
    * one backoff after every rate-limited call, the last included. */
  function SleepsFor(calls: seq<Call>, respond: nat -> CallOutcome, k: nat): seq<nat>
    decreases |calls|
  {
    if calls == [] then []
    else
      (if respond(k).Raise? && IsRateLimited(respond(k).exc) then [Backoff(calls[0].attempt)] else [])
      + SleepsFor(calls[1..], respond, k + 1)
  }

  /** A call names model `index` of the list, at or after position i, and
    * an attempt below MaxRetries. */
  predicate CallInList(models: seq<string>, i: nat, c: Call) {
    i <= c.index < |models| && c.model == models[c.index] && c.attempt < MaxRetries
  }

  predicate AllInList(models: seq<string>, i: nat, calls: seq<Call>) {
    forall j :: 0 <= j < |calls| ==> CallInList(models, i, calls[j])
  }

  /** Every call names a model of the list, from position i on, and an
    * attempt below MaxRetries. */
  lemma {:induction false} CallsInList(models: seq<string>, i: nat, attempt: nat, respond: nat -> CallOutcome, k: nat, last: Option<Exc>)
    requires i <= |models| && attempt <= MaxRetries
    ensures AllInList(models, i, RunFrom(models, i, attempt, respond, k, last).calls)
    decreases |models| - i, MaxRetries - attempt
  {
    if i < |models| {
      if attempt == MaxRetries {
        CallsInList(models, i + 1, 0, respond, k, last);
        var t := RunFrom(models, i + 1, 0, respond, k, last);
        assert forall j :: 0 <= j < |t.calls| ==> CallInList(models, i + 1, t.calls[j]);
        assert RunFrom(models, i, attempt, respond, k, last) == t;
      } else if respond(k).Raise? {
        var e := respond(k).exc;
        var t := RunFrom(models, i, attempt, respond, k, last);
        var rest := if IsRateLimited(e) then RunFrom(models, i, attempt + 1, respond, k + 1, Some(e))
                    else RunFrom(models, i + 1, 0, respond, k + 1, Some(e));
        if IsRateLimited(e) {
          CallsInList(models, i, attempt + 1, respond, k + 1, Some(e));
        } else {
          CallsInList(models, i + 1, 0, respond, k + 1, Some(e));
        }
        assert t.calls == [Call(i, models[i], attempt)] + rest.calls;
        assert forall j :: 1 <= j < |t.calls| ==> t.calls[j] == rest.calls[j - 1];
      }
    }
  }

  /** Every call but the last raised. */
  lemma {:induction false} EarlierCallsRaised(models: seq<string>, i: nat, attempt: nat, respond: nat -> CallOutcome, k: nat, last: Option<Exc>)
    requires i <= |models| && attempt <= MaxRetries
    ensures var t := RunFrom(models, i, attempt, respond, k, last);
      forall j :: k <= j < k + |t.calls| - 1 ==> respond(j).Raise?
    decreases |models| - i, MaxRetries - attempt
  {
    if i < |models| {
      if attempt == MaxRetries {
        EarlierCallsRaised(models, i + 1, 0, respond, k, last);
      } else if respond(k).Raise? {
        var e := respond(k).exc;
        if IsRateLimited(e) {
          EarlierCallsRaised(models, i, attempt + 1, respond, k + 1, Some(e));
        } else {
          EarlierCallsRaised(models, i + 1, 0, respond, k + 1, Some(e));
        }
      }
    }
  }

  /** The sleeps are exactly one backoff after each rate-limited call, and
    * each is 5, 10 or 20 seconds. */
  lemma {:induction false} SleepsAfterRateLimits(models: seq<string>, i: nat, attempt: nat, respond: nat -> CallOutcome, k: nat, last: Option<Exc>)
    requires i <= |models| && attempt <= MaxRetries
    ensures var t := RunFrom(models, i, attempt, respond, k, last);
      t.sleeps == SleepsFor(t.calls, respond, k) &&
      forall j :: 0 <= j < |t.sleeps| ==> t.sleeps[j] == 5 || t.sleeps[j] == 10 || t.sleeps[j] == 20
    decreases |models| - i, MaxRetries - attempt
  {
    if i < |models| {
      if attempt == MaxRetries {
        SleepsAfterRateLimits(models, i + 1, 0, respond, k, last);
      } else if respond(k).Raise? {
        var e := respond(k).exc;
        var c := Call(i, models[i], attempt);
        var t := RunFrom(models, i, attempt, respond, k, last);
        if IsRateLimited(e) {
          var rest := RunFrom(models, i, attempt + 1, respond, k + 1, Some(e));
          SleepsAfterRateLimits(models, i, attempt + 1, respond, k + 1, Some(e));
          BackoffValues(attempt);
          assert t.calls[1..] == rest.calls;
        } else {
          var rest := RunFrom(models, i + 1, 0, respond, k + 1, Some(e));
          SleepsAfterRateLimits(models, i + 1, 0, respond, k + 1, Some(e));
          assert t.calls[1..] == rest.calls;
        }
      }
    }
  }

  /** How the loop ends: a response is returned from the call that gave
    * it, the first success, after which no call is made; when every call
    * failed, the error raised is that of the last call, or `raise None`'s
    * TypeError (or the error carried in) when no call was made. */
  lemma {:induction false} ResultOfLastCall(models: seq<string>, i: nat, attempt: nat, respond: nat -> CallOutcome, k: nat, last: Option<Exc>)
    requires i <= |models| && attempt <= MaxRetries
    ensures var t := RunFrom(models, i, attempt, respond, k, last);
      (i < |models| && attempt < MaxRetries ==> |t.calls| > 0 && t.calls[0] == Call(i, models[i], attempt)) &&
      (t.result.Returned? ==> |t.calls| > 0 && respond(k + |t.calls| - 1) == Respond(t.result.reply)) &&
      (t.result.Raised? && |t.calls| > 0 ==> respond(k + |t.calls| - 1) == Raise(t.result.exc)) &&
      (t.result.Raised? && |t.calls| == 0 ==> t.result.exc == last.GetOr(RaiseNone))
    decreases |models| - i, MaxRetries - attempt
  {
    if i < |models| {
      if attempt == MaxRetries {
        ResultOfLastCall(models, i + 1, 0, respond, k, last);
      } else if respond(k).Raise? {
        var e := respond(k).exc;
        if IsRateLimited(e) {
          ResultOfLastCall(models, i, attempt + 1, respond, k + 1, Some(e));
        } else {
          ResultOfLastCall(models, i + 1, 0, respond, k + 1, Some(e));
        }
      }
    }
  }

  /** What the loop does after call k raised e. */
  function After(models: seq<string>, i: nat, attempt: nat, respond: nat -> CallOutcome, k: nat, e: Exc): Trace
    requires i < |models| && attempt < MaxRetries
  {
    if IsRateLimited(e) then RunFrom(models, i, attempt + 1, respond, k + 1, Some(e))
    else RunFrom(models, i + 1, 0, respond, k + 1, Some(e))
  }

  /** A call that raises is followed by the calls of the rest of the loop. */
  lemma RaiseStep(models: seq<string>, i: nat, attempt: nat, respond: nat -> CallOutcome, k: nat, last: Option<Exc>)
    requires i < |models| && attempt < MaxRetries && respond(k).Raise?
    ensures RunFrom(models, i, attempt, respond, k, last).calls ==
      [Call(i, models[i], attempt)] + After(models, i, attempt, respond, k, respond(k).exc).calls
  {
  }

  /** The rule for the call after call j of trace t, whose calls started
    * at call number k. */
  predicate NextCallRule(t: Trace, respond: nat -> CallOutcome, k: nat, j: nat)
    requires j + 1 < |t.calls|
  {
    var c := t.calls[j];
    respond(k + j).Raise? &&
    (IsRateLimited(respond(k + j).exc) && c.attempt + 1 < MaxRetries ==>
      t.calls[j + 1] == Call(c.index, c.model, c.attempt + 1)) &&
    (!(IsRateLimited(respond(k + j).exc) && c.attempt + 1 < MaxRetries) ==>
      t.calls[j + 1].index == c.index + 1 && t.calls[j + 1].attempt == 0)
  }

  /** The rule carries over from the rest of a trace to the whole. */
  lemma NextCallShift(t: Trace, rest: Trace, respond: nat -> CallOutcome, k: nat, j: nat)
    requires 0 < j && j + 1 < |t.calls| && t.calls[1..] == rest.calls
    requires NextCallRule(rest, respond, k + 1, j - 1)
    ensures NextCallRule(t, respond, k, j)
  {
    assert t.calls[j] == rest.calls[j - 1] && t.calls[j + 1] == rest.calls[j];
    assert k + j == (k + 1) + (j - 1);
  }

  /** The rule for the first call of the rest of the loop. */
  lemma NextCallFirst(models: seq<string>, i: nat, attempt: nat, respond: nat -> CallOutcome, k: nat, last: Option<Exc>)
    requires i < |models| && attempt < MaxRetries
    requires 1 < |RunFrom(models, i, attempt, respond, k, last).calls|
    ensures NextCallRule(RunFrom(models, i, attempt, respond, k, last), respond, k, 0)
  {
    var t := RunFrom(models, i, attempt, respond, k, last);
    assert respond(k).Raise?;
    var e := respond(k).exc;
    var rest := After(models, i, attempt, respond, k, e);
    RaiseStep(models, i, attempt, respond, k, last);
    assert t.calls[0] == Call(i, models[i], attempt) && t.calls[1] == rest.calls[0];
    if IsRateLimited(e) && attempt + 1 < MaxRetries {
      ResultOfLastCall(models, i, attempt + 1, respond, k + 1, Some(e));
    } else {
      ResultOfLastCall(models, i + 1, 0, respond, k + 1, Some(e));
    }
  }

  /** Where the next call goes: after a rate-limited call with attempts
    * left, the same model again, one attempt later; otherwise attempt 0 of
    * the next model of the list. */
  lemma {:induction false} NextCall(models: seq<string>, i: nat, attempt: nat, respond: nat -> CallOutcome, k: nat, last: Option<Exc>, j: nat)
    requires i <= |models| && attempt <= MaxRetries
    requires j + 1 < |RunFrom(models, i, attempt, respond, k, last).calls|
    ensures NextCallRule(RunFrom(models, i, attempt, respond, k, last), respond, k, j)
    decreases |models| - i, MaxRetries - attempt
  {
    var t := RunFrom(models, i, attempt, respond, k, last);
    if i == |models| {
      assert false;
    } else if attempt == MaxRetries {
      assert t == RunFrom(models, i + 1, 0, respond, k, last);
      NextCall(models, i + 1, 0, respond, k, last, j);
    } else if j == 0 {
      NextCallFirst(models, i, attempt, respond, k, last);
    } else {
      assert respond(k).Raise?;
      var e := respond(k).exc;
      RaiseStep(models, i, attempt, respond, k, last);
      if IsRateLimited(e) {
        NextCall(models, i, attempt + 1, respond, k + 1, Some(e), j - 1);
      } else {
        NextCall(models, i + 1, 0, respond, k + 1, Some(e), j - 1);
      }
      NextCallShift(t, After(models, i, attempt, respond, k, e), respond, k, j);
    }
  }

  /** The whole loop: at most 3 calls per model, the first on attempt 0 of
    * the first model; an empty list makes no call and raises TypeError. */
  lemma RunShape(models: seq<string>, respond: nat -> CallOutcome)
    ensures var t := Run(models, respond);
      |t.calls| <= MaxRetries * |models| &&
      (models == [] ==> t == Trace([], [], Raised(RaiseNone))) &&
      (models != [] ==> |t.calls| > 0 && t.calls[0] == Call(0, models[0], 0))
  {
    CallsBound(models, 0, 0, respond, 0, None);
    ResultOfLastCall(models, 0, 0, respond, 0, None);
  }

  /** A single model that is always rate limited: three calls, sleeps of
    * 5, 10 and 20 seconds (the last one after the final attempt), then
    * the third error is raised. */
  lemma AlwaysRateLimited(m: string, e: Exc)
    requires IsRateLimited(e)
    ensures Run([m], (k: nat) => Raise(e)) ==
      Trace([Call(0, m, 0), Call(0, m, 1), Call(0, m, 2)], [5, 10, 20], Raised(e))
  {
    var respond := (k: nat) => Raise(e);
    assert Backoff(0) == 5 && Backoff(1) == 10 && Backoff(2) == 20 by {
      assert Pow2(1) == 2 && Pow2(2) == 4;
    }
    assert RunFrom([m], 1, 0, respond, 3, Some(e)) == Trace([], [], Raised(e));
    var t3 := RunFrom([m], 0, 3, respond, 3, Some(e));
    assert t3 == Trace([], [], Raised(e));
    var t2 := RunFrom([m], 0, 2, respond, 2, Some(e));
    assert t2 == Prepend(Call(0, m, 2), [20], t3);
    var t1 := RunFrom([m], 0, 1, respond, 1, Some(e));
    assert t1 == Prepend(Call(0, m, 1), [10], t2);
    assert Run([m], respond) == Prepend(Call(0, m, 0), [5], t1);
  }
}
