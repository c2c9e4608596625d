/** The retry policy of utils/retry.py: the `retry_on_exception` wrapper, `retry_function` and
    `RetryContext`. The wrapped function is an oracle: `call(k)` is what its `k`-th call does.
    Sleeping and the `on_retry` callback are recorded as events instead of being performed. */
module Retry {
  import opened Wrappers

  /** What one call of the wrapped function does: return a value or raise an exception. */
  datatype CallResult<T, E> = Success(value: T) | Failure(error: E)

  /** How a retried call ends. `RaiseNone` is Python's `raise None` (a TypeError), reached when
      `max_attempts < 1` leaves `last_exception` at None. */
  datatype Outcome<T, E> = Value(value: T) | Raise(error: E) | RaiseNone

  /** What the wrapper does between attempts besides calling: `on_retry(attempt, e)` and
      `time.sleep(seconds)`. */
  datatype Event<E> = OnRetry(attempt: nat, error: E) | Sleep(seconds: real)

  /** A whole retried call: its outcome, how many times the function was called, and the events
      in order. */
  datatype Run<T, E> = Run(outcome: Outcome<T, E>, calls: nat, events: seq<Event<E>>)

  /** The decorator's parameters; `catches(e)` is `isinstance(e, exceptions)`. */
  datatype Policy<-E> = Policy(maxAttempts: int, delay: real, backoff: real, catches: E -> bool)

  /** The defaults `max_attempts=3, delay=1.0, backoff=1.0, exceptions=(Exception,)`. */
  function DefaultPolicy<E(!new)>(): (p: Policy<E>)
    ensures p.maxAttempts == 3 && p.delay == 1.0 && p.backoff == 1.0
    ensures forall e :: p.catches(e)
  {
    Policy(3, 1.0, 1.0, (e: E) => true)
  }

  function Pow(b: real, n: nat): real {
    if n == 0 then 1.0 else b * Pow(b, n - 1)
  }

  /** The events after failed attempt `k` when another attempt follows: `on_retry(k, e)` when a
      callback is given, then the sleep. */
  function AfterFailure<E>(onRetry: bool, k: nat, e: E, delay: real): seq<Event<E>> {
    (if onRetry then [OnRetry(k, e)] else []) + [Sleep(delay)]
  }

  /** `current_delay *= backoff`. */
  function NextDelay<E>(p: Policy<E>, currentDelay: real): real {
    currentDelay * p.backoff
  }

  /** The wrapper loop from attempt `k` on, with `currentDelay` and `last` (the last exception
      caught) as the loop carries them. */
  function Retrying<T, E>(p: Policy<E>, onRetry: bool, call: nat -> CallResult<T, E>, k: nat,
                          currentDelay: real, last: Option<E>): Run<T, E>
    requires k >= 1
    decreases if k <= p.maxAttempts then p.maxAttempts - k + 1 else 0
  {
    if k > p.maxAttempts then
      Run(if last.Some? then Raise(last.value) else RaiseNone, k - 1, [])
    else match call(k)
      case Success(v) => Run(Value(v), k, [])
      case Failure(e) =>
        if !p.catches(e) then Run(Raise(e), k, [])
        else if k < p.maxAttempts then
          var rest := Retrying(p, onRetry, call, k + 1, NextDelay(p, currentDelay), Some(e));
          Run(rest.outcome, rest.calls, AfterFailure<E>(onRetry, k, e, currentDelay) + rest.events)
        else Run(Raise(e), k, [])
  }

  /** The retried call as a whole: the loop from attempt 1 with the initial delay. */
  function Retried<T, E>(p: Policy<E>, onRetry: bool, call: nat -> CallResult<T, E>): Run<T, E> {
    Retrying(p, onRetry, call, 1, p.delay, None)
  }

  /** The sleep after failed attempt `k` (counting from 1): `delay * backoff^(k-1)`. */
  function RetryDelay<E>(p: Policy<E>, k: nat): real
    requires k >= 1
  {
    p.delay * Pow(p.backoff, k - 1)
  }

  /** What happens after failed attempts `k .. n-1`: for each, the callback (when given) and a
      sleep of `delay * backoff^(attempt-1)` seconds. */
  function Schedule<T, E>(p: Policy<E>, onRetry: bool, call: nat -> CallResult<T, E>, k: nat, n: nat)
    : seq<Event<E>>
    requires k >= 1
    requires forall j :: k <= j < n ==> call(j).Failure?
    decreases n - k
  {
    if k >= n then []
    else AfterFailure(onRetry, k, call(k).error, RetryDelay(p, k)) + Schedule(p, onRetry, call, k + 1, n)
  }

  /** The loop from attempt `k`: it calls attempts `k..calls` in order, every attempt before the
      last failed with a caught exception, the last one decides the outcome, and the events are
      the schedule of the failed attempts. */
  lemma {:induction false} RetryingCorrect<T, E>(p: Policy<E>, onRetry: bool, call: nat -> CallResult<T, E>,
                                                 k: nat, currentDelay: real, last: Option<E>)
    requires 1 <= k && (k <= p.maxAttempts || (k == 1 && last == None))
    requires currentDelay == RetryDelay(p, k)
    ensures var r := Retrying(p, onRetry, call, k, currentDelay, last);
      && (p.maxAttempts < 1 ==> r == Run(RaiseNone, 0, []))
      && (p.maxAttempts >= 1 ==> k <= r.calls <= p.maxAttempts)
      && (forall j :: k <= j < r.calls ==> call(j).Failure? && p.catches(call(j).error))
      && (r.calls >= 1 ==>
            match call(r.calls)
            case Success(v) => r.outcome == Value(v)
            case Failure(e) => r.outcome == Raise(e) && (r.calls < p.maxAttempts ==> !p.catches(e)))
      && r.events == Schedule(p, onRetry, call, k, r.calls)
    decreases if k <= p.maxAttempts then p.maxAttempts - k + 1 else 0
  {
    var r := Retrying(p, onRetry, call, k, currentDelay, last);
    if k <= p.maxAttempts && call(k).Failure? && p.catches(call(k).error) && k < p.maxAttempts {
      var e := call(k).error;
      var next := NextDelay(p, currentDelay);
      assert next == RetryDelay(p, k + 1) by {
        assert Pow(p.backoff, k) == p.backoff * Pow(p.backoff, k - 1);
      }
      RetryingCorrect(p, onRetry, call, k + 1, next, Some(e));
      var rest := Retrying(p, onRetry, call, k + 1, next, Some(e));
      assert r == Run(rest.outcome, rest.calls, AfterFailure(onRetry, k, e, currentDelay) + rest.events);
    }
  }

  /** The calls a retried call makes: at most `max_attempts`, all but the last raising a caught
      exception, and the last deciding the outcome. */
  lemma RetriedCalls<T, E>(p: Policy<E>, onRetry: bool, call: nat -> CallResult<T, E>)
    ensures var r := Retried(p, onRetry, call);
      && (p.maxAttempts >= 1 ==> 1 <= r.calls <= p.maxAttempts)
      && (forall j :: 1 <= j < r.calls ==> call(j).Failure? && p.catches(call(j).error))
      && (r.calls >= 1 ==> (r.outcome.Value? <==> call(r.calls).Success?))
      && (r.outcome.Value? ==> r.calls >= 1 && r.outcome.value == call(r.calls).value)
      && (r.calls >= 1 && call(r.calls).Failure? ==> r.outcome == Raise(call(r.calls).error))
  {
    RetryingCorrect(p, onRetry, call, 1, p.delay, None);
  }

  /** A caught exception on attempt `k` is retried when attempts remain: a run that reaches attempt
      `k` and sees it raise a caught exception goes on to attempt `k + 1`. */
  lemma RetriesCaughtFailure<T, E>(p: Policy<E>, onRetry: bool, call: nat -> CallResult<T, E>, k: nat)
    requires 1 <= k < p.maxAttempts
    requires forall j :: 1 <= j <= k ==> call(j).Failure? && p.catches(call(j).error)
    ensures Retried(p, onRetry, call).calls > k
  {
    RetryingCorrect(p, onRetry, call, 1, p.delay, None);
  }

  /** A retried call that returns a value returns the value of the first call that did not
      raise; every earlier call raised a caught exception, and no further call is made. */
  lemma RetryReturnsFirstSuccess<T, E>(p: Policy<E>, onRetry: bool, call: nat -> CallResult<T, E>)
    ensures var r := Retried(p, onRetry, call);
      r.outcome.Value? ==>
        && 1 <= r.calls <= p.maxAttempts
        && call(r.calls) == Success(r.outcome.value)
        && forall j :: 1 <= j < r.calls ==> call(j).Failure? && p.catches(call(j).error)
  {
    RetryingCorrect(p, onRetry, call, 1, p.delay, None);
  }

  /** When every attempt raises a caught exception, the last one is re-raised after exactly
      `max_attempts` calls. */
  lemma RetryRaisesLast<T, E>(p: Policy<E>, onRetry: bool, call: nat -> CallResult<T, E>)
    requires p.maxAttempts >= 1
    requires forall j :: 1 <= j <= p.maxAttempts ==> call(j).Failure? && p.catches(call(j).error)
    ensures Retried(p, onRetry, call).outcome == Raise(call(p.maxAttempts).error)
    ensures Retried(p, onRetry, call).calls == p.maxAttempts
  {
    RetryingCorrect(p, onRetry, call, 1, p.delay, None);
  }

  /** An exception that is not caught propagates from the attempt that raised it: no retry,
      no callback, no sleep for it. */
  lemma RetryPropagatesUncaught<T, E>(p: Policy<E>, onRetry: bool, call: nat -> CallResult<T, E>, k: nat)
    requires 1 <= k <= p.maxAttempts
    requires forall j :: 1 <= j < k ==> call(j).Failure? && p.catches(call(j).error)
    requires call(k).Failure? && !p.catches(call(k).error)
    ensures Retried(p, onRetry, call).outcome == Raise(call(k).error)
    ensures Retried(p, onRetry, call).calls == k
  {
    RetryingCorrect(p, onRetry, call, 1, p.delay, None);
  }

  /** With `max_attempts < 1` the function is never called and the wrapper ends in `raise None`. */
  lemma RetryWithoutAttempts<T, E>(p: Policy<E>, onRetry: bool, call: nat -> CallResult<T, E>)
    requires p.maxAttempts < 1
    ensures Retried(p, onRetry, call) == Run(RaiseNone, 0, [])
  {
    RetryingCorrect(p, onRetry, call, 1, p.delay, None);
  }

  /** The sleeps of a sequence of events, in order. */
  function Sleeps<E>(events: seq<Event<E>>): seq<real> {
    if events == [] then []
    else (if events[0].Sleep? then [events[0].seconds] else []) + Sleeps(events[1..])
  }

  lemma {:induction false} SleepsAppend<E>(a: seq<Event<E>>, b: seq<Event<E>>)
    ensures Sleeps(a + b) == Sleeps(a) + Sleeps(b)
    decreases |a|
  {
    if a == [] {
      assert a + b == b;
    } else {
      assert (a + b)[1..] == a[1..] + b;
      SleepsAppend(a[1..], b);
    }
  }

  /** Every callback event belongs to a failed attempt in `k .. n-1`, so `on_retry` is never
      called for the last call; and the `i`-th sleep (from 0) is the one after attempt `k + i`. */
  lemma {:induction false} ScheduleEvents<T, E>(p: Policy<E>, onRetry: bool, call: nat -> CallResult<T, E>,
                                                k: nat, n: nat)
    requires k >= 1
    requires forall j :: k <= j < n ==> call(j).Failure?
    ensures var s := Schedule(p, onRetry, call, k, n);
      && (forall i :: 0 <= i < |s| && s[i].OnRetry? ==>
            onRetry && k <= s[i].attempt < n && s[i].error == call(s[i].attempt).error)
      && Sleeps(s) == seq(if k < n then n - k else 0, i requires 0 <= i => RetryDelay(p, k + i))
    decreases n - k
  {
    var s := Schedule(p, onRetry, call, k, n);
    if k < n {
      ScheduleEvents(p, onRetry, call, k + 1, n);
      var head := AfterFailure(onRetry, k, call(k).error, RetryDelay(p, k));
      var tail := Schedule(p, onRetry, call, k + 1, n);
      assert s == head + tail;
      forall i | 0 <= i < |s| && s[i].OnRetry?
        ensures onRetry && k <= s[i].attempt < n && s[i].error == call(s[i].attempt).error
      {
        if i < |head| {
          assert s[i] == head[i];
        } else {
          assert s[i] == tail[i - |head|];
        }
      }
      SleepsAppend(head, tail);
      assert Sleeps(head) == [RetryDelay(p, k)] by {
        if onRetry {
          assert head[1..] == [Sleep(RetryDelay(p, k))];
        }
      }
    } else {
      assert s == [];
    }
  }

  /** `on_retry(attempt, e)` is only ever called for an attempt before the final one. */
  lemma RetryCallbackNotAfterLast<T, E>(p: Policy<E>, call: nat -> CallResult<T, E>)
    ensures var r := Retried(p, true, call);
      forall i :: 0 <= i < |r.events| && r.events[i].OnRetry? ==>
        1 <= r.events[i].attempt < r.calls <= p.maxAttempts
  {
    RetryingCorrect(p, true, call, 1, p.delay, None);
    var r := Retried(p, true, call);
    if r.calls >= 1 {
      ScheduleEvents(p, true, call, 1, r.calls);
    }
  }

  /** The wrapper sleeps once after each failed attempt but the last call, and the sleep after
      attempt `k` lasts `delay * backoff^(k-1)`. */
  lemma RetrySleeps<T, E>(p: Policy<E>, onRetry: bool, call: nat -> CallResult<T, E>)
    ensures var r := Retried(p, onRetry, call);
      Sleeps(r.events) == seq(if r.calls >= 1 then r.calls - 1 else 0, i requires 0 <= i => RetryDelay(p, 1 + i))
  {
    RetryingCorrect(p, onRetry, call, 1, p.delay, None);
    var r := Retried(p, onRetry, call);
    ScheduleEvents(p, onRetry, call, 1, r.calls);
  }

  lemma {:induction false} PowOne(n: nat)
    ensures Pow(1.0, n) == 1.0
  {
    if n > 0 {
      PowOne(n - 1);
    }
  }

  /** Under three attempts, a one-second delay without backoff and every exception caught, the
      function is called one to three times; the call ends in an exception only after the third
      attempt raised it, never in `raise None`, and the wrapper sleeps one second after each failed
      call but the last. */
  lemma RetryWithSettings<T, E(!new)>(p: Policy<E>, onRetry: bool, call: nat -> CallResult<T, E>)
    requires p.maxAttempts == 3 && p.delay == 1.0 && p.backoff == 1.0 && forall e :: p.catches(e)
    ensures var r := Retried(p, onRetry, call);
      && 1 <= r.calls <= 3
      && (r.outcome.Value? <==> call(r.calls).Success?)
      && (r.outcome.Value? ==> r.outcome.value == call(r.calls).value)
      && (r.outcome.Raise? ==> r.calls == 3 && r.outcome.error == call(3).error)
      && !r.outcome.RaiseNone?
      && Sleeps(r.events) == seq(r.calls - 1, i => 1.0)
  {
    RetryingCorrect(p, onRetry, call, 1, p.delay, None);
    RetrySleeps(p, onRetry, call);
    var r := Retried(p, onRetry, call);
    var delays := seq(r.calls - 1, i requires 0 <= i => RetryDelay(p, 1 + i));
    var ones := seq(r.calls - 1, i => 1.0);
    forall i | 0 <= i < |delays|
      ensures delays[i] == ones[i]
    {
      PowOne(i);
    }
    assert delays == ones;
  }

  /** The decorator's defaults are such settings. */
  lemma RetryDefaults<T, E(!new)>(onRetry: bool, call: nat -> CallResult<T, E>)
    ensures var r := Retried(DefaultPolicy(), onRetry, call);
      && 1 <= r.calls <= 3
      && (r.outcome.Value? <==> call(r.calls).Success?)
      && (r.outcome.Value? ==> r.outcome.value == call(r.calls).value)
      && (r.outcome.Raise? ==> r.calls == 3 && r.outcome.error == call(3).error)
      && !r.outcome.RaiseNone?
      && Sleeps(r.events) == seq(r.calls - 1, i => 1.0)
  {
    RetryWithSettings(DefaultPolicy(), onRetry, call);
  }

  /** The wrapper produced by `retry_on_exception(...)` applied to one call. */
  method RetryOnException<T, E>(p: Policy<E>, onRetry: bool, call: nat -> CallResult<T, E>) returns (r: Run<T, E>)
    ensures r == Retried(p, onRetry, call)
  {
    var currentDelay := p.delay;
    var last: Option<E> := None;
    var events: seq<Event<E>> := [];
    var attempt := 1;
    while attempt <= p.maxAttempts
      invariant 1 <= attempt && (attempt == 1 || attempt <= p.maxAttempts + 1)
      invariant attempt == 1 ==> last == None && events == [] && currentDelay == p.delay
      invariant var rest := Retrying(p, onRetry, call, attempt, currentDelay, last);
        Retried(p, onRetry, call) == Run(rest.outcome, rest.calls, events + rest.events)
      decreases p.maxAttempts - attempt
    {
      var result := call(attempt);
      match result
      case Success(v) =>
        return Run(Value(v), attempt, events);
      case Failure(e) =>
        if !p.catches(e) {
          return Run(Raise(e), attempt, events);
        }
        ghost var here := Retrying(p, onRetry, call, attempt, currentDelay, last);
        last := Some(e);
        if attempt < p.maxAttempts {
          ghost var rest := Retrying(p, onRetry, call, attempt + 1, NextDelay(p, currentDelay), Some(e));
          ghost var step := AfterFailure(onRetry, attempt, e, currentDelay);
          ghost var before := events;
          assert here == Run(rest.outcome, rest.calls, step + rest.events);
          assert before + (step + rest.events) == (before + step) + rest.events;
          if onRetry {
            events := events + [OnRetry(attempt, e)];
          }
          events := events + [Sleep(currentDelay)];
          assert events == before + step;
          currentDelay := NextDelay(p, currentDelay);
          assert Retrying(p, onRetry, call, attempt + 1, currentDelay, last) == rest;
        } else {
          assert here == Run(Raise(e), attempt, []);
          assert Retrying(p, onRetry, call, attempt + 1, currentDelay, last) == Run(Raise(e), attempt, []);
        }
      attempt := attempt + 1;
    }
    return Run(if last.Some? then Raise(last.value) else RaiseNone, attempt - 1, events);
  }

  /** `retry_function(func, ...)`: the same loop without a callback. */
  method RetryFunction<T, E>(p: Policy<E>, call: nat -> CallResult<T, E>) returns (r: Run<T, E>)
    ensures r == Retried(p, false, call)
  {
    var currentDelay := p.delay;
    var last: Option<E> := None;
    var sleeps: seq<Event<E>> := [];
    for attempt := 1 to (if p.maxAttempts >= 1 then p.maxAttempts + 1 else 1)
      invariant attempt == 1 || attempt <= p.maxAttempts + 1
      invariant attempt == 1 ==> last == None && sleeps == [] && currentDelay == p.delay
      invariant var rest := Retrying(p, false, call, attempt, currentDelay, last);
        Retried(p, false, call) == Run(rest.outcome, rest.calls, sleeps + rest.events)
    {
      match call(attempt)
      case Success(v) =>
        return Run(Value(v), attempt, sleeps);
      case Failure(e) =>
        if !p.catches(e) {
          return Run(Raise(e), attempt, sleeps);
        }
        ghost var here := Retrying(p, false, call, attempt, currentDelay, last);
        last := Some(e);
        if attempt < p.maxAttempts {
          ghost var rest := Retrying(p, false, call, attempt + 1, NextDelay(p, currentDelay), Some(e));
          ghost var step := AfterFailure(false, attempt, e, currentDelay);
          ghost var before := sleeps;
          assert here == Run(rest.outcome, rest.calls, step + rest.events);
          assert before + (step + rest.events) == (before + step) + rest.events;
          sleeps := sleeps + [Sleep(currentDelay)];
          assert sleeps == before + step;
          currentDelay := NextDelay(p, currentDelay);
          assert Retrying(p, false, call, attempt + 1, currentDelay, last) == rest;
        } else {
          assert here == Run(Raise(e), attempt, []);
          assert Retrying(p, false, call, attempt + 1, currentDelay, last) == Run(Raise(e), attempt, []);
        }
    }
    var calls := if p.maxAttempts >= 1 then p.maxAttempts else 0;
    return Run(if last.Some? then Raise(last.value) else RaiseNone, calls, sleeps);
  }

  /** `RetryContext`: manual retrying. `retries` counts the `should_retry` calls that said yes. */
  class RetryContext<E> {
    const maxAttempts: int
    const initialDelay: real
    const backoff: real
    const catches: E -> bool
    var currentAttempt: int
    var currentDelay: real
    ghost var retries: nat

    /** The delay is the initial one multiplied by `backoff` once per granted retry. */
    ghost predicate Valid()
      reads this`currentDelay, this`retries
    {
      currentDelay == initialDelay * Pow(backoff, retries)
    }

    constructor (maxAttempts: int, delay: real, backoff: real, catches: E -> bool)
      ensures this.maxAttempts == maxAttempts && initialDelay == delay
      ensures this.backoff == backoff && this.catches == catches
      ensures currentAttempt == 0 && currentDelay == delay && retries == 0
      ensures Valid()
    {
      this.maxAttempts := maxAttempts;
      initialDelay := delay;
      this.backoff := backoff;
      this.catches := catches;
      currentAttempt := 0;
      currentDelay := delay;
      retries := 0;
    }

    /** `__iter__`: a fresh generator, not yet started. */
    method Iterate() returns (it: AttemptIterator<E>)
      ensures fresh(it) && it.context == this && it.attempt == 1
    {
      it := new AttemptIterator(this);
    }

    /** `should_retry(e)`: no for an exception of another type or after the last attempt;
        otherwise sleep for the current delay, multiply it by `backoff`, and say yes. */
    method ShouldRetry(e: E) returns (b: bool, ghost slept: Option<real>)
      requires Valid()
      modifies this`currentDelay, this`retries
      ensures Valid()
      ensures b == (catches(e) && currentAttempt < maxAttempts)
      ensures b ==> slept == Some(old(currentDelay)) && currentDelay == old(currentDelay) * backoff
                    && retries == old(retries) + 1
      ensures !b ==> slept == None && currentDelay == old(currentDelay) && retries == old(retries)
    {
      if !catches(e) {
        return false, None;
      }
      if currentAttempt >= maxAttempts {
        return false, None;
      }
      slept := Some(currentDelay);
      currentDelay := currentDelay * backoff;
      retries := retries + 1;
      assert Pow(backoff, retries) == backoff * Pow(backoff, retries - 1);
      return true, slept;
    }
  }

  /** The generator returned by `RetryContext.__iter__`: `attempt` is the value its loop over
      `range(1, max_attempts + 1)` yields next. */
  class AttemptIterator<E> {
    const context: RetryContext<E>
    var attempt: int

    constructor (context: RetryContext<E>)
      ensures this.context == context && attempt == 1
    {
      this.context := context;
      attempt := 1;
    }

    /** `next(it)`: yields attempts 1, 2, ..., `max_attempts` in order, setting `current_attempt`
        to each one as it is yielded, then stops. */
    method Next() returns (r: Option<int>)
      modifies this`attempt, context`currentAttempt
      ensures old(attempt) <= context.maxAttempts ==>
        r == Some(old(attempt)) && context.currentAttempt == old(attempt) && attempt == old(attempt) + 1
      ensures old(attempt) > context.maxAttempts ==>
        r == None && context.currentAttempt == old(context.currentAttempt) && attempt == old(attempt)
    {
      if attempt > context.maxAttempts {
        return None;
      }
      context.currentAttempt := attempt;
      r := Some(attempt);
      attempt := attempt + 1;
    }
  }
}
