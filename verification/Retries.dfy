/** Retrying an operation under a policy and a context (retry/retry.go). */
module Retries {
  import opened Common

  datatype Error =
    | ContextError
    | Other(code: nat)

  datatype Policy = Policy(enabled: bool, maxAttempts: int)

  /** A context: live for the first `liveLooks` looks at it and done from then on, or live for ever. */
  class Context {
    const liveLooks: Option<nat>
    var looks: nat

    constructor (liveLooks: Option<nat>)
      ensures this.liveLooks == liveLooks && looks == 0
    {
      this.liveLooks := liveLooks;
      looks := 0;
    }

    ghost predicate DoneAt(n: int) {
      liveLooks.Some? && liveLooks.value <= n
    }

    /** One look: ctx.Err() != nil, or a select that takes the Done case. */
    method Done() returns (done: bool)
      modifies this
      ensures looks == old(looks) + 1 && done == DoneAt(old(looks))
    {
      done := liveLooks.Some? && liveLooks.value <= looks;
      looks := looks + 1;
    }
  }

  datatype Reply<T> = Reply(result: T, err: Option<Error>)

  /** The operation: whatever it answers, call by call. */
  class Operation<T> {
    const answer: nat -> Reply<T>
    var calls: nat

    constructor (answer: nat -> Reply<T>)
      ensures this.answer == answer && calls == 0
    {
      this.answer := answer;
      calls := 0;
    }

    method Call() returns (r: Reply<T>)
      modifies this
      ensures calls == old(calls) + 1 && r == answer(old(calls))
    {
      r := answer(calls);
      calls := calls + 1;
    }
  }

  predicate SingleShot(policy: Option<Policy>) {
    policy.None? || !policy.value.enabled || policy.value.maxAttempts <= 1
  }

  /** The most calls one retry may make. */
  function Bound(policy: Option<Policy>): (n: nat)
    ensures n >= 1
  {
    if SingleShot(policy) then 1 else policy.value.maxAttempts
  }

  /** The calls from `first` up to `end` all failed. */
  ghost predicate AllFailed<T>(op: Operation<T>, first: nat, end: int) {
    forall i: nat | first <= i < end :: op.answer(i).err.Some?
  }

  /** How many calls were made and how often the context was looked at. */
  datatype Point = Point(calls: nat, looks: nat)

  /** From one point to another: earlier calls failed; every call but a single shot was made with the context live;
      a failed last call means that the attempts were used up or the context was done by the time of the next. */
  ghost predicate Retried<T>(ctx: Context, policy: Option<Policy>, op: Operation<T>, p: Point, q: Point) {
    var n := q.calls - p.calls;
    && 0 <= n <= Bound(policy) && AllFailed(op, p.calls, q.calls - 1)
    && (n == 0 ==> !SingleShot(policy))
    && (n > 0 && !SingleShot(policy) ==> !ctx.DoneAt(p.looks + 2 * (n - 1)))
    && (RetryFailed(op, p, q) && n < Bound(policy) ==> ctx.DoneAt(p.looks + 2 * n))
    && q.looks == p.looks + LooksMade(ctx, policy, op, p, q)
  }

  ghost predicate RetryFailed<T>(op: Operation<T>, p: Point, q: Point) {
    q.calls <= p.calls || op.answer(q.calls - 1).err.Some?
  }

  /** One look before each call and one after each failure that leaves an attempt. */
  ghost function LooksMade<T>(ctx: Context, policy: Option<Policy>, op: Operation<T>, p: Point, q: Point): int {
    var n := q.calls - p.calls;
    if SingleShot(policy) then 0
    else if n == 0 then 1
    else if !RetryFailed(op, p, q) || n >= Bound(policy) then 2 * n - 1
    else if ctx.DoneAt(p.looks + 2 * n - 1) then 2 * n
    else 2 * n + 1
  }

  /** The context and the answers leave a retry no choice. */
  lemma RetriedOnlyOnce<T>(ctx: Context, policy: Option<Policy>, op: Operation<T>, p: Point, q: Point, q': Point)
    requires Retried(ctx, policy, op, p, q) && Retried(ctx, policy, op, p, q')
    ensures q == q'
  {
  }

  /** Under a live context an enabled policy of several attempts makes exactly as many calls as it takes to succeed, or
      all of them; any other policy makes one call, whatever the context. */
  lemma CallsMade<T>(ctx: Context, policy: Option<Policy>, op: Operation<T>, p: Point, q: Point, k: nat)
    requires Retried(ctx, policy, op, p, q) && AllFailed(op, p.calls, p.calls + k)
    ensures policy.Some? && policy.value.enabled && policy.value.maxAttempts > 1 && ctx.liveLooks.None? ==>
              var m := policy.value.maxAttempts;
              && (k < m && op.answer(p.calls + k).err.None? ==> q.calls == p.calls + k + 1 && !RetryFailed(op, p, q))
              && (k >= m ==> q.calls == p.calls + m && RetryFailed(op, p, q))
    ensures policy.None? || !policy.value.enabled || policy.value.maxAttempts <= 1 ==>
              q.calls == p.calls + 1 && q.looks == p.looks
  {
  }

  /** Do: the answer is that of the last call made; with no call at all the context was done from the start. */
  method Do<T>(ctx: Context, policy: Option<Policy>, op: Operation<T>, zero: T) returns (r: Reply<T>)
    modifies ctx, op
    ensures old(op.calls) <= op.calls <= old(op.calls) + Bound(policy)
    ensures ctx.looks >= old(ctx.looks)
    ensures Retried(ctx, policy, op, Point(old(op.calls), old(ctx.looks)), Point(op.calls, ctx.looks))
    ensures r == if op.calls > old(op.calls) then op.answer(op.calls - 1) else Reply(zero, Some(ContextError))
  {
    if SingleShot(policy) {
      r := op.Call();
      return;
    }
    var lastResult, lastErr := zero, None;
    for attempt := 0 to policy.value.maxAttempts
      invariant op.calls == old(op.calls) + attempt
      invariant ctx.looks == old(ctx.looks) + 2 * attempt
      invariant attempt > 0 ==> !ctx.DoneAt(old(ctx.looks) + 2 * attempt - 1)
      invariant AllFailed(op, old(op.calls), op.calls)
      invariant if attempt == 0 then lastErr.None? else Reply(lastResult, lastErr) == op.answer(op.calls - 1)
      invariant attempt < policy.value.maxAttempts
    {
      var done := ctx.Done();
      if done {
        if lastErr.Some? {
          return Reply(lastResult, lastErr);
        }
        return Reply(zero, Some(ContextError));
      }
      var reply := op.Call();
      if reply.err.None? {
        return Reply(reply.result, None);
      }
      lastResult, lastErr := reply.result, reply.err;
      if attempt >= policy.value.maxAttempts - 1 {
        break;
      }
      done := ctx.Done();
      if done {
        return Reply(lastResult, lastErr);
      }
    }
    return Reply(lastResult, lastErr);
  }

  /** The calls from `first` up to `end` were all answered with something worth a retry. */
  ghost predicate AllRetried<T>(op: Operation<T>, shouldRetry: Reply<T> -> bool, first: nat, end: nat) {
    forall i: nat | first <= i < end :: shouldRetry(op.answer(i))
  }

  /** DoWithCondition: like Do, with the caller's condition in place of failure. A retry that was asked for after
      a nil error is forgotten when the context is found done at the top of the loop. */
  method DoWithCondition<T>(ctx: Context, policy: Option<Policy>, op: Operation<T>, shouldRetry: Reply<T> -> bool,
                            zero: T)
    returns (r: Reply<T>)
    modifies ctx, op
    ensures old(op.calls) <= op.calls <= old(op.calls) + Bound(policy)
    ensures op.calls > old(op.calls) ==> AllRetried(op, shouldRetry, old(op.calls), op.calls - 1)
    ensures op.calls == old(op.calls) ==>
              r == Reply(zero, Some(ContextError)) && !SingleShot(policy) && ctx.DoneAt(old(ctx.looks))
    ensures op.calls > old(op.calls) ==>
              var (last, n) := (op.answer(op.calls - 1), op.calls - old(op.calls));
              var forgotten := !SingleShot(policy) && n < Bound(policy) && shouldRetry(last) && last.err.None?
                               && !ctx.DoneAt(old(ctx.looks) + 2 * n - 1);
              && r == (if forgotten then Reply(zero, Some(ContextError)) else last)
              && (!SingleShot(policy) ==> !ctx.DoneAt(old(ctx.looks) + 2 * (n - 1)))
              && (!SingleShot(policy) && n < Bound(policy) && shouldRetry(last) ==> ctx.DoneAt(old(ctx.looks) + 2 * n))
    ensures policy.Some? && policy.value.enabled && policy.value.maxAttempts > 1 && ctx.liveLooks.None? ==>
              && old(op.calls) < op.calls <= old(op.calls) + policy.value.maxAttempts
              && (op.calls == old(op.calls) + policy.value.maxAttempts || !shouldRetry(op.answer(op.calls - 1)))
    ensures policy.None? || !policy.value.enabled || policy.value.maxAttempts <= 1 ==>
              op.calls == old(op.calls) + 1 && ctx.looks == old(ctx.looks)
  {
    if SingleShot(policy) {
      r := op.Call();
      return;
    }
    var lastResult, lastErr := zero, None;
    for attempt := 0 to policy.value.maxAttempts
      invariant op.calls == old(op.calls) + attempt
      invariant ctx.looks == old(ctx.looks) + 2 * attempt
      invariant attempt > 0 ==> !ctx.DoneAt(old(ctx.looks) + 2 * attempt - 1)
      invariant AllRetried(op, shouldRetry, old(op.calls), op.calls)
      invariant if attempt == 0 then lastErr.None? else Reply(lastResult, lastErr) == op.answer(op.calls - 1)
      invariant attempt < policy.value.maxAttempts
    {
      var done := ctx.Done();
      if done {
        if lastErr.Some? {
          return Reply(lastResult, lastErr);
        }
        return Reply(zero, Some(ContextError));
      }
      var reply := op.Call();
      if !shouldRetry(reply) {
        return reply;
      }
      lastResult, lastErr := reply.result, reply.err;
      if attempt >= policy.value.maxAttempts - 1 {
        break;
      }
      done := ctx.Done();
      if done {
        return Reply(lastResult, lastErr);
      }
    }
    return Reply(lastResult, lastErr);
  }
}
