/** willRetry (serve.go:214-227): call an operation, and after each failure
    sleep and call it again, at most n more times. The operation is given
    as the outcome of each successive call; the sleeps are returned instead
    of slept. */
module Retry {
  import opened Wrappers
  import opened Errors

  /** The number of retries both call sites ask for. */
  const Retries: int := 4

  function Pow10(i: nat): nat
  {
    if i == 0 then 1 else 10 * Pow10(i - 1)
  }

  /** The sleeps before the first k retries, in milliseconds: 100 * 10^i
      before retry i. */
  function Backoff(k: nat): (delays: seq<nat>)
    ensures |delays| == k
    ensures forall i :: 0 <= i < k ==> delays[i] == 100 * Pow10(i)
  {
    seq(k, i requires 0 <= i => 100 * Pow10(i))
  }

  /** The most calls willRetry(fn, n) makes. */
  function MaxCalls(n: int): nat
  {
    if n < 0 then 1 else n + 1
  }

  /** The outcome of calls i .. m-1 tried in turn: the first success, or
      the failure of the last call when none succeeds. */
  function FirstSuccess<T>(fn: nat -> Result<T, Error>, i: nat, m: nat): Result<T, Error>
    requires i < m
    decreases m - i
  {
    if fn(i).Success? || i + 1 == m then fn(i) else FirstSuccess(fn, i + 1, m)
  }

  /** What willRetry(fn, n) returns, as a function of the calls' outcomes. */
  function Outcome<T>(fn: nat -> Result<T, Error>, n: int): Result<T, Error>
  {
    FirstSuccess(fn, 0, MaxCalls(n))
  }

  /** Call c is the one FirstSuccess reports when every earlier call failed
      and c succeeded or was the last. */
  lemma {:induction false} FirstSuccessAt<T>(fn: nat -> Result<T, Error>, i: nat, m: nat, c: nat)
    requires i <= c < m
    requires forall j :: i <= j < c ==> fn(j).Failure?
    requires fn(c).Success? || c + 1 == m
    ensures FirstSuccess(fn, i, m) == fn(c)
    decreases c - i
  {
    if i < c {
      FirstSuccessAt(fn, i + 1, m, c);
    }
  }

  /** The retried operation succeeds iff one of its first n + 1 calls does. */
  lemma {:induction false} FirstSuccessIff<T>(fn: nat -> Result<T, Error>, i: nat, m: nat)
    requires i < m
    ensures FirstSuccess(fn, i, m).Success? <==> exists j :: i <= j < m && fn(j).Success?
    decreases m - i
  {
    if !fn(i).Success? && i + 1 < m {
      FirstSuccessIff(fn, i + 1, m);
      assert (exists j :: i <= j < m && fn(j).Success?) <==> (exists j :: i + 1 <= j < m && fn(j).Success?) by {
        assert forall j :: i <= j < m && fn(j).Success? ==> i + 1 <= j;
      }
    }
  }

  /** `fn(i)` is what the i-th call (0-based) returns. The result is the
      number of calls made, the sleeps between them and the last call's
      outcome. */
  method WillRetry<T>(fn: nat -> Result<T, Error>, n: int) returns (calls: nat, delays: seq<nat>, r: Result<T, Error>)
    ensures 1 <= calls <= MaxCalls(n)
    ensures r == fn(calls - 1)
    ensures forall i :: 0 <= i < calls - 1 ==> fn(i).Failure?
    ensures r.Failure? ==> calls == MaxCalls(n)
    ensures r.Success? <==> exists i :: 0 <= i < MaxCalls(n) && fn(i).Success?
    ensures delays == Backoff(calls - 1)
    ensures r == Outcome(fn, n)
  {
    r := fn(0);
    calls := 1;
    delays := [];
    var i := 0;
    while i < n
      invariant 0 <= i && calls == i + 1 <= MaxCalls(n)
      invariant r == fn(i)
      invariant forall k :: 0 <= k < i ==> fn(k).Failure?
      invariant delays == Backoff(i)
    {
      if r.Success? {
        break;
      }
      delays := delays + [100 * Pow10(i)];
      r := fn(i + 1);
      calls := calls + 1;
      i := i + 1;
    }
    FirstSuccessAt(fn, 0, MaxCalls(n), calls - 1);
  }

  /** With four retries the sleeps are 100 ms, 1 s, 10 s and 100 s. */
  lemma BackoffOfFourRetries()
    ensures Backoff(Retries) == [100, 1000, 10000, 100000]
  {
    assert Pow10(3) == 1000 by { assert Pow10(2) == 100; }
  }

  /** Backoff grows tenfold from one retry to the next. */
  lemma BackoffGrows(k: nat, i: nat)
    requires i + 1 < k
    ensures Backoff(k)[i + 1] == 10 * Backoff(k)[i]
  {
  }
}
