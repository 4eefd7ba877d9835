/**
 * The per-key rate limiter: a fixed window that starts at its first accepted call. All statements are about
 * one key with a fixed limit and window length; `times` are the monotonic times of its calls.
 */
module RateLimiter {
  import opened Common

  datatype Window = Window(start: real, count: int)

  function Max(x: real, y: real): real {
    if x >= y then x else y
  }

  /** The window a call at `now` counts against. */
  function Current(w: Option<Window>, length: real, now: real): Window {
    if w.None? || now - w.value.start >= length then Window(now, 0) else w.value
  }

  function Allows(w: Option<Window>, limit: int, length: real, now: real): bool {
    Current(w, length, now).count < limit
  }

  /** A refused call leaves the stored window alone. */
  function After(w: Option<Window>, limit: int, length: real, now: real): Option<Window> {
    var c := Current(w, length, now);
    if Allows(w, limit, length, now) then Some(Window(c.start, c.count + 1)) else w
  }

  function RetryAfter(w: Option<Window>, length: real, now: real): real {
    Max(0.0, length - (now - Current(w, length, now).start))
  }

  class SlidingWindowRateLimiter {
    var windows: map<string, Window>

    constructor ()
      ensures windows == map[]
    {
      windows := map[];
    }

    function Stored(key: string): Option<Window>
      reads this
    {
      if key in windows then Some(windows[key]) else None
    }

    method Allow(key: string, limit: int, length: real, now: real) returns (allowed: bool, retryAfter: real)
      modifies this
      ensures allowed == old(Allows(Stored(key), limit, length, now))
      ensures Stored(key) == old(After(Stored(key), limit, length, now))
      ensures retryAfter == old(RetryAfter(Stored(key), length, now))
      ensures forall k :: k != key ==> Stored(k) == old(Stored(k))
    {
      var start, count := now, 0;
      if key in windows {
        start, count := windows[key].start, windows[key].count;
      }
      if now - start >= length {
        start, count := now, 0;
      }
      if count >= limit {
        return false, Max(0.0, length - (now - start));
      }
      windows := windows[key := Window(start, count + 1)];
      return true, Max(0.0, length - (now - start));
    }
  }

  // ----- one key's calls --------------------------------------------------------------------------

  ghost predicate Monotonic(times: seq<real>) {
    forall i, j :: 0 <= i < j < |times| ==> times[i] <= times[j]
  }

  function State(limit: int, length: real, times: seq<real>, n: nat): Option<Window>
    requires n <= |times|
  {
    if n == 0 then None else After(State(limit, length, times, n - 1), limit, length, times[n - 1])
  }

  predicate Accepted(limit: int, length: real, times: seq<real>, i: nat)
    requires i < |times|
  {
    Allows(State(limit, length, times, i), limit, length, times[i])
  }

  /** How many of the first `n` calls were accepted at a time in [a, a + length). */
  function AcceptsFrom(limit: int, length: real, times: seq<real>, n: nat, a: real): int
    requires n <= |times|
  {
    if n == 0 then 0
    else AcceptsFrom(limit, length, times, n - 1, a)
         + if Accepted(limit, length, times, n - 1) && a <= times[n - 1] < a + length then 1 else 0
  }

  /** Where the newest window lies relative to [a, a + length) bounds what the interval can contain. */
  lemma {:induction false} WindowBounds(limit: int, length: real, times: seq<real>, n: nat, a: real)
    requires limit >= 1 && length > 0.0 && Monotonic(times) && n <= |times|
    ensures var w := State(limit, length, times, n); var count := AcceptsFrom(limit, length, times, n, a);
      if w.None? then count == 0
      else
        var s := w.value.start;
        && 1 <= w.value.count <= limit
        && (n > 0 ==> s <= times[n - 1])
        && (s + length <= a ==> count == 0)
        && (s < a ==> count <= w.value.count - 1)
        && (a <= s < a + length ==> count <= w.value.count + limit - 1)
        && (a + length <= s ==> count <= 2 * limit - 1)
  {
    if n > 0 {
      WindowBounds(limit, length, times, n - 1, a);
      assert n > 1 ==> times[n - 2] <= times[n - 1];
    }
  }

  /** No interval of the window's length ever contains more than 2 * limit - 1 accepted calls. */
  lemma AcceptsBounded(limit: int, length: real, times: seq<real>, a: real)
    requires limit >= 1 && length > 0.0 && Monotonic(times)
    ensures AcceptsFrom(limit, length, times, |times|, a) <= 2 * limit - 1
  {
    WindowBounds(limit, length, times, |times|, a);
  }

  /** A limit below one refuses everything. */
  lemma {:induction false} NothingAccepted(limit: int, length: real, times: seq<real>, n: nat, a: real)
    requires limit < 1 && length > 0.0 && n <= |times|
    ensures State(limit, length, times, n) == None && AcceptsFrom(limit, length, times, n, a) == 0
  {
    if n > 0 {
      NothingAccepted(limit, length, times, n - 1, a);
    }
  }

  // ----- the bound is reached ---------------------------------------------------------------------

  /** One call at 0, limit - 1 in mid-window and limit at the start of the next window. */
  function Burst(limit: nat, length: real): seq<real>
    requires limit >= 1
  {
    seq(2 * limit, i requires 0 <= i < 2 * limit => if i == 0 then 0.0 else if i < limit then length / 2.0 else length)
  }

  lemma {:induction false} BurstAccepted(limit: nat, length: real, n: nat)
    requires limit >= 1 && length > 0.0 && n <= 2 * limit
    ensures var times := Burst(limit, length);
      && State(limit, length, times, n) ==
         (if n == 0 then None else if n <= limit then Some(Window(0.0, n)) else Some(Window(length, n - limit)))
      && AcceptsFrom(limit, length, times, n, length / 2.0) == if n == 0 then 0 else n - 1
  {
    if n > 0 {
      BurstAccepted(limit, length, n - 1);
    }
  }

  /** For every limit and window length there is a trace that reaches the bound. */
  lemma BoundIsReached(limit: nat, length: real)
    requires limit >= 1 && length > 0.0
    ensures Monotonic(Burst(limit, length))
    ensures AcceptsFrom(limit, length, Burst(limit, length), |Burst(limit, length)|, length / 2.0) == 2 * limit - 1
  {
    BurstAccepted(limit, length, 2 * limit);
  }

  // ----- the retry time ---------------------------------------------------------------------------

  /**
   * After a refusal, every call before the announced retry time is refused too, and the first call at or
   * after it is accepted.
   */
  lemma {:induction false} RetryTimeIsExact(limit: int, length: real, times: seq<real>, i: nat, j: nat)
    requires limit >= 1 && length > 0.0 && Monotonic(times) && i < j < |times|
    requires !Accepted(limit, length, times, i)
    requires var retryAt := times[i] + RetryAfter(State(limit, length, times, i), length, times[i]);
      forall m :: i < m < j ==> times[m] < retryAt
    ensures var retryAt := times[i] + RetryAfter(State(limit, length, times, i), length, times[i]);
      Accepted(limit, length, times, j) <==> times[j] >= retryAt
    ensures State(limit, length, times, j) == State(limit, length, times, i)
  {
    WindowBounds(limit, length, times, i, 0.0);
    assert i > 0 ==> times[i - 1] <= times[i];
    if j > i + 1 {
      RetryTimeIsExact(limit, length, times, i, j - 1);
    }
  }
}
