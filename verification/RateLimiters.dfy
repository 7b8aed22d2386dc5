/** The burst rate limiter of `scripts/ci/dag.py`. Time is a real number read from the
    caller's clock; the clock itself is not modelled. */
module RateLimiters {

  /** The limiter's fields as a value. */
  datatype Limiter = Limiter(startTokens: int, tokensPerSecond: real, startTime: real, usedTokens: nat) {

    function Total(now: real): int {
      startTokens + (tokensPerSecond * (now - startTime)).Floor
    }

    predicate Grants(now: real) {
      usedTokens < Total(now)
    }

    function After(now: real): Limiter {
      if Grants(now) then this.(usedTokens := usedTokens + 1) else this
    }

    /** The limiter after one request at each of the given times. */
    function AfterAll(times: seq<real>): Limiter {
      if times == [] then this else AfterAll(times[..|times| - 1]).After(times[|times| - 1])
    }
  }

  class RateLimiter {
    const startTokens: int
    const tokensPerSecond: real
    const startTime: real
    var usedTokens: nat

    function View(): Limiter
      reads this
    {
      Limiter(startTokens, tokensPerSecond, startTime, usedTokens)
    }

    constructor (maxTokens: int, refillIntervalSec: real, now: real)
      requires refillIntervalSec != 0.0
      ensures View() == Fresh(maxTokens, refillIntervalSec, now)
    {
      startTokens := maxTokens;
      tokensPerSecond := 1.0 / refillIntervalSec;
      startTime := now;
      usedTokens := 0;
    }

    method Get(now: real) returns (granted: bool)
      modifies this
      ensures granted <==> old(View()).Grants(now)
      ensures View() == old(View()).After(now)
    {
      var secondsSinceStart := now - startTime;
      var numRefilledTokens := (tokensPerSecond * secondsSinceStart).Floor;
      var totalTokens := startTokens + numRefilledTokens;
      if usedTokens < totalTokens {
        usedTokens := usedTokens + 1;
        granted := true;
      } else {
        granted := false;
      }
    }
  }

  function Fresh(maxTokens: int, refillIntervalSec: real, now: real): Limiter
    requires refillIntervalSec != 0.0
  {
    Limiter(maxTokens, 1.0 / refillIntervalSec, now, 0)
  }

  /** The number of tokens `get` can have handed out `elapsed` seconds after the start. */
  function Budget(maxTokens: int, refillIntervalSec: real, elapsed: real): int
    requires refillIntervalSec > 0.0
  {
    var total := maxTokens + (elapsed / refillIntervalSec).Floor;
    if total < 0 then 0 else total
  }

  ghost predicate Nondecreasing(times: seq<real>) {
    forall i, j :: 0 <= i < j < |times| ==> times[i] <= times[j]
  }

  lemma ProductIsQuotient(interval: real, t: real)
    requires interval > 0.0
    ensures (1.0 / interval) * t == t / interval
  {
    var rate := 1.0 / interval;
    assert (rate * t) * interval == (rate * interval) * t;
    Cancel(rate * t, t / interval, interval);
  }

  lemma BudgetMonotone(maxTokens: int, interval: real, t: real, u: real)
    requires interval > 0.0 && t <= u
    ensures Budget(maxTokens, interval, t) <= Budget(maxTokens, interval, u)
  {
    assert t / interval <= u / interval;
  }

  lemma GrantsBelowBudget(maxTokens: int, interval: real, start: real, l: Limiter, now: real)
    requires interval > 0.0 && l == Fresh(maxTokens, interval, start).(usedTokens := l.usedTokens)
    ensures l.Grants(now) <==> l.usedTokens < Budget(maxTokens, interval, now - start)
  {
    ProductIsQuotient(interval, now - start);
  }

  lemma AfterAllKeepsSetup(l: Limiter, times: seq<real>)
    ensures l.AfterAll(times) == l.(usedTokens := l.AfterAll(times).usedTokens)
    decreases |times|
  {
    if times != [] { AfterAllKeepsSetup(l, times[..|times| - 1]); }
  }

  /** On every nondecreasing clock the tokens granted stay within the budget at the last
      request, and a request is refused exactly when the budget is used up. */
  lemma {:induction false} GrantsStayWithinBudget(
    maxTokens: int, interval: real, start: real, times: seq<real>, now: real)
    requires interval > 0.0
    requires Nondecreasing(times + [now]) && start <= (times + [now])[0]
    ensures
      var l := Fresh(maxTokens, interval, start).AfterAll(times);
      var budget := Budget(maxTokens, interval, now - start);
      l.usedTokens <= budget && (!l.Grants(now) <==> l.usedTokens == budget)
    decreases |times|
  {
    var initial := Fresh(maxTokens, interval, start);
    var k := |times|;
    var asked := times + [now];
    AfterAllKeepsSetup(initial, times);
    GrantsBelowBudget(maxTokens, interval, start, initial.AfterAll(times), now);
    if k > 0 {
      var last, before := times[k - 1], times[..k - 1];
      assert before + [last] == times;
      assert asked[k - 1] == last && asked[k] == now && asked[0] == times[0];
      assert Nondecreasing(times) by {
        assert forall i :: 0 <= i < k ==> asked[i] == times[i];
      }
      GrantsStayWithinBudget(maxTokens, interval, start, before, last);
      AfterAllKeepsSetup(initial, before);
      BudgetMonotone(maxTokens, interval, last - start, now - start);
    }
  }

  lemma Monotone(rate: real, t: real, u: real)
    requires rate > 0.0 && t <= u
    ensures rate * t <= rate * u
  {
  }

  lemma FloorAtLeast(x: real, n: int)
    requires x >= n as real
    ensures x.Floor >= n
  {
  }

  lemma TotalGrows(l: Limiter, time: real, now: real)
    requires l.tokensPerSecond > 0.0 && time <= now
    ensures l.Total(time) <= l.Total(now)
  {
    var rate, t, u := l.tokensPerSecond, time - l.startTime, now - l.startTime;
    Monotone(rate, t, u);
    FloorAtLeast(rate * u, (rate * t).Floor);
    assert l.Total(time) == l.startTokens + (rate * t).Floor;
    assert l.Total(now) == l.startTokens + (rate * u).Floor;
  }

  /** A limiter that grants goes on granting until it is asked. */
  lemma GrantsLater(l: Limiter, time: real, now: real)
    requires l.tokensPerSecond > 0.0 && time <= now && l.Grants(time)
    ensures l.Grants(now)
  {
    TotalGrows(l, time, now);
  }

  /** A limiter is never exhausted for good: far enough in the future it grants again. */
  lemma GrantsEventually(l: Limiter, notBefore: real) returns (now: real)
    requires l.tokensPerSecond > 0.0
    ensures now >= notBefore && l.Grants(now)
  {
    var need := if l.usedTokens + 1 - l.startTokens > 0 then l.usedTokens + 1 - l.startTokens else 0;
    var wait := (need as real) / l.tokensPerSecond;
    now := if l.startTime + wait >= notBefore then l.startTime + wait else notBefore;
    var rate, t := l.tokensPerSecond, now - l.startTime;
    assert t >= wait;
    assert rate * wait == need as real;
    Monotone(rate, wait, t);
    FloorAtLeast(rate * t, need);
    assert l.Total(now) == l.startTokens + (rate * t).Floor;
  }

  /** The tokens the class comment promises: one more every refill_interval_sec / max_tokens. */
  function Promised(maxTokens: int, refillIntervalSec: real, elapsed: real): int
    requires refillIntervalSec > 0.0
  {
    maxTokens + (elapsed * maxTokens as real / refillIntervalSec).Floor
  }

  /** The code refills one token every refill_interval_sec instead. With more than one token
      in the bucket the two agree exactly until the first refill the comment promises. */
  lemma PromiseKeptExactlyWhen(maxTokens: int, interval: real, elapsed: real)
    requires maxTokens >= 1 && interval > 0.0 && elapsed >= 0.0
    ensures
      Fresh(maxTokens, interval, 0.0).Total(elapsed) == Promised(maxTokens, interval, elapsed)
      <==> maxTokens == 1 || elapsed < interval / maxTokens as real
  {
    var m := maxTokens as real;
    assert maxTokens == 1 <==> m == 1.0;
    assert m == 1.0 || m >= 2.0;
    ProductIsQuotient(interval, elapsed);
    assert Fresh(maxTokens, interval, 0.0).Total(elapsed) == maxTokens + (elapsed / interval).Floor by {
      assert elapsed - 0.0 == elapsed;
      assert Fresh(maxTokens, interval, 0.0).tokensPerSecond * (elapsed - 0.0) == elapsed / interval;
    }
    FloorsAgree(m, interval, elapsed);
  }

  lemma FloorsAgree(m: real, interval: real, elapsed: real)
    requires (m == 1.0 || m >= 2.0) && interval > 0.0 && elapsed >= 0.0
    ensures (elapsed / interval).Floor == (elapsed * m / interval).Floor
      <==> m == 1.0 || elapsed < interval / m
  {
    var x, first, promised := elapsed / interval, interval / m, elapsed * m / interval;
    Promise(m, interval, elapsed, x, first, promised);
    if m >= 2.0 {
      ScaledFloor(x, promised, m);
    }
  }

  lemma Promise(m: real, interval: real, elapsed: real, x: real, first: real, promised: real)
    requires m > 0.0 && interval > 0.0
    requires x * interval == elapsed && first * m == interval && promised * interval == elapsed * m
    ensures promised == m * x
    ensures elapsed < first <==> promised < 1.0
  {
    assert (m * x) * interval == m * (x * interval);
    Cancel(promised, m * x, interval);
    MultiplyLess(elapsed, first, m);
    MultiplyLess(promised, 1.0, interval);
  }

  lemma Cancel(a: real, b: real, c: real)
    requires c > 0.0 && a * c == b * c
    ensures a == b
  {
    assert (a - b) * c == 0.0;
  }

  lemma MultiplyLess(a: real, b: real, c: real)
    requires c > 0.0
    ensures a < b <==> a * c < b * c
  {
    if a < b {
      assert (b - a) * c > 0.0;
    } else {
      assert (a - b) * c >= 0.0;
    }
  }

  lemma ScaledFloor(x: real, y: real, m: real)
    requires x >= 0.0 && m >= 2.0 && y == m * x
    ensures x.Floor == y.Floor <==> y < 1.0
  {
    if x > 0.0 { MultiplyLess(m, 2.0, x); }
    if y < 1.0 {
      assert x.Floor == 0 && y.Floor == 0;
    } else if x >= 1.0 {
      assert y >= x + 1.0;
    }
  }

  /** The limiter of a real publish, 30 tokens and 60 seconds: after two seconds the comment promises
      a refill that the code has not made, and after a minute 30 tokens against one. */
  lemma PublishingRefillsSlower()
    ensures Fresh(30, 60.0, 0.0).Total(2.0) == 30 && Promised(30, 60.0, 2.0) == 31
    ensures Fresh(30, 60.0, 0.0).Total(60.0) == 31 && Promised(30, 60.0, 60.0) == 60
  {
    ProductIsQuotient(60.0, 2.0);
    ProductIsQuotient(60.0, 60.0);
  }
}
