/** The token bucket (pkg/security/ratelimit.go), with real-valued tokens and the clock as a parameter. */
module RateLimiter {

  datatype Limits = Limits(rate: int, burst: int)

  datatype Bucket = Bucket(tokens: real, last: real)

  function Full(c: Limits, now: real): Bucket {
    Bucket(c.burst as real, now)
  }

  /** What accrues during an interval. */
  function Earned(c: Limits, elapsed: real): real {
    elapsed * c.rate as real
  }

  lemma EarnedAdds(c: Limits, x: real, y: real, z: real)
    ensures Earned(c, y - x) + Earned(c, z - y) == Earned(c, z - x)
  {
  }

  lemma EarnedIsPositive(c: Limits, elapsed: real)
    requires c.rate >= 0 && elapsed >= 0.0
    ensures Earned(c, elapsed) >= 0.0
  {
  }

  /** The tokens on hand once the time since the last call has been credited. */
  function Refilled(c: Limits, b: Bucket, now: real): real {
    var tokens := b.tokens + Earned(c, now - b.last);
    if tokens > c.burst as real then c.burst as real else tokens
  }

  function Take(c: Limits, b: Bucket, now: real): (Bucket, bool) {
    var tokens := Refilled(c, b, now);
    if tokens >= 1.0 then (Bucket(tokens - 1.0, now), true) else (Bucket(tokens, now), false)
  }

  class Limiter {
    const limits: Limits
    var tokens: real
    var lastTime: real

    ghost function View(): Bucket
      reads this
    {
      Bucket(tokens, lastTime)
    }

    constructor (rate: int, burst: int, now: real)
      ensures limits == Limits(rate, burst) && View() == Full(limits, now)
    {
      limits := Limits(rate, burst);
      tokens, lastTime := burst as real, now;
    }

    method Allow(now: real) returns (ok: bool)
      modifies this
      ensures (View(), ok) == Take(limits, old(View()), now)
    {
      var elapsed := now - lastTime;
      lastTime := now;
      var earned := elapsed * limits.rate as real;
      assert earned == Earned(limits, elapsed);
      hide Earned;
      tokens := tokens + earned;
      if tokens > limits.burst as real {
        tokens := limits.burst as real;
      }
      if tokens >= 1.0 {
        tokens := tokens - 1.0;
        return true;
      }
      ok := false;
    }
  }

  // ----- Whole runs: a limiter created at `start`, called at `times` -----

  ghost predicate Monotone(start: real, times: seq<real>) {
    && (times != [] ==> start <= times[0])
    && forall i, j | 0 <= i <= j < |times| :: times[i] <= times[j]
  }

  /** The bucket after the first k calls. */
  function State(c: Limits, start: real, times: seq<real>, k: nat): Bucket
    requires k <= |times|
  {
    if k == 0 then Full(c, start) else Take(c, State(c, start, times, k - 1), times[k - 1]).0
  }

  function Verdicts(c: Limits, start: real, times: seq<real>): (ok: seq<bool>)
    ensures |ok| == |times|
  {
    seq(|times|, k requires 0 <= k < |times| => Take(c, State(c, start, times, k), times[k]).1)
  }

  /** How many of the calls i, …, k - 1 were admitted. */
  function Count(ok: seq<bool>, i: nat, k: nat): nat
    requires k <= |ok|
  {
    if k <= i then 0 else Count(ok, i, k - 1) + if ok[k - 1] then 1 else 0
  }

  /** What a window from call i up to the time of call k may hold in all: burst + rate * elapsed. */
  function Allowance(c: Limits, times: seq<real>, i: nat, k: nat): real
    requires i <= k < |times|
  {
    c.burst as real + (times[k] - times[i]) * c.rate as real
  }

  /** Every window of consecutive calls admits at most the burst and what accrues during it. */
  ghost predicate KeepsWindows(c: Limits, times: seq<real>, ok: seq<bool>)
    requires |ok| == |times|
  {
    forall i, k | 0 <= i <= k < |times| :: Count(ok, i, k + 1) as real <= Allowance(c, times, i, k)
  }

  /** What a window starting at call i leaves for call k. */
  function Room(c: Limits, times: seq<real>, ok: seq<bool>, i: nat, k: nat): real
    requires i <= k < |times| == |ok|
  {
    Allowance(c, times, i, k) - Count(ok, i, k) as real
  }

  lemma RoomOfOne(c: Limits, times: seq<real>, ok: seq<bool>, k: nat)
    requires k < |times| == |ok|
    ensures Room(c, times, ok, k, k) == c.burst as real
  {
  }

  lemma AllowanceMoves(c: Limits, times: seq<real>, i: nat, j: nat, k: nat)
    requires i <= j <= k < |times|
    ensures Allowance(c, times, i, k) == Allowance(c, times, i, j) + Earned(c, times[k] - times[j])
  {
    EarnedAdds(c, times[i], times[j], times[k]);
  }

  lemma RoomMoves(c: Limits, times: seq<real>, ok: seq<bool>, i: nat, k: nat)
    requires i < k < |times| == |ok|
    ensures Room(c, times, ok, i, k)
         == Room(c, times, ok, i, k - 1) - (if ok[k - 1] then 1.0 else 0.0) + Earned(c, times[k] - times[k - 1])
  {
    hide Earned, Allowance;
    AllowanceMoves(c, times, i, k - 1, k);
  }

  /** The tokens on hand at call k. */
  function OnHand(c: Limits, start: real, times: seq<real>, k: nat): real
    requires k < |times|
  {
    Refilled(c, State(c, start, times, k), times[k])
  }

  lemma OnHandFirst(c: Limits, start: real, times: seq<real>)
    requires c.rate >= 0 && times != [] && start <= times[0]
    ensures OnHand(c, start, times, 0) == c.burst as real
  {
    hide Earned;
    EarnedIsPositive(c, times[0] - start);
  }

  lemma OnHandMoves(c: Limits, start: real, times: seq<real>, k: nat)
    requires 0 < k < |times|
    ensures
      var left := OnHand(c, start, times, k - 1) - (if Verdicts(c, start, times)[k - 1] then 1.0 else 0.0);
      var tokens := left + Earned(c, times[k] - times[k - 1]);
      OnHand(c, start, times, k) == if tokens > c.burst as real then c.burst as real else tokens
  {
    hide Earned;
  }

  /** The tokens on hand at call k are what the tightest window ending there still leaves. */
  lemma {:induction false} TokensAreTightestWindow(c: Limits, start: real, times: seq<real>, k: nat) returns (w: nat)
    requires c.rate >= 0 && Monotone(start, times) && k < |times|
    ensures
      var ok := Verdicts(c, start, times);
      && (forall i | 0 <= i <= k :: OnHand(c, start, times, k) <= Room(c, times, ok, i, k))
      && w <= k && OnHand(c, start, times, k) == Room(c, times, ok, w, k)
  {
    hide Room, OnHand, Verdicts, Earned;
    var ok := Verdicts(c, start, times);
    w := k;
    RoomOfOne(c, times, ok, k);
    if k == 0 {
      OnHandFirst(c, start, times);
    } else {
      w := TokensAreTightestWindow(c, start, times, k - 1);
      OnHandMoves(c, start, times, k);
      RoomMoves(c, times, ok, w, k);
      forall i | 0 <= i <= k
        ensures OnHand(c, start, times, k) <= Room(c, times, ok, i, k)
      {
        if i < k {
          RoomMoves(c, times, ok, i, k);
        }
      }
      if OnHand(c, start, times, k) == c.burst as real {
        w := k;
      }
    }
  }

  /** A call is admitted exactly when no window ending with it would hold more than its allowance. */
  lemma AdmittedIffEveryWindowHasRoom(c: Limits, start: real, times: seq<real>, k: nat)
    requires c.rate >= 0 && Monotone(start, times) && k < |times|
    ensures Verdicts(c, start, times)[k] <==>
              forall i | 0 <= i <= k ::
                Count(Verdicts(c, start, times), i, k) as real + 1.0 <= Allowance(c, times, i, k)
  {
    var ok := Verdicts(c, start, times);
    assert ok[k] <==> OnHand(c, start, times, k) >= 1.0;
    hide Verdicts, OnHand, Allowance, Count;
    var w := TokensAreTightestWindow(c, start, times, k);
    assert Room(c, times, ok, w, k) >= 1.0 <==> Count(ok, w, k) as real + 1.0 <= Allowance(c, times, w, k);
    forall i | 0 <= i <= k && OnHand(c, start, times, k) >= 1.0
      ensures Count(ok, i, k) as real + 1.0 <= Allowance(c, times, i, k)
    {
      assert OnHand(c, start, times, k) <= Room(c, times, ok, i, k);
    }
  }

  lemma {:induction false} TokensStayInRange(c: Limits, start: real, times: seq<real>, k: nat)
    requires c.rate >= 0 && c.burst >= 0 && Monotone(start, times) && k <= |times|
    ensures 0.0 <= State(c, start, times, k).tokens <= c.burst as real
    ensures State(c, start, times, k).last == if k == 0 then start else times[k - 1]
    ensures k < |times| ==> State(c, start, times, k).last <= times[k]
  {
    hide Earned;
    if k > 0 {
      TokensStayInRange(c, start, times, k - 1);
      var b := State(c, start, times, k - 1);
      EarnedIsPositive(c, times[k - 1] - b.last);
    }
  }

  lemma {:induction false} WindowHolds(c: Limits, start: real, times: seq<real>, i: nat, k: nat)
    requires c.rate >= 0 && c.burst >= 0 && Monotone(start, times) && i <= k < |times|
    ensures Count(Verdicts(c, start, times), i, k + 1) as real <= Allowance(c, times, i, k)
    decreases k
  {
    hide Earned, Allowance, Verdicts, State;
    var ok := Verdicts(c, start, times);
    if ok[k] {
      AdmittedIffEveryWindowHasRoom(c, start, times, k);
    } else if i == k {
      RoomOfOne(c, times, ok, k);
    } else {
      WindowHolds(c, start, times, i, k - 1);
      AllowanceMoves(c, times, i, k - 1, k);
      EarnedIsPositive(c, times[k] - times[k - 1]);
    }
  }

  /** Over any contiguous stretch of calls: admitted <= burst + rate * elapsed. */
  lemma AdmissionsAreBounded(c: Limits, start: real, times: seq<real>)
    requires c.rate >= 0 && c.burst >= 0 && Monotone(start, times)
    ensures KeepsWindows(c, times, Verdicts(c, start, times))
  {
    forall i, k | 0 <= i <= k < |times|
      ensures Count(Verdicts(c, start, times), i, k + 1) as real <= Allowance(c, times, i, k)
    {
      WindowHolds(c, start, times, i, k);
    }
  }

  lemma {:induction false} CountSplits(ok: seq<bool>, i: nat, k: nat)
    requires i <= k <= |ok|
    ensures Count(ok, 0, k) == Count(ok, 0, i) + Count(ok, i, k)
  {
    if i < k {
      CountSplits(ok, i, k - 1);
    }
  }

  /** The limiter is the most generous one: no admission record that keeps every window admits more up to any call. */
  lemma {:induction false} NoRecordAdmitsMore(c: Limits, start: real, times: seq<real>, other: seq<bool>, k: nat)
    requires c.rate >= 0 && Monotone(start, times) && |other| == |times| && KeepsWindows(c, times, other)
    requires k <= |times|
    ensures Count(other, 0, k) <= Count(Verdicts(c, start, times), 0, k)
    decreases k
  {
    hide Earned, Allowance;
    var ok := Verdicts(c, start, times);
    if k > 0 {
      var n := k - 1;
      if ok[n] {
        NoRecordAdmitsMore(c, start, times, other, n);
      } else {
        var w := TokensAreTightestWindow(c, start, times, n);
        assert Count(other, w, n + 1) as real <= Allowance(c, times, w, n);
        assert Count(other, w, k) <= Count(ok, w, n);
        NoRecordAdmitsMore(c, start, times, other, w);
        CountSplits(other, w, k);
        CountSplits(ok, w, n);
      }
    }
  }

  /** Calls at least 1/rate apart are never refused by a bucket that holds a token. */
  lemma SpacedCallsPass(c: Limits, start: real, times: seq<real>, k: nat)
    requires c.rate >= 0 && c.burst >= 1 && Monotone(start, times) && k < |times|
    requires forall i | 0 < i < |times| :: (times[i] - times[i - 1]) * c.rate as real >= 1.0
    ensures Verdicts(c, start, times)[k]
  {
    assert k > 0 ==> Earned(c, times[k] - times[k - 1]) >= 1.0;
    hide Earned;
    TokensStayInRange(c, start, times, k);
    if k == 0 {
      EarnedIsPositive(c, times[0] - start);
    }
  }

  /** After a refusal the next call passes exactly when a whole token has accrued. */
  lemma RefusedThenAllowed(c: Limits, b: Bucket, t: real, t': real)
    requires c.rate >= 0 && c.burst >= 1 && t <= t' && !Take(c, b, t).1
    ensures Take(c, Take(c, b, t).0, t').1 <==> Take(c, b, t).0.tokens + (t' - t) * c.rate as real >= 1.0
  {
    assert Earned(c, t' - t) == (t' - t) * c.rate as real;
  }
}
