/**
 pkg/hub/circuitbreaker.go as functions on the state of the breaker, with the clock readings as arguments.
 Durations and times are in nanoseconds.
 */
module BreakerStates {
  import opened Options
  import opened Powers

  datatype BreakerStatus = Disabled | Enabled | Checking

  datatype Breaker = Breaker(
    status: BreakerStatus, nextCheckTime: Option<int>, maxBackoff: int, consecutiveFailures: nat)

  const SECOND := 1_000_000_000
  const TWO_63 := 9_223_372_036_854_775_808
  const TWO_64 := 18_446_744_073_709_551_616

  // ---------- The backoff ----------

  /** Arithmetic on durations wraps around at 64 bits. */
  function Wrap64(x: int): int
  {
    (x + TWO_63) % TWO_64 - TWO_63
  }

  /**
   2^n as a duration; from n = 63 the conversion is out of range and yields the smallest int64 on the usual
   targets.
   */
  function DurationOfPow2(n: nat): int
  {
    if n <= 62 then Pow2(n) else -TWO_63
  }

  function ExponentialBackoff(n: nat): int
  {
    Wrap64(DurationOfPow2(n) * SECOND)
  }

  function MinDuration(a: int, b: int): int
  {
    if a <= b then a else b
  }

  function Delay(maxBackoff: int, n: nat): int
  {
    MinDuration(maxBackoff, ExponentialBackoff(n))
  }

  lemma PowersAroundTheLimit()
    ensures Pow2(33) == 0x2_0000_0000 && Pow2(34) == 0x4_0000_0000
  {
    assert Pow2(8) == 0x100;
    Pow2Adds(8, 8);
    Pow2Adds(16, 16);
    assert Pow2(33) == 2 * Pow2(32);
  }

  /** Wrapping around gives the one 64-bit value that differs by a multiple of 2^64. */
  lemma WrapMeans(x: int)
    ensures -0x8000_0000_0000_0000 <= Wrap64(x) < 0x8000_0000_0000_0000
    ensures (Wrap64(x) - x) % 0x1_0000_0000_0000_0000 == 0
  {
    assert Wrap64(x) - x == -((x + TWO_63) / TWO_64) * TWO_64;
  }

  /** The product is the one intended exactly up to the thirty-third failure; from the next one on it overflows. */
  lemma BackoffIsExactIff(n: nat)
    ensures ExponentialBackoff(n) == Pow2(n) * SECOND <==> n <= 33
  {
    PowersAroundTheLimit();
    if n <= 33 {
      Pow2Monotone(n, 33);
    } else {
      Pow2Monotone(34, n);
      assert Pow2(n) * SECOND > TWO_63;
    }
  }

  /**
   The delay never exceeds the maximum. Up to the thirty-third failure it is 2^n seconds if the maximum allows that,
   and the maximum otherwise.
   */
  lemma DelayIsCapped(maxBackoff: int, n: nat)
    ensures Delay(maxBackoff, n) <= maxBackoff && Delay(maxBackoff, n) <= ExponentialBackoff(n)
    ensures Delay(maxBackoff, n) == maxBackoff || Delay(maxBackoff, n) == ExponentialBackoff(n)
    ensures n <= 33 ==> Delay(maxBackoff, n) == if Pow2(n) * 1_000_000_000 <= maxBackoff then Pow2(n) * 1_000_000_000
                                                else maxBackoff
  {
    BackoffIsExactIff(n);
  }

  /**
   Up to the thirty-third failure the delay is positive and never shrinks, whatever positive maximum is
   configured.
   */
  lemma DelayGrows(maxBackoff: int, n: nat, m: nat)
    requires maxBackoff > 0 && n <= m <= 33
    ensures 0 < Delay(maxBackoff, n) <= Delay(maxBackoff, m)
  {
    BackoffIsExactIff(n);
    BackoffIsExactIff(m);
    Pow2Monotone(n, m);
  }

  /** Where the overflowed product happens to be positive again. */
  const POSITIVE_WRAPS := {37, 41, 42, 45, 47, 50, 51, 53}

  /** Doubling a duration, with the wrap-around. */
  function Doubled(w: int): int
  {
    if 2 * w >= TWO_63 then 2 * w - TWO_64 else if 2 * w < -TWO_63 then 2 * w + TWO_64 else 2 * w
  }

  lemma WrapIs(x: int, q: int, w: int)
    requires x == q * TWO_64 + w && -TWO_63 <= w < TWO_63
    ensures Wrap64(x) == w
  {
  }

  lemma BackoffDoubles(n: nat)
    requires n < 62
    ensures ExponentialBackoff(n + 1) == Doubled(ExponentialBackoff(n))
  {
    var x := Pow2(n) * SECOND;
    assert Pow2(n + 1) * SECOND == 2 * x;
    WrapIs(x, (x + TWO_63) / TWO_64, Wrap64(x));
    var q := (x + TWO_63) / TWO_64;
    assert x == q * TWO_64 + Wrap64(x);
    var w := Doubled(Wrap64(x));
    WrapIs(2 * x, if w == 2 * Wrap64(x) then 2 * q else if w < 2 * Wrap64(x) then 2 * q + 1 else 2 * q - 1, w);
  }

  /** From the thirty-fourth failure on the product is a multiple of this, and 21 bits of it are left. */
  const UNIT := 0x800_0000_0000
  const LOW_BITS := 0x20_0000

  /** The signed 21 bits left after j more doublings. */
  function Low(j: nat): (low: int)
    ensures -LOW_BITS <= 2 * low < LOW_BITS
  {
    if j == 0 then 1_953_125 - LOW_BITS
    else
      var d := 2 * Low(j - 1);
      if 2 * d >= LOW_BITS then d - LOW_BITS else if 2 * d < -LOW_BITS then d + LOW_BITS else d
  }

  lemma {:induction false} BackoffIsLow(j: nat)
    requires j <= 28
    ensures ExponentialBackoff(34 + j) == UNIT * Low(j)
  {
    if j == 0 {
      PowersAroundTheLimit();
    } else {
      BackoffIsLow(j - 1);
      BackoffDoubles(33 + j);
    }
  }

  lemma LowUpTo10()
    ensures Low(0) == -144_027 && Low(1) == -288_054 && Low(2) == -576_108 && Low(3) == 944_936
    ensures Low(4) == -207_280 && Low(5) == -414_560 && Low(6) == -829_120 && Low(7) == 438_912
    ensures Low(8) == 877_824 && Low(9) == -341_504 && Low(10) == -683_008
  {
  }

  lemma LowUpTo21()
    ensures Low(11) == 731_136 && Low(12) == -634_880 && Low(13) == 827_392 && Low(14) == -442_368
    ensures Low(15) == -884_736 && Low(16) == 327_680 && Low(17) == 655_360 && Low(18) == -786_432
    ensures Low(19) == 524_288 && Low(20) == -1_048_576 && Low(21) == 0
  {
    LowUpTo10();
  }

  lemma LowIsPositiveIff(j: nat)
    requires j <= 20
    ensures Low(j) > 0 <==> 34 + j in POSITIVE_WRAPS
    ensures Low(21) == 0
  {
    hide Low;
    LowUpTo10();
    LowUpTo21();
  }

  lemma {:induction false} LowRunsOut(j: nat)
    requires j >= 21
    ensures Low(j) == 0
  {
    if j == 21 {
      LowIsPositiveIff(0);
    } else {
      LowRunsOut(j - 1);
    }
  }

  /** Exactly when a disabled breaker waits at all before it checks again. */
  lemma DelayIsPositiveIff(maxBackoff: int, n: nat)
    requires maxBackoff > 0
    ensures Delay(maxBackoff, n) > 0 <==> n <= 33 || n in POSITIVE_WRAPS
  {
    if n <= 33 {
      DelayGrows(maxBackoff, n, n);
    } else if n <= 62 {
      BackoffIsLow(n - 34);
      if n <= 54 {
        LowIsPositiveIff(n - 34);
      } else {
        LowRunsOut(n - 34);
      }
    } else {
      assert ExponentialBackoff(n) == 0;
    }
  }

  // ---------- Steps ----------

  function NewBreaker(maxBackoff: int): Breaker
  {
    Breaker(Enabled, None, maxBackoff, 0)
  }

  function Reset(b: Breaker): Breaker
  {
    b.(status := Enabled, consecutiveFailures := 0, nextCheckTime := None)
  }

  /** A disabled breaker knows when to check again, which is what keeps the nil time from being read. */
  predicate HasCheckTime(b: Breaker)
  {
    b.status == Disabled ==> b.nextCheckTime.Some?
  }

  /** What being asked to issue a request does; afterwards the breaker may issue it unless it is still disabled. */
  function Asked(b: Breaker, now: int): Breaker
    requires HasCheckTime(b)
  {
    if b.status == Disabled && now > b.nextCheckTime.value then b.(status := Checking) else b
  }

  function Failed(b: Breaker, now: int): Breaker
  {
    match b.status
    case Disabled => b
    case Enabled =>
      b.(status := Disabled, consecutiveFailures := 1, nextCheckTime := Some(now + Delay(b.maxBackoff, 1)))
    case Checking =>
      var n := b.consecutiveFailures + 1;
      b.(status := Disabled, consecutiveFailures := n, nextCheckTime := Some(now + Delay(b.maxBackoff, n)))
  }

  function Succeeded(b: Breaker): Breaker
  {
    if b.status == Checking then b.(status := Enabled, consecutiveFailures := 0, nextCheckTime := None) else b
  }

  /** A request issued at one time and answered, if it was executed, at another. */
  datatype Request = Request(start: int, end: int, ok: bool)

  function Issued(b: Breaker, r: Request): Breaker
    requires HasCheckTime(b)
  {
    var asked := Asked(b, r.start);
    if asked.status == Disabled then asked
    else if r.ok then Succeeded(asked) else Failed(asked, r.end)
  }

  predicate IsExecuted(b: Breaker, r: Request)
    requires HasCheckTime(b)
  {
    Asked(b, r.start).status != Disabled
  }

  /** Between requests, used one at a time, a breaker is enabled, or disabled with failures to its name. */
  predicate AtRest(b: Breaker)
  {
    HasCheckTime(b) && b.status != Checking && (b.status == Disabled ==> b.consecutiveFailures > 0)
  }

  lemma IssuedIsAtRest(b: Breaker, r: Request)
    requires AtRest(b)
    ensures AtRest(Issued(b, r)) && Issued(b, r).maxBackoff == b.maxBackoff
  {
  }

  /** A new breaker is enabled and has no failures; a reset makes any breaker like new. */
  lemma ResetIsNew(b: Breaker)
    ensures NewBreaker(b.maxBackoff) == Breaker(Enabled, None, b.maxBackoff, 0) == Reset(b)
  {
  }

  /**
   What one request does to a breaker at rest. It is executed unless the breaker is disabled and its check time has
   not passed. A success re-enables the breaker, like new if it was disabled; a failure disables it, for the delay
   that the number of failures in a row calls for.
   */
  lemma RequestOutcomes(b: Breaker, r: Request)
    requires AtRest(b)
    ensures IsExecuted(b, r) <==> b.status == Enabled || r.start > b.nextCheckTime.value
    ensures !IsExecuted(b, r) ==> Issued(b, r) == b
    ensures IsExecuted(b, r) && r.ok
            ==> Issued(b, r) == if b.status == Enabled then b else Breaker(Enabled, None, b.maxBackoff, 0)
    ensures IsExecuted(b, r) && !r.ok ==>
              var n := if b.status == Enabled then 1 else b.consecutiveFailures + 1;
              Issued(b, r) == Breaker(Disabled, Some(r.end + Delay(b.maxBackoff, n)), b.maxBackoff, n)
  {
  }

  /** While the breaker is disabled no outcome changes it; a success re-enables it exactly while it is checking. */
  lemma LateOutcomes(b: Breaker, now: int)
    ensures b.status == Disabled ==> Failed(b, now) == b
    ensures b.status != Checking ==> Succeeded(b) == b
    ensures b.status == Checking ==> Succeeded(b) == Breaker(Enabled, None, b.maxBackoff, 0)
  {
  }

  // ---------- A streak of failures ----------

  /** None of the requests succeeds if it is executed, and the clock does not run backwards during one. */
  ghost predicate AllFail(rs: seq<Request>)
  {
    forall i :: 0 <= i < |rs| ==> !rs[i].ok && rs[i].start <= rs[i].end
  }

  /** What is seen of a streak: the breaker after it, the requests executed, and the times of the first and last. */
  datatype Streak = Streak(breaker: Breaker, executed: nat, firstEnd: int, lastStart: int, lastEnd: int)

  function OneMore(t: Streak, r: Request): Streak
    requires AtRest(t.breaker)
  {
    var breaker := Issued(t.breaker, r);
    if !IsExecuted(t.breaker, r) then t.(breaker := breaker)
    else Streak(breaker, t.executed + 1, if t.executed == 0 then r.end else t.firstEnd, r.start, r.end)
  }

  function Observe(b: Breaker, rs: seq<Request>): (t: Streak)
    requires AtRest(b)
    ensures AtRest(t.breaker) && t.breaker.maxBackoff == b.maxBackoff
  {
    if rs == [] then Streak(b, 0, 0, 0, 0)
    else
      var before := Observe(b, rs[..|rs| - 1]);
      IssuedIsAtRest(before.breaker, rs[|rs| - 1]);
      OneMore(before, rs[|rs| - 1])
  }

  /** The breaker after some requests. */
  function After(b: Breaker, rs: seq<Request>): (b': Breaker)
    requires AtRest(b)
    ensures AtRest(b')
  {
    if rs == [] then b
    else
      IssuedIsAtRest(After(b, rs[..|rs| - 1]), rs[|rs| - 1]);
      Issued(After(b, rs[..|rs| - 1]), rs[|rs| - 1])
  }

  /** Request i is executed. */
  predicate ExecutedAt(b: Breaker, rs: seq<Request>, i: int)
    requires AtRest(b)
  {
    0 <= i < |rs| && IsExecuted(After(b, rs[..i]), rs[i])
  }

  function ExecutedOf(b: Breaker, rs: seq<Request>): set<int>
    requires AtRest(b)
  {
    set i | 0 <= i < |rs| && ExecutedAt(b, rs, i)
  }

  ghost predicate IsFirst(i: int, s: set<int>)
  {
    i in s && forall j :: j in s ==> i <= j
  }

  ghost predicate IsLast(i: int, s: set<int>)
  {
    i in s && forall j :: j in s ==> j <= i
  }

  lemma ExecutedOfOneMore(b: Breaker, rs: seq<Request>)
    requires AtRest(b) && rs != []
    ensures var n := |rs| - 1;
            && ExecutedOf(b, rs) == ExecutedOf(b, rs[..n]) + (if ExecutedAt(b, rs, n) then {n} else {})
            && ExecutedAt(b, rs, n) == IsExecuted(After(b, rs[..n]), rs[n])
            && forall i :: i in ExecutedOf(b, rs[..n]) ==> 0 <= i < n
  {
    hide After, IsExecuted, AtRest;
    var n := |rs| - 1;
    assert forall i :: 0 <= i < n ==> rs[..n][..i] == rs[..i] && rs[..n][i] == rs[i];
    assert forall i :: 0 <= i < n ==> (ExecutedAt(b, rs, i) <==> ExecutedAt(b, rs[..n], i));
  }

  /** A number above all others is the last, and the first only if there are no others. */
  lemma LastAdded(s: set<int>, n: int)
    requires forall i :: i in s ==> i < n
    requires |s| == 0 || exists i :: IsFirst(i, s)
    ensures IsLast(n, s + {n}) && (forall i :: IsLast(i, s + {n}) ==> i == n)
    ensures exists i :: IsFirst(i, s + {n})
    ensures forall i :: IsFirst(i, s + {n}) <==> if |s| == 0 then i == n else IsFirst(i, s)
  {
    if |s| == 0 {
      assert s == {} && IsFirst(n, s + {n});
    } else {
      var i :| IsFirst(i, s);
      assert IsFirst(i, s + {n});
    }
  }

  /**
   What is seen of the requests is the breaker after them, how many were executed, and when the first and last
   were.
   */
  lemma {:induction false} ObserveMeans(b: Breaker, rs: seq<Request>)
    requires AtRest(b)
    ensures var t, executed := Observe(b, rs), ExecutedOf(b, rs);
            && t.breaker == After(b, rs) && t.executed == |executed|
            && (forall i :: IsFirst(i, executed) ==> 0 <= i < |rs| && t.firstEnd == rs[i].end)
            && (forall i :: IsLast(i, executed) ==>
                  0 <= i < |rs| && t.lastStart == rs[i].start && t.lastEnd == rs[i].end)
            && (t.executed > 0 ==> (exists i :: IsFirst(i, executed)) && (exists i :: IsLast(i, executed)))
  {
    if rs != [] {
      var n := |rs| - 1;
      ObserveMeans(b, rs[..n]);
      ExecutedOfOneMore(b, rs);
      LastAdded(ExecutedOf(b, rs[..n]), n);
      hide Issued, IsExecuted, AtRest, ExecutedOf, ExecutedAt, IsFirst, IsLast;
      assert ExecutedOf(b, rs) == ExecutedOf(b, rs[..n])
             || (n !in ExecutedOf(b, rs[..n]) && |ExecutedOf(b, rs)| == |ExecutedOf(b, rs[..n])| + 1);
    } else {
      assert ExecutedOf(b, rs) == {};
    }
  }

  /** The number of failures in a row that a breaker at rest has already seen. */
  function SeenFailures(b: Breaker): nat
  {
    if b.status == Enabled then 0 else b.consecutiveFailures
  }

  /** Delay(from + 1) + ... + Delay(from + n). */
  function SumOfDelays(maxBackoff: int, from: nat, n: nat): int
  {
    if n == 0 then 0 else SumOfDelays(maxBackoff, from, n - 1) + Delay(maxBackoff, from + n)
  }

  /**
   A streak of failures that began at breaker b: the count goes on, and the first to the last start spans the
   delays.
   */
  ghost predicate StreakFrom(b: Breaker, t: Streak)
  {
    && (t.executed == 0 ==> t.breaker == b)
    && (t.executed > 0 ==>
          && t.breaker.status == Disabled
          && t.breaker.consecutiveFailures == SeenFailures(b) + t.executed
          && t.breaker.nextCheckTime == Some(t.lastEnd + Delay(b.maxBackoff, SeenFailures(b) + t.executed))
          && t.lastStart <= t.lastEnd && (t.executed == 1 ==> t.firstEnd == t.lastEnd))
    && (t.executed > 1 ==> t.lastStart - t.firstEnd > SumOfDelays(b.maxBackoff, SeenFailures(b), t.executed - 1))
  }

  lemma OneMoreFailure(b: Breaker, t: Streak, r: Request)
    requires AtRest(b) && AtRest(t.breaker) && t.breaker.maxBackoff == b.maxBackoff && StreakFrom(b, t)
    requires !r.ok && r.start <= r.end
    ensures StreakFrom(b, OneMore(t, r))
  {
    hide Delay;
    if IsExecuted(t.breaker, r) && t.executed > 0 {
      var k := SeenFailures(b) + t.executed;
      assert r.start > t.lastEnd + Delay(b.maxBackoff, k);
      assert SumOfDelays(b.maxBackoff, SeenFailures(b), t.executed)
             == SumOfDelays(b.maxBackoff, SeenFailures(b), t.executed - 1) + Delay(b.maxBackoff, k);
    }
  }

  lemma {:induction false} FailuresFormStreak(b: Breaker, rs: seq<Request>)
    requires AtRest(b) && AllFail(rs)
    ensures StreakFrom(b, Observe(b, rs))
  {
    if rs != [] {
      var front := rs[..|rs| - 1];
      assert forall i :: 0 <= i < |front| ==> front[i] == rs[i];
      FailuresFormStreak(b, front);
      hide OneMore, StreakFrom, AtRest;
      OneMoreFailure(b, Observe(b, front), rs[|rs| - 1]);
    }
  }

  /**
   k requests in a row that were executed and failed, with no success and no reset between them, lie further apart
   than the delays after the first k - 1 of them add up to.
   */
  lemma FailuresAreSpreadOut(b: Breaker, rs: seq<Request>)
    requires AtRest(b) && AllFail(rs) && Observe(b, rs).executed >= 2
    ensures var t := Observe(b, rs);
            t.lastStart - t.firstEnd > SumOfDelays(b.maxBackoff, SeenFailures(b), t.executed - 1)
  {
    FailuresFormStreak(b, rs);
  }

  /** The smaller of the maximum and 2^(from + i) seconds, summed up for i = 1, ..., n. */
  function SumOfIntended(maxBackoff: int, from: nat, n: nat): int
  {
    if n == 0 then 0
    else SumOfIntended(maxBackoff, from, n - 1)
         + if Pow2(from + n) * SECOND <= maxBackoff then Pow2(from + n) * SECOND else maxBackoff
  }

  /** Up to the thirty-third failure the delays are the intended ones, which are no shorter for having begun later. */
  lemma {:induction false} DelaysAreAsIntended(maxBackoff: int, from: nat, n: nat)
    requires from + n <= 33
    ensures SumOfDelays(maxBackoff, from, n) == SumOfIntended(maxBackoff, from, n)
    ensures SumOfIntended(maxBackoff, from, n) >= SumOfIntended(maxBackoff, 0, n)
  {
    if n > 0 {
      DelaysAreAsIntended(maxBackoff, from, n - 1);
      DelayIsCapped(maxBackoff, from + n);
      Pow2Monotone(n, from + n);
    }
  }

  /**
   k failures in a row, k >= 2, span more than the k - 1 intended delays between them, as long as no more than 34
   failures have been counted since the last success or reset; in particular more than the first k - 1 intended
   delays, wherever in a streak they lie.
   */
  lemma FailuresSpanIntendedDelays(b: Breaker, rs: seq<Request>)
    requires AtRest(b) && AllFail(rs)
    requires 2 <= Observe(b, rs).executed && SeenFailures(b) + Observe(b, rs).executed <= 34
    ensures var t := Observe(b, rs);
            && t.lastStart - t.firstEnd > SumOfIntended(b.maxBackoff, SeenFailures(b), t.executed - 1)
            && t.lastStart - t.firstEnd > SumOfIntended(b.maxBackoff, 0, t.executed - 1)
  {
    FailuresAreSpreadOut(b, rs);
    hide *;
    DelaysAreAsIntended(b.maxBackoff, SeenFailures(b), Observe(b, rs).executed - 1);
  }
}
