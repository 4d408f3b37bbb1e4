/** The Linear timestamp window, with the 64-bit arithmetic of the source. */
module Timestamps {
  import opened Wrappers
  import opened Arithmetic
  import opened Decimal
  import opened Json

  const MILLISECOND_THRESHOLD := 10_000_000_000

  /** `webhookTimestamp` in seconds: a number or numeric text, in seconds or milliseconds. */
  function ExtractEpoch(payload: Value): (epoch: Option<int>)
    ensures epoch.Some? ==> I64_MIN <= epoch.value <= I64_MAX
  {
    match Get(payload, "webhookTimestamp")
    case None => None
    case Some(value) =>
      var raw :=
        match value
        case Number(Integer(n)) => if I64_MIN <= n <= I64_MAX then Some(n) else None
        case Str(text) => ParseI64(text)
        case _ => None;
      match raw
      case None => None
      case Some(n) => if n > MILLISECOND_THRESHOLD then Some(n / 1000) else Some(n)
  }

  /** `i64::abs` with wrap-around: the least number has no positive counterpart. */
  function AbsI64(x: int): int
    requires I64_MIN <= x <= I64_MAX
  {
    if x == I64_MIN then x else if x < 0 then -x else x
  }

  predicate VerifyWindow(payload: Value, now: int, window: int, enforce: bool) {
    !enforce ||
    var epoch := ExtractEpoch(payload);
    epoch.Some? && AbsI64(WrapI64(now - epoch.value)) <= window
  }

  /** The timestamp whose distance to `now` overflows to the least 64-bit number. */
  function OverflowingEpoch(now: int): int { now + I64_MIN }

  const HALF_RANGE: nat := I64_MAX + 1

  /** The distance passes the window, once 64-bit subtraction and `abs` have wrapped around. */
  predicate WrappedWithin(distance: nat, window: int) {
    || distance <= window
    || distance == HALF_RANGE
    || (distance > HALF_RANGE && 2 * HALF_RANGE - distance <= window)
  }

  /**
    For every 64-bit clock and window, the test is the plain distance test, except that a
    distance of exactly 2^63 always passes and a larger one counts backwards from 2^64.
   */
  lemma {:induction false} WindowExact(payload: Value, now: int, window: int)
    requires I64_MIN <= now <= I64_MAX && I64_MIN <= window <= I64_MAX
    ensures VerifyWindow(payload, now, window, true) <==>
            ExtractEpoch(payload).Some? && WrappedWithin(Distance(now, ExtractEpoch(payload).value), window)
  {
    var epoch := ExtractEpoch(payload);
    if epoch.Some? {
      WrapCases(now - epoch.value);
    }
  }

  lemma {:induction false} WrapCases(x: int)
    requires 2 * I64_MIN < x < 2 * HALF_RANGE
    ensures WrapI64(x) == if x > I64_MAX then x - 2 * HALF_RANGE else if x < I64_MIN then x + 2 * HALF_RANGE else x
  {
    if x > I64_MAX {
      assert (x - I64_MIN) % (U64_MAX + 1) == x - I64_MIN - (U64_MAX + 1);
    } else if x < I64_MIN {
      assert (x - I64_MIN) % (U64_MAX + 1) == x - I64_MIN + (U64_MAX + 1);
    }
  }

  /** The exceptions are real: at every clock from the epoch on, one timestamp passes every window. */
  lemma {:induction false} OverflowingEpochPasses(now: int, window: int)
    requires 0 <= now <= I64_MAX && I64_MIN <= window <= I64_MAX
    ensures var payload := Object([Member("webhookTimestamp", Number(Integer(OverflowingEpoch(now))))]);
            VerifyWindow(payload, now, window, true)
  {
    var payload := Object([Member("webhookTimestamp", Number(Integer(OverflowingEpoch(now))))]);
    assert ExtractEpoch(payload) == Some(OverflowingEpoch(now));
    WindowExact(payload, now, window);
  }

  /** The clock is past the epoch, and a window later it still fits 64 bits. */
  predicate InClockRange(now: int, window: int) { 0 <= now && now + window <= I64_MAX }

  /** Within the clock's range one timestamp passes the window only at clocks at most two windows apart. */
  lemma {:induction false} WindowBoundsReplay(payload: Value, again: Value, first: int, second: int, window: int)
    requires 0 < window <= I64_MAX && 0 <= first <= I64_MAX && InClockRange(second, window)
    requires ExtractEpoch(payload) == ExtractEpoch(again)
    requires VerifyWindow(payload, first, window, true) && VerifyWindow(again, second, window, true)
    ensures second - first <= 2 * window
  {
    WindowExact(payload, first, window);
    WindowExact(again, second, window);
  }

  /** Whatever timestamp passes both at `second` and at an earlier clock, those are at most two windows apart. */
  ghost predicate ReplaysWithinTwoWindows(second: int, window: int) {
    forall payload, first ::
      (0 <= first <= I64_MAX
       && VerifyWindow(payload, first, window, true) && VerifyWindow(payload, second, window, true)) ==>
      second - first <= 2 * window
  }

  /** For windows up to 2^61 seconds the replay bound holds at a clock if and only if the clock is in range. */
  lemma {:induction false} ReplayBoundExact(second: int, window: int)
    requires 0 < window <= 0x2000_0000_0000_0000 && 0 <= second <= I64_MAX
    ensures ReplaysWithinTwoWindows(second, window) <==> InClockRange(second, window)
  {
    if InClockRange(second, window) {
      forall payload, first | 0 <= first <= I64_MAX
        && VerifyWindow(payload, first, window, true) && VerifyWindow(payload, second, window, true)
        ensures second - first <= 2 * window
      {
        WindowBoundsReplay(payload, payload, first, second, window);
      }
    } else {
      var payload := Object([Member("webhookTimestamp", Number(Integer(OverflowingEpoch(second))))]);
      assert ExtractEpoch(payload) == Some(OverflowingEpoch(second));
      OverflowingEpochPasses(second, window);
      WindowExact(payload, 0, window);
      assert VerifyWindow(payload, 0, window, true) && VerifyWindow(payload, second, window, true);
    }
  }

  // ----- What counts as a timestamp -----

  /** The payload carries this value as its timestamp. */
  ghost predicate Carries(payload: Value, value: Value) { Get(payload, "webhookTimestamp") == Some(value) }

  /** Integers up to ten thousand million are seconds. */
  lemma {:induction false} SecondsExact(payload: Value, n: int, now: int, window: int)
    requires Carries(payload, Number(Integer(n))) && I64_MIN <= n <= 10_000_000_000
    requires I64_MIN <= now <= I64_MAX && I64_MIN <= window <= I64_MAX
    ensures VerifyWindow(payload, now, window, true) <==> WrappedWithin(Distance(now, n), window)
  {
    WindowExact(payload, now, window);
  }

  /** Larger ones are milliseconds, cut down to whole seconds. */
  lemma {:induction false} MillisecondsExact(payload: Value, seconds: int, rest: int, now: int, window: int)
    requires 0 <= rest < 1000 && 10_000_000_000 < 1000 * seconds + rest <= I64_MAX
    requires Carries(payload, Number(Integer(1000 * seconds + rest)))
    requires I64_MIN <= now <= I64_MAX && I64_MIN <= window <= I64_MAX
    ensures VerifyWindow(payload, now, window, true) <==> WrappedWithin(Distance(now, seconds), window)
  {
    assert (1000 * seconds + rest) / 1000 == seconds;
    WindowExact(payload, now, window);
  }

  /** A decimal numeral in a string counts as the number it denotes. */
  lemma {:induction false} TextExact(text: Value, number: Value, n: int, now: int, window: int)
    requires I64_MIN <= n <= I64_MAX
    requires Carries(text, Str(if n < 0 then "-" + Print(-n) else Print(n))) && Carries(number, Number(Integer(n)))
    ensures VerifyWindow(text, now, window, true) <==> VerifyWindow(number, now, window, true)
  {
    ParsePrinted(n);
    NumeralCounts(text, number, if n < 0 then "-" + Print(-n) else Print(n), n);
  }

  lemma {:induction false} NumeralCounts(text: Value, number: Value, numeral: string, n: int)
    requires I64_MIN <= n <= I64_MAX && ParseI64(numeral) == Some(n)
    requires Carries(text, Str(numeral)) && Carries(number, Number(Integer(n)))
    ensures ExtractEpoch(text) == ExtractEpoch(number)
  {}

  /** Strings that are no numerals, integers beyond 64 bits, other values and no value at all never pass. */
  lemma {:induction false} OthersFail(payload: Value, now: int, window: int)
    requires match Get(payload, "webhookTimestamp")
             case None => true
             case Some(Number(Integer(n))) => n < I64_MIN || n > I64_MAX
             case Some(Str(text)) =>
               text == ""
               || exists i :: 0 <= i < |text| && !IsDigit(text[i]) && !(i == 0 && text[0] in "+-" && |text| > 1)
             case Some(_) => true
    ensures !VerifyWindow(payload, now, window, true)
  {
    match Get(payload, "webhookTimestamp") {
      case Some(Str(text)) =>
        if text != "" {
          var i :| 0 <= i < |text| && !IsDigit(text[i]) && !(i == 0 && text[0] in "+-" && |text| > 1);
          var digits := if text[0] == '+' || text[0] == '-' then text[1..] else text;
          assert i > 0 && |digits| < |text| ==> digits[i - 1] == text[i];
        }
      case _ =>
    }
  }

  /** Without enforcement everything passes. */
  lemma {:induction false} UnenforcedPasses(payload: Value, now: int, window: int)
    ensures VerifyWindow(payload, now, window, false)
  {}
}
