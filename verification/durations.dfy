/**
 * `Duration` of utils/SupportData.kt: hours, minutes, seconds and milliseconds
 * held as Kotlin `Int`s (32-bit, wrapping) and never normalised.
 */
module Durations {

  /** The values of Kotlin's `Int`. */
  predicate IsInt(x: int) {
    -0x8000_0000 <= x < 0x8000_0000
  }

  /** Two integers that Kotlin's 32-bit arithmetic cannot tell apart. */
  predicate Congruent(a: int, b: int) {
    (a - b) % 0x1_0000_0000 == 0
  }

  /** The `Int` that Kotlin's wrapping arithmetic yields for the exact value x. */
  function Wrap(x: int): (r: int)
    ensures IsInt(r)
    ensures IsInt(x) ==> r == x
  {
    (x + 0x8000_0000) % 0x1_0000_0000 - 0x8000_0000
  }

  /** Kotlin's `/` on `Int`: rounds toward zero. */
  function Quot(a: int, b: int): int
    requires b > 0
  {
    if a >= 0 then a / b else -((-a) / b)
  }

  /** Kotlin's `%` on `Int`: the remainder takes the sign of the dividend. */
  function Rem(a: int, b: int): int
    requires b > 0
  {
    a - Quot(a, b) * b
  }

  datatype Duration = Duration(hours: int, minutes: int, seconds: int, ms: int)
  {
    predicate Valid() {
      IsInt(hours) && IsInt(minutes) && IsInt(seconds) && IsInt(ms)
    }

    /** The time the four fields stand for, with an hour of 3600000 ms. */
    function Total(): int {
      hours * 3600000 + minutes * 60000 + seconds * 1000 + ms
    }

    /** `toMs()`, as written: hours weigh 360000 ms, and the sum wraps. */
    function ToMs(): (r: int)
      ensures IsInt(r)
    {
      Wrap(ms + seconds * 1000 + minutes * 60000 + hours * 360000)
    }

    /** `decrement(x)`: subtracts the parts of `breakDownMs(x)` field by field. */
    function Decrement(x: int): (d: Duration)
      requires IsInt(x)
      ensures d.Valid()
    {
      var parts := BreakDownMs(x);
      Duration(Wrap(hours - parts[0]), Wrap(minutes - parts[1]),
               Wrap(seconds - parts[2]), Wrap(ms - parts[3]))
    }

    /** `decrement(x)` leaves every field inside the `Int` range, so nothing wraps. */
    predicate DecrementFits(x: int) {
      var parts := BreakDownMs(x);
      IsInt(hours - parts[0]) && IsInt(minutes - parts[1]) && IsInt(seconds - parts[2]) && IsInt(ms - parts[3])
    }

    /** `increment(x)` is `decrement(-x)`; `-x` wraps for the least Int. */
    function Increment(x: int): (d: Duration)
      requires IsInt(x)
      ensures d.Valid()
    {
      Decrement(Wrap(-x))
    }
  }

  /**
   * `Duration.breakDownMs(ms)`: [hours, minutes, seconds, millis]. The source
   * goes through `Double`, but only ever holds whole numbers, so truncating
   * integer division computes the same parts.
   */
  function BreakDownMs(ms: int): (parts: seq<int>)
    ensures |parts| == 4
  {
    var millis := Rem(ms, 1000);
    var sec0 := Quot(ms - Rem(ms, 1000), 1000);
    var min0 := Quot(sec0 - Rem(sec0, 60), 60);
    var sec := sec0 - min0 * 60;
    var hrs := Quot(min0 - Rem(min0, 60), 60);
    var min := min0 - hrs * 60;
    [hrs, min, sec, millis]
  }

  /**
   * Truncating division by the two divisors `breakDownMs` uses: quotient and
   * remainder rebuild the dividend and share its sign.
   */
  lemma QuotRem(a: int, b: int)
    requires b == 1000 || b == 60
    ensures a == Quot(a, b) * b + Rem(a, b)
    ensures a >= 0 ==> Quot(a, b) >= 0 && 0 <= Rem(a, b) < b
    ensures a <= 0 ==> Quot(a, b) <= 0 && -b < Rem(a, b) <= 0
    ensures Quot(a - Rem(a, b), b) == Quot(a, b)
  {
    if b == 1000 {
      QuotRemBy1000(a);
    } else {
      QuotRemBy60(a);
    }
  }

  lemma QuotRemBy1000(a: int)
    ensures a >= 0 ==> Quot(a, 1000) >= 0 && 0 <= Rem(a, 1000) < 1000
    ensures a <= 0 ==> Quot(a, 1000) <= 0 && -1000 < Rem(a, 1000) <= 0
    ensures Quot(a - Rem(a, 1000), 1000) == Quot(a, 1000)
  {
  }

  lemma QuotRemBy60(a: int)
    ensures a >= 0 ==> Quot(a, 60) >= 0 && 0 <= Rem(a, 60) < 60
    ensures a <= 0 ==> Quot(a, 60) <= 0 && -60 < Rem(a, 60) <= 0
    ensures Quot(a - Rem(a, 60), 60) == Quot(a, 60)
  {
  }

  /**
   * `breakDownMs` splits ms exactly: the parts, weighted by an hour of
   * 3600000 ms, add up to ms; every part has the sign of ms, and minutes,
   * seconds and millis stay below 60, 60 and 1000 in magnitude.
   */
  lemma BreakDownMsSpec(ms: int)
    ensures var p := BreakDownMs(ms);
      && p[0] * 3600000 + p[1] * 60000 + p[2] * 1000 + p[3] == ms
      && (ms >= 0 ==> 0 <= p[0] && 0 <= p[1] < 60 && 0 <= p[2] < 60 && 0 <= p[3] < 1000)
      && (ms <= 0 ==> p[0] <= 0 && -60 < p[1] <= 0 && -60 < p[2] <= 0 && -1000 < p[3] <= 0)
  {
    var sec0 := Quot(ms, 1000);
    var min0 := Quot(sec0, 60);
    BreakDownMsParts(ms);
    QuotRemBy1000(ms);
    QuotRemBy60(sec0);
    QuotRemBy60(min0);
    Recompose(ms, sec0, Rem(ms, 1000), min0, Rem(sec0, 60), Quot(min0, 60), Rem(min0, 60));
  }

  /** The parts are three truncating divisions in a row, with their remainders. */
  lemma BreakDownMsParts(ms: int)
    ensures var sec0 := Quot(ms, 1000); var min0 := Quot(sec0, 60);
      BreakDownMs(ms) == [Quot(min0, 60), Rem(min0, 60), Rem(sec0, 60), Rem(ms, 1000)]
  {
    var sec0 := Quot(ms, 1000);
    var min0 := Quot(sec0, 60);
    QuotRemBy1000(ms);
    QuotRemBy60(sec0);
    QuotRemBy60(min0);
  }

  /** Three truncating divisions in a row, by 1000, 60 and 60, rebuilt. */
  lemma Recompose(ms: int, sec0: int, millis: int, min0: int, sec: int, hrs: int, min: int)
    requires ms == sec0 * 1000 + millis && sec0 == min0 * 60 + sec && min0 == hrs * 60 + min
    requires ms >= 0 ==> sec0 >= 0 && 0 <= millis < 1000
    requires ms <= 0 ==> sec0 <= 0 && -1000 < millis <= 0
    requires sec0 >= 0 ==> min0 >= 0 && 0 <= sec < 60
    requires sec0 <= 0 ==> min0 <= 0 && -60 < sec <= 0
    requires min0 >= 0 ==> hrs >= 0 && 0 <= min < 60
    requires min0 <= 0 ==> hrs <= 0 && -60 < min <= 0
    ensures hrs * 3600000 + min * 60000 + sec * 1000 + millis == ms
    ensures ms >= 0 ==> 0 <= hrs && 0 <= min < 60 && 0 <= sec < 60 && 0 <= millis < 1000
    ensures ms <= 0 ==> hrs <= 0 && -60 < min <= 0 && -60 < sec <= 0 && -1000 < millis <= 0
  {
  }

  /** The parts of a non-negative count, by Euclidean division. */
  lemma BreakDownNonNegative(n: int)
    requires n >= 0
    ensures BreakDownMs(n) == [n / 1000 / 60 / 60, n / 1000 / 60 % 60, n / 1000 % 60, n % 1000]
  {
    QuotRem(n, 1000);
    QuotRem(n / 1000, 60);
    QuotRem(n / 1000 / 60, 60);
  }

  lemma CongruentShift(a: int, b: int, c: int)
    requires Congruent(a, b) && Congruent(b, c)
    ensures Congruent(a, c)
  {
    var m := (a - b) / 0x1_0000_0000;
    var n := (b - c) / 0x1_0000_0000;
    assert a - c == (m + n) * 0x1_0000_0000;
  }

  lemma CongruentScale(a: int, b: int, w: int)
    requires Congruent(a, b)
    ensures Congruent(w * a, w * b)
  {
    var m := (a - b) / 0x1_0000_0000;
    assert a - b == m * 0x1_0000_0000;
    assert w * a - w * b == (w * m) * 0x1_0000_0000;
  }

  lemma CongruentAdd(a: int, b: int, c: int, e: int)
    requires Congruent(a, b) && Congruent(c, e)
    ensures Congruent(a + c, b + e)
  {
    var m := (a - b) / 0x1_0000_0000;
    var n := (c - e) / 0x1_0000_0000;
    assert (a + c) - (b + e) == (m + n) * 0x1_0000_0000;
  }

  lemma WrapCongruent(x: int)
    ensures Congruent(Wrap(x), x)
  {
    var q := (x + 0x8000_0000) / 0x1_0000_0000;
    assert Wrap(x) - x == -q * 0x1_0000_0000;
  }

  /**
   * `decrement(x)` lowers the weighted total by x, up to 32-bit wrap-around of
   * each field.
   */
  lemma DecrementTotal(d: Duration, x: int)
    requires IsInt(x)
    ensures Congruent(d.Decrement(x).Total(), d.Total() - x)
  {
    var p := BreakDownMs(x);
    BreakDownMsSpec(x);
    var r := d.Decrement(x);
    WrapCongruent(d.hours - p[0]);
    WrapCongruent(d.minutes - p[1]);
    WrapCongruent(d.seconds - p[2]);
    WrapCongruent(d.ms - p[3]);
    CongruentScale(r.hours, d.hours - p[0], 3600000);
    CongruentScale(r.minutes, d.minutes - p[1], 60000);
    CongruentScale(r.seconds, d.seconds - p[2], 1000);
    CongruentAdd(3600000 * r.hours, 3600000 * (d.hours - p[0]),
                 60000 * r.minutes, 60000 * (d.minutes - p[1]));
    CongruentAdd(3600000 * r.hours + 60000 * r.minutes,
                 3600000 * (d.hours - p[0]) + 60000 * (d.minutes - p[1]),
                 1000 * r.seconds, 1000 * (d.seconds - p[2]));
    CongruentAdd(3600000 * r.hours + 60000 * r.minutes + 1000 * r.seconds,
                 3600000 * (d.hours - p[0]) + 60000 * (d.minutes - p[1]) + 1000 * (d.seconds - p[2]),
                 r.ms, d.ms - p[3]);
  }

  /** `increment(x)` raises the weighted total by x, up to 32-bit wrap-around. */
  lemma IncrementTotal(d: Duration, x: int)
    requires IsInt(x)
    ensures Congruent(d.Increment(x).Total(), d.Total() + x)
  {
    var w := Wrap(-x);
    var t := d.Total();
    DecrementTotal(d, w);
    WrapCongruent(-x);
    CongruentSubtract(t, w, x);
    CongruentShift(d.Decrement(w).Total(), t - w, t + x);
  }

  /** Subtracting a value congruent to -x adds x, up to wrap-around. */
  lemma CongruentSubtract(t: int, w: int, x: int)
    requires Congruent(w, -x)
    ensures Congruent(t - w, t + x)
  {
    var m := (w + x) / 0x1_0000_0000;
    assert (t - w) - (t + x) == -m * 0x1_0000_0000;
  }

  /** `increment(x)` is `decrement(-x)` for every x but the least Int, whose negation wraps to itself. */
  lemma IncrementIsDecrementOfNegation(d: Duration, x: int)
    requires IsInt(x) && x != -0x8000_0000
    ensures d.Increment(x) == d.Decrement(-x)
  {
  }

  /** Without wrap-around, `increment(x)` raises the weighted total by exactly x. */
  lemma IncrementExact(d: Duration, x: int)
    requires IsInt(x) && x != -0x8000_0000
    requires d.DecrementFits(-x)
    ensures d.Increment(x).Total() == d.Total() + x
  {
    IncrementIsDecrementOfNegation(d, x);
    DecrementExact(d, -x);
  }

  /** Without wrap-around, `decrement(x)` lowers the weighted total by exactly x. */
  lemma DecrementExact(d: Duration, x: int)
    requires IsInt(x) && d.DecrementFits(x)
    ensures d.Decrement(x).Total() == d.Total() - x
  {
    var p := BreakDownMs(x);
    DecrementUnwrapped(d, x);
    BreakDownMsSpec(x);
    ShiftTotal(d, p[0], p[1], p[2], p[3]);
  }

  /** When no field wraps, `decrement(x)` subtracts the parts field by field. */
  lemma DecrementUnwrapped(d: Duration, x: int)
    requires IsInt(x)
    requires d.DecrementFits(x)
    ensures var p := BreakDownMs(x);
      d.Decrement(x) == Duration(d.hours - p[0], d.minutes - p[1], d.seconds - p[2], d.ms - p[3])
  {
  }

  /** Subtracting parts field by field lowers the weighted total by their weighted sum. */
  lemma ShiftTotal(d: Duration, h: int, m: int, s: int, ms: int)
    ensures Duration(d.hours - h, d.minutes - m, d.seconds - s, d.ms - ms).Total()
         == d.Total() - (h * 3600000 + m * 60000 + s * 1000 + ms)
  {
  }

  /**
   * `toMs` is not the inverse of `breakDownMs`: it counts an hour as 360000 ms,
   * a tenth of the 3600000 that `breakDownMs` divides by.
   */
  lemma ToMsUndercountsHours()
    ensures BreakDownMs(3600000) == [1, 0, 0, 0]
    ensures Duration(1, 0, 0, 0).ToMs() == 360000
    ensures BreakDownMs(360000) == [0, 6, 0, 0]
  {
    BreakDownNonNegative(3600000);
    assert 3600000 / 1000 / 60 / 60 == 1 && 3600000 / 1000 / 60 % 60 == 0;
    assert 3600000 / 1000 % 60 == 0 && 3600000 % 1000 == 0;
    BreakDownNonNegative(360000);
    assert 360000 / 1000 / 60 / 60 == 0 && 360000 / 1000 / 60 % 60 == 6;
    assert 360000 / 1000 % 60 == 0 && 360000 % 1000 == 0;
    assert Duration(1, 0, 0, 0).ToMs() == Wrap(360000);
  }

  /** Below one hour, `toMs` does invert `breakDownMs`. */
  lemma ToMsInvertsBelowAnHour(x: int)
    requires 0 <= x < 3600000
    ensures var p := BreakDownMs(x); Duration(p[0], p[1], p[2], p[3]).ToMs() == x
  {
    BreakDownMsSpec(x);
    BreakDownNonNegative(x);
  }
}
