/**
 * Countdown arithmetic shared by `formatCountdown` (js/scripts.js) and
 * `formatTime` (scripts.js): a number of milliseconds split into days, hours,
 * minutes and seconds with JavaScript's `Math.floor` and `%`.
 */
module Countdown {

  const MS_PER_SECOND: int := 1000
  const MS_PER_MINUTE: int := 1000 * 60
  const MS_PER_HOUR: int := 1000 * 60 * 60
  const MS_PER_DAY: int := 1000 * 60 * 60 * 24

  /** The literal the clamped countdown shows for a non-positive remaining time. */
  const ZERO_COUNTDOWN: string := "0d 0h 0m 0s"

  /** `Math.floor(a / b)` for a positive divisor: Dafny's `/` already rounds down when b > 0. */
  function FloorDiv(a: int, b: int): (q: int)
    requires b > 0
    ensures q * b <= a < q * b + b
  {
    a / b
  }

  /** JavaScript's `a % b`: the remainder takes the sign of the dividend (truncating division). */
  function JsRem(a: int, b: int): (r: int)
    requires b > 0
    ensures a >= 0 ==> 0 <= r < b
    ensures a < 0 ==> -b < r <= 0
    ensures exists q :: a == q * b + r
  {
    var r := if a >= 0 then a % b else -((-a) % b);
    if a >= 0 then
      assert a == (a / b) * b + r;
      r
    else
      var q := (-a) / b;
      assert -a == q * b + (-a) % b;
      assert a == (-q) * b + r;
      r
  }

  datatype Dhms = Dhms(days: int, hours: int, minutes: int, seconds: int)

  /** The number of whole-second milliseconds that a decomposition stands for. */
  function Recompose(t: Dhms): int {
    t.days * MS_PER_DAY + t.hours * MS_PER_HOUR + t.minutes * MS_PER_MINUTE + t.seconds * MS_PER_SECOND
  }

  /** A decomposition in canonical range: non-negative days, hours < 24, minutes < 60, seconds < 60. */
  predicate InRange(t: Dhms) {
    0 <= t.days && 0 <= t.hours < 24 && 0 <= t.minutes < 60 && 0 <= t.seconds < 60
  }

  /** The four fields exactly as js/scripts.js:45-48 and scripts.js:22-25 compute them. */
  function Decompose(ms: int): (t: Dhms)
    ensures ms >= 0 ==> InRange(t) && Recompose(t) <= ms < Recompose(t) + MS_PER_SECOND
  {
    var t := Dhms(FloorDiv(ms, MS_PER_DAY),
                  FloorDiv(JsRem(ms, MS_PER_DAY), MS_PER_HOUR),
                  FloorDiv(JsRem(ms, MS_PER_HOUR), MS_PER_MINUTE),
                  FloorDiv(JsRem(ms, MS_PER_MINUTE), MS_PER_SECOND));
    if ms >= 0 then DecomposeSound(ms); t else t
  }

  lemma DecomposeSound(ms: int)
    requires ms >= 0
    ensures var t := Dhms(ms / MS_PER_DAY, (ms % MS_PER_DAY) / MS_PER_HOUR,
                          (ms % MS_PER_HOUR) / MS_PER_MINUTE, (ms % MS_PER_MINUTE) / MS_PER_SECOND);
            InRange(t) && Recompose(t) <= ms < Recompose(t) + MS_PER_SECOND
  {
    var r1 := ms % MS_PER_DAY;
    var r2 := ms % MS_PER_HOUR;
    var r3 := ms % MS_PER_MINUTE;
    ModOfMod(ms, MS_PER_HOUR, 24);
    ModOfMod(ms, MS_PER_MINUTE, 60);
    ModOfMod(ms, MS_PER_SECOND, 60);
    assert r2 == r1 % MS_PER_HOUR;
    assert r3 == r2 % MS_PER_MINUTE;
    assert ms == (ms / MS_PER_DAY) * MS_PER_DAY + r1;
    assert r1 == (r1 / MS_PER_HOUR) * MS_PER_HOUR + r2;
    assert r2 == (r2 / MS_PER_MINUTE) * MS_PER_MINUTE + r3;
    assert r3 == (r3 / MS_PER_SECOND) * MS_PER_SECOND + r3 % MS_PER_SECOND;
  }

  /** Reducing modulo b * c and then modulo b is reducing modulo b. */
  lemma ModOfMod(a: int, b: int, c: int)
    requires a >= 0 && b > 0 && c > 0
    ensures (a % (b * c)) % b == a % b
  {
    var q1, r1 := a / (b * c), a % (b * c);
    var q2, r2 := r1 / b, r1 % b;
    assert a == (b * c) * q1 + r1;
    assert r1 == b * q2 + r2;
    assert a == b * (c * q1 + q2) + r2;
    DivModUnique(a, b, c * q1 + q2, r2);
  }

  lemma DivModUnique(a: int, b: int, q: int, r: int)
    requires b > 0 && 0 <= r < b && a == b * q + r
    ensures a / b == q && a % b == r
  {
    var q', r' := a / b, a % b;
    assert a == b * q' + r';
    MulBounds(b, q - q');
    assert b * (q - q') == b * q - b * q';
  }

  /** A non-zero multiple of a positive b is at least b away from zero. */
  lemma {:induction false} MulBounds(b: int, d: int)
    requires b > 0
    ensures d >= 1 ==> b * d >= b
    ensures d <= -1 ==> b * d <= -b
    decreases if d < 0 then -d else d
  {
    if d > 1 {
      MulBounds(b, d - 1);
      assert b * d == b * (d - 1) + b;
    } else if d < -1 {
      MulBounds(b, d + 1);
      assert b * d == b * (d + 1) - b;
    }
  }

  /** The canonical decomposition is the only one in range that stands for ms to the second. */
  lemma {:induction false} DecomposeUnique(ms: int, t: Dhms)
    requires ms >= 0 && InRange(t) && Recompose(t) <= ms < Recompose(t) + MS_PER_SECOND
    ensures Decompose(ms) == t
  {
    var rest := ms - Recompose(t);
    var r3 := t.seconds * MS_PER_SECOND + rest;
    var r2 := t.minutes * MS_PER_MINUTE + r3;
    var r1 := t.hours * MS_PER_HOUR + r2;
    assert ms == t.days * MS_PER_DAY + r1;
    DivModUnique(ms, MS_PER_DAY, t.days, r1);
    DivModUnique(r1, MS_PER_HOUR, t.hours, r2);
    DivModUnique(r2, MS_PER_MINUTE, t.minutes, r3);
    DivModUnique(r3, MS_PER_SECOND, t.seconds, rest);
    ModOfMod(ms, MS_PER_HOUR, 24);
    ModOfMod(ms, MS_PER_MINUTE, 60);
  }

  /** The character of one decimal digit. */
  function Digit(d: nat): (c: char)
    requires d < 10
    ensures '0' <= c <= '9' && c as int - '0' as int == d
  {
    ('0' as int + d) as char
  }

  /** Decimal digits of a natural number, most significant first. */
  function NatToString(n: nat): (s: string)
    ensures |s| >= 1 && forall i :: 0 <= i < |s| ==> '0' <= s[i] <= '9'
  {
    if n < 10 then [Digit(n)] else NatToString(n / 10) + [Digit(n % 10)]
  }

  /** The number a string of decimal digits spells, most significant first. */
  function DigitsValue(s: string): int {
    if s == [] then 0 else DigitsValue(s[..|s| - 1]) * 10 + (s[|s| - 1] as int - '0' as int)
  }

  /** The digits spell `n`, with no leading zero except for 0 itself. */
  lemma {:induction false} NatToStringValue(n: nat)
    ensures DigitsValue(NatToString(n)) == n
    ensures NatToString(n)[0] != '0' || NatToString(n) == "0"
  {
    var s := NatToString(n);
    if n >= 10 {
      NatToStringValue(n / 10);
      assert s[..|s| - 1] == NatToString(n / 10);
    }
  }

  /** JavaScript's rendering of an integer in a template literal (`${n}`). */
  function IntToString(i: int): (s: string)
    ensures |s| >= (if i < 0 then 2 else 1)
    ensures i < 0 ==> s[0] == '-' && DigitsValue(s[1..]) == -i && s[1] != '0'
    ensures i >= 0 ==> DigitsValue(s) == i && (s[0] != '0' || s == "0")
    ensures forall k :: (if i < 0 then 1 else 0) <= k < |s| ==> '0' <= s[k] <= '9'
  {
    if i < 0 then
      NatToStringValue(-i);
      assert ("-" + NatToString(-i))[1..] == NatToString(-i);
      "-" + NatToString(-i)
    else
      NatToStringValue(i);
      NatToString(i)
  }

  /** The `${days}d ${hours}h ${minutes}m ${seconds}s` template. */
  function Text(t: Dhms): string {
    IntToString(t.days) + "d " + IntToString(t.hours) + "h " +
    IntToString(t.minutes) + "m " + IntToString(t.seconds) + "s"
  }

  /** `formatCountdown` (js/scripts.js:43-50): clamped at zero, otherwise the decomposition. */
  function FormatCountdown(ms: int): (s: string)
    ensures ms <= 0 ==> s == ZERO_COUNTDOWN
    ensures ms > 0 ==> exists t :: InRange(t) && Recompose(t) <= ms < Recompose(t) + MS_PER_SECOND && s == Text(t)
  {
    if ms <= 0 then ZERO_COUNTDOWN else Text(Decompose(ms))
  }

  /** 90061000 ms is one day, one hour, one minute and one second. */
  lemma FormatCountdownExample()
    ensures FormatCountdown(90061000) == "1d 1h 1m 1s"
  {
    DecomposeUnique(90061000, Dhms(1, 1, 1, 1));
    TextOfOnes();
  }

  lemma TextOfOnes()
    ensures Text(Dhms(1, 1, 1, 1)) == "1d 1h 1m 1s"
  {
    assert IntToString(1) == "1";
  }

  lemma TextOfHour()
    ensures Text(Dhms(0, 1, 0, 0)) == "0d 1h 0m 0s"
  {
    assert IntToString(0) == "0" && IntToString(1) == "1";
  }
}
