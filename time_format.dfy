/** `formatTime`: seconds shown as minutes, a colon and two-digit seconds. */
module TimeFormat {
  import opened Maybe
  import opened Text

  /** `Math.trunc`. */
  function Trunc(x: real): int
  {
    if x >= 0.0 then x.Floor else -((-x).Floor)
  }

  /** JavaScript's `a % b` on numbers: the remainder takes the sign of the dividend. */
  function JsRemainder(a: real, b: real): real
    requires b != 0.0
  {
    a - b * Trunc(a / b) as real
  }

  /**
   * The whole minutes `Math.floor(t / 60)` and the seconds `Math.floor(t % 60)`
   * of a non-negative time: the seconds lie in 0..59 and together they make up
   * the whole seconds of `t`.
   */
  lemma ClockFields(t: real)
    requires t >= 0.0
    ensures (t / 60.0).Floor >= 0
    ensures 0 <= JsRemainder(t, 60.0).Floor < 60
    ensures 60 * (t / 60.0).Floor + JsRemainder(t, 60.0).Floor == t.Floor
  {
    var m := (t / 60.0).Floor;
    assert m as real <= t / 60.0 < m as real + 1.0;
    assert 60.0 * m as real <= t < 60.0 * m as real + 60.0;
    var rem := JsRemainder(t, 60.0);
    assert rem == t - 60.0 * m as real;
    var f := rem.Floor;
    assert f as real <= rem < f as real + 1.0;
    assert (f + 60 * m) as real <= t < (f + 60 * m) as real + 1.0;
  }

  /**
   * The body both components' `formatTime` share, for a finite time `t >= 0`:
   * the display of the whole seconds of `t`, which `ClockCanonical` shows to
   * be the only one.
   */
  function Clock(t: real): (caption: string)
    requires t >= 0.0
    ensures ShowsSeconds(caption, t.Floor)
  {
    ClockFields(t);
    var m: nat, sec: nat := (t / 60.0).Floor, JsRemainder(t, 60.0).Floor;
    ReadBack(m, sec);
    ClockText(m, sec)
  }

  /** The template `${minutes}:${seconds.toString().padStart(2, "0")}`. */
  function ClockText(minutes: nat, seconds: nat): string
  {
    NatToString(minutes) + ":" + PadStart(NatToString(seconds), 2, '0')
  }

  /** Seconds below 60, padded to two places: two digits reading back as the seconds, the first 0..5. */
  lemma PaddedSeconds(sec: nat)
    requires sec < 60
    ensures var p := PadStart(NatToString(sec), 2, '0');
      |p| == 2 && AllDigits(p) && DigitsValue(p) == sec && '0' <= p[0] <= '5'
  {
    var tens, units := sec / 10, sec % 10;
    assert sec == 10 * tens + units && tens <= 5;
    TwoPlaces(sec);
    TwoDigitValue(tens, units);
  }

  lemma TwoDigitValue(a: nat, b: nat)
    requires a < 10 && b < 10
    ensures AllDigits([DigitChar(a), DigitChar(b)])
    ensures DigitsValue([DigitChar(a), DigitChar(b)]) == 10 * a + b
  {
    var two := [DigitChar(a), DigitChar(b)];
    var one := [DigitChar(a)];
    assert two[..1] == one && one[..0] == [];
    assert DigitsValue(one) == 10 * DigitsValue([]) + DigitValue(DigitChar(a)) == a;
    assert DigitsValue(two) == 10 * DigitsValue(one) + DigitValue(DigitChar(b));
  }

  lemma ClockTextSlices(digits: string, two: string)
    requires |two| == 2
    ensures var r := digits + ":" + two;
      |r| == |digits| + 3 && r[..|r| - 3] == digits && r[|r| - 3] == ':' && r[|r| - 2..] == two
      && r[|r| - 2] == two[0]
  {
  }

  /** The shape of a clock display: minute digits, a colon, two second digits of which the first is 0..5. */
  predicate ClockShaped(r: string)
  {
    && |r| >= 4 && r[|r| - 3] == ':'
    && AllDigits(r[..|r| - 3]) && AllDigits(r[|r| - 2..]) && '0' <= r[|r| - 2] <= '5'
  }

  /**
   * `r` is how `formatTime` writes `seconds`: clock-shaped, standing for
   * that many seconds, and with no leading zero on the minutes.
   */
  predicate ShowsSeconds(r: string, seconds: int)
  {
    ClockShaped(r) && ClockValue(r) == seconds && (|r| == 4 || r[0] != '0')
  }

  /** The number of seconds a clock display stands for. */
  function ClockValue(r: string): nat
    requires ClockShaped(r)
  {
    60 * DigitsValue(r[..|r| - 3]) + DigitsValue(r[|r| - 2..])
  }

  /** Minute digits, a colon and two second digits make a clock display worth minutes * 60 + seconds. */
  lemma ClockOfParts(d: string, p: string)
    requires |d| >= 1 && AllDigits(d) && |p| == 2 && AllDigits(p) && '0' <= p[0] <= '5'
    ensures ClockShaped(d + ":" + p)
    ensures ClockValue(d + ":" + p) == 60 * DigitsValue(d) + DigitsValue(p)
  {
    ClockTextSlices(d, p);
  }

  /** Minutes, a colon and seconds below 60 padded to two places, read back. */
  lemma ReadBack(m: nat, sec: nat)
    requires sec < 60
    ensures ShowsSeconds(ClockText(m, sec), 60 * m + sec)
  {
    PaddedSeconds(sec);
    NatToStringRoundTrip(m);
    ClockOfParts(NatToString(m), PadStart(NatToString(sec), 2, '0'));
  }

  /** Under ten minutes the display has four characters: the minute, a colon and two second digits. */
  lemma ShortClockText(m: nat, tens: nat, units: nat)
    requires m < 10 && tens < 6 && units < 10
    ensures ClockText(m, 10 * tens + units) == [DigitChar(m)] + ":" + [DigitChar(tens), DigitChar(units)]
  {
    var sec := 10 * tens + units;
    assert sec / 10 == tens && sec % 10 == units;
    TwoPlaces(sec);
    assert NatToString(m) == [DigitChar(m)];
  }

  /**
   * There is one display per number of seconds: any text that shows `n`
   * seconds is the minutes `n / 60`, a colon and the seconds `n % 60`
   * padded to two places.
   */
  lemma ClockCanonical(r: string, n: nat)
    requires ShowsSeconds(r, n)
    ensures r == ClockText(n / 60, n % 60)
  {
    var minutes, secs := r[..|r| - 3], r[|r| - 2..];
    var m, sec := DigitsValue(minutes), DigitsValue(secs);
    assert r == ClockText(m, sec) && sec < 60 by {
      CutAtColon(r);
      PartsCanonical(minutes, secs);
    }
    assert n / 60 == m && n % 60 == sec by {
      DivMod60(m, sec);
    }
  }

  lemma CutAtColon(r: string)
    requires |r| >= 4 && r[|r| - 3] == ':'
    ensures r == r[..|r| - 3] + ":" + r[|r| - 2..]
  {
  }

  /** Unpadded minute digits and two second digits (the first 0..5) are the rendering of what they read as. */
  lemma PartsCanonical(minutes: string, secs: string)
    requires 1 <= |minutes| && AllDigits(minutes) && (|minutes| == 1 || minutes[0] != '0')
    requires |secs| == 2 && AllDigits(secs) && secs[0] <= '5'
    ensures DigitsValue(secs) < 60
    ensures minutes + ":" + secs == ClockText(DigitsValue(minutes), DigitsValue(secs))
  {
    CanonicalDigits(minutes);
    PaddedDigits(secs);
  }

  lemma DivMod60(q: nat, r: nat)
    requires r < 60
    ensures (60 * q + r) / 60 == q && (60 * q + r) % 60 == r
  {
  }

  /** Two digits are the padded rendering of the number they read as. */
  lemma PaddedDigits(p: string)
    requires |p| == 2 && AllDigits(p)
    ensures p[0] <= '5' ==> DigitsValue(p) < 60
    ensures p == PadStart(NatToString(DigitsValue(p)), 2, '0')
  {
    var a, b := DigitValue(p[0]), DigitValue(p[1]);
    TwoDigitValue(a, b);
    assert p == [DigitChar(a), DigitChar(b)];
    var v := 10 * a + b;
    assert v / 10 == a && v % 10 == b;
    TwoPlaces(v);
  }

  /** `Clock` of a time under ten minutes whose whole minutes and seconds are known. */
  lemma ShortClock(t: real, m: nat, tens: nat, units: nat, shown: string)
    requires t >= 0.0 && m < 10 && tens < 6 && units < 10
    requires (t / 60.0).Floor == m && JsRemainder(t, 60.0).Floor == 10 * tens + units
    requires shown == [DigitChar(m)] + ":" + [DigitChar(tens), DigitChar(units)]
    ensures Clock(t) == shown
  {
    ShortClockText(m, tens, units);
  }

  /** Example values: 0 s, 5 s and 100 s. */
  lemma ClockExamples()
    ensures Clock(0.0) == "0:00"
    ensures Clock(5.0) == "0:05"
    ensures Clock(100.0) == "1:40"
  {
    ClockAtZero();
    ClockAtFive();
    ClockAtHundred();
  }

  lemma ClockAtZero()
    ensures Clock(0.0) == "0:00"
  {
    ShortClock(0.0, 0, 0, 0, "0:00");
  }

  lemma ClockAtFive()
    ensures Clock(5.0) == "0:05"
  {
    ClockFields(5.0);
    assert JsRemainder(5.0, 60.0).Floor == 5;
    ShortClock(5.0, 0, 0, 5, "0:05");
  }

  lemma ClockAtHundred()
    ensures Clock(100.0) == "1:40"
  {
    ClockFields(100.0);
    assert (100.0 / 60.0).Floor == 1;
    assert JsRemainder(100.0, 60.0).Floor == 40;
    ShortClock(100.0, 1, 4, 0, "1:40");
  }

  /** WelcomeIntro's `formatTime`: a non-finite time (None) shows "0:00", any other the `Clock` form. */
  function FormatTimeGuarded(t: Option<real>): (r: string)
    requires t.Some? ==> t.value >= 0.0
    ensures t.None? ==> r == "0:00"
    ensures t.Some? ==> ShowsSeconds(r, t.value.Floor)
  {
    match t
    case None => "0:00"
    case Some(x) => Clock(x)
  }
}
