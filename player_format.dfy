/** The player's two pure display helpers: `formatTime` (src/components/ui/player.tsx:44-51)
    and the choice of volume icon (src/components/ui/player.tsx:276-282). */
module PlayerFormat {

  /** A JavaScript number as `formatTime` sees it: not-a-number, or a real value. */
  datatype TimeInput = NaN | Num(t: real)

  predicate IsDigit(c: char) { '0' <= c <= '9' }

  predicate AllDigits(s: string) { forall i | 0 <= i < |s| :: IsDigit(s[i]) }

  /** The number a string of decimal digits denotes. */
  function DecimalValue(s: string): nat
    requires AllDigits(s)
  {
    if s == [] then 0
    else DecimalValue(s[..|s| - 1]) * 10 + (s[|s| - 1] as int - '0' as int)
  }

  /** `n.toString()` for a non-negative integer: its decimal digits without leading zeros. */
  function Decimal(n: nat): (r: string)
    ensures 1 <= |r| && AllDigits(r)
    ensures DecimalValue(r) == n
    ensures r[0] == '0' ==> r == "0"
  {
    if n < 10 then [('0' as int + n) as char]
    else
      var front := Decimal(n / 10);
      var r := front + [('0' as int + n % 10) as char];
      assert r[..|r| - 1] == front;
      r
  }

  /** `s.padStart(2, '0')`. */
  function PadStart2(s: string): (r: string)
    ensures |s| >= 2 ==> r == s
    ensures |s| < 2 ==> |r| == 2 && r[2 - |s|..] == s && forall i | 0 <= i < 2 - |s| :: r[i] == '0'
  {
    if |s| >= 2 then s else seq(2 - |s|, _ => '0') + s
  }

  /** Leading zeros do not change the value of a digit string. */
  lemma {:induction false} LeadingZeros(z: string, s: string)
    requires AllDigits(s) && forall i | 0 <= i < |z| :: z[i] == '0'
    ensures AllDigits(z + s) && DecimalValue(z + s) == DecimalValue(s)
    decreases |s|
  {
    if s == [] {
      assert z + s == z;
      ZerosValue(z);
    } else {
      assert (z + s)[..|z + s| - 1] == z + s[..|s| - 1];
      LeadingZeros(z, s[..|s| - 1]);
    }
  }

  /** A string of zeros denotes 0. */
  lemma {:induction false} ZerosValue(z: string)
    requires forall i | 0 <= i < |z| :: z[i] == '0'
    ensures AllDigits(z) && DecimalValue(z) == 0
    decreases |z|
  {
    if z != [] {
      ZerosValue(z[..|z| - 1]);
    }
  }

  /** A two-digit field below 60 for a seconds count below 60. */
  lemma SecondsField(n: nat)
    requires n < 60
    ensures var p := PadStart2(Decimal(n));
      |p| == 2 && AllDigits(p) && DecimalValue(p) == n
  {
    var s := Decimal(n);
    var p := PadStart2(s);
    if |s| < 2 {
      assert p == p[..2 - |s|] + s;
      LeadingZeros(p[..2 - |s|], s);
    }
  }

  /** Splitting a non-negative time into whole minutes and the whole seconds of the rest:
      `Math.floor(t / 60)` and `Math.floor(t % 60)`, where JavaScript's `%` equals the
      floored remainder for a non-negative `t`. */
  lemma MinutesSeconds(t: real)
    requires t >= 0.0
    ensures var m := (t / 60.0).Floor;
      var s := (t - 60.0 * m as real).Floor;
      0 <= m && 0 <= s < 60 && m * 60 + s == t.Floor
  {
    var m := (t / 60.0).Floor;
    var rest := t - 60.0 * m as real;
    assert 0.0 <= rest < 60.0;
    var s := rest.Floor;
    assert (m * 60 + s) as real <= t < (m * 60 + s + 1) as real;
  }

  /** `r` is clock text for the given minutes and seconds: a minutes field without leading
      zeros, a colon, and a two-digit seconds field, each reading back as given. */
  predicate IsClockText(r: string, minutes: int, seconds: int) {
    |r| >= 4 && r[|r| - 3] == ':' &&
    AllDigits(r[..|r| - 3]) && AllDigits(r[|r| - 2..]) &&
    DecimalValue(r[..|r| - 3]) == minutes && DecimalValue(r[|r| - 2..]) == seconds &&
    (r[0] == '0' ==> |r| == 4)
  }

  /** A non-empty digit string without a leading zero (other than "0" itself). */
  predicate Canonical(s: string) {
    1 <= |s| && AllDigits(s) && (s[0] == '0' ==> |s| == 1)
  }

  /** A digit string that starts with a non-zero digit denotes at least 1. */
  lemma {:induction false} LeadingDigitPositive(s: string)
    requires |s| >= 1 && AllDigits(s) && s[0] != '0'
    ensures DecimalValue(s) >= 1
    decreases |s|
  {
    if |s| > 1 {
      assert s[..|s| - 1][0] == s[0];
      LeadingDigitPositive(s[..|s| - 1]);
    }
  }

  /** Decimal text without leading zeros is determined by its value. */
  lemma {:induction false} CanonicalUnique(a: string, b: string)
    requires Canonical(a) && Canonical(b) && DecimalValue(a) == DecimalValue(b)
    ensures a == b
    decreases |a| + |b|
  {
    var da := a[|a| - 1] as int - '0' as int;
    var db := b[|b| - 1] as int - '0' as int;
    var pa, pb := a[..|a| - 1], b[..|b| - 1];
    if |a| > 1 {
      assert pa[0] == a[0];
      LeadingDigitPositive(pa);
    }
    if |b| > 1 {
      assert pb[0] == b[0];
      LeadingDigitPositive(pb);
    }
    if |a| > 1 && |b| > 1 {
      assert DecimalValue(pa) == DecimalValue(pb) && da == db;
      CanonicalUnique(pa, pb);
      assert a == pa + [a[|a| - 1]] && b == pb + [b[|b| - 1]];
    } else {
      assert |a| == 1 && |b| == 1;
      assert a == [a[0]] && b == [b[0]];
    }
  }

  /** The value of a two-digit string. */
  lemma TwoDigitValue(s: string)
    requires |s| == 2 && AllDigits(s)
    ensures DecimalValue(s) == (s[0] as int - '0' as int) * 10 + (s[1] as int - '0' as int)
  {
    var front := s[..1];
    assert s[..|s| - 1] == front;
    assert front[..|front| - 1] == [];
    assert DecimalValue(front) == s[0] as int - '0' as int;
  }

  /** Clock text is determined by its minutes and seconds: a contract that says a result is
      clock text for given fields fixes the result. */
  lemma ClockTextUnique(r1: string, r2: string, minutes: int, seconds: int)
    requires IsClockText(r1, minutes, seconds) && IsClockText(r2, minutes, seconds)
    ensures r1 == r2
  {
    var m1, m2 := r1[..|r1| - 3], r2[..|r2| - 3];
    assert m1[0] == r1[0] && m2[0] == r2[0];
    CanonicalUnique(m1, m2);
    var s1, s2 := r1[|r1| - 2..], r2[|r2| - 2..];
    TwoDigitValue(s1);
    TwoDigitValue(s2);
    assert s1[0] == s2[0] && s1[1] == s2[1];
    assert s1 == s2;
    assert r1 == m1 + ":" + s1 && r2 == m2 + ":" + s2;
  }

  /** "01:05" is not the clock text of 1 minute and 5 seconds. */
  lemma NoLeadingZeroMinutes()
    ensures !IsClockText("01:05", 1, 5)
  {
  }

  /** The clock text for whole minutes and whole seconds below 60: the minutes in decimal, a
      colon, and the seconds padded to two digits. */
  function Clock(minutes: nat, seconds: nat): (r: string)
    requires seconds < 60
    ensures IsClockText(r, minutes, seconds)
  {
    SecondsField(seconds);
    var mm := Decimal(minutes);
    var ss := PadStart2(Decimal(seconds));
    var r := mm + ":" + ss;
    assert |ss| == 2 && |r| == |mm| + 3;
    assert r[..|r| - 3] == mm && r[|r| - 2..] == ss;
    assert r[|r| - 3] == ':' && r[0] == mm[0];
    r
  }

  /** `formatTime(time)`: "0:00" for not-a-number, otherwise the clock text of the whole
      minutes of `time` and the whole seconds past the minute, which lie in 0..59. Reading
      both fields back gives the whole seconds of `time`. */
  function FormatTime(time: TimeInput): (r: string)
    requires time.Num? ==> time.t >= 0.0
    ensures time.NaN? ==> IsClockText(r, 0, 0)
    ensures time.Num? ==>
      var minutes := (time.t / 60.0).Floor;
      var seconds := time.t.Floor - minutes * 60;
      0 <= seconds < 60 && IsClockText(r, minutes, seconds)
  {
    match time
    case NaN =>
      ZeroFields();
      "0:00"
    case Num(t) =>
      var (minutes, seconds) := SplitMinutes(t);
      Clock(minutes, seconds)
  }

  /** `Math.floor(t / 60)` and `Math.floor(t % 60)` for a non-negative `t`. */
  function SplitMinutes(t: real): (p: (nat, nat))
    requires t >= 0.0
    ensures p.0 == (t / 60.0).Floor && p.1 < 60 && p.0 * 60 + p.1 == t.Floor
  {
    MinutesSeconds(t);
    var minutes := (t / 60.0).Floor;
    (minutes, (t - 60.0 * minutes as real).Floor)
  }

  /** "0:00" is clock text for 0 minutes and 0 seconds. */
  lemma ZeroFields()
    ensures IsClockText("0:00", 0, 0)
  {
    var r := "0:00";
    assert r[..1] == "0" && r[2..] == "00";
    ZerosValue("0");
    ZerosValue("00");
  }

  /** "0:00" is the clock text of zero minutes and zero seconds. */
  lemma ClockZero()
    ensures Clock(0, 0) == "0:00"
  {
    assert Decimal(0) == "0";
    assert PadStart2("0") == "00";
  }

  /** Not-a-number shows as "0:00". */
  lemma FormatTimeNaN()
    ensures FormatTime(NaN) == "0:00"
  {
  }

  /** Zero seconds show as "0:00". */
  lemma FormatTimeZero()
    ensures FormatTime(Num(0.0)) == "0:00"
  {
    assert (0.0 / 60.0).Floor == 0 && (0.0).Floor == 0;
    assert SplitMinutes(0.0) == (0, 0);
    ClockZero();
  }

  /** 65 seconds show as "1:05". */
  lemma FormatTimeSixtyFive()
    ensures FormatTime(Num(65.0)) == "1:05"
  {
    assert (65.0 / 60.0).Floor == 1 && (65.0).Floor == 65;
    assert SplitMinutes(65.0) == (1, 5);
    assert Decimal(1) == "1" && PadStart2(Decimal(5)) == "05";
    assert Clock(1, 5) == "1" + ":" + "05";
  }

  /** 204 seconds (the "3:24" track) show as "3:24". */
  lemma FormatTimeTrackLength()
    ensures FormatTime(Num(204.0)) == "3:24"
  {
    assert (204.0 / 60.0).Floor == 3 && (204.0).Floor == 204;
    assert SplitMinutes(204.0) == (3, 24);
    assert Decimal(24) == Decimal(2) + "4";
    assert Decimal(3) == "3" && PadStart2(Decimal(24)) == "24";
    assert Clock(3, 24) == "3" + ":" + "24";
  }

  /** The three volume icons. */
  datatype VolumeIcon = Muted | Low | High

  /** The icon shown for a volume: muted at 0, low below 50, high from 50 on. */
  function IconFor(volume: real): (r: VolumeIcon)
    ensures r == Muted <==> volume == 0.0
    ensures r == Low <==> volume != 0.0 && volume < 50.0
    ensures r == High <==> volume >= 50.0
  {
    if volume == 0.0 then Muted
    else if volume < 50.0 then Low
    else High
  }

  /** On the slider's range the tiers are [0], (0, 50) and [50, 100]. */
  lemma IconTiersOnSlider(volume: real)
    requires 0.0 <= volume <= 100.0
    ensures IconFor(volume) == Low <==> 0.0 < volume < 50.0
    ensures IconFor(volume) == High <==> 50.0 <= volume <= 100.0
  {
  }
}
