/** The two display formatters, as numbers: a byte count in decimal units and a
    clock reading of seconds. Printing the digits is left out. */
module DisplayFormat {

  // ─── Byte counts ───

  /** `B`, or a number with one decimal or none in unit kB, MB, GB or TB (0 to 3). */
  datatype Label =
    | Blank
    | Bytes(count: real)
    | Tenths(tenths: int, unit: nat)
    | Whole(whole: int, unit: nat)

  function Scale(unit: nat): real {
    if unit == 0 then 1000.0 else 1000.0 * Scale(unit - 1)
  }

  function Times(a: real, b: real): real {
    a * b
  }

  /** The count a label stands for. */
  function Meaning(l: Label): real {
    match l
    case Blank => 0.0
    case Bytes(n) => n
    case Tenths(t, u) => Times(t as real / 10.0, Scale(u))
    case Whole(n, u) => Times(n as real, Scale(u))
  }

  predicate WithinFivePercent(x: real, truth: real) {
    19.0 * truth <= 20.0 * x <= 21.0 * truth
  }

  lemma TimesMonotone(a: real, b: real, c: real)
    requires c > 0.0
    ensures a < b <==> Times(a, c) < Times(b, c)
    ensures a <= b <==> Times(a, c) <= Times(b, c)
  {
    assert Times(b, c) - Times(a, c) == (b - a) * c;
    if a < b {
      assert (b - a) * c > 0.0;
    } else {
      assert (a - b) * c >= 0.0;
      assert a > b ==> (a - b) * c > 0.0;
    }
  }

  lemma TimesScales(k: real, a: real, c: real)
    ensures Times(k * a, c) == k * Times(a, c)
  {
  }

  lemma {:induction false} ScaleFacts(unit: nat)
    ensures Scale(unit) >= 1000.0
    ensures Scale(unit + 1) == 1000.0 * Scale(unit)
  {
    if unit > 0 {
      ScaleFacts(unit - 1);
    }
  }

  /** A figure within 5 percent stays so in its unit. */
  lemma RoundingStays(bytes: real, value: real, scale: real, t: real)
    requires scale > 0.0 && Times(value, scale) == bytes
    requires WithinFivePercent(t, value)
    ensures WithinFivePercent(Times(t, scale), bytes)
  {
    TimesMonotone(19.0 * value, 20.0 * t, scale);
    TimesMonotone(20.0 * t, 21.0 * value, scale);
    TimesScales(19.0, value, scale);
    TimesScales(20.0, t, scale);
    TimesScales(21.0, value, scale);
  }

  /** The scaling loop: the value times its unit stays the count. */
  method ScaleDown(bytes: real) returns (value: real, unit: nat)
    requires bytes >= 1000.0
    ensures unit <= 3 && value >= 1.0 && Times(value, Scale(unit)) == bytes
    ensures unit < 3 ==> value < 1000.0
  {
    value, unit := bytes / 1000.0, 0;
    while value >= 1000.0 && unit < 3
      invariant unit <= 3
      invariant value >= 1.0 && Times(value, Scale(unit)) == bytes
      decreases 3 - unit
    {
      ScaleStep(value, unit);
      value := value / 1000.0;
      unit := unit + 1;
    }
  }

  /** Dividing the value and raising the unit keeps their product. */
  lemma ScaleStep(value: real, unit: nat)
    ensures Times(value / 1000.0, Scale(unit + 1)) == Times(value, Scale(unit))
  {
    var v, s := value / 1000.0, Scale(unit);
    assert value == 1000.0 * v && Scale(unit + 1) == 1000.0 * s;
    assert v * (1000.0 * s) == (1000.0 * v) * s;
  }

  lemma UnitFits(bytes: real, value: real, unit: nat)
    requires value >= 1.0 && Times(value, Scale(unit)) == bytes
    ensures Scale(unit) <= bytes
    ensures value < 1000.0 <==> bytes < Scale(unit + 1)
    ensures value < 10.0 <==> bytes < 10.0 * Scale(unit)
  {
    hide Scale;
    var scale := Scale(unit);
    ScaleFacts(unit);
    TimesMonotone(1.0, value, scale);
    TimesMonotone(value, 1000.0, scale);
    TimesMonotone(value, 10.0, scale);
  }

  function Rounded(x: real): int {
    (x + 0.5).Floor
  }

  lemma RoundedClose(x: real)
    ensures Rounded(x) as real - 0.5 <= x < Rounded(x) as real + 0.5
  {
  }

  /** Every label is within 5 percent of the true count, in the largest unit that
      leaves at least one of it. */
  method FormatDeliveredBytes(bytes: real) returns (l: Label)
    ensures bytes < 0.0 <==> l.Blank?
    ensures 0.0 <= bytes < 1000.0 <==> l.Bytes?
    ensures bytes >= 0.0 ==> WithinFivePercent(Meaning(l), bytes)
    ensures l.Tenths? || l.Whole? ==>
              && l.unit <= 3 && Scale(l.unit) <= bytes
              && (l.unit < 3 ==> bytes < Scale(l.unit + 1))
              && (l.Tenths? <==> bytes < 10.0 * Scale(l.unit))
  {
    if bytes < 0.0 { return Blank; }
    if bytes < 1000.0 {
      l := Bytes(bytes);
      return;
    }
    hide Scale, Rounded, Times;
    var value, unit := ScaleDown(bytes);
    ScaleFacts(unit);
    UnitFits(bytes, value, unit);
    if value < 10.0 {
      l := Tenths(Rounded(10.0 * value), unit);
      RoundedClose(10.0 * value);
      RoundingStays(bytes, value, Scale(unit), l.tenths as real / 10.0);
    } else {
      l := Whole(Rounded(value), unit);
      RoundedClose(value);
      RoundingStays(bytes, value, Scale(unit), l.whole as real);
    }
  }

  // ─── Clock readings ───

  datatype Clock = Unknown | Clock(hours: int, minutes: int, seconds: int, millis: int)

  function Millis(n: real): int {
    var rounded := Rounded((n - n.Floor as real) * 1000.0);
    if rounded < 999 then rounded else 999
  }

  function FormatSeconds(n: real): Clock {
    if n < 0.0 then Unknown
    else
      var whole := n.Floor;
      Clock(whole / 3600, whole % 3600 / 60, whole % 60, Millis(n))
  }

  function ReadBack(c: Clock): real {
    match c
    case Unknown => 0.0
    case Clock(h, m, s, ms) => (3600 * h + 60 * m + s) as real + ms as real / 1000.0
  }

  /** There is no reading of a negative time. */
  lemma ReadableExactly(n: real)
    ensures FormatSeconds(n) == Unknown <==> n < 0.0
  {
  }

  lemma ClockParts(n: real)
    requires n >= 0.0
    ensures var c := FormatSeconds(n);
            && c.Clock? && 0 <= c.hours && 0 <= c.minutes < 60 && 0 <= c.seconds < 60 && 0 <= c.millis < 1000
    ensures ReadBack(FormatSeconds(n)) == n.Floor as real + Millis(n) as real / 1000.0
  {
    var w := n.Floor;
    assert w == 3600 * (w / 3600) + w % 3600;
    assert w % 3600 == 60 * (w % 3600 / 60) + w % 3600 % 60;
    assert w % 3600 % 60 == w % 60;
  }

  lemma MillisMonotone(a: real, b: real)
    requires a <= b && a.Floor == b.Floor
    ensures Millis(a) <= Millis(b)
  {
  }

  /** The clock reads back to within one millisecond, for every time. */
  lemma ClockIsAccurate(n: real)
    requires n >= 0.0
    ensures n - 0.001 < ReadBack(FormatSeconds(n)) < n + 0.001
  {
    hide FormatSeconds, ReadBack;
    ClockParts(n);
  }

  /** A later time never reads earlier. */
  lemma ClockIsMonotone(a: real, b: real)
    requires 0.0 <= a <= b
    ensures ReadBack(FormatSeconds(a)) <= ReadBack(FormatSeconds(b))
  {
    hide FormatSeconds, ReadBack;
    ClockParts(a);
    ClockParts(b);
    if a.Floor == b.Floor {
      MillisMonotone(a, b);
    } else {
      assert a.Floor + 1 <= b.Floor;
    }
  }
}
