/** UTC instants as the cache stores them: `datetime.isoformat()` strings, which SQLite
    compares as text (app/cache/sqlite_cache.py, app/cache/models.py). */
module IsoTime {
  import opened StringOrder
  import opened Text

  /** The fields of an aware UTC `datetime`. */
  datatype Instant = Instant(year: nat, month: nat, day: nat, hour: nat, minute: nat, second: nat, micro: nat)

  predicate Leap(year: nat) { year % 4 == 0 && (year % 100 != 0 || year % 400 == 0) }

  function DaysInMonth(year: nat, month: nat): nat {
    if month == 2 then if Leap(year) then 29 else 28
    else if month in {4, 6, 9, 11} then 30
    else 31
  }

  predicate Valid(t: Instant) {
    && 1 <= t.year <= 9999 && 1 <= t.month <= 12 && 1 <= t.day <= DaysInMonth(t.year, t.month)
    && t.hour < 24 && t.minute < 60 && t.second < 60 && t.micro < 1000000
  }

  // ---------------------------------------------------------------- text

  /** `n` in exactly `width` decimal digits. */
  function Pad(width: nat, n: nat): (r: string)
    ensures |r| == width
  {
    if width == 0 then "" else Pad(width - 1, n / 10) + [Digit(n % 10)]
  }

  /** The fraction is written only when there are microseconds. */
  function Fraction(micro: nat): string { if micro == 0 then "" else "." + Pad(6, micro) }

  function Iso(t: Instant): string {
    Pad(4, t.year) + ("-" + (Pad(2, t.month) + ("-" + (Pad(2, t.day) + ("T" + (Pad(2, t.hour) + (":" +
      (Pad(2, t.minute) + (":" + (Pad(2, t.second) + (Fraction(t.micro) + "+00:00")))))))))))
  }

  // --------------------------------------------------------- chronological

  /** Field by field, as Python compares two datetimes of one time zone. */
  predicate Before(a: Instant, b: Instant) {
    a.year < b.year || (a.year == b.year &&
    (a.month < b.month || (a.month == b.month &&
    (a.day < b.day || (a.day == b.day &&
    (a.hour < b.hour || (a.hour == b.hour &&
    (a.minute < b.minute || (a.minute == b.minute &&
    (a.second < b.second || (a.second == b.second && a.micro < b.micro)))))))))))
  }

  function DaysBeforeYear(year: nat): int
    requires year >= 1
  {
    var y := year - 1;
    365 * y + y / 4 - y / 100 + y / 400
  }

  function DaysBeforeMonth(year: nat, month: nat): nat {
    if month <= 1 then 0 else DaysBeforeMonth(year, month - 1) + DaysInMonth(year, month - 1)
  }

  /** `datetime.toordinal()`: days of the proleptic Gregorian calendar. */
  function Ordinal(t: Instant): int
    requires Valid(t)
  {
    DaysBeforeYear(t.year) + DaysBeforeMonth(t.year, t.month) + t.day
  }

  /** Microseconds on the time line. */
  function Micros(t: Instant): int
    requires Valid(t)
  {
    (((Ordinal(t) * 24 + t.hour) * 60 + t.minute) * 60 + t.second) * 1000000 + t.micro
  }

  // -------------------------------------------------------- string lemmas

  /** Texts with heads of one length compare by the heads, then by the rest. */
  lemma {:induction false} LessHead(p: string, q: string, x: string, y: string)
    requires |p| == |q|
    ensures Less(p + x, q + y) <==> Less(p, q) || (p == q && Less(x, y))
  {
    if p == [] {
      assert p + x == x && q + y == y;
    } else {
      LessHead(p[1..], q[1..], x, y);
      assert (p + x)[1..] == p[1..] + x && (q + y)[1..] == q[1..] + y;
      assert p == [p[0]] + p[1..] && q == [q[0]] + q[1..];
    }
  }

  /** Fixed-width decimals compare like the numbers. */
  lemma {:induction false} PadOrder(width: nat, a: nat, b: nat, bound: nat)
    requires bound == Power10(width) && a < bound && b < bound
    ensures Less(Pad(width, a), Pad(width, b)) <==> a < b
    ensures Pad(width, a) == Pad(width, b) <==> a == b
  {
    if width > 0 {
      PadOrder(width - 1, a / 10, b / 10, bound / 10);
      LessHead(Pad(width - 1, a / 10), Pad(width - 1, b / 10), [Digit(a % 10)], [Digit(b % 10)]);
      SingleDigit(a % 10, b % 10);
      var p, q := Pad(width, a), Pad(width, b);
      assert p[..width - 1] == Pad(width - 1, a / 10) && q[..width - 1] == Pad(width - 1, b / 10);
      assert p[width - 1] == Digit(a % 10) && q[width - 1] == Digit(b % 10);
    }
  }

  lemma SingleDigit(a: nat, b: nat)
    requires a < 10 && b < 10
    ensures Less([Digit(a)], [Digit(b)]) <==> a < b
    ensures Digit(a) == Digit(b) <==> a == b
  {
  }

  function Power10(n: nat): nat { if n == 0 then 1 else 10 * Power10(n - 1) }

  /** One field followed by more text. */
  lemma FieldOrder(width: nat, a: nat, b: nat, bound: nat, x: string, y: string)
    requires bound == Power10(width) && a < bound && b < bound
    ensures Less(Pad(width, a) + x, Pad(width, b) + y) <==> a < b || (a == b && Less(x, y))
  {
    PadOrder(width, a, b, bound);
    LessHead(Pad(width, a), Pad(width, b), x, y);
  }

  lemma SameStart(c: string, x: string, y: string)
    ensures Less(c + x, c + y) <==> Less(x, y)
  {
    LessHead(c, c, x, y);
    LessTrichotomy(c, c);
  }

  lemma Powers()
    ensures Power10(2) == 100 && Power10(4) == 10000 && Power10(6) == 1000000
  {
  }

  /** A dropped fraction sorts below every written one: `+` precedes `.`. */
  lemma FractionOrder(a: nat, b: nat)
    requires a < 1000000 && b < 1000000
    ensures Less(Fraction(a) + "+00:00", Fraction(b) + "+00:00") <==> a < b
  {
    Powers();
    var z := "+00:00";
    if a != 0 && b != 0 {
      FieldOrder(6, a, b, 1000000, z, z);
      LessTrichotomy(z, z);
      SameStart(".", Pad(6, a) + z, Pad(6, b) + z);
      assert Fraction(a) + z == "." + (Pad(6, a) + z);
      assert Fraction(b) + z == "." + (Pad(6, b) + z);
    } else if a == 0 && b == 0 {
      LessTrichotomy(Fraction(a) + z, Fraction(b) + z);
    } else {
      assert (Fraction(a) + z)[0] == if a == 0 then '+' else '.';
      assert (Fraction(b) + z)[0] == if b == 0 then '+' else '.';
    }
  }

  // ------------------------------------------------------- the main theorems

  function ClockText(t: Instant): string {
    Pad(2, t.hour) + (":" + (Pad(2, t.minute) + (":" + (Pad(2, t.second) + (Fraction(t.micro) + "+00:00")))))
  }

  predicate ClockBefore(a: Instant, b: Instant) {
    a.hour < b.hour || (a.hour == b.hour &&
    (a.minute < b.minute || (a.minute == b.minute &&
    (a.second < b.second || (a.second == b.second && a.micro < b.micro)))))
  }

  lemma ClockOrder(a: Instant, b: Instant)
    requires Valid(a) && Valid(b)
    ensures Less(ClockText(a), ClockText(b)) <==> ClockBefore(a, b)
  {
    Powers();
    var fa, fb := Fraction(a.micro) + "+00:00", Fraction(b.micro) + "+00:00";
    FractionOrder(a.micro, b.micro);
    var sa, sb := Pad(2, a.second) + fa, Pad(2, b.second) + fb;
    FieldOrder(2, a.second, b.second, 100, fa, fb);
    SameStart(":", sa, sb);
    var ma, mb := Pad(2, a.minute) + (":" + sa), Pad(2, b.minute) + (":" + sb);
    FieldOrder(2, a.minute, b.minute, 100, ":" + sa, ":" + sb);
    SameStart(":", ma, mb);
    FieldOrder(2, a.hour, b.hour, 100, ":" + ma, ":" + mb);
  }

  /** Text order of the stored strings is field order of the datetimes. */
  lemma IsoOrder(a: Instant, b: Instant)
    requires Valid(a) && Valid(b)
    ensures Less(Iso(a), Iso(b)) <==> Before(a, b)
  {
    Powers();
    ClockOrder(a, b);
    var ta, tb := "T" + ClockText(a), "T" + ClockText(b);
    SameStart("T", ClockText(a), ClockText(b));
    var da, db := Pad(2, a.day) + ta, Pad(2, b.day) + tb;
    FieldOrder(2, a.day, b.day, 100, ta, tb);
    SameStart("-", da, db);
    var ma, mb := Pad(2, a.month) + ("-" + da), Pad(2, b.month) + ("-" + db);
    FieldOrder(2, a.month, b.month, 100, "-" + da, "-" + db);
    SameStart("-", ma, mb);
    FieldOrder(4, a.year, b.year, 10000, "-" + ma, "-" + mb);
  }

  lemma {:induction false} DaysBeforeLaterYear(a: nat, b: nat)
    requires 1 <= a < b
    ensures DaysBeforeYear(a) + (if Leap(a) then 366 else 365) <= DaysBeforeYear(b)
    decreases b
  {
    if a + 1 < b {
      DaysBeforeLaterYear(a, b - 1);
      NextYear(b - 1);
    } else {
      NextYear(a);
    }
  }

  lemma NextYear(year: nat)
    requires year >= 1
    ensures DaysBeforeYear(year + 1) == DaysBeforeYear(year) + if Leap(year) then 366 else 365
  {
    QuotientStep(year, 4);
    QuotientStep(year, 100);
    QuotientStep(year, 400);
  }

  lemma QuotientStep(n: nat, d: nat)
    requires n >= 1 && d in {4, 100, 400}
    ensures n / d == (n - 1) / d + if n % d == 0 then 1 else 0
  {
  }

  lemma {:induction false} DaysBeforeLaterMonth(year: nat, a: nat, b: nat)
    requires 1 <= a < b
    ensures DaysBeforeMonth(year, a) + DaysInMonth(year, a) <= DaysBeforeMonth(year, b)
    decreases b
  {
    if a + 1 < b {
      DaysBeforeLaterMonth(year, a, b - 1);
    }
  }

  lemma DaysInYear(year: nat)
    ensures DaysBeforeMonth(year, 13) == if Leap(year) then 366 else 365
  {
    assert DaysBeforeMonth(year, 3) == 59 + if Leap(year) then 1 else 0 by {
      assert DaysBeforeMonth(year, 2) == 31;
    }
    assert DaysBeforeMonth(year, 5) == DaysBeforeMonth(year, 3) + 61;
    assert DaysBeforeMonth(year, 7) == DaysBeforeMonth(year, 5) + 61;
    assert DaysBeforeMonth(year, 9) == DaysBeforeMonth(year, 7) + 62;
    assert DaysBeforeMonth(year, 11) == DaysBeforeMonth(year, 9) + 61;
    assert DaysBeforeMonth(year, 13) == DaysBeforeMonth(year, 11) + 61;
  }

  lemma OrdinalOrder(a: Instant, b: Instant)
    requires Valid(a) && Valid(b)
    requires a.year < b.year || (a.year == b.year && (a.month < b.month || (a.month == b.month && a.day < b.day)))
    ensures Ordinal(a) < Ordinal(b)
  {
    if a.year < b.year {
      DaysBeforeLaterYear(a.year, b.year);
      DaysBeforeLaterMonth(a.year, a.month, 13);
      DaysInYear(a.year);
    } else if a.month < b.month {
      DaysBeforeLaterMonth(a.year, a.month, b.month);
    }
  }

  lemma BeforeMicros(a: Instant, b: Instant)
    requires Valid(a) && Valid(b) && Before(a, b)
    ensures Micros(a) < Micros(b)
  {
    if a.year != b.year || a.month != b.month || a.day != b.day {
      OrdinalOrder(a, b);
    }
  }

  lemma BeforeTotal(a: Instant, b: Instant)
    ensures Before(a, b) || Before(b, a) || a == b
  {
  }

  /** For all instants, comparing the stored strings is comparing points in time, whether
      or not their microseconds are written. */
  lemma TextOrderIsTimeOrder(a: Instant, b: Instant)
    requires Valid(a) && Valid(b)
    ensures Less(Iso(a), Iso(b)) <==> Micros(a) < Micros(b)
    ensures Iso(a) == Iso(b) <==> Micros(a) == Micros(b)
  {
    IsoOrder(a, b);
    IsoOrder(b, a);
    BeforeTotal(a, b);
    if Before(a, b) {
      BeforeMicros(a, b);
    } else if Before(b, a) {
      BeforeMicros(b, a);
    }
    LessTrichotomy(Iso(a), Iso(b));
  }

  /** The calendar: the lengths of the months, with a leap day every fourth year but for
      centuries that 400 does not divide. */
  lemma Calendar(year: nat, month: nat)
    requires 1 <= month <= 12
    ensures DaysInMonth(year, month)
         == match month
            case 1 => 31 case 3 => 31 case 5 => 31 case 7 => 31 case 8 => 31 case 10 => 31 case 12 => 31
            case 2 => if year % 4 == 0 && (year % 100 != 0 || year % 400 == 0) then 29 else 28
            case _ => 30
  {
  }

  /** The layout of a stored text, on one minute: two digits a field, and six for the
      fraction behind a point, if there is one. */
  lemma Layout(second: nat, micro: nat)
    ensures Iso(Instant(2024, 3, 9, 7, 5, second, micro))
         == "2024-03-09T07:05:" + (Pad(2, second) + ((if micro == 0 then "" else "." + Pad(6, micro)) + "+00:00"))
    ensures Pad(2, 1) == "01" && Pad(6, 42) == "000042"
  {
    Digits();
    Concatenated(Pad(2, second) + (Fraction(micro) + "+00:00"));
  }

  lemma Concatenated(rest: string)
    ensures "2024" + ("-" + ("03" + ("-" + ("09" + ("T" + ("07" + (":" + ("05" + (":" + rest))))))))) == "2024-03-09T07:05:" + rest
  {
    assert "05" + (":" + rest) == "05:" + rest;
    assert "07" + (":" + ("05:" + rest)) == "07:05:" + rest;
    assert "09" + ("T" + ("07:05:" + rest)) == "09T07:05:" + rest;
    assert "03" + ("-" + ("09T07:05:" + rest)) == "03-09T07:05:" + rest;
    assert "2024" + ("-" + ("03-09T07:05:" + rest)) == "2024-03-09T07:05:" + rest;
  }

  lemma Digits()
    ensures Pad(2, 3) == "03" && Pad(2, 9) == "09" && Pad(2, 7) == "07" && Pad(2, 5) == "05" && Pad(2, 1) == "01"
    ensures Pad(4, 2024) == "2024" && Pad(6, 42) == "000042"
  {
  }
}
