/**
 * `formatTimeUntil` and `pluralize` (frontend/src/utils/time.js): how long until
 * a deadline, as text, in the largest unit that fits, rounded up. `Date.now()`
 * is the parameter `now`; instants are whole milliseconds.
 */
module TimeFormat {

  const MinuteMs: int := 60 * 1000
  const HourMs: int := 60 * MinuteMs
  const DayMs: int := 24 * HourMs
  const WeekMs: int := 7 * DayMs
  const MonthMs: int := 30 * DayMs

  // ---------------------------------------------------------------------------
  // Decimal numerals (template-literal interpolation of a whole number)

  predicate IsDigit(c: char) {
    '0' <= c <= '9'
  }

  predicate AllDigits(s: string) {
    forall i :: 0 <= i < |s| ==> IsDigit(s[i])
  }

  function Decimal(n: nat): (r: string)
    ensures |r| >= 1 && AllDigits(r)
    ensures r[0] == '0' ==> n == 0
  {
    if n < 10 then ["0123456789"[n]]
    else Decimal(n / 10) + ["0123456789"[n % 10]]
  }

  /** The value of a string of digits. */
  function ReadDecimal(s: string): nat
    requires AllDigits(s)
  {
    if s == [] then 0 else ReadDecimal(s[..|s| - 1]) * 10 + (s[|s| - 1] - '0') as nat
  }

  lemma {:induction false} DecimalRoundTrip(n: nat)
    ensures ReadDecimal(Decimal(n)) == n
  {
    if n >= 10 {
      var s := Decimal(n);
      assert s[..|s| - 1] == Decimal(n / 10);
      DecimalRoundTrip(n / 10);
    }
  }

  /** The longest prefix of `s` made of digits. */
  function LeadingDigits(s: string): (r: string)
    ensures AllDigits(r) && |r| <= |s| && r == s[..|r|]
  {
    if s == [] || !IsDigit(s[0]) then [] else [s[0]] + LeadingDigits(s[1..])
  }

  lemma {:induction false} LeadingDigitsStop(digits: string, rest: string)
    requires AllDigits(digits)
    requires rest != [] && !IsDigit(rest[0])
    ensures LeadingDigits(digits + rest) == digits
  {
    if digits == [] {
      assert digits + rest == rest;
    } else {
      assert (digits + rest)[1..] == digits[1..] + rest;
      LeadingDigitsStop(digits[1..], rest);
    }
  }

  /** `pluralize`: the number, a space and the unit, with an `s` unless the number is 1. */
  function Pluralize(value: nat, unit: string): (r: string)
    ensures |r| == |Decimal(value)| + 1 + |unit| + (if value == 1 then 0 else 1)
    ensures r[..|Decimal(value)| + 1 + |unit|] == Decimal(value) + " " + unit
    ensures value != 1 ==> r[|r| - 1] == 's'
  {
    if value == 1 then Decimal(value) + " " + unit else Decimal(value) + " " + unit + "s"
  }

  /** The number at the head of a pluralized phrase reads back as the value. */
  lemma PluralizeReadsBack(value: nat, unit: string)
    ensures ReadDecimal(LeadingDigits(Pluralize(value, unit))) == value
  {
    var r := Pluralize(value, unit);
    assert r == Decimal(value) + r[|Decimal(value)|..];
    LeadingDigitsStop(Decimal(value), r[|Decimal(value)|..]);
    DecimalRoundTrip(value);
  }

  // ---------------------------------------------------------------------------
  // Buckets

  /** The deadline as given: absent or empty, not a date, or an instant in milliseconds. */
  datatype Deadline = Absent | NotADate | Due(ms: int)

  datatype Unit = Month | Week | Day | Hour | Minute

  datatype Status = NoDeadline | PastDue | DueIn(count: int, unit: Unit)

  function UnitMs(u: Unit): int {
    match u
    case Month => MonthMs
    case Week => WeekMs
    case Day => DayMs
    case Hour => HourMs
    case Minute => MinuteMs
  }

  function UnitName(u: Unit): string {
    match u
    case Month => "month"
    case Week => "week"
    case Day => "day"
    case Hour => "hour"
    case Minute => "minute"
  }

  /** `Math.ceil(a / b)` for whole numbers and a positive divisor. */
  function CeilDiv(a: int, b: int): (r: int)
    requires b > 0
    ensures (r - 1) * b < a <= r * b
    ensures a > 0 ==> r >= 1
  {
    if a % b == 0 then a / b else a / b + 1
  }

  /** What `formatTimeUntil` decides before it builds the text. */
  function Classify(deadline: Deadline, now: int): (r: Status)
    ensures r.NoDeadline? <==> !deadline.Due?
    ensures r.PastDue? <==> deadline.Due? && deadline.ms - now <= 0
    ensures r.DueIn? ==> r.count >= 1
    ensures r.DueIn? ==> (r.count - 1) * UnitMs(r.unit) < deadline.ms - now <= r.count * UnitMs(r.unit)
  {
    match deadline
    case Due(ms) =>
      var diffMs := ms - now;
      if diffMs <= 0 then PastDue
      else if diffMs >= MonthMs then DueIn(CeilDiv(diffMs, MonthMs), Month)
      else if diffMs >= WeekMs then DueIn(CeilDiv(diffMs, WeekMs), Week)
      else if diffMs >= DayMs then DueIn(CeilDiv(diffMs, DayMs), Day)
      else if diffMs >= HourMs then DueIn(CeilDiv(diffMs, HourMs), Hour)
      else
        var minutes := CeilDiv(diffMs, MinuteMs);
        DueIn(if minutes < 1 then 1 else minutes, Minute)
    case _ => NoDeadline
  }

  /** The unit is the largest whose threshold the remaining time reaches. */
  lemma ClassifyUnit(deadline: Deadline, now: int)
    requires Classify(deadline, now).DueIn?
    ensures var diffMs := deadline.ms - now;
            var u := Classify(deadline, now).unit;
            && (u == Month <==> diffMs >= MonthMs)
            && (u == Week <==> WeekMs <= diffMs < MonthMs)
            && (u == Day <==> DayMs <= diffMs < WeekMs)
            && (u == Hour <==> HourMs <= diffMs < DayMs)
            && (u == Minute <==> 0 < diffMs < HourMs)
  {
  }

  /**
   * The count in each unit: at least 1 month; 1 to 5 weeks; 1 to 7 days;
   * 1 to 24 hours; 1 to 60 minutes.
   */
  lemma ClassifyCounts(deadline: Deadline, now: int)
    requires Classify(deadline, now).DueIn?
    ensures var r := Classify(deadline, now);
            && 1 <= r.count
            && (r.unit == Week ==> r.count <= 5)
            && (r.unit == Day ==> r.count <= 7)
            && (r.unit == Hour ==> r.count <= 24)
            && (r.unit == Minute ==> r.count <= 60)
  {
    ClassifyUnit(deadline, now);
    var r := Classify(deadline, now);
    var diffMs := deadline.ms - now;
    match r.unit
    case Month =>
    case Week => CountBelow(r.count, WeekMs, 5, diffMs);
    case Day => CountBelow(r.count, DayMs, 7, diffMs);
    case Hour => CountBelow(r.count, HourMs, 24, diffMs);
    case Minute => CountBelow(r.count, MinuteMs, 60, diffMs);
  }

  /** A ceiling of `a / b` for `a` under `k` units is at most `k`. */
  lemma CountBelow(count: int, b: int, k: int, a: int)
    requires b > 0 && (count - 1) * b < a < k * b
    ensures count <= k
  {
    assert (count - 1) * b - k * b == (count - 1 - k) * b;
    NegativeFactor(count - 1 - k, b);
  }

  /** A negative product with a positive factor has a negative other factor. */
  lemma NegativeFactor(x: int, b: int)
    requires b > 0 && x * b < 0
    ensures x < 0
  {
  }

  /**
   * `formatTimeUntil`: "No deadline" exactly when there is no usable deadline,
   * "Past due" exactly when it has passed, and otherwise a phrase opening with
   * "Due in ".
   */
  function FormatTimeUntil(deadline: Deadline, now: int): (r: string)
    ensures r == "No deadline" <==> !deadline.Due?
    ensures r == "Past due" <==> deadline.Due? && deadline.ms - now <= 0
    ensures deadline.Due? && deadline.ms - now > 0 ==> |r| > 7 && r[..7] == "Due in "
  {
    match Classify(deadline, now)
    case NoDeadline => "No deadline"
    case PastDue => "Past due"
    case DueIn(count, unit) =>
      var phrase := "Due in " + Pluralize(count, UnitName(unit));
      assert phrase[0] == 'D';
      phrase
  }

  /**
   * After "Due in " the text is the count in decimal, a space, the unit's name
   * and an `s` exactly when the count is not 1; the count reads back from it.
   */
  lemma FormatTimeUntilShape(deadline: Deadline, now: int)
    ensures var r := FormatTimeUntil(deadline, now);
            var status := Classify(deadline, now);
            && (r == "No deadline" <==> status.NoDeadline?)
            && (r == "Past due" <==> status.PastDue?)
            && (status.DueIn? ==>
                  && r == "Due in " + Decimal(status.count) + " " + UnitName(status.unit)
                          + (if status.count == 1 then "" else "s")
                  && ReadDecimal(LeadingDigits(r[7..])) == status.count)
  {
    var status := Classify(deadline, now);
    var r := FormatTimeUntil(deadline, now);
    if status.DueIn? {
      var phrase := Pluralize(status.count, UnitName(status.unit));
      assert r == "Due in " + phrase;
      assert r[7..] == phrase;
      PluralizeReadsBack(status.count, UnitName(status.unit));
    }
  }
}
