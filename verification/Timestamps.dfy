/** Block timestamps: RFC 3339 text to Unix milliseconds. The closed-form day arithmetic is
    proved against a plain count of Gregorian year and month lengths.
 */
module Timestamps {
  import opened Common
  import opened Text
  import opened Quantities

  const I64_END := 0x8000_0000_0000_0000
  const U64_END := 0x1_0000_0000_0000_0000

  // ---- Gregorian calendar, counted ------------------------------------------------------

  predicate IsLeap(year: int) {
    year % 4 == 0 && (year % 100 != 0 || year % 400 == 0)
  }

  function MonthLength(year: int, month: int): (days: nat) {
    if month == 2 then (if IsLeap(year) then 29 else 28)
    else if month in {4, 6, 9, 11} then 30
    else 31
  }

  /** The days of the months before `month` of one year. */
  function DaysBeforeMonth(year: int, month: int): nat
    requires month >= 1
  {
    if month == 1 then 0 else DaysBeforeMonth(year, month - 1) + MonthLength(year, month - 1)
  }

  function YearLength(year: int): nat {
    DaysBeforeMonth(year, 13)
  }

  /** Days from 1970-01-01 to January 1 of `year`, a whole year at a time. */
  function YearStart(year: int): int
    decreases if year < 1970 then 1970 - year else year - 1970
  {
    if year == 1970 then 0
    else if year > 1970 then YearStart(year - 1) + YearLength(year - 1)
    else YearStart(year + 1) - YearLength(year)
  }

  /** Days from 1970-01-01, by counting whole years, whole months and days. */
  function CountedDays(year: int, month: int, day: int): int
    requires month >= 1
  {
    YearStart(year) + DaysBeforeMonth(year, month) + day - 1
  }

  // ---- The closed form ------------------------------------------------------------------

  /** Days from civil, proleptic Gregorian, with years starting in March. */
  function CivilDays(year: int, month: int, day: int): int {
    var y := if month <= 2 then year - 1 else year;
    var m := if month <= 2 then month + 9 else month - 3;
    var era := y / 400;
    var yearOfEra := y % 400;
    var dayOfYear := (153 * m + 2) / 5 + day - 1;
    var dayOfEra := yearOfEra * 365 + yearOfEra / 4 - yearOfEra / 100 + dayOfYear;
    era * 146_097 + dayOfEra - 719_468
  }

  /** Days of the years before `y` + 1, up to a constant. */
  function Floors(y: int): int {
    365 * y + y / 4 - y / 100 + y / 400
  }

  lemma StepBy4(y: int)
    ensures y / 4 == (y - 1) / 4 + if y % 4 == 0 then 1 else 0
  {
  }

  lemma StepBy100(y: int)
    ensures y / 100 == (y - 1) / 100 + if y % 100 == 0 then 1 else 0
    ensures y % 100 == 0 ==> y % 4 == 0
  {
  }

  lemma StepBy400(y: int)
    ensures y / 400 == (y - 1) / 400 + if y % 400 == 0 then 1 else 0
    ensures y % 400 == 0 ==> y % 100 == 0
  {
  }

  lemma FloorsStep(y: int)
    ensures Floors(y) == Floors(y - 1) + if IsLeap(y) then 366 else 365
  {
    StepBy4(y);
    StepBy100(y);
    StepBy400(y);
    AddUp(y, y / 4, y / 100, y / 400, (y - 1) / 4, (y - 1) / 100, (y - 1) / 400);
  }

  lemma AddUp(y: int, a: int, b: int, c: int, d: int, e: int, f: int)
    ensures (365 * y + a - b + c) - (365 * (y - 1) + d - e + f) == 365 + (a - d) - (b - e) + (c - f)
  {
  }

  lemma FirstMonths(year: int)
    ensures DaysBeforeMonth(year, 1) == 0 && DaysBeforeMonth(year, 2) == 31
    ensures DaysBeforeMonth(year, 3) == if IsLeap(year) then 60 else 59
  {
    assert DaysBeforeMonth(year, 1) == 0;
    assert DaysBeforeMonth(year, 2) == 31;
  }

  lemma {:induction false} YearsInClosedForm(year: int)
    ensures YearStart(year) == Floors(year - 1) - 719_162
    decreases if year < 1970 then 1970 - year else year - 1970
  {
    if year > 1970 {
      YearsInClosedForm(year - 1);
      FloorsStep(year - 1);
      YearLengthIs(year - 1);
    } else if year < 1970 {
      YearsInClosedForm(year + 1);
      FloorsStep(year);
      YearLengthIs(year);
    }
  }

  lemma YearLengthIs(year: int)
    ensures YearLength(year) == if IsLeap(year) then 366 else 365
  {
    MonthsFromMarch(year, 12);
    assert DaysBeforeMonth(year, 13) == DaysBeforeMonth(year, 12) + 31;
  }

  /** Eras of 400 years are just a way to take three floors at once. */
  lemma EraFloors(y: int)
    ensures y / 400 * 146_097 + (y % 400 * 365 + y % 400 / 4 - y % 400 / 100) == Floors(y)
  {
    var e, r := y / 400, y % 400;
    assert y == 400 * e + r;
    assert y / 4 == 100 * e + r / 4;
    assert y / 100 == 4 * e + r / 100;
  }

  lemma MonthsFromMarch(year: int, month: int)
    requires 1 <= month <= 12
    ensures month <= 2 ==> DaysBeforeMonth(year, month) == (153 * (month + 9) + 2) / 5 - 306
    ensures month > 2 ==>
              DaysBeforeMonth(year, month) == (153 * (month - 3) + 2) / 5 + if IsLeap(year) then 60 else 59
  {
    FirstMonths(year);
    assert DaysBeforeMonth(year, 4) == DaysBeforeMonth(year, 3) + 31;
    assert DaysBeforeMonth(year, 6) == DaysBeforeMonth(year, 4) + 61;
    assert DaysBeforeMonth(year, 8) == DaysBeforeMonth(year, 6) + 61;
    assert DaysBeforeMonth(year, 10) == DaysBeforeMonth(year, 8) + 61;
    assert DaysBeforeMonth(year, 12) == DaysBeforeMonth(year, 10) + 61;
    assert DaysBeforeMonth(year, 5) == DaysBeforeMonth(year, 4) + 30;
    assert DaysBeforeMonth(year, 7) == DaysBeforeMonth(year, 6) + 30;
    assert DaysBeforeMonth(year, 9) == DaysBeforeMonth(year, 8) + 31;
    assert DaysBeforeMonth(year, 11) == DaysBeforeMonth(year, 10) + 31;
  }

  /** The closed form counts days, for every year and month, whatever the day. */
  lemma CivilDaysCounts(year: int, month: int, day: int)
    requires 1 <= month <= 12
    ensures CivilDays(year, month, day) == CountedDays(year, month, day)
  {
    YearsInClosedForm(year);
    MonthsFromMarch(year, month);
    FloorsStep(year);
    EraFloors(if month <= 2 then year - 1 else year);
  }

  // ---- Reading the text -----------------------------------------------------------------

  function SplitOnce(s: string, at: set<char>): Option<(string, string)> {
    if s == [] then None
    else if s[0] in at then Some(([], s[1..]))
    else
      match SplitOnce(s[1..], at)
      case None => None
      case Some((front, back)) => Some(([s[0]] + front, back))
  }

  /** The last position of one of the characters. */
  function FindLast(s: string, of: set<char>): (i: Option<nat>)
    ensures i.Some? ==> i.value < |s|
  {
    if s == [] then None
    else if s[|s| - 1] in of then Some(|s| - 1)
    else FindLast(s[..|s| - 1], of)
  }

  /** `parse::<i64>`: an optional sign, then at least one digit. */
  function ParseI64(s: string): Option<int> {
    var signed := s != [] && s[0] in {'+', '-'};
    var digits := if signed then s[1..] else s;
    if digits == [] || !AllDigits(digits) then None
    else
      var n: int := DecimalValue(digits);
      var v := if signed && s[0] == '-' then -n else n;
      if -I64_END <= v < I64_END then Some(v) else None
  }

  /** `parse::<u32>`: an optional plus sign, then at least one digit. */
  function ParseU32(s: string): Option<int> {
    var digits := if |s| > 1 && s[0] == '+' then s[1..] else s;
    if digits == [] || !AllDigits(digits) || DecimalValue(digits) >= 0x1_0000_0000 then None
    else Some(DecimalValue(digits))
  }

  function ParseDate(date: string): Option<(int, int, int)> {
    var parts := Split(date, '-');
    if |parts| != 3 then None
    else
      match (ParseI64(parts[0]), ParseU32(parts[1]), ParseU32(parts[2]))
      case (Some(year), Some(month), Some(day)) =>
        if 1 <= month <= 12 && 1 <= day <= 31 then Some((year, month, day)) else None
      case _ => None
  }

  function ParseOffset(offset: string): Option<int>
    requires offset != []
  {
    if offset == "Z" || offset == "z" then Some(0)
    else
      match SplitOnce(offset[1..], {':'})
      case None => None
      case Some((hours, minutes)) =>
        match (ParseI64(hours), ParseI64(minutes))
        case (Some(h), Some(m)) =>
          Some(if offset[0] == '-' then -(h * 3_600 + m * 60) else h * 3_600 + m * 60)
        case _ => None
  }

  function ParseClock(clock: string): Option<(int, int, int)> {
    var parts := Split(clock, ':');
    if |parts| != 3 then None
    else
      match (ParseI64(parts[0]), ParseI64(parts[1]), ParseI64(parts[2]))
      case (Some(hour), Some(minute), Some(second)) =>
        if hour > 23 || minute > 59 || second > 60 then None else Some((hour, minute, second))
      case _ => None
  }

  function ParseFraction(fraction: string): Option<int> {
    var digits := if |fraction| > 3 then fraction[..3] else fraction;
    if digits == [] then Some(0)
    else if !AllDigits(digits) then None
    else Some(DecimalValue(digits) * Pow10(3 - |digits|))
  }

  /** Everything read off the text: date, clock, milliseconds and offset in seconds. */
  datatype Fields = Fields(date: (int, int, int), clock: (int, int, int), millis: int, shift: int)

  function Gathered(date: Option<(int, int, int)>, clock: Option<(int, int, int)>,
                    millis: Option<int>, shift: Option<int>): Option<Fields>
  {
    if date == None || clock == None || millis == None || shift == None then None
    else Some(Fields(date.value, clock.value, millis.value, shift.value))
  }

  function ReadFields(text: string): Option<Fields> {
    match SplitOnce(Trim(text), {'T', 't', ' '})
    case None => None
    case Some((date, rest)) =>
      match FindLast(rest, {'Z', 'z', '+', '-'})
      case None => None
      case Some(start) =>
        var time, offset := rest[..start], rest[start..];
        var (clock, fraction) :=
          match SplitOnce(time, {'.'})
          case None => (time, [])
          case Some((clock, fraction)) => (clock, fraction);
        Gathered(ParseDate(date), ParseClock(clock), ParseFraction(fraction), ParseOffset(offset))
  }

  function UnixMillis(f: Fields): int {
    var days := CivilDays(f.date.0, f.date.1, f.date.2);
    var seconds := days * 86_400 + f.clock.0 * 3_600 + f.clock.1 * 60 + f.clock.2 - f.shift;
    seconds * 1_000 + f.millis
  }

  /** `rfc3339_to_unix_ms`. */
  function ToUnixMillis(text: string): Option<int> {
    match ReadFields(text)
    case None => None
    case Some(f) => if 0 <= UnixMillis(f) < U64_END then Some(UnixMillis(f)) else None
  }

  // ---- Date-times of section 5.6 of RFC 3339 ---------------------------------------------

  /** Exactly `k` digits (`2DIGIT`, `4DIGIT`). */
  predicate FixedDigits(s: string, k: nat) {
    |s| == k && AllDigits(s)
  }

  datatype Zone = Zulu(letter: char) | Offset(sign: char, hours: string, minutes: string) {

    /** `time-offset` with the ranges of section 5.7. */
    predicate Valid() {
      match this
      case Zulu(letter) => letter in {'Z', 'z'}
      case Offset(sign, hours, minutes) =>
        && sign in {'+', '-'}
        && FixedDigits(hours, 2) && DecimalValue(hours) <= 23
        && FixedDigits(minutes, 2) && DecimalValue(minutes) <= 59
    }

    function Seconds(): int
      requires Valid()
    {
      match this
      case Zulu(_) => 0
      case Offset(sign, hours, minutes) =>
        var seconds := DecimalValue(hours) * 3_600 + DecimalValue(minutes) * 60;
        if sign == '-' then -seconds else seconds
    }

    function Text(): string {
      match this
      case Zulu(letter) => [letter]
      case Offset(sign, hours, minutes) => [sign] + hours + [':'] + minutes
    }
  }

  /** The digits of a `date-time`, and what stands between them. */
  datatype DateTime = DateTime(
    year: string, month: string, day: string, separator: char,
    hour: string, minute: string, second: string, fraction: string, zone: Zone)
  {
    predicate ValidDate() {
      && FixedDigits(year, 4) && FixedDigits(month, 2) && FixedDigits(day, 2)
      && 1 <= DecimalValue(month) <= 12
      && 1 <= DecimalValue(day) <= MonthLength(DecimalValue(year), DecimalValue(month))
    }

    predicate ValidTime() {
      && FixedDigits(hour, 2) && DecimalValue(hour) <= 23
      && FixedDigits(minute, 2) && DecimalValue(minute) <= 59
      && FixedDigits(second, 2) && DecimalValue(second) <= 60
      && AllDigits(fraction)
    }

    /** The grammar of section 5.6, the ranges of section 5.7, a fraction of any length. */
    predicate Valid() {
      ValidDate() && ValidTime() && zone.Valid() && separator in {'T', 't', ' '}
    }

    /** The grammar alone: digits, zone and separator, in whatever ranges. */
    predicate Shaped() {
      && FixedDigits(year, 4) && FixedDigits(month, 2) && FixedDigits(day, 2)
      && FixedDigits(hour, 2) && FixedDigits(minute, 2) && FixedDigits(second, 2)
      && AllDigits(fraction) && zone.Valid() && separator in {'T', 't', ' '}
    }

    /** Whole milliseconds of the fraction. */
    function Millis(): nat
      requires AllDigits(fraction)
    {
      DecimalValue((fraction + "000")[..3])
    }

    /** The instant in milliseconds from 1970-01-01T00:00:00Z. */
    function Instant(): int
      requires Valid()
    {
      var days := CountedDays(DecimalValue(year), DecimalValue(month), DecimalValue(day));
      var clock := DecimalValue(hour) * 3_600 + DecimalValue(minute) * 60 + DecimalValue(second);
      (days * 86_400 + clock - zone.Seconds()) * 1_000 + Millis()
    }

    function AsFields(): Fields
      requires Valid()
    {
      Fields((DecimalValue(year), DecimalValue(month), DecimalValue(day)),
             (DecimalValue(hour), DecimalValue(minute), DecimalValue(second)),
             Millis(), zone.Seconds())
    }

    function DateText(): string {
      year + ['-'] + month + ['-'] + day
    }

    function ClockText(): string {
      hour + [':'] + minute + [':'] + second
    }

    function Text(): string {
      DateText() + [separator] + (ClockText() + (if fraction == [] then [] else ['.'] + fraction) + zone.Text())
    }
  }

  ghost predicate FreeOf(s: string, chars: set<char>) {
    forall i :: 0 <= i < |s| ==> s[i] !in chars
  }

  lemma {:induction false} SplitOnceAt(front: string, c: char, back: string, at: set<char>)
    requires FreeOf(front, at) && c in at
    ensures SplitOnce(front + [c] + back, at) == Some((front, back))
  {
    var s := front + [c] + back;
    if front == [] {
      assert s[1..] == back;
    } else {
      assert s[1..] == front[1..] + [c] + back;
      SplitOnceAt(front[1..], c, back, at);
      assert front == [front[0]] + front[1..];
    }
  }

  lemma {:induction false} SplitOnceNowhere(s: string, at: set<char>)
    requires FreeOf(s, at)
    ensures SplitOnce(s, at) == None
  {
    if s != [] {
      SplitOnceNowhere(s[1..], at);
    }
  }

  lemma {:induction false} SplitAt(front: string, at: char, back: string)
    requires FreeOf(front, {at})
    ensures Split(front + [at] + back, at) == [front] + Split(back, at)
  {
    var s := front + [at] + back;
    if front == [] {
      assert s[1..] == back;
    } else {
      assert s[1..] == front[1..] + [at] + back;
      SplitAt(front[1..], at, back);
      assert front == [front[0]] + front[1..];
    }
  }

  lemma {:induction false} SplitNowhere(s: string, at: char)
    requires FreeOf(s, {at})
    ensures Split(s, at) == [s]
  {
    if s != [] {
      SplitNowhere(s[1..], at);
      assert s == [s[0]] + s[1..];
    }
  }

  lemma SplitInThree(a: string, b: string, c: string, at: char)
    requires FreeOf(a, {at}) && FreeOf(b, {at}) && FreeOf(c, {at})
    ensures Split(a + [at] + b + [at] + c, at) == [a, b, c]
  {
    assert a + [at] + b + [at] + c == a + [at] + (b + [at] + c);
    SplitAt(a, at, b + [at] + c);
    SplitAt(b, at, c);
    SplitNowhere(c, at);
  }

  lemma {:induction false} FindLastAt(front: string, c: char, back: string, of: set<char>)
    requires FreeOf(back, of) && c in of
    ensures FindLast(front + [c] + back, of) == Some(|front|)
  {
    var s := front + [c] + back;
    if back != [] {
      assert s[..|s| - 1] == front + [c] + back[..|back| - 1];
      FindLastAt(front, c, back[..|back| - 1], of);
    }
  }

  lemma DigitsParse(s: string)
    requires s != [] && AllDigits(s) && DecimalValue(s) < 10_000
    ensures ParseI64(s) == ParseU32(s) == Some(DecimalValue(s))
  {
    assert IsDigit(s[0]);
  }

  lemma {:induction false} DecimalBound(s: string)
    requires AllDigits(s)
    ensures DecimalValue(s) < Pow10(|s|)
  {
    if s != [] {
      DecimalBound(s[..|s| - 1]);
    }
  }

  lemma ShortDigits(s: string, k: nat)
    requires FixedDigits(s, k) && 1 <= k <= 4
    ensures ParseI64(s) == ParseU32(s) == Some(DecimalValue(s))
  {
    DecimalBound(s);
    assert Pow10(1) == 10 && Pow10(2) == 100 && Pow10(3) == 1_000 && Pow10(4) == 10_000;
    DigitsParse(s);
  }

  lemma DateParses(t: DateTime)
    requires t.Shaped()
    ensures ParseDate(t.DateText()) ==
            if 1 <= DecimalValue(t.month) <= 12 && 1 <= DecimalValue(t.day) <= 31
            then Some((DecimalValue(t.year), DecimalValue(t.month), DecimalValue(t.day))) else None
  {
    ShortDigits(t.year, 4);
    ShortDigits(t.month, 2);
    ShortDigits(t.day, 2);
    SplitInThree(t.year, t.month, t.day, '-');
  }

  lemma ClockParses(t: DateTime)
    requires t.Shaped()
    ensures ParseClock(t.ClockText()) ==
            if DecimalValue(t.hour) <= 23 && DecimalValue(t.minute) <= 59 && DecimalValue(t.second) <= 60
            then Some((DecimalValue(t.hour), DecimalValue(t.minute), DecimalValue(t.second))) else None
  {
    ShortDigits(t.hour, 2);
    ShortDigits(t.minute, 2);
    ShortDigits(t.second, 2);
    SplitInThree(t.hour, t.minute, t.second, ':');
  }

  lemma ZoneParses(zone: Zone)
    requires zone.Valid()
    ensures zone.Text() != [] && ParseOffset(zone.Text()) == Some(zone.Seconds())
  {
    if zone.Offset? {
      ShortDigits(zone.hours, 2);
      ShortDigits(zone.minutes, 2);
      assert zone.Text()[1..] == zone.hours + [':'] + zone.minutes;
      SplitOnceAt(zone.hours, ':', zone.minutes, {':'});
    }
  }

  lemma DecimalSnoc(s: string, c: char)
    requires AllDigits(s) && IsDigit(c)
    ensures AllDigits(s + [c]) && DecimalValue(s + [c]) == 10 * DecimalValue(s) + (c as nat - '0' as nat)
  {
    assert (s + [c])[..|s|] == s;
  }

  lemma FractionParses(t: DateTime)
    requires AllDigits(t.fraction)
    ensures ParseFraction(t.fraction) == Some(t.Millis())
  {
    var f := t.fraction;
    DecimalSnoc(f, '0');
    DecimalSnoc(f + ['0'], '0');
    DecimalSnoc(f + ['0'] + ['0'], '0');
    assert Pow10(0) == 1 && Pow10(1) == 10 && Pow10(2) == 100;
    if |f| >= 3 {
      assert (f + "000")[..3] == f[..3];
      assert |f| == 3 ==> f[..3] == f;
    } else if |f| == 2 {
      assert (f + "000")[..3] == f + ['0'];
    } else if |f| == 1 {
      assert (f + "000")[..3] == f + ['0'] + ['0'];
    } else {
      assert (f + "000")[..3] == f + ['0'] + ['0'] + ['0'];
    }
  }

  /** A text in one piece reads as its pieces do. */
  lemma ReadsPieces(text: string, date: string, separator: char, clock: string, fraction: string, zone: string)
    requires zone != [] && separator in {'T', 't', ' '} && zone[0] in {'Z', 'z', '+', '-'}
    requires FreeOf(date, {'T', 't', ' '}) && FreeOf(clock, {'.'}) && FreeOf(zone[1..], {'Z', 'z', '+', '-'})
    requires text == date + [separator] + (clock + (if fraction == [] then [] else ['.'] + fraction) + zone)
    requires Trim(text) == text
    ensures ReadFields(text) == Gathered(ParseDate(date), ParseClock(clock), ParseFraction(fraction), ParseOffset(zone))
  {
    var time := clock + if fraction == [] then [] else ['.'] + fraction;
    var rest := time + zone;
    SplitOnceAt(date, separator, rest, {'T', 't', ' '});
    assert rest == time + [zone[0]] + zone[1..];
    FindLastAt(time, zone[0], zone[1..], {'Z', 'z', '+', '-'});
    assert rest[..|time|] == time && rest[|time|..] == zone;
    if fraction == [] {
      assert time == clock;
      SplitOnceNowhere(time, {'.'});
    } else {
      assert time == clock + ['.'] + fraction;
      SplitOnceAt(clock, '.', fraction, {'.'});
    }
  }

  lemma ZonePieces(zone: Zone)
    requires zone.Valid()
    ensures zone.Text() != [] && zone.Text()[0] in {'Z', 'z', '+', '-'}
    ensures FreeOf(zone.Text()[1..], {'Z', 'z', '+', '-'})
    ensures !IsSpace(zone.Text()[|zone.Text()| - 1])
  {
    var text := zone.Text();
    if zone.Offset? {
      assert text[1..] == zone.hours + [':'] + zone.minutes;
      assert text[|text| - 1] == zone.minutes[1];
    }
  }

  lemma TrimmedText(text: string, front: string, back: string)
    requires text == front + back && front != [] && back != []
    requires !IsSpace(front[0]) && !IsSpace(back[|back| - 1])
    ensures Trim(text) == text
  {
  }

  lemma TextTrims(t: DateTime)
    requires t.Shaped()
    ensures Trim(t.Text()) == t.Text()
  {
    var zone := t.zone.Text();
    ZonePieces(t.zone);
    var middle := [t.separator] + (t.ClockText() + if t.fraction == [] then [] else ['.'] + t.fraction);
    assert t.Text() == (t.DateText() + middle) + zone;
    assert t.DateText()[0] == t.year[0];
    TrimmedText(t.Text(), t.DateText() + middle, zone);
  }

  lemma ShapeReads(t: DateTime)
    requires t.Shaped()
    ensures ReadFields(t.Text()) ==
            Gathered(ParseDate(t.DateText()), ParseClock(t.ClockText()), Some(t.Millis()), Some(t.zone.Seconds()))
  {
    var date, clock, zone := t.DateText(), t.ClockText(), t.zone.Text();
    TextTrims(t);
    ZonePieces(t.zone);
    assert FreeOf(date, {'T', 't', ' '}) && FreeOf(clock, {'.'});
    ReadsPieces(t.Text(), date, t.separator, clock, t.fraction, zone);
    ZoneParses(t.zone);
    FractionParses(t);
  }

  lemma TextReads(t: DateTime)
    requires t.Valid()
    ensures ReadFields(t.Text()) == Some(t.AsFields())
  {
    ShapeReads(t);
    DateParses(t);
    ClockParses(t);
  }

  /** Of the texts of the right shape exactly those are read whose month is 1 to 12, day 1 to 31,
      hour up to 23, minute up to 59 and second up to 60. */
  lemma ReadExactlyInRange(t: DateTime)
    requires t.Shaped()
    ensures ReadFields(t.Text()).Some? <==>
              && 1 <= DecimalValue(t.month) <= 12 && 1 <= DecimalValue(t.day) <= 31
              && DecimalValue(t.hour) <= 23 && DecimalValue(t.minute) <= 59 && DecimalValue(t.second) <= 60
  {
    ShapeReads(t);
    DateParses(t);
    ClockParses(t);
  }

  lemma FieldsMakeInstant(t: DateTime)
    requires t.Valid()
    ensures UnixMillis(t.AsFields()) == t.Instant() < U64_END
  {
    var year, month, day := DecimalValue(t.year), DecimalValue(t.month), DecimalValue(t.day);
    CivilDaysCounts(year, month, day);
    DecimalBound(t.year);
    assert Pow10(3) == 1_000 && Pow10(4) == 10_000;
    YearsInClosedForm(year);
    MonthsFromMarch(year, month);
    assert CountedDays(year, month, day) <= 4_000_000;
    DecimalBound((t.fraction + "000")[..3]);
    assert t.zone.Seconds() >= -86_400;
  }

  /** Every valid date-time with a four-digit year is read as its instant, in whole
      milliseconds; instants before 1970 give nothing. */
  lemma ReadsEveryDateTime(t: DateTime)
    requires t.Valid()
    ensures ToUnixMillis(t.Text()) == if t.Instant() >= 0 then Some(t.Instant()) else None
  {
    TextReads(t);
    FieldsMakeInstant(t);
  }

  /** Two spellings of one instant, whatever their offsets and separators, read the same. */
  lemma SameInstantSameMillis(a: DateTime, b: DateTime)
    requires a.Valid() && b.Valid() && a.Instant() == b.Instant()
    ensures ToUnixMillis(a.Text()) == ToUnixMillis(b.Text())
  {
    ReadsEveryDateTime(a);
    ReadsEveryDateTime(b);
  }

  // ---- What else is read, and what is not -----------------------------------------------

  /** White space around a text does not matter. */
  lemma PaddedTextReads(t: DateTime, front: string, back: string)
    requires t.Shaped() && Blank(front) && Blank(back)
    ensures ReadFields(front + t.Text() + back) == ReadFields(t.Text())
  {
    hide Split, SplitOnce, FindLast, Trim, ParseDate, ParseClock, ParseFraction, ParseOffset;
    TextTrims(t);
    TextEnds(t);
    TrimPads(front, t.Text(), back);
  }

  lemma TextEnds(t: DateTime)
    requires t.Shaped()
    ensures var s := t.Text(); s != [] && !IsSpace(s[0]) && !IsSpace(s[|s| - 1])
  {
    ZonePieces(t.zone);
    var zone, text := t.zone.Text(), t.Text();
    assert text[0] == t.year[0] && text[|text| - 1] == zone[|zone| - 1];
  }

  lemma SplitInFour(a: string, b: string, c: string, d: string, at: char)
    requires FreeOf(a, {at}) && FreeOf(b, {at}) && FreeOf(c, {at}) && FreeOf(d, {at})
    ensures Split(a + [at] + (b + [at] + c + [at] + d), at) == [a, b, c, d]
  {
    SplitInThree(b, c, d, at);
    SplitAt(a, at, b + [at] + c + [at] + d);
    SplitNowhere(a, at);
  }

  /** A fourth part of the date, or of the clock, is refused. */
  lemma ExtraPartRefused(t: DateTime, extra: string)
    requires t.Shaped() && AllDigits(extra)
    ensures ParseDate(t.year + ['-'] + (t.month + ['-'] + t.day + ['-'] + extra)) == None
    ensures ParseClock(t.hour + [':'] + (t.minute + [':'] + t.second + [':'] + extra)) == None
  {
    hide ParseI64, ParseU32, Split;
    SplitInFour(t.year, t.month, t.day, extra, '-');
    SplitInFour(t.hour, t.minute, t.second, extra, ':');
  }

  /** Integers are read with an optional sign, a minus only where negative numbers exist, and
      within 64 bits and 32 bits. */
  lemma IntegersParseExactly(digits: string)
    requires digits != [] && AllDigits(digits)
    ensures ParseI64(digits) == ParseI64("+" + digits)
    ensures ParseI64(digits) == if DecimalValue(digits) < 0x8000_0000_0000_0000 then Some(DecimalValue(digits)) else None
    ensures var n: int := DecimalValue(digits); ParseI64("-" + digits) == if n <= 0x8000_0000_0000_0000 then Some(-n) else None
    ensures ParseU32(digits) == ParseU32("+" + digits)
    ensures ParseU32(digits) == if DecimalValue(digits) < 0x1_0000_0000 then Some(DecimalValue(digits)) else None
    ensures ParseU32("-" + digits) == None
  {
    assert ("+" + digits)[1..] == digits && ("-" + digits)[1..] == digits;
    assert ("-" + digits)[0] == '-';
  }
}
