/** Model of `parseMLSxDate` of src/parseListMLSD.ts, on top of the proleptic Gregorian day count that
    `Date.UTC` uses. */
module MlsxDate {
  import opened ReplyParser
  import opened Numbers

  const MS_PER_DAY := 86_400_000
  /** Largest time value of a Date. */
  const MAX_TIME := 8_640_000_000_000_000

  // ---------------------------------------------------------------- Date.UTC

  predicate IsLeap(year: int) {
    year % 4 == 0 && (year % 100 != 0 || year % 400 == 0)
  }

  /** Months count from 0. */
  function MonthLength(year: int, month: int): int {
    if month == 1 then if IsLeap(year) then 29 else 28
    else if month == 3 || month == 5 || month == 8 || month == 10 then 30
    else 31
  }

  /** Days of the year before a month. */
  function MonthStart(year: int, month: nat): int {
    if month == 0 then 0 else MonthStart(year, month - 1) + MonthLength(year, month - 1)
  }

  /** Days from 1970-01-01 to the first day of a year. */
  function YearStart(year: int): int {
    365 * (year - 1970) + (year - 1969) / 4 - (year - 1901) / 100 + (year - 1601) / 400
  }

  function MakeDay(year: int, month: int, day: int): int {
    YearStart(year + month / 12) + MonthStart(year + month / 12, month % 12) + day - 1
  }

  function MakeTime(hour: int, minute: int, second: int, milli: int): int {
    hour * 3_600_000 + minute * 60_000 + second * 1000 + milli
  }

  function Trunc(x: real): int {
    if x >= 0.0 then x.Floor else -((-x).Floor)
  }

  /** Years from 0 to 99 mean the twentieth century. */
  function FullYear(year: int): int {
    if 0 <= year <= 99 then 1900 + year else year
  }

  /** The arguments of `Date.UTC`; months count from 0. */
  datatype Parts = Parts(year: real, month: real, day: real, hour: real, minute: real, second: real, milli: real)

  /** Milliseconds since 1970; None is an invalid date. */
  function DateUTC(p: Parts): Option<int> {
    var t := MakeDay(FullYear(Trunc(p.year)), Trunc(p.month), Trunc(p.day)) * MS_PER_DAY
             + MakeTime(Trunc(p.hour), Trunc(p.minute), Trunc(p.second), Trunc(p.milli));
    if -MAX_TIME <= t <= MAX_TIME then Some(t) else None
  }

  /** `s.slice(from, to)` */
  function Slice(s: string, from: nat, to: nat): string
    requires from <= to
  {
    if |s| <= from then "" else if |s| <= to then s[from..] else s[from..to]
  }

  /** Where year, month, day, hours, minutes, seconds and milliseconds stand. */
  const SLICES: seq<(nat, nat)> := [(0, 4), (4, 6), (6, 8), (8, 10), (10, 12), (12, 14), (15, 18)]

  /** The unary plus on each slice. */
  function ReadSlices(fact: string, slices: seq<(nat, nat)>): (r: Option<seq<real>>)
    requires forall i | 0 <= i < |slices| :: slices[i].0 <= slices[i].1
    ensures r.Some? ==> |r.value| == |slices|
    decreases |slices|
  {
    if slices == [] then Some([])
    else
      var number := ToNumber(Slice(fact, slices[0].0, slices[0].1));
      var rest := ReadSlices(fact, slices[1..]);
      if number.Some? && rest.Some? then Some([number.value] + rest.value) else None
  }

  function MakeParts(n: seq<real>): Parts
    requires |n| == 7
  {
    Parts(n[0], n[1] - 1.0, n[2], n[3], n[4], n[5], n[6])
  }

  function ReadParts(fact: string): Option<Parts> {
    match ReadSlices(fact, SLICES)
    case Some(n) => Some(MakeParts(n))
    case None => None
  }

  function ParseMLSxDate(fact: string): Option<int> {
    match ReadParts(fact)
    case Some(p) => DateUTC(p)
    case None => None
  }

  // ---------------------------------------------------------------- calendar

  /** A point in time of section 2.3 of RFC 3659; months and days count from 1. */
  datatype Stamp = Stamp(year: int, month: int, day: int, hour: int, minute: int, second: int, milli: int)

  predicate ValidDay(year: int, month: int, day: int) {
    1 <= month <= 12 && 1 <= day <= MonthLength(year, month - 1)
  }

  /** Second 60 is a leap second. */
  predicate ValidStamp(s: Stamp) {
    && ValidDay(s.year, s.month, s.day)
    && 0 <= s.hour <= 23 && 0 <= s.minute <= 59 && 0 <= s.second <= 60 && 0 <= s.milli <= 999
  }

  function Days(year: int, month: int, day: int): int
    requires 1 <= month
  {
    YearStart(year) + MonthStart(year, month - 1) + day - 1
  }

  function Instant(s: Stamp): int
    requires 1 <= s.month
  {
    Days(s.year, s.month, s.day) * MS_PER_DAY + MakeTime(s.hour, s.minute, s.second, s.milli)
  }

  predicate EarlierDay(a: Stamp, b: Stamp) {
    a.year < b.year || (a.year == b.year && (a.month < b.month || (a.month == b.month && a.day < b.day)))
  }

  predicate SameDay(a: Stamp, b: Stamp) {
    a.year == b.year && a.month == b.month && a.day == b.day
  }

  predicate EarlierTime(a: Stamp, b: Stamp) {
    || a.hour < b.hour
    || (a.hour == b.hour
        && (a.minute < b.minute
            || (a.minute == b.minute
                && (a.second < b.second || (a.second == b.second && a.milli < b.milli)))))
  }

  /** Order of the calendar: field by field. */
  predicate Earlier(a: Stamp, b: Stamp) {
    EarlierDay(a, b) || (SameDay(a, b) && EarlierTime(a, b))
  }

  /** The day after. `MonthsStart` and `MonthsLast` say where months end, `EpochIsDayZero` where counting
      begins. */
  function NextDay(year: int, month: int, day: int): (int, int, int) {
    if day < MonthLength(year, month - 1) then (year, month, day + 1)
    else if month < 12 then (year, month + 1, 1)
    else (year + 1, 1, 1)
  }

  lemma StepOfQuotient(n: int, k: int)
    requires k > 0
    ensures (n + 1) / k == n / k + (if (n + 1) % k == 0 then 1 else 0)
  {
    var q, r := n / k, n % k;
    assert n == q * k + r;
    if r == k - 1 {
      assert n + 1 == (q + 1) * k;
      QuotientIs(n + 1, k, q + 1, 0);
    } else {
      assert n + 1 == q * k + (r + 1);
      QuotientIs(n + 1, k, q, r + 1);
    }
  }

  lemma QuotientIs(n: int, k: int, q: int, r: int)
    requires k > 0 && n == q * k + r && 0 <= r < k
    ensures n / k == q && n % k == r
  {
    var d := n / k - q;
    assert d * k == r - n % k;
    assert d < 1 && d > -1;
  }

  /** The quotient steps up exactly at the multiples of `k`, wherever counting begins. */
  lemma StepAt(n: int, k: int, c: int)
    requires k > 0
    ensures (n - c * k) / k == (n - c * k - 1) / k + One(n % k == 0)
  {
    StepOfQuotient(n - c * k - 1, k);
    var q, r := n / k, n % k;
    assert (q - c) * k == q * k - c * k;
    QuotientIs(n - c * k, k, q - c, r);
  }

  lemma MultipleIsMultiple(n: int, k: int, c: int)
    requires k > 0 && c > 0 && n % (k * c) == 0
    ensures n % k == 0
  {
    var q := n / (k * c);
    assert n == q * (k * c) == (q * c) * k;
    QuotientIs(n, k, q * c, 0);
  }

  function One(b: bool): int {
    if b then 1 else 0
  }

  lemma LeapRule(year: int)
    ensures One(IsLeap(year)) == One(year % 4 == 0) - One(year % 100 == 0) + One(year % 400 == 0)
  {
    if year % 100 == 0 { MultipleIsMultiple(year, 4, 25); }
    if year % 400 == 0 { MultipleIsMultiple(year, 100, 4); }
  }

  lemma YearSteps(year: int)
    ensures YearStart(year + 1) == YearStart(year) + 365 + One(IsLeap(year))
  {
    StepAt(year, 4, 492);
    StepAt(year, 100, 19);
    StepAt(year, 400, 4);
    LeapRule(year);
  }

  lemma MonthsAre(year: int, month: int)
    requires 1 <= month <= 12
    ensures MonthStart(year, 12) == 365 + One(IsLeap(year))
    ensures month < 12 ==> MonthStart(year, month) == MonthStart(year, month - 1) + MonthLength(year, month - 1)
  {
    MonthStartIs(year);
  }

  lemma MonthStartIs(year: int)
    ensures MonthStart(year, 12) == 365 + One(IsLeap(year))
  {
    assert MonthStart(year, 1) == 31;
    assert MonthStart(year, 2) == 31 + MonthLength(year, 1);
    assert MonthStart(year, 4) == MonthStart(year, 2) + 61;
    assert MonthStart(year, 6) == MonthStart(year, 4) + 61;
    assert MonthStart(year, 8) == MonthStart(year, 6) + 62;
    assert MonthStart(year, 10) == MonthStart(year, 8) + 61;
  }

  lemma NextDayCounts(year: int, month: int, day: int)
    requires ValidDay(year, month, day)
    ensures var n := NextDay(year, month, day);
            ValidDay(n.0, n.1, n.2) && Days(n.0, n.1, n.2) == Days(year, month, day) + 1
  {
    MonthsAre(year, month);
    if day == MonthLength(year, month - 1) {
      if month < 12 {
        MonthsAre(year, month + 1);
      } else {
        YearSteps(year);
        MonthsAre(year + 1, 1);
        assert MonthStart(year, 12) == MonthStart(year, 11) + MonthLength(year, 11);
      }
    }
  }

  // ---------------------------------------------------------------- the calendar in numbers

  /** Days before each month of a common year. */
  function DaysBefore(month: int): int {
    match month
    case 1 => 0 case 2 => 31 case 3 => 59 case 4 => 90 case 5 => 120 case 6 => 151
    case 7 => 181 case 8 => 212 case 9 => 243 case 10 => 273 case 11 => 304 case 12 => 334
    case _ => 365
  }

  predicate LeapYear(year: int) {
    (year % 4 == 0 && year % 100 != 0) || year % 400 == 0
  }

  /** Where each month starts, and how long each year is. */
  lemma MonthsStart(year: int, month: int)
    requires 1 <= month <= 12
    ensures Days(year, month, 1) - Days(year, 1, 1) == DaysBefore(month) + One(month > 2 && LeapYear(year))
    ensures Days(year + 1, 1, 1) - Days(year, 1, 1) == 365 + One(LeapYear(year))
  {
    LeapRule(year);
    YearSteps(year);
    LeapIsLeap(year);
    StartsAre(year);
  }

  lemma LeapIsLeap(year: int)
    ensures IsLeap(year) <==> LeapYear(year)
  {
    if year % 400 == 0 { MultipleIsMultiple(year, 4, 100); }
  }

  lemma StartsAre(year: int)
    ensures forall m: nat | 1 <= m <= 12 :: MonthStart(year, m - 1) == DaysBefore(m) + One(m > 2 && IsLeap(year))
  {
    assert MonthStart(year, 0) == 0;
    assert MonthStart(year, 1) == 31;
    var l := 59 + One(IsLeap(year));
    assert MonthStart(year, 2) == l;
    assert MonthStart(year, 3) == l + 31;
    assert MonthStart(year, 4) == l + 61;
    assert MonthStart(year, 5) == l + 92;
    assert MonthStart(year, 6) == l + 122;
    assert MonthStart(year, 7) == l + 153;
    assert MonthStart(year, 8) == l + 184;
    assert MonthStart(year, 9) == l + 214;
    assert MonthStart(year, 10) == l + 245;
    assert MonthStart(year, 11) == l + 275;
    forall m: nat | 1 <= m <= 12
      ensures MonthStart(year, m - 1) == DaysBefore(m) + One(m > 2 && IsLeap(year))
    {
      assert m == 1 || m == 2 || m == 3 || m == 4 || m == 5 || m == 6 || m == 7 || m == 8 || m == 9 || m == 10
             || m == 11 || m == 12;
    }
  }

  /** The valid days of a month are those up to the start of the next one. */
  lemma MonthsLast(year: int, month: int, day: int)
    requires 1 <= month <= 12
    ensures ValidDay(year, month, day) <==>
              1 <= day <= DaysBefore(month + 1) - DaysBefore(month) + One(month == 2 && LeapYear(year))
  {
    LeapIsLeap(year);
    assert month == 1 || month == 2 || month == 3 || month == 4 || month == 5 || month == 6 || month == 7
           || month == 8 || month == 9 || month == 10 || month == 11 || month == 12;
  }

  /** Days within a month count one by one, also beyond its end. */
  lemma DaysCount(year: int, month: int, day: int)
    requires 1 <= month
    ensures Days(year, month, day) == Days(year, month, 1) + day - 1
  {
  }

  lemma EpochIsDayZero(year: int, month: int, day: int)
    requires year == 1970 && month == 1 && day == 1
    ensures Days(year, month, day) == 0
  {
    assert YearStart(year) == 0 && MonthStart(year, month - 1) == 0;
  }

  // ---------------------------------------------------------------- order of instants

  lemma {:induction false} MonthStartsGrow(year: int, m: nat, n: nat)
    requires m < n
    ensures MonthStart(year, m) + MonthLength(year, m) <= MonthStart(year, n)
    decreases n
  {
    if m < n - 1 {
      MonthStartsGrow(year, m, n - 1);
    }
  }

  lemma {:induction false} YearStartsGrow(y: int, z: int)
    requires y <= z
    ensures YearStart(y) <= YearStart(z)
    decreases z - y
  {
    if y < z {
      YearSteps(z - 1);
      YearStartsGrow(y, z - 1);
    }
  }

  lemma DayWithinYear(year: int, month: int, day: int)
    requires ValidDay(year, month, day)
    ensures YearStart(year) <= Days(year, month, day) < YearStart(year + 1)
  {
    MonthsAre(year, month);
    YearSteps(year);
    MonthStartsGrow(year, month - 1, 12);
    if month > 1 {
      MonthStartsGrow(year, 0, month - 1);
    }
  }

  lemma DaysInOrder(a: Stamp, b: Stamp)
    requires ValidDay(a.year, a.month, a.day) && ValidDay(b.year, b.month, b.day) && EarlierDay(a, b)
    ensures Days(a.year, a.month, a.day) < Days(b.year, b.month, b.day)
  {
    if a.year < b.year {
      DayWithinYear(a.year, a.month, a.day);
      DayWithinYear(b.year, b.month, b.day);
      YearStartsGrow(a.year + 1, b.year);
    } else if a.month < b.month {
      MonthStartsGrow(a.year, a.month - 1, b.month - 1);
    }
  }

  lemma InstantsInOrder(a: Stamp, b: Stamp)
    requires ValidStamp(a) && ValidStamp(b) && a.second <= 59 && Earlier(a, b)
    ensures Instant(a) < Instant(b)
  {
    if EarlierDay(a, b) {
      DaysInOrder(a, b);
    }
  }

  /** An instant counts milliseconds from the beginning of 1970: each field by its own measure. */
  lemma FieldsCount(a: Stamp, n: int)
    requires 1 <= a.month
    ensures Instant(a.(milli := a.milli + n)) == Instant(a) + n
    ensures Instant(a.(second := a.second + n)) == Instant(a) + 1000 * n
    ensures Instant(a.(minute := a.minute + n)) == Instant(a) + 1000 * 60 * n
    ensures Instant(a.(hour := a.hour + n)) == Instant(a) + 1000 * 60 * 60 * n
    ensures Instant(a.(day := a.day + n)) == Instant(a) + 1000 * 60 * 60 * 24 * n
  {
  }

  lemma EpochIsZero(a: Stamp)
    requires a.year == 1970 && a.month == 1 && a.day == 1
    requires a.hour == 0 && a.minute == 0 && a.second == 0 && a.milli == 0
    ensures Instant(a) == 0
  {
    EpochIsDayZero(a.year, a.month, a.day);
  }

  function NextMinute(a: Stamp): Stamp {
    if a.minute < 59 then a.(minute := a.minute + 1, second := 0)
    else if a.hour < 23 then a.(hour := a.hour + 1, minute := 0, second := 0)
    else
      var n := NextDay(a.year, a.month, a.day);
      Stamp(n.0, n.1, n.2, 0, 0, 0, a.milli)
  }

  lemma LeapSecondCollides(a: Stamp)
    requires ValidStamp(a) && a.second == 60
    ensures ValidStamp(NextMinute(a)) && Earlier(a, NextMinute(a)) && Instant(NextMinute(a)) == Instant(a)
  {
    if a.minute == 59 && a.hour == 23 {
      NextDayCounts(a.year, a.month, a.day);
    }
  }

  /** A stamp comes before all later ones exactly if it is not a leap second. */
  lemma LeapSecondExactly(a: Stamp)
    requires ValidStamp(a)
    ensures (forall b | ValidStamp(b) && Earlier(a, b) :: Instant(a) < Instant(b)) <==> a.second <= 59
  {
    if a.second <= 59 {
      forall b | ValidStamp(b) && Earlier(a, b) ensures Instant(a) < Instant(b) {
        InstantsInOrder(a, b);
      }
    } else {
      LeapSecondCollides(a);
      var b := NextMinute(a);
      assert ValidStamp(b) && Earlier(a, b) && Instant(a) == Instant(b);
    }
  }

  // ---------------------------------------------------------------- strings

  /** YYYYMMDDHHMMSS, optionally with a point and fraction digits. */
  predicate IsTimeVal(s: string) {
    && |s| >= 14 && AllDigits(s[..14], 10)
    && (|s| > 14 ==> |s| > 15 && s[14] == '.' && AllDigits(s[15..], 10))
  }

  function Field(s: string, from: nat, to: nat): (n: nat)
    requires IsTimeVal(s) && from <= to <= 14
  {
    assert forall i | 0 <= i < to - from :: s[from..to][i] == s[..14][from + i];
    Value(s[from..to])
  }

  function Fraction(s: string): (f: string)
    requires IsTimeVal(s)
    ensures AllDigits(f, 10)
  {
    if |s| == 14 then "" else s[15..]
  }

  /** Whole milliseconds of a fraction of a second. */
  function FractionMillis(f: string): nat
    requires AllDigits(f, 10)
  {
    match |f|
    case 0 => 0
    case 1 => 100 * Value(f)
    case 2 => 10 * Value(f)
    case _ => Value(f[..3])
  }

  function StampOf(s: string): Stamp
    requires IsTimeVal(s)
  {
    Stamp(Field(s, 0, 4), Field(s, 4, 6), Field(s, 6, 8), Field(s, 8, 10), Field(s, 10, 12), Field(s, 12, 14),
          FractionMillis(Fraction(s)))
  }

  /** The milliseconds that the code reads from the fraction. */
  function MillisRead(s: string): nat
    requires IsTimeVal(s)
  {
    var f := Fraction(s);
    if |f| <= 3 then Value(f) else Value(f[..3])
  }

  lemma ShortValue(s: string)
    requires AllDigits(s, 10) && |s| <= 4
    ensures Value(s) < [1, 10, 100, 1000, 10000][|s|]
  {
    if s != "" {
      ShortValue(s[..|s| - 1]);
    }
  }

  /** The value of one of the slices. */
  function SliceValue(s: string, i: nat): (n: nat)
    requires IsTimeVal(s) && i < 7
  {
    if i == 6 then MillisRead(s) else Field(s, SLICES[i].0, SLICES[i].1)
  }

  lemma SliceIsRead(s: string, i: nat)
    requires IsTimeVal(s) && i < 7
    ensures ToNumber(Slice(s, SLICES[i].0, SLICES[i].1)) == Some(SliceValue(s, i) as real)
  {
    if i == 6 {
      SliceIsFraction(s);
    } else {
      SliceIsField(s, SLICES[i].0, SLICES[i].1);
    }
  }

  lemma SliceIsField(s: string, from: nat, to: nat)
    requires IsTimeVal(s) && from < to <= 14
    ensures ToNumber(Slice(s, from, to)) == Some(Field(s, from, to) as real)
  {
    assert Slice(s, from, to) == s[from..to];
    assert forall i | 0 <= i < to - from :: s[from..to][i] == s[..14][from + i];
    DigitsAreRead(s[from..to]);
  }

  lemma SliceIsFraction(s: string)
    requires IsTimeVal(s)
    ensures ToNumber(Slice(s, 15, 18)) == Some(MillisRead(s) as real) && MillisRead(s) <= 999
  {
    var f := Fraction(s);
    var g := if |f| <= 3 then f else f[..3];
    assert Slice(s, 15, 18) == g;
    DigitsAreRead(g);
    ShortValue(g);
  }

  predicate IsNumberAt(s: string, slice: (nat, nat), n: real) {
    slice.0 <= slice.1 && ToNumber(Slice(s, slice.0, slice.1)) == Some(n)
  }

  /** Reading some slices, each of which is a number. */
  lemma {:induction false} SlicesAreNumbers(s: string, slices: seq<(nat, nat)>, numbers: seq<real>)
    requires forall i | 0 <= i < |slices| :: slices[i].0 <= slices[i].1
    requires |slices| == |numbers| && forall i | 0 <= i < |slices| :: IsNumberAt(s, slices[i], numbers[i])
    ensures ReadSlices(s, slices) == Some(numbers)
    decreases |slices|
  {
    if slices != [] {
      assert IsNumberAt(s, slices[0], numbers[0]);
      forall i | 0 <= i < |slices[1..]| ensures IsNumberAt(s, slices[1..][i], numbers[1..][i]) {
        assert IsNumberAt(s, slices[i + 1], numbers[i + 1]);
      }
      SlicesAreNumbers(s, slices[1..], numbers[1..]);
      assert [numbers[0]] + numbers[1..] == numbers;
    }
  }

  lemma FieldBounds(s: string)
    requires IsTimeVal(s)
    ensures 0 <= Field(s, 0, 4) <= 9999
  {
    assert forall i | 0 <= i < 4 :: s[0..4][i] == s[..14][i];
    ShortValue(s[0..4]);
  }

  function PartsOf(y: int, month: int, day: int, hour: int, minute: int, second: int, milli: int): Parts {
    Parts(y as real, (month - 1) as real, day as real, hour as real, minute as real, second as real, milli as real)
  }

  lemma AllSlicesAreNumbers(s: string, numbers: seq<real>)
    requires IsTimeVal(s) && |numbers| == 7 && forall k | 0 <= k < 7 :: numbers[k] == SliceValue(s, k) as real
    ensures ReadSlices(s, SLICES) == Some(numbers)
  {
    forall i | 0 <= i < 7 ensures IsNumberAt(s, SLICES[i], numbers[i]) {
      SliceIsRead(s, i);
    }
    SlicesAreNumbers(s, SLICES, numbers);
  }

  lemma PartsOfIntegers(n: seq<real>, y: int, month: int, day: int, hour: int, minute: int, second: int, milli: int)
    requires |n| == 7 && n[0] == y as real && n[1] == month as real && n[2] == day as real && n[3] == hour as real
    requires n[4] == minute as real && n[5] == second as real && n[6] == milli as real
    ensures MakeParts(n) == PartsOf(y, month, day, hour, minute, second, milli)
  {
  }

  /** All slices of such a string are numbers. */
  lemma SlicesAreRead(s: string)
    requires IsTimeVal(s)
    ensures ReadParts(s) == Some(PartsOf(SliceValue(s, 0), SliceValue(s, 1), SliceValue(s, 2), SliceValue(s, 3),
                                         SliceValue(s, 4), SliceValue(s, 5), SliceValue(s, 6)))
  {
    var numbers := seq(7, k requires 0 <= k < 7 => SliceValue(s, k) as real);
    AllSlicesAreNumbers(s, numbers);
    PartsOfIntegers(numbers, SliceValue(s, 0), SliceValue(s, 1), SliceValue(s, 2), SliceValue(s, 3),
                    SliceValue(s, 4), SliceValue(s, 5), SliceValue(s, 6));
  }

  lemma FieldsMakeInstant(s: string)
    requires IsTimeVal(s) && ValidStamp(StampOf(s))
    ensures DateUTC(PartsOf(SliceValue(s, 0), SliceValue(s, 1), SliceValue(s, 2), SliceValue(s, 3),
                            SliceValue(s, 4), SliceValue(s, 5), SliceValue(s, 6)))
            == Some(Instant(StampOf(s).(year := FullYear(StampOf(s).year), milli := MillisRead(s))))
  {
    SliceIsFraction(s);
    FieldBounds(s);
    var r := StampOf(s).(year := FullYear(StampOf(s).year), milli := MillisRead(s));
    InstantInRange(r);
    DateOfIntegers(Field(s, 0, 4), r);
  }

  /** What the code makes of a string with valid fields. */
  lemma ReadsAs(s: string)
    requires IsTimeVal(s) && ValidStamp(StampOf(s))
    ensures ParseMLSxDate(s) == Some(Instant(StampOf(s).(year := FullYear(StampOf(s).year), milli := MillisRead(s))))
    ensures FullYear(StampOf(s).year) == if StampOf(s).year < 100 then 1900 + StampOf(s).year else StampOf(s).year
  {
    SlicesAreRead(s);
    FieldsMakeInstant(s);
  }

  lemma MonthInYear(year: int, month: int, day: int)
    requires 1 <= month <= 12
    ensures MakeDay(year, month - 1, day) == Days(year, month, day)
  {
    QuotientIs(month - 1, 12, 0, month - 1);
  }

  /** Months beyond December are months of the years after. */
  lemma MonthsCarry(year: int, month: int, day: int)
    ensures MakeDay(year, month + 12, day) == MakeDay(year + 1, month, day)
    ensures MakeDay(year, month, day + 1) == MakeDay(year, month, day) + 1
  {
    QuotientIs(month + 12, 12, month / 12 + 1, month % 12);
  }

  lemma TruncOfInteger(n: int)
    ensures Trunc(n as real) == n
  {
  }

  lemma DateOfIntegers(y: int, r: Stamp)
    requires FullYear(y) == r.year && 1 <= r.month <= 12
    requires -MAX_TIME <= Instant(r) <= MAX_TIME
    ensures DateUTC(PartsOf(y, r.month, r.day, r.hour, r.minute, r.second, r.milli)) == Some(Instant(r))
  {
    MonthInYear(r.year, r.month, r.day);
    TruncOfInteger(y);
    TruncOfInteger(r.month - 1);
    TruncOfInteger(r.day);
    TruncOfInteger(r.hour);
    TruncOfInteger(r.minute);
    TruncOfInteger(r.second);
    TruncOfInteger(r.milli);
  }

  lemma InstantInRange(s: Stamp)
    requires 0 <= s.year <= 9999 && 1 <= s.month <= 12 && 1 <= s.day <= 31
    requires 0 <= s.hour <= 23 && 0 <= s.minute <= 59 && 0 <= s.second <= 60 && 0 <= s.milli <= 999
    ensures -MAX_TIME <= Instant(s) <= MAX_TIME
  {
    MonthStartIs(s.year);
    if s.month > 1 { MonthStartsGrow(s.year, 0, s.month - 1); }
    if s.month < 12 { MonthStartsGrow(s.year, s.month - 1, 12); }
    YearStartsGrow(0, s.year);
    YearStartsGrow(s.year, 9999);
  }

  // ---------------------------------------------------------------- what is read right

  predicate FractionIsRead(f: string)
    requires AllDigits(f, 10)
  {
    f == "" || |f| >= 3 || Value(f) == 0
  }

  /** Digits of a fraction are taken as milliseconds: right exactly if there are none, at least three,
      or only zeros. */
  lemma FractionExactly(s: string)
    requires IsTimeVal(s)
    ensures MillisRead(s) == FractionMillis(Fraction(s)) <==> FractionIsRead(Fraction(s))
  {
    var f := Fraction(s);
    if |f| == 3 { assert f[..3] == f; }
  }

  lemma OldYearsMoved(s: Stamp, milli: int)
    requires ValidStamp(s) && 0 <= s.year <= 99 && 0 <= milli <= 999
    ensures Instant(s) < Instant(s.(year := 1900 + s.year, milli := milli))
  {
    DayWithinYear(s.year, s.month, s.day);
    YearStartsGrow(s.year + 1, 1900 + s.year);
    if s.month > 1 { MonthStartsGrow(1900 + s.year, 0, s.month - 1); }
    DaysAreApart(Days(s.year, s.month, s.day), Days(1900 + s.year, s.month, s.day),
                 MakeTime(s.hour, s.minute, s.second, 0), s.milli, milli);
  }

  lemma DaysAreApart(d: int, e: int, time: int, m: int, n: int)
    requires d < e && 0 <= m <= 999 && 0 <= n <= 999
    ensures d * MS_PER_DAY + (time + m) < e * MS_PER_DAY + (time + n)
  {
  }

  lemma SameInstant(s: Stamp, milli: int)
    requires ValidStamp(s) && s.year >= 0 && 0 <= milli <= 999
    ensures Instant(s.(year := FullYear(s.year), milli := milli)) == Instant(s) <==> s.year >= 100 && milli == s.milli
  {
    if s.year < 100 {
      OldYearsMoved(s, milli);
    }
  }

  /** A time in a valid calendar string is read as the instant it denotes exactly if the year is at
      least 100 and the fraction is read right. */
  lemma ReadExactly(s: string)
    requires IsTimeVal(s) && ValidStamp(StampOf(s))
    ensures ParseMLSxDate(s) == Some(Instant(StampOf(s))) <==>
            StampOf(s).year >= 100 && FractionIsRead(Fraction(s))
  {
    var m := MillisRead(s);
    assert 0 <= m <= 999 by { SliceIsFraction(s); }
    FractionExactly(s);
    SameInstant(StampOf(s), m);
    ReadsAs(s);
  }

  predicate Readable(s: string) {
    IsTimeVal(s) && ValidStamp(StampOf(s)) && StampOf(s).second <= 59
    && StampOf(s).year >= 100 && FractionIsRead(Fraction(s))
  }

  /** Parsing such strings keeps the order of the calendar strictly and identifies only equal times. */
  lemma ParsingKeepsOrder(a: string, b: string)
    requires Readable(a) && Readable(b)
    ensures ParseMLSxDate(a).Some? && ParseMLSxDate(b).Some?
    ensures ParseMLSxDate(a).value < ParseMLSxDate(b).value <==> Earlier(StampOf(a), StampOf(b))
    ensures ParseMLSxDate(a) == ParseMLSxDate(b) <==> StampOf(a) == StampOf(b)
  {
    ReadExactly(a);
    ReadExactly(b);
    StampsInOrder(StampOf(a), StampOf(b));
  }

  lemma StampsInOrder(a: Stamp, b: Stamp)
    requires ValidStamp(a) && ValidStamp(b) && a.second <= 59 && b.second <= 59
    ensures Instant(a) < Instant(b) <==> Earlier(a, b)
    ensures Instant(a) == Instant(b) <==> a == b
  {
    assert a == b || Earlier(a, b) || Earlier(b, a);
    if Earlier(a, b) {
      InstantsInOrder(a, b);
    } else if Earlier(b, a) {
      InstantsInOrder(b, a);
    }
  }

  // ---------------------------------------------------------------- times that are misread

  lemma TwoDigits(s: string)
    requires AllDigits(s, 10) && |s| == 2
    ensures Value(s) == 10 * DigitValue(s[0]) + DigitValue(s[1])
  {
    assert ValueIn(s[..1], 10) == 10 * ValueIn(s[..1][..0], 10) + DigitValue(s[0]);
  }

  lemma FourDigits(s: string)
    requires AllDigits(s, 10) && |s| == 4
    ensures Value(s) == 1000 * DigitValue(s[0]) + 100 * DigitValue(s[1]) + 10 * DigitValue(s[2]) + DigitValue(s[3])
  {
    TwoDigits(s[..2]);
    assert s[..3][..2] == s[..2];
    assert ValueIn(s[..3], 10) == 10 * ValueIn(s[..2], 10) + DigitValue(s[2]);
  }

  /** The stamp of a string whose fields are given by their digits. */
  lemma FieldsAre(s: string)
    requires IsTimeVal(s)
    ensures Field(s, 0, 4) == 1000 * DigitValue(s[0]) + 100 * DigitValue(s[1]) + 10 * DigitValue(s[2]) + DigitValue(s[3])
    ensures Field(s, 4, 6) == 10 * DigitValue(s[4]) + DigitValue(s[5])
    ensures Field(s, 6, 8) == 10 * DigitValue(s[6]) + DigitValue(s[7])
    ensures Field(s, 8, 10) == 10 * DigitValue(s[8]) + DigitValue(s[9])
    ensures Field(s, 10, 12) == 10 * DigitValue(s[10]) + DigitValue(s[11])
    ensures Field(s, 12, 14) == 10 * DigitValue(s[12]) + DigitValue(s[13])
  {
    forall i | 0 <= i < 14 ensures 0 <= DigitValue(s[i]) < 10 {
      assert s[..14][i] == s[i];
    }
    FourDigits(s[0..4]);
    TwoDigits(s[4..6]);
    TwoDigits(s[6..8]);
    TwoDigits(s[8..10]);
    TwoDigits(s[10..12]);
    TwoDigits(s[12..14]);
  }

  lemma MisreadStamp(s: string, st: Stamp, milli: int)
    requires IsTimeVal(s) && StampOf(s) == st && ValidStamp(st) && MillisRead(s) == milli
    requires st.year < 100 || milli != st.milli
    ensures ParseMLSxDate(s) == Some(Instant(st.(year := FullYear(st.year), milli := milli)))
    ensures ParseMLSxDate(s) != Some(Instant(st))
  {
    ReadsAs(s);
    ReadExactly(s);
    FractionExactly(s);
  }

  lemma OldYearFields(s: string)
    requires s == "00500101000000"
    ensures IsTimeVal(s) && StampOf(s) == Stamp(50, 1, 1, 0, 0, 0, 0) && MillisRead(s) == 0
  {
    assert AllDigits(s[..14], 10);
    FieldsAre(s);
  }

  lemma FiftyIsNineteenFifty(st: Stamp)
    requires st == Stamp(50, 1, 1, 0, 0, 0, 0)
    ensures ValidStamp(st) && FullYear(st.year) == 1950
  {
  }

  /** The year 50 is read as 1950. */
  lemma OldYearIsMisread(s: string, st: Stamp)
    requires s == "00500101000000" && st == Stamp(50, 1, 1, 0, 0, 0, 0)
    ensures IsTimeVal(s) && StampOf(s) == st && ValidStamp(st)
    ensures ParseMLSxDate(s) == Some(Instant(st.(year := 1950)))
    ensures ParseMLSxDate(s) != Some(Instant(st))
  {
    OldYearFields(s);
    FiftyIsNineteenFifty(st);
    MisreadStamp(s, st, 0);
    assert st.(year := 1950, milli := 0) == st.(year := 1950);
  }

  lemma ShortFractionFields(s: string)
    requires s == "20000101000000.5"
    ensures IsTimeVal(s) && StampOf(s) == Stamp(2000, 1, 1, 0, 0, 0, 500) && MillisRead(s) == 5
  {
    assert AllDigits(s[..14], 10) && s[15..] == "5" && DigitValue('5') == 5;
    var f := s[15..];
    assert Value(f) == 10 * ValueIn(f[..0], 10) + DigitValue(f[0]);
    FieldsAre(s);
  }

  /** Half a second is read as five milliseconds. */
  lemma ShortFractionIsMisread(s: string)
    requires s == "20000101000000.5"
    ensures IsTimeVal(s) && StampOf(s) == Stamp(2000, 1, 1, 0, 0, 0, 500) && ValidStamp(StampOf(s))
    ensures ParseMLSxDate(s) == Some(Instant(Stamp(2000, 1, 1, 0, 0, 0, 5)))
    ensures ParseMLSxDate(s) != Some(Instant(StampOf(s)))
  {
    ShortFractionFields(s);
    MisreadStamp(s, Stamp(2000, 1, 1, 0, 0, 0, 500), 5);
  }
}
