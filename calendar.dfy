/** Python `datetime.date` values as proleptic Gregorian ordinals
    (`date.toordinal()`: 0001-01-01 is day 1). Comparison and `timedelta`
    arithmetic become integer comparison and addition; the year and month
    of a date are recovered as CPython's `_ord2ymd` does. */
module Calendar {

  const MinOrdinal := 1
  /** `date.max.toordinal()`, 9999-12-31. */
  const MaxOrdinal := 3652059

  type Date = d: int | MinOrdinal <= d <= MaxOrdinal witness MinOrdinal

  const DaysIn400Years := 146097
  const DaysIn100Years := 36524
  const DaysIn4Years := 1461

  function IsLeap(year: int): bool
  {
    year % 4 == 0 && (year % 100 != 0 || year % 400 == 0)
  }

  /** Days in the months before `month` of a common year (`_DAYS_BEFORE_MONTH`). */
  function DaysBeforeMonthCommon(month: int): int
    requires 1 <= month <= 12
  {
    [0, 31, 59, 90, 120, 151, 181, 212, 243, 273, 304, 334][month - 1]
  }

  function DaysInMonthCommon(month: int): int
    requires 1 <= month <= 12
  {
    [31, 28, 31, 30, 31, 30, 31, 31, 30, 31, 30, 31][month - 1]
  }

  function DaysBeforeYear(year: int): int
  {
    var y := year - 1;
    y * 365 + y / 4 - y / 100 + y / 400
  }

  function DaysBeforeMonth(year: int, month: int): int
    requires 1 <= month <= 12
  {
    DaysBeforeMonthCommon(month) + (if month > 2 && IsLeap(year) then 1 else 0)
  }

  /** `date(year, month, day).toordinal()` (`_ymd2ord`). */
  function Ordinal(year: int, month: int, day: int): int
    requires 1 <= month <= 12
  {
    DaysBeforeYear(year) + DaysBeforeMonth(year, month) + day
  }

  /** Year, month and day of an ordinal (`_ord2ymd`). */
  function Civil(d: Date): (ymd: (int, int, int))
    ensures ymd.0 >= 1 && 1 <= ymd.1 <= 12
  {
    var n := d - 1;
    var n400 := n / DaysIn400Years;
    var n := n % DaysIn400Years;
    var n100 := n / DaysIn100Years;
    var n := n % DaysIn100Years;
    var n4 := n / DaysIn4Years;
    var n := n % DaysIn4Years;
    var n1 := n / 365;
    var n := n % 365;
    var year := n400 * 400 + 1 + n100 * 100 + n4 * 4 + n1;
    if n1 == 4 || n100 == 4 then (year - 1, 12, 31)
    else
      var leap := n1 == 3 && (n4 != 24 || n100 == 3);
      var month := (n + 50) / 32;
      var preceding := DaysBeforeMonthCommon(month) + (if month > 2 && leap then 1 else 0);
      if preceding > n then
        var month' := month - 1;
        var preceding' := preceding - (DaysInMonthCommon(month') + (if month' == 2 && leap then 1 else 0));
        (year, month', n - preceding' + 1)
      else (year, month, n - preceding + 1)
  }

  function Year(d: Date): int { Civil(d).0 }

  function Month(d: Date): int { Civil(d).1 }

  /** `d.replace(day=1)`, as an ordinal. */
  function FirstOfMonth(d: Date): int
  {
    Ordinal(Year(d), Month(d), 1)
  }
}
