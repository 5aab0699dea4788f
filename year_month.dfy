/**
 * java.time.YearMonth and java.sql.Date as far as the core uses them, and the JPA converter
 * between the two (mapper/YearMonthDateConverter.java).
 */
module YearMonths {

  type Month = m: int | 1 <= m <= 12 witness 1

  /** A year and a month, with no day (the card's expiration). */
  datatype YearMonth = YearMonth(year: int, month: Month)

  /** YearMonth.isBefore: strictly earlier. */
  predicate IsBefore(a: YearMonth, b: YearMonth)
  {
    a.year < b.year || (a.year == b.year && a.month < b.month)
  }

  predicate IsLeapYear(year: int)
  {
    year % 4 == 0 && (year % 100 != 0 || year % 400 == 0)
  }

  /** YearMonth.lengthOfMonth (proleptic Gregorian calendar). */
  function LengthOfMonth(year: int, month: Month): (n: int)
    ensures 28 <= n <= 31
  {
    if month == 2 then (if IsLeapYear(year) then 29 else 28)
    else if month == 4 || month == 6 || month == 9 || month == 11 then 30
    else 31
  }

  /** A calendar date (LocalDate, and java.sql.Date through Date.valueOf / toLocalDate). */
  datatype Date = Date(year: int, month: Month, day: int)

  predicate IsValidDate(d: Date)
  {
    1 <= d.day <= LengthOfMonth(d.year, d.month)
  }

  /** Dates ordered by calendar position. */
  predicate DateBefore(a: Date, b: Date)
  {
    a.year < b.year || (a.year == b.year && (a.month < b.month || (a.month == b.month && a.day < b.day)))
  }

  /** YearMonth.atDay */
  function AtDay(ym: YearMonth, day: int): (d: Date)
    requires 1 <= day <= LengthOfMonth(ym.year, ym.month)
    ensures IsValidDate(d) && d.year == ym.year && d.month == ym.month && d.day == day
  {
    Date(ym.year, ym.month, day)
  }

  /** YearMonth.from(LocalDate): drop the day. */
  function FromDate(d: Date): (ym: YearMonth)
    ensures ym.year == d.year && ym.month == d.month
  {
    YearMonth(d.year, d.month)
  }

  /** IsBefore is a strict total order on year-months. */
  lemma IsBeforeTotalOrder(a: YearMonth, b: YearMonth, c: YearMonth)
    ensures !IsBefore(a, a)
    ensures IsBefore(a, b) ==> !IsBefore(b, a)
    ensures IsBefore(a, b) && IsBefore(b, c) ==> IsBefore(a, c)
    ensures a == b || IsBefore(a, b) || IsBefore(b, a)
  {
  }
}

/** The JPA attribute converter that stores a card's expiration month as the first day of that month. */
module YearMonthDateConverter {
  import opened Common
  import opened YearMonths

  /** convertToDatabaseColumn: null stays null, otherwise day 1 of the same year and month. */
  function ConvertToDatabaseColumn(attribute: Option<YearMonth>): (r: Option<Date>)
    ensures r.None? <==> attribute.None?
    ensures r.Some? ==> IsValidDate(r.value) && r.value.day == 1
    ensures r.Some? ==> r.value.year == attribute.value.year && r.value.month == attribute.value.month
  {
    match attribute
    case None => None
    case Some(ym) => Some(AtDay(ym, 1))
  }

  /** convertToEntityAttribute: null stays null, otherwise the date's year and month; the day is dropped. */
  function ConvertToEntityAttribute(dbData: Option<Date>): (r: Option<YearMonth>)
    ensures r.None? <==> dbData.None?
    ensures r.Some? ==> r.value.year == dbData.value.year && r.value.month == dbData.value.month
  {
    match dbData
    case None => None
    case Some(d) => Some(FromDate(d))
  }

  /** Reading back what was written gives the original year-month (null included). */
  lemma RoundTrip(ym: Option<YearMonth>)
    ensures ConvertToEntityAttribute(ConvertToDatabaseColumn(ym)) == ym
  {
  }

  /** Any two dates of the same month read back as the same year-month. */
  lemma DayIgnored(d1: Date, d2: Date)
    requires d1.year == d2.year && d1.month == d2.month
    ensures ConvertToEntityAttribute(Some(d1)) == ConvertToEntityAttribute(Some(d2))
  {
  }

  /** A stored date survives a read and a re-write exactly when it is the first of its month. */
  lemma ColumnRoundTrip(d: Date)
    ensures ConvertToDatabaseColumn(ConvertToEntityAttribute(Some(d))) == Some(Date(d.year, d.month, 1))
    ensures ConvertToDatabaseColumn(ConvertToEntityAttribute(Some(d))) == Some(d) <==> d.day == 1
  {
  }

  /** Storing keeps the order of expirations: the database column sorts as the year-months do. */
  lemma ConversionMonotone(a: YearMonth, b: YearMonth)
    ensures IsBefore(a, b) <==> DateBefore(ConvertToDatabaseColumn(Some(a)).value, ConvertToDatabaseColumn(Some(b)).value)
  {
  }
}
