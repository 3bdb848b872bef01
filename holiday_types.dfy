/** The records of `internal/types/holidays.go`: the raw `{fecha, tipo, nombre}`
    record and the processed entry with its derived display fields. */
module HolidayTypes {
  import opened Calendar

  /** One record of the holiday list: `fecha`, `tipo`, `nombre`. The packages
      `types`, `holidays` and `helpers` each declare this same shape (the last
      one as `Holyday`); one datatype stands for all three. */
  datatype Holiday = Holiday(date: string, kind: string, name: string)

  /** The `Type` of a processed entry: the record's own `tipo`, or the
      distinguished tag `types.Weekend` of a synthesized weekend day. */
  datatype HolidayType = Declared(tipo: string) | Weekend

  /** English weekday and month names of the entry's day. */
  datatype NamedDate = NamedDate(day: string, month: string)

  /** `types.ParsedHolidays`. `Adjacent` holds the members of the entry's long
      weekend by value (Go shares one slice among them, which makes it cyclic). */
  datatype ParsedHoliday = ParsedHoliday(
    date: string,
    kind: HolidayType,
    name: string,
    formattedDate: string,
    namedDate: NamedDate,
    rawDate: YearMonthDay,
    fullDate: string,
    count: int,
    adjacent: seq<ParsedHoliday>,
    isToday: bool,
    daysLeftToHoliday: int)

  /** The zero `ParsedHolidays` value, returned when there is no next or
      previous entry. */
  const ZeroParsed := ParsedHoliday("", Declared(""), "", "", NamedDate("", ""), YMD(0, 0, 0), "", 0, [], false, 0)

  /** `types.ProcessedHolidays`. */
  datatype ProcessedHolidays = ProcessedHolidays(next: ParsedHoliday, previous: ParsedHoliday, all: seq<ParsedHoliday>)

  const ZeroProcessed := ProcessedHolidays(ZeroParsed, ZeroParsed, [])
}
