/** Spanish rendering of dates (`internal/helpers/i18n.go`): two tables of
    capitalised weekday and month names, two lists of lower-case ones, and
    the formatters built on them. */
module I18n {
  import opened Wrappers
  import opened Calendar
  import opened DateText

  /** `spanishWeekdays` (i18n.go:12-20), keyed by `time.Weekday`. */
  const SpanishWeekdays: map<int, string> := map[
    MONDAY := "Lunes", 2 := "Martes", 3 := "Miércoles", 4 := "Jueves",
    FRIDAY := "Viernes", SATURDAY := "Sábado", SUNDAY := "Domingo"]

  /** `spanishMonths` (i18n.go:22-35), keyed by `time.Month`. */
  const SpanishMonths: map<int, string> := map[
    1 := "Enero", 2 := "Febrero", 3 := "Marzo", 4 := "Abril", 5 := "Mayo", 6 := "Junio",
    7 := "Julio", 8 := "Agosto", 9 := "Septiembre", 10 := "Octubre", 11 := "Noviembre", 12 := "Diciembre"]

  /** The `days` list of `FormatDateToSpanish` (i18n.go:47), Sunday first. */
  const Days: seq<string> := ["domingo", "lunes", "martes", "miércoles", "jueves", "viernes", "sábado"]

  /** The `months` list of `FormatDateToSpanish` and `MonthsToSpanish`
      (i18n.go:48, 68). */
  const Months: seq<string> := ["enero", "febrero", "marzo", "abril", "mayo", "junio", "julio",
                                "agosto", "septiembre", "octubre", "noviembre", "diciembre"]

  /** A Go map read: the value under `k`, or the zero string when `k` is
      absent. */
  function Lookup(m: map<int, string>, k: int): string {
    if k in m then m[k] else ""
  }

  /** `cases.Title` on one lower-case word: its first letter upper-cased. */
  function Title(word: string): string {
    if word != [] && 'a' <= word[0] <= 'z' then [(word[0] as int - 32) as char] + word[1..] else word
  }

  /** The two weekday tables name the same days: each capitalised name is
      the title-cased lower-case one. */
  lemma WeekdayTablesAgree(w: int)
    requires 0 <= w < 7
    ensures Lookup(SpanishWeekdays, w) == Title(Days[w])
  {
    if w == 0 {
      assert Title("domingo") == "Domingo";
    } else if w == 1 {
      assert Title("lunes") == "Lunes";
    } else if w == 2 {
      assert Title("martes") == "Martes";
    } else if w == 3 {
      assert Title("miércoles") == "Miércoles";
    } else if w == 4 {
      assert Title("jueves") == "Jueves";
    } else if w == 5 {
      assert Title("viernes") == "Viernes";
    } else {
      assert Title("sábado") == "Sábado";
    }
  }

  /** The two month tables name the same months, in the same way. */
  lemma MonthTablesAgree(m: int)
    requires 1 <= m <= 12
    ensures Lookup(SpanishMonths, m) == Title(Months[m - 1])
  {
    if m == 1 {
      assert Title("enero") == "Enero";
    } else if m == 2 {
      assert Title("febrero") == "Febrero";
    } else if m == 3 {
      assert Title("marzo") == "Marzo";
    } else if m == 4 {
      assert Title("abril") == "Abril";
    } else if m == 5 {
      assert Title("mayo") == "Mayo";
    } else if m == 6 {
      assert Title("junio") == "Junio";
    } else if m == 7 {
      assert Title("julio") == "Julio";
    } else if m == 8 {
      assert Title("agosto") == "Agosto";
    } else if m == 9 {
      assert Title("septiembre") == "Septiembre";
    } else if m == 10 {
      assert Title("octubre") == "Octubre";
    } else if m == 11 {
      assert Title("noviembre") == "Noviembre";
    } else {
      assert Title("diciembre") == "Diciembre";
    }
  }

  /** `formatDayNumber` (i18n.go:60-65). */
  function FormatDayNumber(day: int): string {
    if day == 1 then "1ro" else IntToString(day)
  }

  /** The first of the month reads "1ro"; every other day of a month is its
      number in decimal, which reads back as the day. */
  lemma FormatDayNumberValue(day: int)
    requires 1 <= day
    ensures FormatDayNumber(day) == "1ro" <==> day == 1
    ensures day != 1 ==> AllDigits(FormatDayNumber(day)) && DecimalValue(FormatDayNumber(day)) == day
  {
    NatToStringValue(day);
    if day != 1 {
      var s := NatToString(day);
      assert |s| != 3 || IsDigit(s[1]);
      assert s != "1ro";
    }
  }

  /** The four results of `FormatDateToSpanish`. */
  datatype SpanishDate = SpanishDate(dayFormatted: string, day: string, month: string, year: string)

  const NoSpanishDate := SpanishDate("", "", "", "")

  /** `FormatDateToSpanish` (i18n.go:45-58). */
  function FormatDateToSpanish(d: Date): SpanishDate {
    var day := Days[Weekday(d)];
    var month := Months[d.month - 1];
    SpanishDate(Title(day) + ", " + FormatDayNumber(d.day) + " de " + month, day, month, YearText(d.year))
  }

  /** `FormatDateToSpanishUnparsed` (i18n.go:37-44). */
  function FormatDateToSpanishUnparsed(date: string): SpanishDate {
    match Parse(date)
    case None => NoSpanishDate
    case Some(d) => FormatDateToSpanish(d)
  }

  /** `MonthsToSpanish` (i18n.go:67-70); Go panics outside 1..12. */
  function MonthsToSpanish(month: int): string
    requires 1 <= month <= 12
  {
    Months[month - 1]
  }

  /** `FormatDate` (i18n.go:72-84): text that does not parse comes back
      unchanged. */
  function FormatDate(dateStr: string): string {
    match Parse(dateStr)
    case None => dateStr
    case Some(t) => Lookup(SpanishWeekdays, Weekday(t)) + " " + IntToString(t.day) + " de " + Lookup(SpanishMonths, t.month)
  }

  /** Writing a day as text and formatting that text in Spanish is
      formatting the day; text that is not a date formats to four empty
      strings. */
  lemma UnparsedFormatsParsed(d: Date, s: string)
    requires FourDigitYear(d)
    ensures FormatDateToSpanishUnparsed(Format(d)) == FormatDateToSpanish(d)
    ensures Parse(s).None? ==> FormatDateToSpanishUnparsed(s) == NoSpanishDate
  {
    ParseFormat(d);
  }

  /** What `FormatDateToSpanish` says of a day: the weekday and month words
      name its weekday and month (the same names, capitalised, as the tables
      `FormatDate` reads), the month word is what `MonthsToSpanish` gives,
      and a four-digit year comes back as four digits that read as it. */
  lemma SpanishDateNames(d: Date)
    ensures var r := FormatDateToSpanish(d);
      && Title(r.day) == Lookup(SpanishWeekdays, Weekday(d))
      && Title(r.month) == Lookup(SpanishMonths, d.month)
      && r.month == MonthsToSpanish(d.month)
      && r.dayFormatted == Lookup(SpanishWeekdays, Weekday(d)) + ", " + FormatDayNumber(d.day) + " de " + r.month
      && (FourDigitYear(d) ==> |r.year| == 4 && AllDigits(r.year) && DecimalValue(r.year) == d.year)
  {
    WeekdayTablesAgree(Weekday(d));
    MonthTablesAgree(d.month);
    if FourDigitYear(d) {
      assert Pow10(4) == 10000;
      DigitsValue(d.year, 4);
    }
  }

  /** `FormatDate` and `FormatDateToSpanish` agree: the formatted text is
      the capitalised weekday, the day number and the month word, and it is
      never the text it came from when that text was a date. */
  lemma FormatDateAgrees(d: Date)
    requires FourDigitYear(d)
    ensures FormatDate(Format(d)) == Title(FormatDateToSpanish(d).day) + " " + IntToString(d.day)
      + " de " + Title(FormatDateToSpanish(d).month)
    ensures FormatDate(Format(d)) != Format(d)
  {
    ParseFormat(d);
    WeekdayTablesAgree(Weekday(d));
    MonthTablesAgree(d.month);
    var s := FormatDate(Format(d));
    var w := Lookup(SpanishWeekdays, Weekday(d));
    assert s[0] == w[0];
    assert Format(d)[0] == YearText(d.year)[0];
    assert IsDigit(Format(d)[0]);
    assert !IsDigit(w[0]);
  }
}
