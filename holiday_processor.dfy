/** `HolidaysProcessor` and `findNextAndPrevious` (holidayProcessor.go:15-78,
    178-204): decode the records, keep those whose date parses and passes
    the filters, build their entries, sort them by their date text, group
    them when asked to, and find the entries around today. */
module HolidayProcessor {
  import opened Wrappers
  import opened Calendar
  import opened DateText
  import opened HolidayTypes
  import opened Sorting
  import opened AdjacentGrouping
  import opened HolidayLookup
  import opened Sequences

  /** `YearDay()`: the day's position in its year, from 1. */
  function YearDay(d: Date): int {
    DaysBeforeMonth(d.year, d.month) + d.day
  }

  /** holidayProcessor.go:35: same year and same day of the year. */
  predicate IsHolidayToday(date: Date, today: Date) {
    date.year == today.year && YearDay(date) == YearDay(today)
  }

  /** Same year and day of the year is the same calendar day, which is also
      what `isToday` tests. */
  lemma HolidayTodayIsToday(date: Date, today: Date)
    ensures IsHolidayToday(date, today) <==> date == today
    ensures IsHolidayToday(date, today) <==> IsToday(date, today)
  {
    DayNumberOrder(date, today);
  }

  /** The filters of holidayProcessor.go:38-46 on a record read as `date`:
      whether the record stays. */
  predicate Kept(date: Date, today: Date, skipPassed: bool, skipWeekends: bool, skipToday: bool) {
    !(skipToday && IsHolidayToday(date, today))
      && !(skipPassed && Before(date, today) && !IsToday(date, today))
      && !(skipWeekends && IsWeekendDay(date))
  }

  /** What the filters mean: `skipToday` drops the day that is today,
      `skipPassed` drops every day before today (today itself is never
      passed) and `skipWeekends` drops Saturdays and Sundays. */
  lemma KeptMeans(date: Date, today: Date, skipPassed: bool, skipWeekends: bool, skipToday: bool)
    ensures Kept(date, today, skipPassed, skipWeekends, skipToday) <==>
      (skipToday ==> date != today) && (skipPassed ==> !Before(date, today)) && (skipWeekends ==> !IsWeekend(date))
  {
    HolidayTodayIsToday(date, today);
    if Before(date, today) {
      DayNumberOrder(date, today);
    }
  }

  /** The entry holidayProcessor.go:49-59 builds for record `h` read as
      `date`; `time.Parse` reads the text as a UTC midnight, whose RFC 3339
      offset is `Z`. */
  function BuildEntry(h: Holiday, date: Date, today: Date): ParsedHoliday {
    ParsedHoliday(h.date, Declared(h.kind), h.name, LongDate(date),
                  NamedDate(EnglishWeekday(Weekday(date)), EnglishMonth(date.month)), date,
                  MidnightRfc3339(date, "Z"), 0, [], IsHolidayToday(date, today),
                  DayNumber(date) - DayNumber(today))
  }

  /** What record `h` contributes: its entry when its date parses and it
      passes the filters, nothing otherwise. */
  function EntryOf(h: Holiday, today: Date, skipPassed: bool, skipWeekends: bool, skipToday: bool): seq<ParsedHoliday> {
    match Parse(h.date)
    case None => []
    case Some(date) => if Kept(date, today, skipPassed, skipWeekends, skipToday) then [BuildEntry(h, date, today)] else []
  }

  function Reader(today: Date, skipPassed: bool, skipWeekends: bool, skipToday: bool): Holiday -> seq<ParsedHoliday> {
    h => EntryOf(h, today, skipPassed, skipWeekends, skipToday)
  }

  /** The entries the loop of holidayProcessor.go:29-60 collects from `raw`. */
  function Survivors(raw: seq<Holiday>, today: Date, skipPassed: bool, skipWeekends: bool, skipToday: bool): seq<ParsedHoliday> {
    FlatMap(raw, Reader(today, skipPassed, skipWeekends, skipToday))
  }

  /** A record whose date does not parse is dropped and the records after
      it are still read (holidayProcessor.go:30-33). */
  lemma SurvivorsSkipUnparsed(a: seq<Holiday>, h: Holiday, b: seq<Holiday>, today: Date,
                              skipPassed: bool, skipWeekends: bool, skipToday: bool)
    requires Parse(h.date).None?
    ensures Survivors(a + [h] + b, today, skipPassed, skipWeekends, skipToday)
      == Survivors(a + b, today, skipPassed, skipWeekends, skipToday)
  {
    FlatMapDrop(a, h, b, Reader(today, skipPassed, skipWeekends, skipToday));
  }

  /** The survivors are exactly what the records contribute one by one. */
  lemma SurvivorsMembers(raw: seq<Holiday>, today: Date, skipPassed: bool, skipWeekends: bool, skipToday: bool,
                         x: ParsedHoliday)
    ensures x in Survivors(raw, today, skipPassed, skipWeekends, skipToday) <==>
      exists i :: 0 <= i < |raw| && x in EntryOf(raw[i], today, skipPassed, skipWeekends, skipToday)
  {
    var f := Reader(today, skipPassed, skipWeekends, skipToday);
    FlatMapMembers(raw, f);
    assert forall i :: 0 <= i < |raw| ==> f(raw[i]) == EntryOf(raw[i], today, skipPassed, skipWeekends, skipToday);
  }

  /** Conversely, every record whose date parses to a day that passes each
      filter that is on contributes its entry. */
  lemma SurvivorsInclude(raw: seq<Holiday>, today: Date, skipPassed: bool, skipWeekends: bool, skipToday: bool, i: nat)
    requires i < |raw| && Parse(raw[i].date).Some?
    requires var date := Parse(raw[i].date).value;
      (skipToday ==> date != today) && (skipPassed ==> !Before(date, today)) && (skipWeekends ==> !IsWeekend(date))
    ensures BuildEntry(raw[i], Parse(raw[i].date).value, today) in Survivors(raw, today, skipPassed, skipWeekends, skipToday)
  {
    var date := Parse(raw[i].date).value;
    KeptMeans(date, today, skipPassed, skipWeekends, skipToday);
    SurvivorsMembers(raw, today, skipPassed, skipWeekends, skipToday, BuildEntry(raw[i], date, today));
  }

  /** What every surviving entry satisfies: its `Date`, `Type` and `Name`
      are the record's, its `RawDate` is the day its text names, `IsToday`
      says whether that day is today, `DaysLeftToHoliday` counts the days
      from today to it, and it passes each filter that is on. A day that is
      today is never dropped by `skipPassed`. */
  lemma SurvivorFacts(raw: seq<Holiday>, today: Date, skipPassed: bool, skipWeekends: bool, skipToday: bool, x: ParsedHoliday)
    requires x in Survivors(raw, today, skipPassed, skipWeekends, skipToday)
    ensures exists i :: 0 <= i < |raw| && x.date == raw[i].date && x.kind == Declared(raw[i].kind) && x.name == raw[i].name
    ensures Dated(x) && DayOf(x) == x.rawDate && x.adjacent == []
    ensures x.isToday <==> DayOf(x) == today
    ensures x.daysLeftToHoliday == DayNumber(DayOf(x)) - DayNumber(today)
    ensures skipToday ==> DayOf(x) != today
    ensures skipWeekends ==> !IsWeekend(DayOf(x))
    ensures skipPassed ==> !Before(DayOf(x), today)
  {
    SurvivorsMembers(raw, today, skipPassed, skipWeekends, skipToday, x);
    var i :| 0 <= i < |raw| && x in EntryOf(raw[i], today, skipPassed, skipWeekends, skipToday);
    var date := Parse(raw[i].date).value;
    assert x == BuildEntry(raw[i], date, today);
    HolidayTodayIsToday(date, today);
  }

  /** The three filters of holidayProcessor.go:35-46 on a record read as
      `date`, in the order the code applies them. */
  method Filter(date: Date, today: Date, skipPassed: bool, skipWeekends: bool, skipToday: bool) returns (kept: bool)
    ensures kept == Kept(date, today, skipPassed, skipWeekends, skipToday)
    ensures kept <==>
      ((skipToday ==> date != today) && (skipPassed ==> !Before(date, today)) && (skipWeekends ==> !IsWeekend(date)))
  {
    KeptMeans(date, today, skipPassed, skipWeekends, skipToday);
    var isHolidayToday := date.year == today.year && YearDay(date) == YearDay(today);
    if skipToday && isHolidayToday {
      return false;
    }
    if skipPassed && Before(date, today) && !IsToday(date, today) {
      return false;
    }
    if skipWeekends && IsWeekendDay(date) {
      return false;
    }
    return true;
  }

  /** The loop of holidayProcessor.go:29-60. */
  method ReadRecords(rawHolidays: seq<Holiday>, today: Date, skipPassed: bool, skipWeekends: bool, skipToday: bool)
    returns (parsedHolidays: seq<ParsedHoliday>)
    ensures parsedHolidays == Survivors(rawHolidays, today, skipPassed, skipWeekends, skipToday)
  {
    ghost var f := Reader(today, skipPassed, skipWeekends, skipToday);
    parsedHolidays := [];
    for i := 0 to |rawHolidays|
      invariant parsedHolidays == FlatMap(rawHolidays[..i], f)
    {
      var h := rawHolidays[i];
      TakeSnoc(rawHolidays, i);
      FlatMapSnoc(rawHolidays[..i], h, f);
      var parsed := Parse(h.date);
      if parsed.None? {
        continue;
      }
      var date := parsed.value;
      var kept := Filter(date, today, skipPassed, skipWeekends, skipToday);
      if !kept {
        continue;
      }
      parsedHolidays := parsedHolidays + [BuildEntry(h, date, today)];
    }
    TakeAll(rawHolidays);
  }

  function DateKey(x: ParsedHoliday): string {
    x.date
  }

  /** No entry's day is later than the day of an entry after it. */
  predicate SortedByDay(s: seq<ParsedHoliday>) {
    forall i, j :: 0 <= i < j < |s| ==> DayNumber(DayOf(s[i])) <= DayNumber(DayOf(s[j]))
  }

  lemma DatedKey(x: ParsedHoliday)
    requires Dated(x)
    ensures FourDigitYear(DayOf(x)) && x.date == Format(DayOf(x))
  {
    FormatParse(x.date, DayOf(x));
  }

  /** Entries whose texts are canonical dates and that are sorted as text
      are sorted by day: this is why holidayProcessor.go:62-64 may sort by
      the `Date` string. */
  lemma {:induction false} SortedByKeyByDay(s: seq<ParsedHoliday>)
    requires SortedByKey(s, DateKey)
    requires forall k :: 0 <= k < |s| ==> Dated(s[k])
    ensures SortedByDay(s)
  {
    if |s| > 1 {
      var init := s[..|s| - 1];
      assert SortedByKey(init, DateKey) by {
        forall i | 0 < i < |init|
          ensures !LexLess(DateKey(init[i]), DateKey(init[i - 1]))
        {
          assert init[i] == s[i] && init[i - 1] == s[i - 1];
        }
      }
      SortedByKeyByDay(init);
      var a, b := s[|s| - 2], s[|s| - 1];
      DatedKey(a);
      DatedKey(b);
      FormatOrder(DayOf(b), DayOf(a));
      assert !LexLess(DateKey(b), DateKey(a));
      forall i, j | 0 <= i < j < |s|
        ensures DayNumber(DayOf(s[i])) <= DayNumber(DayOf(s[j]))
      {
        if j < |s| - 1 {
          assert s[i] == init[i] && s[j] == init[j];
        } else if i < |s| - 2 {
          assert s[i] == init[i] && a == init[|s| - 2];
        }
      }
    }
  }

  /** The test `sort.Search` makes at holidayProcessor.go:180-183: the
      entry at `i` lies on or after today. */
  function NotBefore(holidays: seq<ParsedHoliday>, today: Date): int -> bool {
    i => 0 <= i < |holidays| && !Before(DayOf(holidays[i]), today)
  }

  /** `findNextAndPrevious` (holidayProcessor.go:178-204): the entry the
      search lands on and the one before it, or, when it lands past the end,
      nothing and the last entry. Both branches on `date.Equal(today)` pick
      the same entries. */
  function NextAndPrevious(holidays: seq<ParsedHoliday>, today: Date): (r: (ParsedHoliday, ParsedHoliday))
    ensures holidays == [] ==> r == (ZeroParsed, ZeroParsed)
  {
    var index := Search(|holidays|, NotBefore(holidays, today));
    if index < |holidays| then
      (holidays[index], if index > 0 then holidays[index - 1] else ZeroParsed)
    else if |holidays| > 0 then
      (ZeroParsed, holidays[|holidays| - 1])
    else
      (ZeroParsed, ZeroParsed)
  }

  /** On entries sorted by day, when the entries before index `i` lie
      before today and the one at `i`, if any, does not, `next` is the entry
      at `i` (the zero entry when `i` is past the end) and `previous` the one
      before it (the zero entry when `i` is 0). */
  lemma NextAndPreviousSorted(holidays: seq<ParsedHoliday>, today: Date, i: nat)
    requires SortedByDay(holidays) && i <= |holidays|
    requires forall k :: 0 <= k < i ==> Before(DayOf(holidays[k]), today)
    requires i < |holidays| ==> !Before(DayOf(holidays[i]), today)
    ensures NextAndPrevious(holidays, today)
      == (if i < |holidays| then holidays[i] else ZeroParsed, if i > 0 then holidays[i - 1] else ZeroParsed)
  {
    var f := NotBefore(holidays, today);
    forall a, b | 0 <= a < b < |holidays| && f(a)
      ensures f(b)
    {
      assert DayNumber(DayOf(holidays[a])) <= DayNumber(DayOf(holidays[b]));
    }
    SearchFindsFirst(|holidays|, f);
    var index := Search(|holidays|, f);
    assert i < |holidays| ==> f(i);
    assert index < |holidays| ==> f(index);
    assert forall k :: 0 <= k < i ==> !f(k);
    assert index == i;
  }

  /** `HolidaysProcessor` (holidayProcessor.go:15-78). `decoded` is the
      outcome of decoding the JSON input, `today` the day the clock reads and
      `zone` the RFC 3339 offset of the local time zone. On a decoding error
      the result is the empty `ProcessedHolidays` with the error; otherwise
      `sorted` is the survivors sorted by their date text, `All` is `sorted`
      grouped when `adjacents` is set and `sorted` itself otherwise, and
      `Next` and `Previous` are what `findNextAndPrevious` finds in `All`;
      either way the entries of `All` that are not synthesized weekend days
      are `sorted`, in order. */
  method HolidaysProcessor(decoded: Result<seq<Holiday>>, today: Date, zone: string,
                           skipPassed: bool, adjacents: bool, skipWeekends: bool, skipToday: bool)
    returns (processed: ProcessedHolidays, err: Option<string>, ghost sorted: seq<ParsedHoliday>)
    ensures decoded.Failure? ==> processed == ZeroProcessed && err == Some(decoded.error)
    ensures decoded.Success? ==> err == None
    ensures decoded.Success? ==>
      multiset(sorted) == multiset(Survivors(decoded.value, today, skipPassed, skipWeekends, skipToday))
    ensures decoded.Success? ==> SortedByKey(sorted, DateKey) && SortedByDay(sorted)
    ensures decoded.Success? ==> processed.all == (if adjacents then GroupAdjacent(sorted, zone) else sorted)
    ensures decoded.Success? ==> (processed.next, processed.previous) == NextAndPrevious(processed.all, today)
    ensures decoded.Success? ==> RealEntries(processed.all) == sorted
  {
    if decoded.Failure? {
      return ZeroProcessed, Some(decoded.error), [];
    }
    var parsedHolidays := ReadRecords(decoded.value, today, skipPassed, skipWeekends, skipToday);
    var a := new ParsedHoliday[|parsedHolidays|](i => if 0 <= i < |parsedHolidays| then parsedHolidays[i] else ZeroParsed);
    assert a[..] == parsedHolidays;
    SortByKey(a, DateKey);
    sorted := a[..];
    forall k | 0 <= k < |sorted|
      ensures Dated(sorted[k]) && sorted[k].kind != Weekend && sorted[k].adjacent == []
    {
      assert sorted[k] in multiset(parsedHolidays);
      SurvivorFacts(decoded.value, today, skipPassed, skipWeekends, skipToday, sorted[k]);
    }
    SortedByKeyByDay(sorted);
    RealEntriesOfPlain(sorted);
    GroupAdjacentKeepsReal(sorted, zone);
    var all := a[..];
    if adjacents {
      all := GroupAdjacentHolidays(all, zone);
    }
    var (next, previous) := NextAndPrevious(all, today);
    return ProcessedHolidays(next, previous, all), None, sorted;
  }
}
