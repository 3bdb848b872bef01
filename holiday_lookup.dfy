/** The list scans of `internal/commands/holiday/functions.go`: whether a day
    is a holiday, the next holiday from a day on, and the holidays of one
    month. The fetched list and the clock are parameters. */
module HolidayLookup {
  import opened Wrappers
  import opened Calendar
  import opened DateText
  import opened HolidayTypes

  /** `isToday` (functions.go:106-110): the day's year, month and day are
      those of `today`, the day the clock reads. */
  predicate IsToday(d: Date, today: Date) {
    d.year == today.year && d.month == today.month && d.day == today.day
  }

  /** Record `h` names day `date`: its text parses, to that day. */
  predicate Names(h: Holiday, date: Date) {
    Parse(h.date) == Some(date)
  }

  /** `IsHoliday` (functions.go:93-104). */
  method IsHoliday(date: Date, holidays: seq<Holiday>) returns (isHoliday: bool)
    ensures isHoliday <==> exists i :: 0 <= i < |holidays| && Names(holidays[i], date)
  {
    for i := 0 to |holidays|
      invariant forall k :: 0 <= k < i ==> !Names(holidays[k], date)
    {
      var holidayDate := Parse(holidays[i].date);
      if holidayDate.None? {
        continue;
      }
      if holidayDate.value == date {
        return true;
      }
    }
    return false;
  }

  /** The test of functions.go:125-128 on a record that parses to `d`: it is
      after `date`, or it is today and today's holidays count, and it is not
      a weekend day that is to be skipped. */
  predicate Qualifies(d: Date, date: Date, today: Date, skipWeekends: bool, skipToday: bool) {
    (Before(date, d) || (!skipToday && IsToday(d, today)))
      && !(skipWeekends && (Weekday(d) == SATURDAY || Weekday(d) == SUNDAY))
  }

  /** Record `h` parses and qualifies. */
  predicate Selectable(h: Holiday, date: Date, today: Date, skipWeekends: bool, skipToday: bool) {
    Parse(h.date).Some? && Qualifies(Parse(h.date).value, date, today, skipWeekends, skipToday)
  }

  /** The selection logic of `NextHoliday` (functions.go:113-133): the first
      record, in list order, that parses and qualifies, and whether it falls
      today. A failed fetch, like an empty search, gives nothing and `false`. */
  method NextHoliday(fetched: Result<seq<Holiday>>, date: Date, today: Date, skipWeekends: bool, skipToday: bool)
    returns (next: Option<Holiday>, isToday: bool)
    ensures fetched.Failure? ==> next == None && !isToday
    ensures fetched.Success? && next.Some? ==>
      exists i :: 0 <= i < |fetched.value| && fetched.value[i] == next.value
        && Selectable(fetched.value[i], date, today, skipWeekends, skipToday)
        && forall k :: 0 <= k < i ==> !Selectable(fetched.value[k], date, today, skipWeekends, skipToday)
    ensures fetched.Success? && next.None? ==>
      forall k :: 0 <= k < |fetched.value| ==> !Selectable(fetched.value[k], date, today, skipWeekends, skipToday)
    ensures isToday <==> next.Some? && IsToday(ParseOrZero(next.value.date), today)
    ensures next.Some? && skipWeekends ==> !IsWeekend(ParseOrZero(next.value.date))
    ensures next.Some? && skipToday ==> Before(date, ParseOrZero(next.value.date))
  {
    if fetched.Failure? {
      return None, false;
    }
    var holidays := fetched.value;
    for i := 0 to |holidays|
      invariant forall k :: 0 <= k < i ==> !Selectable(holidays[k], date, today, skipWeekends, skipToday)
    {
      var h := holidays[i];
      var holidayDate := Parse(h.date);
      if holidayDate.None? {
        continue;
      }
      var d := holidayDate.value;
      if Before(date, d) || (!skipToday && IsToday(d, today)) {
        if skipWeekends && (Weekday(d) == SATURDAY || Weekday(d) == SUNDAY) {
          continue;
        }
        return Some(h), IsToday(d, today);
      }
    }
    return None, false;
  }

  /** The month filter of `GetAllHolidaysOfMonth` (functions.go:157-167):
      the records that parse to a day of `month`, in list order. */
  function OfMonth(holidays: seq<Holiday>, month: int): seq<Holiday> {
    if holidays == [] then []
    else
      var h := holidays[|holidays| - 1];
      OfMonth(holidays[..|holidays| - 1], month)
        + if Parse(h.date).Some? && Parse(h.date).value.month == month then [h] else []
  }

  /** The loop of functions.go:157-167. */
  method FilterMonth(holidays: seq<Holiday>, month: int) returns (holidaysOfMonth: seq<Holiday>)
    ensures holidaysOfMonth == OfMonth(holidays, month)
  {
    holidaysOfMonth := [];
    for i := 0 to |holidays|
      invariant holidaysOfMonth == OfMonth(holidays[..i], month)
    {
      assert holidays[..i + 1][..i] == holidays[..i];
      var h := holidays[i];
      var holidayDate := Parse(h.date);
      if holidayDate.None? {
        continue;
      }
      if holidayDate.value.month == month {
        holidaysOfMonth := holidaysOfMonth + [h];
      }
    }
    assert holidays[..|holidays|] == holidays;
  }

  /** The month filter keeps exactly the records that parse to a day of the
      month, each as often as the list holds it, in list order. */
  lemma {:induction false} OfMonthMembers(holidays: seq<Holiday>, month: int)
    ensures forall h :: h in OfMonth(holidays, month) <==>
      h in holidays && Parse(h.date).Some? && Parse(h.date).value.month == month
    ensures forall h :: h in holidays && Parse(h.date).Some? && Parse(h.date).value.month == month ==>
      multiset(OfMonth(holidays, month))[h] == multiset(holidays)[h]
    ensures |OfMonth(holidays, month)| <= |holidays|
  {
    if holidays != [] {
      var init, h := holidays[..|holidays| - 1], holidays[|holidays| - 1];
      OfMonthMembers(init, month);
      assert holidays == init + [h];
      var kept := if Parse(h.date).Some? && Parse(h.date).value.month == month then [h] else [];
      assert OfMonth(holidays, month) == OfMonth(init, month) + kept;
      assert multiset(OfMonth(holidays, month)) == multiset(OfMonth(init, month)) + multiset(kept);
      assert multiset(holidays) == multiset(init) + multiset{h};
    }
  }
}
