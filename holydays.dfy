/** The list scans of `internal/helpers/holydays.go`, the older twins of
    `IsHoliday` and `NextHoliday`. They compare the records with one instant,
    `date`, here a day at midnight UTC, which is what a record's parsed date
    is. The fetched list is a parameter. */
module Holydays {
  import opened Wrappers
  import opened Calendar
  import opened DateText
  import opened HolidayTypes

  /** Record `h` is dated `date`: its text parses, to that day. */
  predicate DatedOn(h: Holiday, date: Date) {
    Parse(h.date) == Some(date)
  }

  /** `IsHolyday` (holydays.go:74-86). */
  method IsHolyday(date: Date, holydays: seq<Holiday>) returns (isHolyday: bool)
    ensures isHolyday <==> exists i :: 0 <= i < |holydays| && DatedOn(holydays[i], date)
  {
    for i := 0 to |holydays|
      invariant forall k :: 0 <= k < i ==> !DatedOn(holydays[k], date)
    {
      var holydayDate := Parse(holydays[i].date);
      if holydayDate.None? {
        continue;
      }
      if date == holydayDate.value {
        return true;
      }
    }
    return false;
  }

  /** The test of holydays.go:101-104 on a record dated `d`: it is after
      `date`, or on it when that day counts, and it is not a weekend day that
      is to be skipped. */
  predicate Eligible(d: Date, date: Date, skipWeekends: bool, skipToday: bool) {
    (Before(date, d) || (!skipToday && d == date))
      && !(skipWeekends && (Weekday(d) == SATURDAY || Weekday(d) == SUNDAY))
  }

  predicate Candidate(h: Holiday, date: Date, skipWeekends: bool, skipToday: bool) {
    Parse(h.date).Some? && Eligible(Parse(h.date).value, date, skipWeekends, skipToday)
  }

  /** The selection of `NextHolyday` (holydays.go:88-109): the first record,
      in list order, whose date parses and is eligible; nothing when the
      fetch failed or no record is. */
  method NextHolyday(fetched: Result<seq<Holiday>>, date: Date, skipWeekends: bool, skipToday: bool)
    returns (next: Option<Holiday>)
    ensures fetched.Failure? ==> next == None
    ensures fetched.Success? && next.Some? ==>
      exists i :: 0 <= i < |fetched.value| && fetched.value[i] == next.value
        && Candidate(fetched.value[i], date, skipWeekends, skipToday)
        && forall k :: 0 <= k < i ==> !Candidate(fetched.value[k], date, skipWeekends, skipToday)
    ensures fetched.Success? && next.None? ==>
      forall k :: 0 <= k < |fetched.value| ==> !Candidate(fetched.value[k], date, skipWeekends, skipToday)
    ensures next.Some? ==> Parse(next.value.date).Some?
    ensures next.Some? && skipWeekends ==> !IsWeekend(ParseOrZero(next.value.date))
    ensures next.Some? && skipToday ==> Before(date, ParseOrZero(next.value.date))
  {
    if fetched.Failure? {
      return None;
    }
    var holydays := fetched.value;
    for i := 0 to |holydays|
      invariant forall k :: 0 <= k < i ==> !Candidate(holydays[k], date, skipWeekends, skipToday)
    {
      var h := holydays[i];
      var holydayDate := Parse(h.date);
      if holydayDate.None? {
        continue;
      }
      var d := holydayDate.value;
      if Before(date, d) || (!skipToday && d == date) {
        if skipWeekends && (Weekday(d) == SATURDAY || Weekday(d) == SUNDAY) {
          continue;
        }
        return Some(h);
      }
    }
    return None;
  }
}
