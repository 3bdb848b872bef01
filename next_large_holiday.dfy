/** `GetNextLargeHoliday` (`internal/commands/holiday/nextLargeHoliday.go`):
    of the groups `largeHolidays` found, the first that starts after today.
    The clock reading is the parameter `today`: a record's date, midnight
    UTC, is after the current instant exactly when it is a later day than
    the current UTC day. */
module NextLargeHoliday {
  import opened Calendar
  import opened DateText
  import opened HolidayTypes

  /** The first record of `group` is dated, and later than `today`. */
  predicate StartsAfter(group: seq<Holiday>, today: Date) {
    |group| > 0 && Parse(group[0].date).Some? && Before(today, Parse(group[0].date).value)
  }

  /** `GetNextLargeHoliday` (nextLargeHoliday.go:18-33). Go indexes the
      list and every group's first record, so both must be non-empty. The
      answer is the first group that starts after today, or the first group
      of all when none does. */
  method GetNextLargeHoliday(holidays: seq<seq<Holiday>>, today: Date) returns (nextLargeHoliday: seq<Holiday>)
    requires |holidays| > 0
    requires forall k :: 0 <= k < |holidays| ==> |holidays[k]| > 0
    ensures nextLargeHoliday in holidays
    ensures (exists i :: 0 <= i < |holidays| && holidays[i] == nextLargeHoliday && StartsAfter(holidays[i], today)
               && forall k :: 0 <= k < i ==> !StartsAfter(holidays[k], today))
         || ((forall k :: 0 <= k < |holidays| ==> !StartsAfter(holidays[k], today)) && nextLargeHoliday == holidays[0])
  {
    nextLargeHoliday := holidays[0];
    for i := 0 to |holidays|
      invariant forall k :: 0 <= k < i ==> !StartsAfter(holidays[k], today)
    {
      var holiday := holidays[i];
      var parsedDate := Parse(holiday[0].date);
      if parsedDate.None? {
        continue;
      }
      if Before(today, parsedDate.value) {
        nextLargeHoliday := holiday;
        assert StartsAfter(holidays[i], today);
        return;
      }
    }
  }
}
