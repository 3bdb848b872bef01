/** `groupAdjacentHolidays` and its helpers (holidayProcessor.go:80-175,
    206-222): cut a date-sorted list of entries into runs of consecutive
    days, widen every run with the weekend days that touch it, and link the
    members of each widened group to one another. */
module AdjacentGrouping {
  import opened Wrappers
  import opened Calendar
  import opened DateText
  import opened HolidayTypes
  import opened Sequences

  /** The day an entry's `Date` text names, read back with the parse error
      ignored (holidayProcessor.go:93-94, 112-113, 122-123): text that does
      not parse reads as the zero day. */
  function DayOf(x: ParsedHoliday): Date {
    ParseOrZero(x.date)
  }

  /** An entry whose `Date` text parses to its `RawDate`, as every entry that
      `HolidaysProcessor` builds. */
  predicate Dated(x: ParsedHoliday) {
    Parse(x.date).Some? && Parse(x.date).value == x.rawDate
  }

  /** `isWeekend` (holidayProcessor.go:206-209). */
  predicate IsWeekendDay(d: Date) {
    IsWeekend(d)
  }

  /** `createWeekendHoliday` (holidayProcessor.go:212-222); `zone` is the RFC
      3339 offset of the local time zone the day was read in. */
  function WeekendEntry(d: Date, zone: string): ParsedHoliday {
    var weekday := EnglishWeekday(Weekday(d));
    ParsedHoliday(Format(d), Weekend, weekday, LongDate(d),
                  NamedDate(weekday, EnglishMonth(d.month)), d,
                  MidnightRfc3339(d, zone), 0, [], false, 0)
  }

  function WeekendEntries(days: seq<Date>, zone: string): (es: seq<ParsedHoliday>)
    ensures |es| == |days|
  {
    if days == [] then [] else [WeekendEntry(days[0], zone)] + WeekendEntries(days[1..], zone)
  }

  lemma {:induction false} WeekendEntriesAppend(a: seq<Date>, b: seq<Date>, zone: string)
    ensures WeekendEntries(a + b, zone) == WeekendEntries(a, zone) + WeekendEntries(b, zone)
  {
    if a != [] {
      assert (a + b)[1..] == a[1..] + b;
      WeekendEntriesAppend(a[1..], b, zone);
    } else {
      assert a + b == b;
    }
  }

  lemma EntriesPrepend(weekends: seq<ParsedHoliday>, days: seq<Date>, d: Date, zone: string)
    requires weekends == WeekendEntries(days, zone)
    ensures [WeekendEntry(d, zone)] + weekends == WeekendEntries([d] + days, zone)
  {
    WeekendEntriesAppend([d], days, zone);
  }

  lemma EntriesAppend(weekends: seq<ParsedHoliday>, days: seq<Date>, d: Date, zone: string)
    requires weekends == WeekendEntries(days, zone)
    ensures weekends + [WeekendEntry(d, zone)] == WeekendEntries(days + [d], zone)
  {
    WeekendEntriesAppend(days, [d], zone);
  }

  /** The weekend days directly before `d`: Saturday and Sunday before a
      Monday, the Saturday before a Sunday, none before any other day. */
  function WeekendDaysBefore(d: Date): seq<Date> {
    if Weekday(d) == MONDAY then [PrevDay(PrevDay(d)), PrevDay(d)]
    else if Weekday(d) == SUNDAY then [PrevDay(d)]
    else []
  }

  /** The weekend days directly after `d`: Saturday and Sunday after a
      Friday, the Sunday after a Saturday, none after any other day. */
  function WeekendDaysAfter(d: Date): seq<Date> {
    if Weekday(d) == FRIDAY then [NextDay(d), NextDay(NextDay(d))]
    else if Weekday(d) == SATURDAY then [NextDay(d)]
    else []
  }

  /** The block before `d` is every weekend day up to the day before `d`: at
      most two of them, ascending one day apart, the last one the day before
      `d`, and the day before the block is a weekday. */
  lemma WeekendBlockBefore(d: Date)
    ensures var ws := WeekendDaysBefore(d);
      && |ws| <= 2
      && (forall i :: 0 <= i < |ws| ==> IsWeekend(ws[i]))
      && (forall i :: 0 < i < |ws| ==> ws[i] == NextDay(ws[i - 1]))
      && (ws != [] ==> ws[|ws| - 1] == PrevDay(d))
      && !IsWeekend(PrevDay(if ws == [] then d else ws[0]))
  {
    WeekdayOfNeighbours(d);
    WeekdayOfNeighbours(PrevDay(d));
    WeekdayOfNeighbours(PrevDay(PrevDay(d)));
    NextPrevInverse(PrevDay(d), d);
  }

  /** The block after `d` is every weekend day from the day after `d` on: at
      most two of them, ascending one day apart, the first one the day after
      `d`, and the day after the block is a weekday. */
  lemma WeekendBlockAfter(d: Date)
    ensures var ws := WeekendDaysAfter(d);
      && |ws| <= 2
      && (forall i :: 0 <= i < |ws| ==> IsWeekend(ws[i]))
      && (forall i :: 0 < i < |ws| ==> ws[i] == NextDay(ws[i - 1]))
      && (ws != [] ==> ws[0] == NextDay(d))
      && !IsWeekend(NextDay(if ws == [] then d else ws[|ws| - 1]))
  {
    WeekdayOfNeighbours(d);
    WeekdayOfNeighbours(NextDay(d));
    WeekdayOfNeighbours(NextDay(NextDay(d)));
  }

  lemma WeekendDaysBeforeStep(x: Date)
    ensures IsWeekend(PrevDay(x)) ==> WeekendDaysBefore(x) == WeekendDaysBefore(PrevDay(x)) + [PrevDay(x)]
    ensures !IsWeekend(PrevDay(x)) ==> WeekendDaysBefore(x) == []
  {
    WeekdayOfNeighbours(x);
    WeekdayOfNeighbours(PrevDay(x));
  }

  lemma WeekendDaysAfterStep(x: Date)
    ensures IsWeekend(NextDay(x)) ==> WeekendDaysAfter(x) == [NextDay(x)] + WeekendDaysAfter(NextDay(x))
    ensures !IsWeekend(NextDay(x)) ==> WeekendDaysAfter(x) == []
  {
    WeekdayOfNeighbours(x);
    WeekdayOfNeighbours(NextDay(x));
  }

  /** One step of the loop of `findPrecedingWeekends`: a weekend day `d`
      joins the front of the block already found after it. */
  lemma PrecedingStep(startDate: Date, d: Date, days: seq<Date>)
    requires IsWeekend(d)
    requires WeekendDaysBefore(startDate) == WeekendDaysBefore(NextDay(d)) + days
    ensures WeekendDaysBefore(startDate) == WeekendDaysBefore(NextDay(PrevDay(d))) + ([d] + days)
    ensures |WeekendDaysBefore(NextDay(PrevDay(d)))| < |WeekendDaysBefore(NextDay(d))|
  {
    NextPrevInverse(d, d);
    WeekendDaysBeforeStep(NextDay(d));
    var before := WeekendDaysBefore(d);
    assert WeekendDaysBefore(NextDay(d)) == before + [d];
    assert (before + [d]) + days == before + ([d] + days);
  }

  /** `findPrecedingWeekends` (holidayProcessor.go:143-151). */
  method FindPrecedingWeekends(startDate: Date, zone: string) returns (weekends: seq<ParsedHoliday>)
    ensures weekends == WeekendEntries(WeekendDaysBefore(startDate), zone)
  {
    weekends := [];
    ghost var days: seq<Date> := [];
    var d := PrevDay(startDate);
    NextPrevInverse(startDate, startDate);
    while IsWeekendDay(d)
      invariant weekends == WeekendEntries(days, zone)
      invariant WeekendDaysBefore(startDate) == WeekendDaysBefore(NextDay(d)) + days
      decreases |WeekendDaysBefore(NextDay(d))|
    {
      PrecedingStep(startDate, d, days);
      EntriesPrepend(weekends, days, d, zone);
      weekends := [WeekendEntry(d, zone)] + weekends;
      days := [d] + days;
      d := PrevDay(d);
    }
    NextPrevInverse(d, d);
    WeekendDaysBeforeStep(NextDay(d));
    assert WeekendDaysBefore(startDate) == days;
  }

  /** One step of the loop of `findSucceedingWeekends`: a weekend day `d`
      joins the end of the block already found before it. */
  lemma SucceedingStep(endDate: Date, d: Date, days: seq<Date>)
    requires IsWeekend(d)
    requires WeekendDaysAfter(endDate) == days + WeekendDaysAfter(PrevDay(d))
    ensures WeekendDaysAfter(endDate) == (days + [d]) + WeekendDaysAfter(PrevDay(NextDay(d)))
    ensures |WeekendDaysAfter(PrevDay(NextDay(d)))| < |WeekendDaysAfter(PrevDay(d))|
  {
    NextPrevInverse(d, d);
    WeekendDaysAfterStep(PrevDay(d));
    var after := WeekendDaysAfter(d);
    assert WeekendDaysAfter(PrevDay(d)) == [d] + after;
    assert days + ([d] + after) == (days + [d]) + after;
  }

  /** `findSucceedingWeekends` (holidayProcessor.go:154-162). */
  method FindSucceedingWeekends(endDate: Date, zone: string) returns (weekends: seq<ParsedHoliday>)
    ensures weekends == WeekendEntries(WeekendDaysAfter(endDate), zone)
  {
    weekends := [];
    ghost var days: seq<Date> := [];
    var d := NextDay(endDate);
    NextPrevInverse(endDate, endDate);
    while IsWeekendDay(d)
      invariant weekends == WeekendEntries(days, zone)
      invariant WeekendDaysAfter(endDate) == days + WeekendDaysAfter(PrevDay(d))
      decreases |WeekendDaysAfter(PrevDay(d))|
    {
      SucceedingStep(endDate, d, days);
      EntriesAppend(weekends, days, d, zone);
      weekends := weekends + [WeekendEntry(d, zone)];
      days := days + [d];
      d := NextDay(d);
    }
    NextPrevInverse(d, d);
    WeekendDaysAfterStep(PrevDay(d));
    assert WeekendDaysAfter(endDate) == days;
  }

  /** The weekend days from `d` up to, not including, `end`, ascending. */
  function WeekendDaysFrom(d: Date, end: Date): seq<Date>
    decreases DayNumber(end) - DayNumber(d)
  {
    if Before(d, end) then
      (if IsWeekend(d) then [d] else []) + WeekendDaysFrom(NextDay(d), end)
    else
      []
  }

  /** The weekend days strictly between `a` and `b`. */
  function WeekendDaysBetween(a: Date, b: Date): seq<Date> {
    WeekendDaysFrom(NextDay(a), b)
  }

  /** `WeekendDaysFrom` lists exactly the weekend days of the interval, each
      later than the one before. */
  lemma {:induction false} WeekendDaysFromMembers(d: Date, end: Date)
    ensures var ws := WeekendDaysFrom(d, end);
      && (forall x :: x in ws <==> IsWeekend(x) && DayNumber(d) <= DayNumber(x) < DayNumber(end))
      && (forall i :: 0 < i < |ws| ==> DayNumber(ws[i - 1]) < DayNumber(ws[i]))
    decreases DayNumber(end) - DayNumber(d)
  {
    if Before(d, end) {
      WeekendDaysFromMembers(NextDay(d), end);
      var ws := WeekendDaysFrom(d, end);
      var rest := WeekendDaysFrom(NextDay(d), end);
      forall x
        ensures x in ws <==> IsWeekend(x) && DayNumber(d) <= DayNumber(x) < DayNumber(end)
      {
        DayNumberOrder(x, d);
      }
      if IsWeekend(d) {
        assert ws == [d] + rest;
        forall i | 0 < i < |ws|
          ensures DayNumber(ws[i - 1]) < DayNumber(ws[i])
        {
          if i > 1 {
            assert ws[i - 1] == rest[i - 2] && ws[i] == rest[i - 1];
          } else {
            assert ws[i] in rest;
          }
        }
      }
    } else {
      forall x | IsWeekend(x) && DayNumber(d) <= DayNumber(x)
        ensures DayNumber(x) >= DayNumber(end)
      {
      }
    }
  }

  /** One step of the loop of `createWeekendHolidaysBetween`: day `d` is
      taken when it is a weekend day and skipped otherwise. */
  lemma BetweenStep(all: seq<Date>, days: seq<Date>, d: Date, end: Date)
    requires Before(d, end)
    requires all == days + WeekendDaysFrom(d, end)
    ensures IsWeekend(d) ==> all == (days + [d]) + WeekendDaysFrom(NextDay(d), end)
    ensures !IsWeekend(d) ==> all == days + WeekendDaysFrom(NextDay(d), end)
  {
    var rest := WeekendDaysFrom(NextDay(d), end);
    if IsWeekend(d) {
      assert WeekendDaysFrom(d, end) == [d] + rest;
      assert days + ([d] + rest) == (days + [d]) + rest;
    } else {
      assert WeekendDaysFrom(d, end) == [] + rest;
      assert [] + rest == rest;
    }
  }

  /** `createWeekendHolidaysBetween` (holidayProcessor.go:165-175). */
  method CreateWeekendHolidaysBetween(start: Date, end: Date, zone: string) returns (weekends: seq<ParsedHoliday>)
    ensures weekends == WeekendEntries(WeekendDaysBetween(start, end), zone)
  {
    weekends := [];
    ghost var all := WeekendDaysBetween(start, end);
    ghost var days: seq<Date> := [];
    var d := NextDay(start);
    while Before(d, end)
      invariant weekends == WeekendEntries(days, zone)
      invariant all == days + WeekendDaysFrom(d, end)
      decreases DayNumber(end) - DayNumber(d)
    {
      BetweenStep(all, days, d, end);
      if IsWeekendDay(d) {
        EntriesAppend(weekends, days, d, zone);
        weekends := weekends + [WeekendEntry(d, zone)];
        days := days + [d];
      }
      d := NextDay(d);
    }
    assert WeekendDaysFrom(d, end) == [];
    assert all == days;
  }

  /** `days` are the day numbers of the entries of `hs`. The fact about an
      entry is drawn only where the entry's day is already in question. */
  predicate DaysOf(hs: seq<ParsedHoliday>, days: seq<int>) {
    |days| == |hs| && forall k {:trigger DayOf(hs[k])} :: 0 <= k < |hs| ==> days[k] == DayNumber(DayOf(hs[k]))
  }

  /** The day numbers of the days the entries' `Date` texts name, in
      order: the test of holidayProcessor.go:93-97 holds between two entries
      exactly when their numbers are one apart (`Calendar.NextPrevInverse`). */
  function DayNumbersOf(hs: seq<ParsedHoliday>): (days: seq<int>)
    ensures DaysOf(hs, days)
  {
    if hs == [] then []
    else
      var rest := DayNumbersOf(hs[1..]);
      assert forall k :: 0 < k < |hs| ==> hs[k] == hs[1..][k - 1] && DayOf(hs[1..][k - 1]) == DayOf(hs[k]);
      [DayNumber(DayOf(hs[0]))] + rest
  }

  /** The last index of the run of consecutive days that starts at `i`. */
  function RunEnd(days: seq<int>, i: nat): (j: nat)
    requires i < |days|
    ensures i <= j < |days|
    decreases |days| - i
  {
    if i + 1 < |days| && days[i + 1] == days[i] + 1 then RunEnd(days, i + 1) else i
  }

  /** A run is as long as it can be: every day in it is followed by the next
      day, and the day after its end is not. */
  lemma {:induction false} RunEndMaximal(days: seq<int>, i: nat)
    requires i < |days|
    ensures var j := RunEnd(days, i);
      && (forall k :: i <= k < j ==> days[k + 1] == days[k] + 1)
      && (j + 1 < |days| ==> days[j + 1] != days[j] + 1)
    decreases |days| - i
  {
    if i + 1 < |days| && days[i + 1] == days[i] + 1 {
      RunEndMaximal(days, i + 1);
    }
  }

  lemma RunEndStep(days: seq<int>, j: nat)
    requires j + 1 < |days| && days[j + 1] == days[j] + 1
    ensures RunEnd(days, j) == RunEnd(days, j + 1)
  {
  }

  lemma RunEndStop(days: seq<int>, j: nat)
    requires j < |days| && (j + 1 < |days| ==> days[j + 1] != days[j] + 1)
    ensures RunEnd(days, j) == j
  {
  }

  /** The runs of `hs[i..]`, `days` being the day numbers of `hs`. */
  function RunsFrom<T>(hs: seq<T>, days: seq<int>, i: nat): seq<seq<T>>
    requires |days| == |hs| && i <= |hs|
    decreases |hs| - i
  {
    if i == |hs| then [] else [hs[i..RunEnd(days, i) + 1]] + RunsFrom(hs, days, RunEnd(days, i) + 1)
  }

  /** The runs joined together give back `hs[i..]`. */
  lemma {:induction false} RunsFromJoin<T>(hs: seq<T>, days: seq<int>, i: nat)
    requires |days| == |hs| && i <= |hs|
    ensures Concat(RunsFrom(hs, days, i)) == hs[i..]
    decreases |hs| - i
  {
    if i < |hs| {
      var j := RunEnd(days, i);
      var run, rest := hs[i..j + 1], RunsFrom(hs, days, j + 1);
      RunsFromJoin(hs, days, j + 1);
      DropSplit(hs, i, j + 1);
      ConcatCons(RunsFrom(hs, days, i), run, rest, hs[j + 1..]);
    }
  }

  /** No run is empty. */
  lemma {:induction false} RunsFromNonEmpty<T>(hs: seq<T>, days: seq<int>, i: nat)
    requires |days| == |hs| && i <= |hs|
    ensures forall k :: 0 <= k < |RunsFrom(hs, days, i)| ==> RunsFrom(hs, days, i)[k] != []
    decreases |hs| - i
  {
    if i < |hs| {
      var j := RunEnd(days, i);
      var run, rest := hs[i..j + 1], RunsFrom(hs, days, j + 1);
      RunsFromNonEmpty(hs, days, j + 1);
      forall k | 0 < k < |rest| + 1
        ensures ([run] + rest)[k] != []
      {
        assert ([run] + rest)[k] == rest[k - 1];
      }
    }
  }

  /** The runs of holidayProcessor.go:89-105. */
  function Runs(hs: seq<ParsedHoliday>): seq<seq<ParsedHoliday>> {
    RunsFrom(hs, DayNumbersOf(hs), 0)
  }

  /** What the loop at holidayProcessor.go:118-126 puts between two
      members of a run: the weekend days strictly between their days. */
  function Gap(zone: string): (ParsedHoliday, ParsedHoliday) -> seq<ParsedHoliday> {
    (a: ParsedHoliday, b: ParsedHoliday) => WeekendEntries(WeekendDaysBetween(DayOf(a), DayOf(b)), zone)
  }

  /** holidayProcessor.go:131-135: when a group has more than one member,
      every member's `Adjacent` becomes the group. */
  function Link(g: seq<ParsedHoliday>): seq<ParsedHoliday> {
    if |g| > 1 then seq(|g|, i requires 0 <= i < |g| => g[i].(adjacent := g)) else g
  }

  /** A run widened with the weekends directly before and after it and the
      weekends between its members (holidayProcessor.go:110-128). */
  function Widened(run: seq<ParsedHoliday>, zone: string): seq<ParsedHoliday>
    requires run != []
  {
    WeekendEntries(WeekendDaysBefore(DayOf(run[0])), zone)
      + Interleave(run, |run|, Gap(zone))
      + WeekendEntries(WeekendDaysAfter(DayOf(run[|run| - 1])), zone)
  }

  /** The final group a run becomes: widened, then linked. */
  function FinalGroup(run: seq<ParsedHoliday>, zone: string): seq<ParsedHoliday> {
    if run == [] then [] else Link(Widened(run, zone))
  }

  function Finalize(zone: string): seq<ParsedHoliday> -> seq<ParsedHoliday> {
    (run: seq<ParsedHoliday>) => FinalGroup(run, zone)
  }

  /** What `groupAdjacentHolidays` returns for `hs`: the final groups of its
      runs, joined in order. */
  function GroupAdjacent(hs: seq<ParsedHoliday>, zone: string): seq<ParsedHoliday> {
    FlatMap(Runs(hs), Finalize(zone))
  }

  lemma RunsStep<T>(hs: seq<T>, days: seq<int>, i: nat, j: nat,
                   group: seq<T>, found: seq<seq<T>>, all: seq<seq<T>>)
    requires |days| == |hs| && i < |hs|
    requires j == RunEnd(days, i) && group == hs[i..j + 1]
    requires all == found + RunsFrom(hs, days, i)
    ensures all == (found + [group]) + RunsFrom(hs, days, j + 1)
  {
    var rest := RunsFrom(hs, days, j + 1);
    assert RunsFrom(hs, days, i) == [group] + rest;
    assert found + ([group] + rest) == (found + [group]) + rest;
  }

  /** holidayProcessor.go:93-97: whether entry `j + 1` falls on the day
      after entry `j`, which is the day-number test `RunEnd` makes. */
  method FollowsDirectly(hs: seq<ParsedHoliday>, ghost days: seq<int>, j: nat) returns (follows: bool)
    requires DaysOf(hs, days) && j + 1 < |hs|
    ensures follows <==> days[j + 1] == days[j] + 1
  {
    var prevDate := ParseOrZero(hs[j].date);
    var nextDate := ParseOrZero(hs[j + 1].date);
    assert prevDate == DayOf(hs[j]) && nextDate == DayOf(hs[j + 1]);
    NextPrevInverse(prevDate, nextDate);
    follows := NextDay(prevDate) == nextDate;
  }

  /** The inner loop of holidayProcessor.go:90-102: the run that starts at
      entry `i`, and the index of its last entry. */
  method ExtendRun(hs: seq<ParsedHoliday>, ghost days: seq<int>, i: nat) returns (group: seq<ParsedHoliday>, j: nat)
    requires DaysOf(hs, days) && i < |hs|
    ensures j == RunEnd(days, i) && group == hs[i..j + 1]
  {
    group := [hs[i]];
    j := i;
    SliceOne(hs, i);
    while j + 1 < |hs|
      invariant i <= j < |hs|
      invariant group == hs[i..j + 1]
      invariant RunEnd(days, j) == RunEnd(days, i)
    {
      var follows := FollowsDirectly(hs, days, j);
      if !follows {
        RunEndStop(days, j);
        break;
      }
      SliceSnoc(hs, i, j + 1);
      RunEndStep(days, j);
      group := group + [hs[j + 1]];
      j := j + 1;
    }
    if j + 1 == |hs| {
      RunEndStop(days, j);
    }
  }

  /** The loop of holidayProcessor.go:89-105: the runs of `hs`, cut where
      the day numbers `days` of its entries stop increasing by one. */
  method CollectRuns(hs: seq<ParsedHoliday>, ghost days: seq<int>) returns (holidayGroups: seq<seq<ParsedHoliday>>)
    requires DaysOf(hs, days)
    ensures holidayGroups == RunsFrom(hs, days, 0)
  {
    ghost var all := RunsFrom(hs, days, 0);
    holidayGroups := [];
    var i := 0;
    while i < |hs|
      invariant 0 <= i <= |hs|
      invariant all == holidayGroups + RunsFrom(hs, days, i)
    {
      var group, j := ExtendRun(hs, days, i);
      RunsStep(hs, days, i, j, group, holidayGroups, all);
      holidayGroups := holidayGroups + [group];
      i := j + 1;
    }
    assert i == |hs|;
    AppendNil(holidayGroups, RunsFrom(hs, days, i), all);
  }

  /** What holidayProcessor.go:122-124 adds after member `m` of a run is
      the gap `Widened` puts there. */
  lemma GapOf(group: seq<ParsedHoliday>, m: nat, zone: string, between: seq<ParsedHoliday>)
    requires m + 1 < |group|
    requires between == WeekendEntries(WeekendDaysBetween(ParseOrZero(group[m].date), ParseOrZero(group[m + 1].date)), zone)
    ensures between == Gap(zone)(group[m], group[m + 1])
  {
  }

  /** The three parts holidayProcessor.go:116-128 appends make up `Widened`. */
  lemma WidenedOf(group: seq<ParsedHoliday>, zone: string, preceding: seq<ParsedHoliday>,
                  middle: seq<ParsedHoliday>, succeeding: seq<ParsedHoliday>)
    requires group != []
    requires preceding == WeekendEntries(WeekendDaysBefore(ParseOrZero(group[0].date)), zone)
    requires middle == preceding + Interleave(group, |group|, Gap(zone))
    requires succeeding == WeekendEntries(WeekendDaysAfter(ParseOrZero(group[|group| - 1].date)), zone)
    ensures middle + succeeding == Widened(group, zone)
  {
  }

  /** holidayProcessor.go:110-128: one run widened with its weekends. */
  method WidenRun(group: seq<ParsedHoliday>, zone: string) returns (finalGroup: seq<ParsedHoliday>)
    requires group != []
    ensures finalGroup == Widened(group, zone)
  {
    var firstHolidayDate := ParseOrZero(group[0].date);
    var lastHolidayDate := ParseOrZero(group[|group| - 1].date);

    finalGroup := FindPrecedingWeekends(firstHolidayDate, zone);
    ghost var preceding := finalGroup;
    var m := 0;
    while m < |group|
      invariant 0 <= m <= |group|
      invariant finalGroup == preceding + Interleave(group, m, Gap(zone))
    {
      InterleaveStep(preceding, finalGroup, group, m, Gap(zone));
      finalGroup := finalGroup + [group[m]];
      if m + 1 < |group| {
        var currentDate := ParseOrZero(group[m].date);
        var nextDate := ParseOrZero(group[m + 1].date);
        var between := CreateWeekendHolidaysBetween(currentDate, nextDate, zone);
        GapOf(group, m, zone, between);
        finalGroup := finalGroup + between;
      }
      m := m + 1;
    }
    assert m == |group|;
    var succeeding := FindSucceedingWeekends(lastHolidayDate, zone);
    WidenedOf(group, zone, preceding, finalGroup, succeeding);
    finalGroup := finalGroup + succeeding;
  }

  /** holidayProcessor.go:131-135: the members of a group of more than one
      entry get the group as their `Adjacent`. */
  method LinkMembers(finalGroup: seq<ParsedHoliday>) returns (linked: seq<ParsedHoliday>)
    ensures linked == Link(finalGroup)
  {
    linked := finalGroup;
    if |finalGroup| > 1 {
      var p := 0;
      while p < |linked|
        invariant 0 <= p <= |linked| == |finalGroup|
        invariant forall q :: 0 <= q < p ==> linked[q] == finalGroup[q].(adjacent := finalGroup)
        invariant forall q :: p <= q < |linked| ==> linked[q] == finalGroup[q]
      {
        linked := linked[p := linked[p].(adjacent := finalGroup)];
        p := p + 1;
      }
    }
  }

  /** `groupAdjacentHolidays` (holidayProcessor.go:80-140). */
  method GroupAdjacentHolidays(sortedHolidays: seq<ParsedHoliday>, zone: string) returns (grouped: seq<ParsedHoliday>)
    ensures grouped == GroupAdjacent(sortedHolidays, zone)
  {
    if |sortedHolidays| == 0 {
      return sortedHolidays;
    }
    var holidayGroups := CollectRuns(sortedHolidays, DayNumbersOf(sortedHolidays));
    RunsFromNonEmpty(sortedHolidays, DayNumbersOf(sortedHolidays), 0);
    var allGroupedHolidays: seq<ParsedHoliday> := [];
    var k := 0;
    while k < |holidayGroups|
      invariant 0 <= k <= |holidayGroups|
      invariant allGroupedHolidays == FlatMap(holidayGroups[..k], Finalize(zone))
    {
      var group := holidayGroups[k];
      var finalGroup := WidenRun(group, zone);
      finalGroup := LinkMembers(finalGroup);
      assert finalGroup == Finalize(zone)(group);
      FlatMapSnoc(holidayGroups[..k], group, Finalize(zone));
      TakeSnoc(holidayGroups, k);
      allGroupedHolidays := allGroupedHolidays + finalGroup;
      k := k + 1;
    }
    assert k == |holidayGroups|;
    TakeAll(holidayGroups);
    return allGroupedHolidays;
  }

  /** An entry with its `Adjacent` list set aside: what grouping never
      changes about it. */
  function Bare(x: ParsedHoliday): ParsedHoliday {
    x.(adjacent := [])
  }

  /** An entry as a holiday of the input: nothing for a synthesized weekend
      entry, the bare entry otherwise. */
  function RealOf(x: ParsedHoliday): seq<ParsedHoliday> {
    if x.kind == Weekend then [] else [Bare(x)]
  }

  /** The entries of `s` that are not synthesized weekend days, bare, in order. */
  function RealEntries(s: seq<ParsedHoliday>): seq<ParsedHoliday> {
    FlatMap(s, RealOf)
  }

  lemma {:induction false} RealOfWeekendEntries(days: seq<Date>, zone: string)
    ensures RealEntries(WeekendEntries(days, zone)) == []
  {
    if days != [] {
      var es := WeekendEntries(days, zone);
      assert es[0] == WeekendEntry(days[0], zone) && es[1..] == WeekendEntries(days[1..], zone);
      RealOfWeekendEntries(days[1..], zone);
    }
  }

  lemma RealOfInterleave(run: seq<ParsedHoliday>, zone: string)
    ensures RealEntries(Interleave(run, |run|, Gap(zone))) == RealEntries(run)
  {
    forall k | 0 < k < |run|
      ensures FlatMap(Gap(zone)(run[k - 1], run[k]), RealOf) == []
    {
      RealOfWeekendEntries(WeekendDaysBetween(DayOf(run[k - 1]), DayOf(run[k])), zone);
    }
    FlatMapInterleave(run, |run|, Gap(zone), RealOf);
    TakeAll(run);
  }

  /** Linking gives each member its group as `Adjacent` when the group has
      more than one member, and changes nothing else. */
  lemma LinkShares(g: seq<ParsedHoliday>)
    ensures |Link(g)| == |g|
    ensures forall i :: 0 <= i < |g| ==> Bare(Link(g)[i]) == Bare(g[i])
    ensures |g| > 1 ==> forall i :: 0 <= i < |g| ==> Link(g)[i].adjacent == g
    ensures |g| <= 1 ==> Link(g) == g
  {
  }

  lemma RealOfLink(g: seq<ParsedHoliday>)
    ensures RealEntries(Link(g)) == RealEntries(g)
  {
    LinkShares(g);
    assert forall i :: 0 <= i < |g| ==> RealOf(Link(g)[i]) == RealOf(g[i]);
    FlatMapPointwise(Link(g), g, RealOf);
  }

  lemma RealOfJoin(a: seq<ParsedHoliday>, b: seq<ParsedHoliday>, c: seq<ParsedHoliday>)
    requires RealEntries(a) == [] && RealEntries(c) == []
    ensures RealEntries(a + b + c) == RealEntries(b)
  {
    FlatMapAppend(a + b, c, RealOf);
    FlatMapAppend(a, b, RealOf);
  }

  lemma RealOfFinalGroup(run: seq<ParsedHoliday>, zone: string)
    ensures RealEntries(FinalGroup(run, zone)) == RealEntries(run)
  {
    if run != [] {
      var before := WeekendDaysBefore(DayOf(run[0]));
      var after := WeekendDaysAfter(DayOf(run[|run| - 1]));
      RealOfWeekendEntries(before, zone);
      RealOfWeekendEntries(after, zone);
      RealOfInterleave(run, zone);
      RealOfJoin(WeekendEntries(before, zone), Interleave(run, |run|, Gap(zone)), WeekendEntries(after, zone));
      RealOfLink(Widened(run, zone));
    }
  }

  lemma {:induction false} RealOfGroupedRuns(runs: seq<seq<ParsedHoliday>>, zone: string)
    ensures RealEntries(FlatMap(runs, Finalize(zone))) == RealEntries(Concat(runs))
  {
    if runs != [] {
      var rest := FlatMap(runs[1..], Finalize(zone));
      RealOfGroupedRuns(runs[1..], zone);
      FlatMapAppend(FinalGroup(runs[0], zone), rest, RealOf);
      FlatMapAppend(runs[0], Concat(runs[1..]), RealOf);
      RealOfFinalGroup(runs[0], zone);
    }
  }

  /** Grouping only adds weekend entries and sets `Adjacent`: the entries
      of its output that are not synthesized weekend days are, in order and
      `Adjacent` aside, exactly those of its input; no input gives no
      output. */
  lemma GroupAdjacentKeepsReal(hs: seq<ParsedHoliday>, zone: string)
    ensures RealEntries(GroupAdjacent(hs, zone)) == RealEntries(hs)
    ensures hs == [] ==> GroupAdjacent(hs, zone) == []
  {
    RunsFromJoin(hs, DayNumbersOf(hs), 0);
    RealOfGroupedRuns(Runs(hs), zone);
  }

  /** Entries that are holidays of the input and belong to no group are
      their own real entries. */
  lemma {:induction false} RealEntriesOfPlain(hs: seq<ParsedHoliday>)
    requires forall k :: 0 <= k < |hs| ==> hs[k].kind != Weekend && hs[k].adjacent == []
    ensures RealEntries(hs) == hs
  {
    if hs != [] {
      RealEntriesOfPlain(hs[1..]);
      assert hs == [hs[0]] + hs[1..];
    }
  }

  /** A run of consecutive days widens to the weekend block before its
      first day, the run itself (nothing lies between two consecutive
      days) and the weekend block after its last day; the blocks touch the
      run, so the group spans consecutive days. */
  lemma WidenedRun(run: seq<ParsedHoliday>, zone: string)
    requires run != []
    requires forall k :: 0 < k < |run| ==> DayNumber(DayOf(run[k])) == DayNumber(DayOf(run[k - 1])) + 1
    ensures var first, last := DayOf(run[0]), DayOf(run[|run| - 1]);
      Widened(run, zone)
        == WeekendEntries(WeekendDaysBefore(first), zone) + run + WeekendEntries(WeekendDaysAfter(last), zone)
    ensures var ws := WeekendDaysBefore(DayOf(run[0]));
      ws != [] ==> NextDay(ws[|ws| - 1]) == DayOf(run[0])
    ensures var ws := WeekendDaysAfter(DayOf(run[|run| - 1]));
      ws != [] ==> ws[0] == NextDay(DayOf(run[|run| - 1]))
  {
    forall k | 0 < k < |run|
      ensures Gap(zone)(run[k - 1], run[k]) == []
    {
      var a, b := DayOf(run[k - 1]), DayOf(run[k]);
      NextPrevInverse(a, b);
      assert WeekendDaysFrom(NextDay(a), b) == [];
    }
    InterleaveEmptyGaps(run, |run|, Gap(zone));
    TakeAll(run);
    WeekendBlockBefore(DayOf(run[0]));
    WeekendBlockAfter(DayOf(run[|run| - 1]));
    NextPrevInverse(DayOf(run[0]), DayOf(run[0]));
  }
}
