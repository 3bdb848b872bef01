/** `largeHolidays` and `GetAllHolidaysOfMonth`
    (`internal/commands/holiday/functions.go`): the older grouping of
    holidays into "large" ones. Each record not yet taken seeds a group;
    the scan back from its day takes untaken holidays and stops after one
    weekend day or at a Monday, the scan forward takes untaken holidays and
    weekend days and stops at a Friday that is not an untaken holiday. */
module LargeHolidays {
  import opened Wrappers
  import opened Calendar
  import opened DateText
  import opened HolidayTypes
  import opened Sorting
  import opened HolidayLookup

  /** The key `largeHolidays` sorts by (functions.go:181-183). */
  function DateOf(h: Holiday): string {
    h.date
  }

  /** The record made up for a weekend day (functions.go:210, 226): the
      day's text, type "Weekend" and the English name of the weekday. */
  function WeekendRecord(d: Date): (h: Holiday)
    ensures h.kind == "Weekend" && h.date == Format(d) && h.name == EnglishWeekday(Weekday(d))
  {
    Holiday(Format(d), "Weekend", EnglishWeekday(Weekday(d)))
  }

  /** `holidayMap` after the loop of functions.go:185-188: every record
      under its date text, a later record replacing an earlier one. */
  function DateMap(hs: seq<Holiday>): (m: map<string, Holiday>)
    ensures forall k :: k in m ==> m[k].date == k
  {
    if hs == [] then map[]
    else
      var h := hs[|hs| - 1];
      DateMap(hs[..|hs| - 1])[h.date := h]
  }

  /** Record `i` is the last of `hs` dated `k`. */
  predicate LastDated(hs: seq<Holiday>, k: string, i: int) {
    0 <= i < |hs| && hs[i].date == k && forall j :: i < j < |hs| ==> hs[j].date != k
  }

  /** The map's keys are the records' date texts, and under each it holds
      the last record with that text. */
  lemma {:induction false} DateMapLastWins(hs: seq<Holiday>)
    ensures forall i :: 0 <= i < |hs| ==> hs[i].date in DateMap(hs)
    ensures forall k :: k in DateMap(hs) ==> exists i :: LastDated(hs, k, i) && DateMap(hs)[k] == hs[i]
  {
    if hs != [] {
      var init, h := hs[..|hs| - 1], hs[|hs| - 1];
      DateMapLastWins(init);
      assert forall i :: 0 <= i < |init| ==> hs[i] == init[i];
      forall k | k in DateMap(hs)
        ensures exists i :: LastDated(hs, k, i) && DateMap(hs)[k] == hs[i]
      {
        if k == h.date {
          assert LastDated(hs, k, |hs| - 1);
        } else {
          assert k in DateMap(init) && DateMap(hs)[k] == DateMap(init)[k];
          var i :| LastDated(init, k, i) && DateMap(init)[k] == init[i];
          forall j | i < j < |hs|
            ensures hs[j].date != k
          {
            if j < |init| {
              assert hs[j] == init[j] && init[j].date != k;
            } else {
              assert hs[j] == h;
            }
          }
          assert LastDated(hs, k, i);
        }
      }
    }
  }

  /** The loop of functions.go:185-188. */
  method BuildDateMap(hs: seq<Holiday>) returns (holidayMap: map<string, Holiday>)
    ensures holidayMap == DateMap(hs)
  {
    holidayMap := map[];
    for i := 0 to |hs|
      invariant holidayMap == DateMap(hs[..i])
    {
      assert hs[..i + 1][..i] == hs[..i];
      holidayMap := holidayMap[hs[i].date := hs[i]];
    }
    assert hs[..|hs|] == hs;
  }

  predicate KeyedByDate(m: map<string, Holiday>) {
    forall k :: k in m ==> m[k].date == k
  }

  /** Strictly ascending days. */
  predicate Ascending(days: seq<Date>) {
    forall i, j :: 0 <= i < j < |days| ==> Before(days[i], days[j])
  }

  predicate AllBefore(days: seq<Date>, d: Date) {
    forall i :: 0 <= i < |days| ==> Before(days[i], d)
  }

  predicate AllAfter(days: seq<Date>, d: Date) {
    forall i :: 0 <= i < |days| ==> Before(d, days[i])
  }

  /** A stretch of a group next to its seed: entry `i` stands for day
      `days[i]`, in ascending order, and is a record found in the map when
      `marks[i]` holds and a made-up weekend record otherwise. */
  predicate Scanned(entries: seq<Holiday>, days: seq<Date>, marks: seq<bool>) {
    |days| == |entries| && |marks| == |entries| && Ascending(days)
    && Dated(entries, days) && Fillers(entries, days, marks)
  }

  /** Each entry carries the text of its day. */
  predicate Dated(entries: seq<Holiday>, days: seq<Date>)
    requires |days| == |entries|
  {
    forall i :: 0 <= i < |entries| ==> entries[i].date == Format(days[i])
  }

  /** `h` is the record made up for weekend day `d`. */
  predicate IsFiller(h: Holiday, d: Date) {
    h == WeekendRecord(d) && IsWeekend(d)
  }

  /** Each unmarked entry is the weekend record of a weekend day. */
  predicate Fillers(entries: seq<Holiday>, days: seq<Date>, marks: seq<bool>)
    requires |days| == |entries| && |marks| == |entries|
  {
    forall i :: 0 <= i < |entries| && !marks[i] ==> IsFiller(entries[i], days[i])
  }

  /** The marked entries are the map's records under their dates. */
  predicate Found(entries: seq<Holiday>, marks: seq<bool>, m: map<string, Holiday>)
    requires |marks| == |entries|
  {
    forall i :: 0 <= i < |entries| && marks[i] ==> entries[i].date in m && m[entries[i].date] == entries[i]
  }

  /** No marked entry's date is in `visited`. */
  predicate Untaken(entries: seq<Holiday>, marks: seq<bool>, visited: set<string>)
    requires |marks| == |entries|
  {
    forall i :: 0 <= i < |entries| && marks[i] ==> entries[i].date !in visited
  }

  /** Every marked entry's date is in `visited`. */
  predicate Taken(entries: seq<Holiday>, marks: seq<bool>, visited: set<string>)
    requires |marks| == |entries|
  {
    forall i :: 0 <= i < |entries| && marks[i] ==> entries[i].date in visited
  }

  /** No two marked entries share a date. */
  predicate DistinctMarked(entries: seq<Holiday>, marks: seq<bool>)
    requires |marks| == |entries|
  {
    forall i, j :: 0 <= i < j < |entries| && marks[i] && marks[j] ==> entries[i].date != entries[j].date
  }

  /** The dates of the marked entries. */
  ghost function MarkedDates(entries: seq<Holiday>, marks: seq<bool>): set<string>
    requires |marks| == |entries|
  {
    set i | 0 <= i < |entries| && marks[i] :: entries[i].date
  }

  lemma MarkedPrepend(entries: seq<Holiday>, marks: seq<bool>, e: Holiday, mark: bool)
    requires |marks| == |entries|
    ensures MarkedDates([e] + entries, [mark] + marks) == (if mark then {e.date} else {}) + MarkedDates(entries, marks)
  {
    var es, ms := [e] + entries, [mark] + marks;
    forall s | s in MarkedDates(es, ms)
      ensures s in (if mark then {e.date} else {}) + MarkedDates(entries, marks)
    {
      var i :| 0 <= i < |es| && ms[i] && es[i].date == s;
      if i > 0 {
        assert es[i] == entries[i - 1] && ms[i] == marks[i - 1];
      }
    }
    forall s | s in MarkedDates(entries, marks)
      ensures s in MarkedDates(es, ms)
    {
      var i :| 0 <= i < |entries| && marks[i] && entries[i].date == s;
      assert es[i + 1] == entries[i] && ms[i + 1] == marks[i];
    }    if mark {
      assert es[0] == e && ms[0];
    }
  }

  lemma MarkedAppend(entries: seq<Holiday>, marks: seq<bool>, e: Holiday, mark: bool)
    requires |marks| == |entries|
    ensures MarkedDates(entries + [e], marks + [mark]) == MarkedDates(entries, marks) + (if mark then {e.date} else {})
  {
    var es, ms := entries + [e], marks + [mark];
    forall s | s in MarkedDates(es, ms)
      ensures s in MarkedDates(entries, marks) + (if mark then {e.date} else {})
    {
      var i :| 0 <= i < |es| && ms[i] && es[i].date == s;
      if i < |entries| {
        assert es[i] == entries[i] && ms[i] == marks[i];
      }
    }
    forall s | s in MarkedDates(entries, marks)
      ensures s in MarkedDates(es, ms)
    {
      var i :| 0 <= i < |entries| && marks[i] && entries[i].date == s;
      assert es[i] == entries[i] && ms[i] == marks[i];
    }    if mark {
      assert es[|entries|] == e && ms[|entries|];
    }
  }

  /** Each step that takes a holiday leaves one key fewer untaken. */
  lemma CardShrinks(keys: set<string>, visited: set<string>, s: string)
    requires s in keys && s !in visited
    ensures |keys - (visited + {s})| < |keys - visited|
  {
    var rest := keys - (visited + {s});
    assert keys - visited == rest + {s};
  }

  lemma AscendingPrepend(days: seq<Date>, d: Date)
    requires Ascending(days) && AllAfter(days, d)
    ensures Ascending([d] + days)
  {
    var ds := [d] + days;
    forall i, j | 0 <= i < j < |ds|
      ensures Before(ds[i], ds[j])
    {
      assert ds[j] == days[j - 1];
      if i > 0 {
        assert ds[i] == days[i - 1];
      }
    }
  }

  lemma AscendingAppend(days: seq<Date>, d: Date)
    requires Ascending(days) && AllBefore(days, d)
    ensures Ascending(days + [d])
  {
    var ds := days + [d];
    forall i, j | 0 <= i < j < |ds|
      ensures Before(ds[i], ds[j])
    {
      assert ds[i] == days[i];
      if j < |days| {
        assert ds[j] == days[j];
      }
    }
  }

  lemma DatedPrepend(entries: seq<Holiday>, days: seq<Date>, e: Holiday, d: Date)
    requires |days| == |entries| && Dated(entries, days) && e.date == Format(d)
    ensures Dated([e] + entries, [d] + days)
  {
    var es, ds := [e] + entries, [d] + days;
    forall i | 0 <= i < |es|
      ensures es[i].date == Format(ds[i])
    {
      if i == 0 {
        assert es[0] == e && ds[0] == d;
      } else {
        assert es[i] == entries[i - 1] && ds[i] == days[i - 1];
      }
    }
  }

  lemma FillersPrepend(entries: seq<Holiday>, days: seq<Date>, marks: seq<bool>, e: Holiday, d: Date, mark: bool)
    requires |days| == |entries| && |marks| == |entries| && Fillers(entries, days, marks)
    requires !mark ==> IsFiller(e, d)
    ensures Fillers([e] + entries, [d] + days, [mark] + marks)
  {
    var es, ds, ms := [e] + entries, [d] + days, [mark] + marks;
    forall i | 0 <= i < |es| && !ms[i]
      ensures IsFiller(es[i], ds[i])
    {
      if i == 0 {
        assert es[0] == e && ds[0] == d && ms[0] == mark;
      } else {
        assert es[i] == entries[i - 1] && ds[i] == days[i - 1] && ms[i] == marks[i - 1];
        assert IsFiller(entries[i - 1], days[i - 1]);
      }
    }
  }

  lemma DatedFillersAppend(entries: seq<Holiday>, days: seq<Date>, marks: seq<bool>, e: Holiday, d: Date, mark: bool)
    requires |days| == |entries| && |marks| == |entries| && Dated(entries, days) && Fillers(entries, days, marks)
    requires e.date == Format(d) && (!mark ==> IsFiller(e, d))
    ensures Dated(entries + [e], days + [d]) && Fillers(entries + [e], days + [d], marks + [mark])
  {
    var es, ds, ms := entries + [e], days + [d], marks + [mark];
    forall i | 0 <= i < |entries|
      ensures es[i].date == Format(ds[i]) && (!ms[i] ==> IsFiller(es[i], ds[i]))
    {
      assert es[i] == entries[i] && ds[i] == days[i] && ms[i] == marks[i];
    }
  }

  /** Putting a day before every day of an ascending stretch keeps it a
      scanned stretch. */
  lemma ScannedPrepend(entries: seq<Holiday>, days: seq<Date>, marks: seq<bool>, e: Holiday, d: Date, mark: bool)
    requires Scanned(entries, days, marks) && AllAfter(days, d)
    requires e.date == Format(d) && (!mark ==> IsFiller(e, d))
    ensures Scanned([e] + entries, [d] + days, [mark] + marks)
  {
    AscendingPrepend(days, d);
    DatedPrepend(entries, days, e, d);
    FillersPrepend(entries, days, marks, e, d, mark);
  }

  lemma ScannedAppend(entries: seq<Holiday>, days: seq<Date>, marks: seq<bool>, e: Holiday, d: Date, mark: bool)
    requires Scanned(entries, days, marks) && AllBefore(days, d)
    requires e.date == Format(d) && (!mark ==> IsFiller(e, d))
    ensures Scanned(entries + [e], days + [d], marks + [mark])
  {
    AscendingAppend(days, d);
    DatedFillersAppend(entries, days, marks, e, d, mark);
  }

  /** The bounds of a stretch after one more day is put in front of it. */
  lemma BoundsPrepend(days: seq<Date>, d: Date, start: Date)
    requires AllBefore(days, start) && AllAfter(days, d) && Before(d, start)
    ensures AllBefore([d] + days, start) && AllAfter([d] + days, PrevDay(d)) && Before(PrevDay(d), start)
  {
  }

  lemma BoundsAppend(days: seq<Date>, d: Date, start: Date)
    requires AllAfter(days, start) && AllBefore(days, d) && Before(start, d)
    ensures AllAfter(days + [d], start) && AllBefore(days + [d], NextDay(d)) && Before(start, NextDay(d))
  {
  }

  /** Taking the holiday under `s`, untaken so far: the marked entries stay
      found, untaken before the scan, taken now and of distinct dates. */
  lemma TakePrepend(entries: seq<Holiday>, marks: seq<bool>, m: map<string, Holiday>,
                    visited: set<string>, visitedAfter: set<string>, s: string)
    requires |marks| == |entries| && KeyedByDate(m) && s in m && s !in visitedAfter
    requires Found(entries, marks, m) && Untaken(entries, marks, visited)
    requires Taken(entries, marks, visitedAfter) && DistinctMarked(entries, marks) && visited <= visitedAfter
    ensures Found([m[s]] + entries, [true] + marks, m) && Untaken([m[s]] + entries, [true] + marks, visited)
    ensures Taken([m[s]] + entries, [true] + marks, visitedAfter + {s})
    ensures DistinctMarked([m[s]] + entries, [true] + marks) && visited <= visitedAfter + {s}
  {
  }

  lemma TakeAppend(entries: seq<Holiday>, marks: seq<bool>, m: map<string, Holiday>,
                   visited: set<string>, visitedAfter: set<string>, s: string)
    requires |marks| == |entries| && KeyedByDate(m) && s in m && s !in visitedAfter
    requires Found(entries, marks, m) && Untaken(entries, marks, visited)
    requires Taken(entries, marks, visitedAfter) && DistinctMarked(entries, marks) && visited <= visitedAfter
    ensures Found(entries + [m[s]], marks + [true], m) && Untaken(entries + [m[s]], marks + [true], visited)
    ensures Taken(entries + [m[s]], marks + [true], visitedAfter + {s})
    ensures DistinctMarked(entries + [m[s]], marks + [true]) && visited <= visitedAfter + {s}
  {
  }

  /** Adding an unmarked entry leaves the facts about marked ones as they
      were. */
  lemma FillerPrepend(entries: seq<Holiday>, marks: seq<bool>, m: map<string, Holiday>,
                      visited: set<string>, visitedAfter: set<string>, e: Holiday)
    requires |marks| == |entries|
    requires Found(entries, marks, m) && Untaken(entries, marks, visited)
    requires Taken(entries, marks, visitedAfter) && DistinctMarked(entries, marks)
    ensures Found([e] + entries, [false] + marks, m) && Untaken([e] + entries, [false] + marks, visited)
    ensures Taken([e] + entries, [false] + marks, visitedAfter) && DistinctMarked([e] + entries, [false] + marks)
  {
  }

  lemma FillerAppend(entries: seq<Holiday>, marks: seq<bool>, m: map<string, Holiday>,
                     visited: set<string>, visitedAfter: set<string>, e: Holiday)
    requires |marks| == |entries|
    requires Found(entries, marks, m) && Untaken(entries, marks, visited)
    requires Taken(entries, marks, visitedAfter) && DistinctMarked(entries, marks)
    ensures Found(entries + [e], marks + [false], m) && Untaken(entries + [e], marks + [false], visited)
    ensures Taken(entries + [e], marks + [false], visitedAfter) && DistinctMarked(entries + [e], marks + [false])
  {
  }

  /** The scan back passed every day strictly between `lo` and `hi`: each
      that is a holiday of the map is taken, and each weekend day or Monday
      was a holiday untaken before the scan, which the scan took. */
  ghost predicate BackCovered(m: map<string, Holiday>, visited: set<string>, taken: set<string>, lo: Date, hi: Date) {
    forall x: Date :: Before(lo, x) && Before(x, hi) ==>
      (Format(x) in m ==> Format(x) in taken)
      && (IsWeekend(x) || Weekday(x) == MONDAY ==> Format(x) in m && Format(x) !in visited)
  }

  /** The scan forward passed every day strictly between `lo` and `hi`:
      each that is a holiday of the map is taken, each Friday was a holiday
      untaken before the scan, and, when `bare` holds (nothing was appended),
      none is a weekend day. */
  ghost predicate ForwardCovered(m: map<string, Holiday>, visited: set<string>, taken: set<string>, lo: Date, hi: Date,
                                 bare: bool) {
    forall x: Date :: Before(lo, x) && Before(x, hi) ==>
      (Format(x) in m ==> Format(x) in taken)
      && (Weekday(x) == FRIDAY ==> Format(x) in m && Format(x) !in visited)
      && (bare ==> !IsWeekend(x))
  }

  lemma BackCoveredStep(m: map<string, Holiday>, visited: set<string>, taken: set<string>, taken': set<string>,
                        d: Date, hi: Date)
    requires BackCovered(m, visited, taken, d, hi) && taken <= taken'
    requires Format(d) in m ==> Format(d) in taken'
    requires IsWeekend(d) || Weekday(d) == MONDAY ==> Format(d) in m && Format(d) !in visited
    ensures BackCovered(m, visited, taken', PrevDay(d), hi)
  {
    forall x: Date | Before(PrevDay(d), x) && Before(x, hi)
      ensures (Format(x) in m ==> Format(x) in taken')
        && (IsWeekend(x) || Weekday(x) == MONDAY ==> Format(x) in m && Format(x) !in visited)
    {
      NoDayBetween(d, x);
    }
  }

  lemma ForwardCoveredStep(m: map<string, Holiday>, visited: set<string>, taken: set<string>, taken': set<string>,
                           lo: Date, d: Date, bare: bool, bare': bool)
    requires ForwardCovered(m, visited, taken, lo, d, bare) && taken <= taken'
    requires Format(d) in m ==> Format(d) in taken'
    requires Weekday(d) == FRIDAY ==> Format(d) in m && Format(d) !in visited
    requires bare' ==> bare && !IsWeekend(d)
    ensures ForwardCovered(m, visited, taken', lo, NextDay(d), bare')
  {
    forall x: Date | Before(lo, x) && Before(x, NextDay(d))
      ensures (Format(x) in m ==> Format(x) in taken')
        && (Weekday(x) == FRIDAY ==> Format(x) in m && Format(x) !in visited) && (bare' ==> !IsWeekend(x))
    {
      NoDayBetween(d, x);
    }
  }

  /** Nothing lies between a day and the day before it. */
  lemma CoveredStart(m: map<string, Holiday>, visited: set<string>, taken: set<string>, start: Date)
    ensures BackCovered(m, visited, taken, PrevDay(start), start)
    ensures ForwardCovered(m, visited, taken, start, NextDay(start), true)
  {
    forall x: Date | Before(PrevDay(start), x) && Before(x, start)
      ensures false
    {
      NoDayBetween(start, x);
    }
    forall x: Date | Before(start, x) && Before(x, NextDay(start))
      ensures false
    {
      NoDayBetween(start, x);
    }
  }

  /** The scan back, with `d` the next day it looks at: what it has put
      in front so far is a scanned stretch of taken holidays between `d`
      and `start`. */
  ghost predicate BackScan(m: map<string, Holiday>, visited: set<string>, start: Date, d: Date,
                     before: seq<Holiday>, days: seq<Date>, marks: seq<bool>, visitedAfter: set<string>) {
    Scanned(before, days, marks) && AllBefore(days, start) && AllAfter(days, d) && Before(d, start)
    && (forall i :: 0 <= i < |before| ==> marks[i]) && BackCovered(m, visited, visitedAfter, d, start)
    && Found(before, marks, m) && Untaken(before, marks, visited)
    && Taken(before, marks, visitedAfter) && DistinctMarked(before, marks) && visited <= visitedAfter
    && visitedAfter == visited + MarkedDates(before, marks)
  }

  /** What the scan back leaves: a scanned stretch of days before `start`
      whose records are holidays of the map that were untaken before and
      are taken now, and nothing else is; only its first entry may be a
      made-up weekend day. It
      stopped at day `stop`, which is not an untaken holiday: either a
      weekend day, made up as the first entry, or a Monday before every
      entry. Every day it passed is covered. */
  ghost predicate BackResult(m: map<string, Holiday>, visited: set<string>, start: Date, stop: Date,
                       before: seq<Holiday>, days: seq<Date>, marks: seq<bool>, visitedAfter: set<string>) {
    Scanned(before, days, marks) && AllBefore(days, start)
    && (forall i :: 0 < i < |before| ==> marks[i])
    && Before(stop, start) && BackCovered(m, visited, visitedAfter, stop, start)
    && (Format(stop) in m ==> Format(stop) in visitedAfter)
    && ((IsWeekend(stop) && |before| > 0 && days[0] == stop && !marks[0])
        || (Weekday(stop) == MONDAY && AllAfter(days, stop)))
    && Found(before, marks, m) && Untaken(before, marks, visited)
    && Taken(before, marks, visitedAfter) && DistinctMarked(before, marks) && visited <= visitedAfter
    && visitedAfter == visited + MarkedDates(before, marks)
  }

  lemma BackTake(m: map<string, Holiday>, visited: set<string>, start: Date, d: Date,
                 before: seq<Holiday>, days: seq<Date>, marks: seq<bool>, visitedAfter: set<string>)
    requires BackScan(m, visited, start, d, before, days, marks, visitedAfter) && KeyedByDate(m)
    requires Format(d) in m && Format(d) !in visitedAfter
    ensures BackScan(m, visited, start, PrevDay(d), [m[Format(d)]] + before, [d] + days, [true] + marks,
                     visitedAfter + {Format(d)})
  {
    ScannedPrepend(before, days, marks, m[Format(d)], d, true);
    BoundsPrepend(days, d, start);
    TakePrepend(before, marks, m, visited, visitedAfter, Format(d));
    MarkedPrepend(before, marks, m[Format(d)], true);
    BackCoveredStep(m, visited, visitedAfter, visitedAfter + {Format(d)}, d, start);
  }

  lemma BackSkip(m: map<string, Holiday>, visited: set<string>, start: Date, d: Date,
                 before: seq<Holiday>, days: seq<Date>, marks: seq<bool>, visitedAfter: set<string>)
    requires BackScan(m, visited, start, d, before, days, marks, visitedAfter)
    requires !IsWeekend(d) && Weekday(d) != MONDAY && (Format(d) in m ==> Format(d) in visitedAfter)
    ensures BackScan(m, visited, start, PrevDay(d), before, days, marks, visitedAfter)
  {
    assert Before(PrevDay(d), d);
    BackCoveredStep(m, visited, visitedAfter, visitedAfter, d, start);
  }

  lemma BackStopAtWeekend(m: map<string, Holiday>, visited: set<string>, start: Date, d: Date,
                          before: seq<Holiday>, days: seq<Date>, marks: seq<bool>, visitedAfter: set<string>)
    requires BackScan(m, visited, start, d, before, days, marks, visitedAfter) && IsWeekend(d)
    requires Format(d) in m ==> Format(d) in visitedAfter
    ensures BackResult(m, visited, start, d, [WeekendRecord(d)] + before, [d] + days, [false] + marks, visitedAfter)
  {
    ScannedPrepend(before, days, marks, WeekendRecord(d), d, false);
    BoundsPrepend(days, d, start);
    FillerPrepend(before, marks, m, visited, visitedAfter, WeekendRecord(d));
    MarkedPrepend(before, marks, WeekendRecord(d), false);
  }

  lemma BackStopAtMonday(m: map<string, Holiday>, visited: set<string>, start: Date, d: Date,
                         before: seq<Holiday>, days: seq<Date>, marks: seq<bool>, visitedAfter: set<string>)
    requires BackScan(m, visited, start, d, before, days, marks, visitedAfter) && Weekday(d) == MONDAY
    requires Format(d) in m ==> Format(d) in visitedAfter
    ensures BackResult(m, visited, start, d, before, days, marks, visitedAfter)
  {
  }

  /** How many days weekday `w` lies after the Monday before it. */
  lemma DaysAfterMonday(w: int)
    requires 0 <= w < 7
    ensures (w + 6) % 7 == if w == SUNDAY then 6 else w - 1
  {
  }

  /** How many days weekday `w` lies before the next Friday. */
  lemma DaysToFriday(w: int)
    requires 0 <= w < 7
    ensures (FRIDAY + 7 - w) % 7 == if w == SATURDAY then 6 else FRIDAY - w
  {
  }

  /** What is left of the scan back: each untaken holiday may still be
      taken, and at most six days separate `d` from the Monday before it. */
  function BackMeasure(keys: set<string>, visited: set<string>, d: Date): nat {
    7 * |keys - visited| + (Weekday(d) + 6) % 7
  }

  /** Stepping back from a day that is neither a weekend day nor a Monday
      brings the scan one day closer to a Monday. */
  lemma BackCloser(keys: set<string>, visited: set<string>, d: Date)
    requires Weekday(d) != SUNDAY && Weekday(d) != SATURDAY && Weekday(d) != MONDAY
    ensures BackMeasure(keys, visited, PrevDay(d)) < BackMeasure(keys, visited, d)
  {
    WeekdayOfNeighbours(d);
    DaysAfterMonday(Weekday(d));
    DaysAfterMonday(Weekday(PrevDay(d)));
  }

  /** Taking an untaken holiday shrinks what is left, whatever the day. */
  lemma BackTaken(keys: set<string>, visited: set<string>, s: string, d: Date)
    requires s in keys && s !in visited
    ensures BackMeasure(keys, visited + {s}, PrevDay(d)) < BackMeasure(keys, visited, d)
  {
    CardShrinks(keys, visited, s);
  }

  /** One turn of the scan back of functions.go:202-215 at day `d`: take
      the day's holiday if it is untaken, or else stop, after putting a
      made-up record in front, at a weekend day, or stop at a Monday. A turn
      that does not stop takes a holiday or gets closer to a Monday. */
  method BackStep(holidayMap: map<string, Holiday>, ghost visited: set<string>, start: Date, d: Date,
                  before: seq<Holiday>, ghost days: seq<Date>, ghost marks: seq<bool>, visitedAfter: set<string>)
    returns (stop: bool, before': seq<Holiday>, ghost days': seq<Date>, ghost marks': seq<bool>, visitedAfter': set<string>)
    requires KeyedByDate(holidayMap) && BackScan(holidayMap, visited, start, d, before, days, marks, visitedAfter)
    ensures stop ==> BackResult(holidayMap, visited, start, d, before', days', marks', visitedAfter')
    ensures !stop ==> BackScan(holidayMap, visited, start, PrevDay(d), before', days', marks', visitedAfter')
    ensures !stop ==> BackMeasure(holidayMap.Keys, visitedAfter', PrevDay(d)) < BackMeasure(holidayMap.Keys, visitedAfter, d)
  {
    var weekday := Weekday(d);
    var dateStr := Format(d);
    if dateStr in holidayMap && dateStr !in visitedAfter {
      BackTaken(holidayMap.Keys, visitedAfter, dateStr, d);
      BackTake(holidayMap, visited, start, d, before, days, marks, visitedAfter);
      before', visitedAfter' := [holidayMap[dateStr]] + before, visitedAfter + {dateStr};
      days', marks' := [d] + days, [true] + marks;
      stop := false;
    } else if weekday == SUNDAY || weekday == SATURDAY {
      BackStopAtWeekend(holidayMap, visited, start, d, before, days, marks, visitedAfter);
      before', visitedAfter' := [WeekendRecord(d)] + before, visitedAfter;
      days', marks' := [d] + days, [false] + marks;
      stop := true;
    } else if weekday == MONDAY {
      BackStopAtMonday(holidayMap, visited, start, d, before, days, marks, visitedAfter);
      before', days', marks', visitedAfter' := before, days, marks, visitedAfter;
      stop := true;
    } else {
      BackCloser(holidayMap.Keys, visitedAfter, d);
      BackSkip(holidayMap, visited, start, d, before, days, marks, visitedAfter);
      before', days', marks', visitedAfter' := before, days, marks, visitedAfter;
      stop := false;
    }
  }

  /** Before the scan back has put anything in front. */
  lemma BackScanStart(m: map<string, Holiday>, visited: set<string>, start: Date)
    ensures BackScan(m, visited, start, PrevDay(start), [], [], [], visited)
  {
    CoveredStart(m, visited, visited, start);
    assert MarkedDates([], []) == {};
  }

  /** The scan back of functions.go:201-215 from the day before `start`:
      untaken holidays are taken and put in front; the first weekend day
      that is not one ends the scan, in front as a made-up record, and so
      does a Monday that is not one. */
  method ScanBack(holidayMap: map<string, Holiday>, visited: set<string>, start: Date)
    returns (before: seq<Holiday>, ghost days: seq<Date>, ghost marks: seq<bool>, visitedAfter: set<string>, ghost stop: Date)
    requires KeyedByDate(holidayMap)
    ensures BackResult(holidayMap, visited, start, stop, before, days, marks, visitedAfter)
  {
    before, visitedAfter := [], visited;
    days, marks := [], [];
    var d := PrevDay(start);
    BackScanStart(holidayMap, visited, start);
    while true
      invariant BackScan(holidayMap, visited, start, d, before, days, marks, visitedAfter)
      decreases BackMeasure(holidayMap.Keys, visitedAfter, d)
    {
      var done;
      done, before, days, marks, visitedAfter := BackStep(holidayMap, visited, start, d, before, days, marks, visitedAfter);
      if done {
        stop := d;
        break;
      }
      d := PrevDay(d);
    }
  }

  /** The scan forward, with `d` the next day it looks at. */
  ghost predicate ForwardScan(m: map<string, Holiday>, visited: set<string>, start: Date, d: Date,
                        after: seq<Holiday>, days: seq<Date>, marks: seq<bool>, visitedAfter: set<string>) {
    Scanned(after, days, marks) && AllAfter(days, start) && AllBefore(days, d) && Before(start, d)
    && ForwardCovered(m, visited, visitedAfter, start, d, after == []) && Found(after, marks, m)
    && Untaken(after, marks, visited) && Taken(after, marks, visitedAfter) && DistinctMarked(after, marks)
    && visited <= visitedAfter && visitedAfter == visited + MarkedDates(after, marks)
  }

  /** What the scan forward leaves: a scanned stretch of days after
      `start` whose records are holidays of the map that were untaken
      before and are taken now, and nothing else is. It stopped at day
      `stop`, a Friday after every entry that is not an untaken holiday, and
      every day it passed is covered. */
  ghost predicate ForwardResult(m: map<string, Holiday>, visited: set<string>, start: Date, stop: Date,
                          after: seq<Holiday>, days: seq<Date>, marks: seq<bool>, visitedAfter: set<string>) {
    Scanned(after, days, marks) && AllAfter(days, start)
    && Before(start, stop) && Weekday(stop) == FRIDAY && AllBefore(days, stop)
    && (Format(stop) in m ==> Format(stop) in visitedAfter)
    && ForwardCovered(m, visited, visitedAfter, start, stop, after == [])
    && Found(after, marks, m) && Untaken(after, marks, visited)
    && Taken(after, marks, visitedAfter) && DistinctMarked(after, marks) && visited <= visitedAfter
    && visitedAfter == visited + MarkedDates(after, marks)
  }

  lemma ForwardTake(m: map<string, Holiday>, visited: set<string>, start: Date, d: Date,
                    after: seq<Holiday>, days: seq<Date>, marks: seq<bool>, visitedAfter: set<string>)
    requires ForwardScan(m, visited, start, d, after, days, marks, visitedAfter) && KeyedByDate(m)
    requires Format(d) in m && Format(d) !in visitedAfter
    ensures ForwardScan(m, visited, start, NextDay(d), after + [m[Format(d)]], days + [d], marks + [true],
                        visitedAfter + {Format(d)})
  {
    ScannedAppend(after, days, marks, m[Format(d)], d, true);
    BoundsAppend(days, d, start);
    TakeAppend(after, marks, m, visited, visitedAfter, Format(d));
    MarkedAppend(after, marks, m[Format(d)], true);
    ForwardCoveredStep(m, visited, visitedAfter, visitedAfter + {Format(d)}, start, d, after == [], false);
  }

  lemma ForwardWeekend(m: map<string, Holiday>, visited: set<string>, start: Date, d: Date,
                       after: seq<Holiday>, days: seq<Date>, marks: seq<bool>, visitedAfter: set<string>)
    requires ForwardScan(m, visited, start, d, after, days, marks, visitedAfter) && IsWeekend(d)
    requires Format(d) in m ==> Format(d) in visitedAfter
    ensures ForwardScan(m, visited, start, NextDay(d), after + [WeekendRecord(d)], days + [d], marks + [false],
                        visitedAfter)
  {
    ScannedAppend(after, days, marks, WeekendRecord(d), d, false);
    BoundsAppend(days, d, start);
    FillerAppend(after, marks, m, visited, visitedAfter, WeekendRecord(d));
    MarkedAppend(after, marks, WeekendRecord(d), false);
    ForwardCoveredStep(m, visited, visitedAfter, visitedAfter, start, d, after == [], false);
  }

  lemma ForwardSkip(m: map<string, Holiday>, visited: set<string>, start: Date, d: Date,
                    after: seq<Holiday>, days: seq<Date>, marks: seq<bool>, visitedAfter: set<string>)
    requires ForwardScan(m, visited, start, d, after, days, marks, visitedAfter)
    requires Weekday(d) != FRIDAY && !IsWeekend(d) && (Format(d) in m ==> Format(d) in visitedAfter)
    ensures ForwardScan(m, visited, start, NextDay(d), after, days, marks, visitedAfter)
  {
    assert Before(d, NextDay(d));
    ForwardCoveredStep(m, visited, visitedAfter, visitedAfter, start, d, after == [], after == []);
  }

  /** What is left of the scan forward: each untaken holiday may still be
      taken, and at most six days separate `d` from the next Friday. */
  function ForwardMeasure(keys: set<string>, visited: set<string>, d: Date): nat {
    7 * |keys - visited| + (FRIDAY + 7 - Weekday(d)) % 7
  }

  /** Stepping forward from a day that is not a Friday brings the scan one
      day closer to a Friday. */
  lemma ForwardCloser(keys: set<string>, visited: set<string>, d: Date)
    requires Weekday(d) != FRIDAY
    ensures ForwardMeasure(keys, visited, NextDay(d)) < ForwardMeasure(keys, visited, d)
  {
    WeekdayOfNeighbours(d);
    DaysToFriday(Weekday(d));
    DaysToFriday(Weekday(NextDay(d)));
  }

  /** Taking an untaken holiday shrinks what is left, whatever the day. */
  lemma ForwardTaken(keys: set<string>, visited: set<string>, s: string, d: Date)
    requires s in keys && s !in visited
    ensures ForwardMeasure(keys, visited + {s}, NextDay(d)) < ForwardMeasure(keys, visited, d)
  {
    CardShrinks(keys, visited, s);
  }

  /** One turn of the scan forward of functions.go:218-229 at day `d`:
      take the day's holiday if it is untaken, or else make up a record for
      a weekend day, or else stop at a Friday. A turn that does not stop
      takes a holiday or gets closer to a Friday. */
  method ForwardStep(holidayMap: map<string, Holiday>, ghost visited: set<string>, start: Date, d: Date,
                     after: seq<Holiday>, ghost days: seq<Date>, ghost marks: seq<bool>, visitedAfter: set<string>)
    returns (stop: bool, after': seq<Holiday>, ghost days': seq<Date>, ghost marks': seq<bool>, visitedAfter': set<string>)
    requires KeyedByDate(holidayMap) && ForwardScan(holidayMap, visited, start, d, after, days, marks, visitedAfter)
    ensures stop ==> ForwardResult(holidayMap, visited, start, d, after', days', marks', visitedAfter')
    ensures !stop ==> ForwardScan(holidayMap, visited, start, NextDay(d), after', days', marks', visitedAfter')
    ensures !stop ==> ForwardMeasure(holidayMap.Keys, visitedAfter', NextDay(d)) < ForwardMeasure(holidayMap.Keys, visitedAfter, d)
  {
    var weekday := Weekday(d);
    var dateStr := Format(d);
    if dateStr in holidayMap && dateStr !in visitedAfter {
      ForwardTaken(holidayMap.Keys, visitedAfter, dateStr, d);
      ForwardTake(holidayMap, visited, start, d, after, days, marks, visitedAfter);
      after', visitedAfter' := after + [holidayMap[dateStr]], visitedAfter + {dateStr};
      days', marks' := days + [d], marks + [true];
      stop := false;
    } else if weekday == SATURDAY || weekday == SUNDAY {
      ForwardCloser(holidayMap.Keys, visitedAfter, d);
      ForwardWeekend(holidayMap, visited, start, d, after, days, marks, visitedAfter);
      after', visitedAfter' := after + [WeekendRecord(d)], visitedAfter;
      days', marks' := days + [d], marks + [false];
      stop := false;
    } else if weekday == FRIDAY {
      after', days', marks', visitedAfter' := after, days, marks, visitedAfter;
      stop := true;
    } else {
      ForwardCloser(holidayMap.Keys, visitedAfter, d);
      ForwardSkip(holidayMap, visited, start, d, after, days, marks, visitedAfter);
      after', days', marks', visitedAfter' := after, days, marks, visitedAfter;
      stop := false;
    }
  }

  /** Before the scan forward has appended anything. */
  lemma ForwardScanStart(m: map<string, Holiday>, visited: set<string>, start: Date)
    ensures ForwardScan(m, visited, start, NextDay(start), [], [], [], visited)
  {
    CoveredStart(m, visited, visited, start);
    assert MarkedDates([], []) == {};
  }

  /** The scan forward of functions.go:217-230 from the day after `start`:
      untaken holidays are taken and weekend days made up, both appended;
      a Friday that is not an untaken holiday ends the scan. */
  method ScanForward(holidayMap: map<string, Holiday>, visited: set<string>, start: Date)
    returns (after: seq<Holiday>, ghost days: seq<Date>, ghost marks: seq<bool>, visitedAfter: set<string>, ghost stop: Date)
    requires KeyedByDate(holidayMap)
    ensures ForwardResult(holidayMap, visited, start, stop, after, days, marks, visitedAfter)
  {
    after, visitedAfter := [], visited;
    days, marks := [], [];
    var d := NextDay(start);
    ForwardScanStart(holidayMap, visited, start);
    while true
      invariant ForwardScan(holidayMap, visited, start, d, after, days, marks, visitedAfter)
      decreases ForwardMeasure(holidayMap.Keys, visitedAfter, d)
    {
      var done;
      done, after, days, marks, visitedAfter := ForwardStep(holidayMap, visited, start, d, after, days, marks, visitedAfter);
      if done {
        stop := d;
        break;
      }
      d := NextDay(d);
    }
  }

  /** Where each entry of a group comes from: `days[i]` is the day entry
      `i` stands for and `marks[i]` says whether it is a real record rather
      than a made-up weekend day; the seed sits at `seedAt`; the scan back
      stopped at `backStop` and the scan forward at `forwardStop`. */
  datatype Shape = Shape(days: seq<Date>, marks: seq<bool>, seedAt: nat, backStop: Date, forwardStop: Date)

  /** A group grown from record `seed`: the days are strictly ascending,
      the seed stands for its parsed date (or the zero date), every other
      entry carries the text of its day, the made-up ones are weekend
      records of weekend days, only the first entry may be made up before
      the seed, and no two real entries share a date. */
  ghost predicate GroupShape(group: seq<Holiday>, seed: Holiday, shape: Shape) {
    |shape.days| == |group| && |shape.marks| == |group| && shape.seedAt < |group|
    && group[shape.seedAt] == seed && shape.days[shape.seedAt] == ParseOrZero(seed.date)
    && shape.marks[shape.seedAt] && Ascending(shape.days)
    && DatedBesides(group, shape.days, shape.seedAt) && Fillers(group, shape.days, shape.marks)
    && (forall i :: 0 < i < shape.seedAt ==> shape.marks[i])
    && DistinctMarked(group, shape.marks)
  }

  /** Each entry but the one at `skip` carries the text of its day. */
  predicate DatedBesides(entries: seq<Holiday>, days: seq<Date>, skip: int)
    requires |days| == |entries|
  {
    forall i :: 0 <= i < |entries| && i != skip ==> entries[i].date == Format(days[i])
  }

  /** The real entries other than the seed are the map's records under
      their dates. */
  predicate FoundBesides(entries: seq<Holiday>, marks: seq<bool>, seedAt: int, m: map<string, Holiday>)
    requires |marks| == |entries|
  {
    forall i :: 0 <= i < |entries| && marks[i] && i != seedAt ==> entries[i].date in m && m[entries[i].date] == entries[i]
  }

  lemma AscendingJoin(bdays: seq<Date>, c: Date, adays: seq<Date>)
    requires Ascending(bdays) && Ascending(adays) && AllBefore(bdays, c) && AllAfter(adays, c)
    ensures Ascending(bdays + [c] + adays)
  {
    var days, n := bdays + [c] + adays, |bdays|;
    forall i, j | 0 <= i < j < |days|
      ensures Before(days[i], days[j])
    {
      if j < n {
        assert days[i] == bdays[i] && days[j] == bdays[j];
      } else if j == n {
        assert days[i] == bdays[i];
      } else if i > n {
        assert days[i] == adays[i - n - 1] && days[j] == adays[j - n - 1];
      } else if i == n {
        assert days[j] == adays[j - n - 1];
      } else {
        assert days[i] == bdays[i] && days[j] == adays[j - n - 1];
      }
    }
  }

  /** The stretch before the seed, the seed and the stretch after it:
      every entry but the seed carries the text of its day. */
  lemma JoinDated(before: seq<Holiday>, bdays: seq<Date>, h: Holiday, c: Date, after: seq<Holiday>, adays: seq<Date>)
    requires |bdays| == |before| && |adays| == |after| && Dated(before, bdays) && Dated(after, adays)
    ensures DatedBesides(before + [h] + after, bdays + [c] + adays, |before|)
  {
    var group, days, n := before + [h] + after, bdays + [c] + adays, |before|;
    forall i | 0 <= i < |group| && i != n
      ensures group[i].date == Format(days[i])
    {
      if i < n {
        assert group[i] == before[i] && days[i] == bdays[i];
      } else {
        assert group[i] == after[i - n - 1] && days[i] == adays[i - n - 1];
      }
    }
  }

  /** The joined group's made-up entries are those of its stretches. */
  lemma JoinFillers(before: seq<Holiday>, bdays: seq<Date>, bmarks: seq<bool>, h: Holiday, c: Date,
                    after: seq<Holiday>, adays: seq<Date>, amarks: seq<bool>)
    requires |bdays| == |before| && |bmarks| == |before| && |adays| == |after| && |amarks| == |after|
    requires Fillers(before, bdays, bmarks) && Fillers(after, adays, amarks)
    ensures Fillers(before + [h] + after, bdays + [c] + adays, bmarks + [true] + amarks)
  {
    var group, days, marks, n := before + [h] + after, bdays + [c] + adays, bmarks + [true] + amarks, |before|;
    forall i | 0 <= i < |group| && !marks[i]
      ensures IsFiller(group[i], days[i])
    {
      if i < n {
        assert group[i] == before[i] && days[i] == bdays[i] && marks[i] == bmarks[i];
      } else {
        assert group[i] == after[i - n - 1] && days[i] == adays[i - n - 1] && marks[i] == amarks[i - n - 1];
      }
    }
  }

  /** The real entries of the joined group: the stretches were taken from
      the map while untaken, the one before after the seed's date was taken
      and the one after after that, so no two share a date and none was
      taken before the group. */
  lemma JoinMarks(before: seq<Holiday>, bmarks: seq<bool>, h: Holiday, after: seq<Holiday>, amarks: seq<bool>,
                  m: map<string, Holiday>, v0: set<string>, v1: set<string>, v2: set<string>)
    requires |bmarks| == |before| && |amarks| == |after| && forall i :: 0 < i < |before| ==> bmarks[i]
    requires Found(before, bmarks, m) && Found(after, amarks, m)
    requires Untaken(before, bmarks, v0 + {h.date}) && Taken(before, bmarks, v1) && DistinctMarked(before, bmarks)
    requires Untaken(after, amarks, v1) && Taken(after, amarks, v2) && DistinctMarked(after, amarks)
    requires h.date !in v0 && v0 + {h.date} <= v1 <= v2
    ensures var group, marks := before + [h] + after, bmarks + [true] + amarks;
      |marks| == |group| && FoundBesides(group, marks, |before|, m)
      && Untaken(group, marks, v0) && Taken(group, marks, v2) && DistinctMarked(group, marks)
      && forall i :: 0 < i < |before| ==> marks[i]
  {
    var group, marks, n := before + [h] + after, bmarks + [true] + amarks, |before|;
    assert forall i :: 0 <= i < n ==> group[i] == before[i] && marks[i] == bmarks[i];
    assert forall i :: n < i < |group| ==> group[i] == after[i - n - 1] && marks[i] == amarks[i - n - 1];
    forall i, j | 0 <= i < j < |group| && marks[i] && marks[j]
      ensures group[i].date != group[j].date
    {
      if j < n {
      } else if j == n {
        assert group[i].date !in v0 + {h.date};
      } else if i > n {
        assert group[i] == after[i - n - 1] && group[j] == after[j - n - 1];
      } else {
        assert group[i].date in v1 && group[j].date !in v1;
      }
    }
  }

  lemma MarkedJoin(before: seq<Holiday>, bmarks: seq<bool>, h: Holiday, after: seq<Holiday>, amarks: seq<bool>)
    requires |bmarks| == |before| && |amarks| == |after|
    ensures MarkedDates(before + [h] + after, bmarks + [true] + amarks)
      == MarkedDates(before, bmarks) + {h.date} + MarkedDates(after, amarks)
  {
    var group, marks, n := before + [h] + after, bmarks + [true] + amarks, |before|;
    assert forall i :: 0 <= i < n ==> group[i] == before[i] && marks[i] == bmarks[i];
    assert forall i :: n < i < |group| ==> group[i] == after[i - n - 1] && marks[i] == amarks[i - n - 1];
    forall s | s in MarkedDates(before, bmarks) + {h.date} + MarkedDates(after, amarks)
      ensures s in MarkedDates(group, marks)
    {
      if s in MarkedDates(before, bmarks) {
        var i :| 0 <= i < n && bmarks[i] && before[i].date == s;
        assert group[i] == before[i] && marks[i];
      } else if s == h.date {
        assert group[n] == h && marks[n];
      } else {
        var i :| 0 <= i < |after| && amarks[i] && after[i].date == s;
        assert group[n + 1 + i] == after[i] && marks[n + 1 + i];
      }
    }
  }

  /** Covering with a larger taken set, or against a smaller visited set,
      still covers. */
  lemma CoveredWiden(m: map<string, Holiday>, visited: set<string>, visited': set<string>,
                     taken: set<string>, taken': set<string>, lo: Date, hi: Date, bare: bool)
    requires visited' <= visited && taken <= taken'
    ensures BackCovered(m, visited, taken, lo, hi) ==> BackCovered(m, visited', taken', lo, hi)
    ensures ForwardCovered(m, visited, taken, lo, hi, bare) ==> ForwardCovered(m, visited', taken', lo, hi, bare)
  {
  }

  /** How a group grew around its seed, which stands for day `sd`: the
      scan back stopped at `backStop`, a weekend day made up as the first
      entry or a Monday before every entry; the scan forward stopped at
      `forwardStop`, a Friday after every entry. Between them each holiday
      of the map is now taken, each weekend day or Monday before `sd` and
      each Friday after it was a holiday untaken before, and when nothing
      follows the seed no weekend day lies after it. Exactly the dates of
      the real entries were added to `visited`. */
  ghost predicate Grown(m: map<string, Holiday>, visited: set<string>, seed: Holiday, group: seq<Holiday>, shape: Shape,
                        visitedAfter: set<string>) {
    GroupShape(group, seed, shape)
    && var sd, bs, fs, seeded := shape.days[shape.seedAt], shape.backStop, shape.forwardStop, visited + {seed.date};
    visitedAfter == visited + MarkedDates(group, shape.marks)
    && Before(bs, sd) && Before(sd, fs) && Weekday(fs) == FRIDAY && AllBefore(shape.days, fs)
    && ((IsWeekend(bs) && shape.seedAt > 0 && shape.days[0] == bs && !shape.marks[0])
        || (Weekday(bs) == MONDAY && AllAfter(shape.days, bs)))
    && BackCovered(m, seeded, visitedAfter, bs, sd)
    && ForwardCovered(m, seeded, visitedAfter, sd, fs, shape.seedAt == |group| - 1)
    && (Format(fs) in m ==> Format(fs) in visitedAfter)
  }

  /** The days of the joined group lie between the two stops. */
  lemma JoinBounds(bdays: seq<Date>, c: Date, adays: seq<Date>, bs: Date, fs: Date)
    requires AllBefore(bdays, c) && AllAfter(adays, c) && AllBefore(adays, fs) && Before(c, fs)
    ensures AllBefore(bdays + [c] + adays, fs)
    ensures AllAfter(bdays, bs) && Before(bs, c) ==> AllAfter(bdays + [c] + adays, bs)
  {
  }

  /** One turn of the loop of functions.go:191-237 for a record whose date
      is not taken: take it, scan back and forward from its day (the zero
      date when its text does not parse) and put the stretches around it.
      The group's real entries were untaken and are taken now. */
  method GrowGroup(holidayMap: map<string, Holiday>, visited: set<string>, holiday: Holiday)
    returns (group: seq<Holiday>, visitedAfter: set<string>, ghost shape: Shape)
    requires KeyedByDate(holidayMap) && holiday.date !in visited
    ensures GroupShape(group, holiday, shape)
    ensures FoundBesides(group, shape.marks, shape.seedAt, holidayMap)
    ensures Untaken(group, shape.marks, visited) && Taken(group, shape.marks, visitedAfter)
    ensures visited <= visitedAfter
    ensures Grown(holidayMap, visited, holiday, group, shape, visitedAfter)
  {
    var seeded := visited + {holiday.date};
    var currentDate := ParseOrZero(holiday.date);
    var before, bdays, bmarks, v1, bstop := ScanBack(holidayMap, seeded, currentDate);
    var after, adays, amarks, v2, fstop := ScanForward(holidayMap, v1, currentDate);
    group, visitedAfter := before + [holiday] + after, v2;
    shape := Shape(bdays + [currentDate] + adays, bmarks + [true] + amarks, |before|, bstop, fstop);
    AscendingJoin(bdays, currentDate, adays);
    JoinDated(before, bdays, holiday, currentDate, after, adays);
    JoinFillers(before, bdays, bmarks, holiday, currentDate, after, adays, amarks);
    JoinMarks(before, bmarks, holiday, after, amarks, holidayMap, visited, v1, v2);
    MarkedJoin(before, bmarks, holiday, after, amarks);
    JoinBounds(bdays, currentDate, adays, bstop, fstop);
    CoveredWiden(holidayMap, seeded, seeded, v1, v2, bstop, currentDate, false);
    CoveredWiden(holidayMap, v1, seeded, v2, v2, currentDate, fstop, after == []);
    assert shape.days[0] == if before == [] then currentDate else bdays[0];
    assert shape.marks[0] == if before == [] then true else bmarks[0];
  }

  /** The scan forward from a Friday or Saturday always appends: the next
      day is a weekend day before the Friday it stops at. */
  lemma WeekendAfterSeed(m: map<string, Holiday>, visited: set<string>, seed: Holiday, group: seq<Holiday>, shape: Shape,
                         visitedAfter: set<string>)
    requires Grown(m, visited, seed, group, shape, visitedAfter)
    requires Weekday(shape.days[shape.seedAt]) == FRIDAY || Weekday(shape.days[shape.seedAt]) == SATURDAY
    ensures shape.seedAt < |group| - 1
  {
    var sd := shape.days[shape.seedAt];
    WeekdayOfNeighbours(sd);
    NextPrevInverse(sd, shape.forwardStop);
    assert Before(sd, NextDay(sd)) && Before(NextDay(sd), shape.forwardStop);
  }

  /** Entry `i` of group `g` is a real record, not a made-up one. */
  ghost predicate Real(adjacents: seq<seq<Holiday>>, shapes: seq<Shape>, g: int, i: int) {
    0 <= g < |adjacents| && g < |shapes| && 0 <= i < |adjacents[g]| && i < |shapes[g].marks| && shapes[g].marks[i]
  }

  /** Group `g` was grown from record `seeds[g]` with shape `shapes[g]` and
      has at least two entries. */
  ghost predicate Shaped(hs: seq<Holiday>, adjacents: seq<seq<Holiday>>, shapes: seq<Shape>, seeds: seq<int>) {
    |shapes| == |adjacents| && |seeds| == |adjacents|
    && forall g :: 0 <= g < |adjacents| ==>
         0 <= seeds[g] < |hs| && |adjacents[g]| >= 2 && GroupShape(adjacents[g], hs[seeds[g]], shapes[g])
  }

  ghost predicate RealInInput(hs: seq<Holiday>, adjacents: seq<seq<Holiday>>, shapes: seq<Shape>) {
    forall g, i :: Real(adjacents, shapes, g, i) ==> adjacents[g][i] in hs
  }

  /** No date is that of real entries in two groups. */
  ghost predicate RealDistinct(adjacents: seq<seq<Holiday>>, shapes: seq<Shape>) {
    forall g, g', i, j :: g < g' && Real(adjacents, shapes, g, i) && Real(adjacents, shapes, g', j) ==>
      adjacents[g][i].date != adjacents[g'][j].date
  }

  ghost predicate RealTaken(adjacents: seq<seq<Holiday>>, shapes: seq<Shape>, visited: set<string>) {
    forall g, i :: Real(adjacents, shapes, g, i) ==> adjacents[g][i].date in visited
  }

  /** The groups `largeHolidays` returns for the sorted records `hs`: each
      grown from a record, with at least two entries; in the order of their
      seeds; their real entries records of `hs`; and no date that of real
      entries in two groups (nor, by `GroupShape`, in one). */
  ghost predicate Grouping(hs: seq<Holiday>, adjacents: seq<seq<Holiday>>, shapes: seq<Shape>, seeds: seq<int>) {
    Shaped(hs, adjacents, shapes, seeds)
    && (forall g, g' :: 0 <= g < g' < |seeds| ==> seeds[g] < seeds[g'])
    && RealInInput(hs, adjacents, shapes) && RealDistinct(adjacents, shapes)
  }

  /** The loop of functions.go:191-237 after looking at the first `n`
      records: the groups so far, seeded before `n`, with every real entry's
      date taken. */
  ghost predicate GroupingSoFar(hs: seq<Holiday>, adjacents: seq<seq<Holiday>>, shapes: seq<Shape>, seeds: seq<int>,
                                visited: set<string>, n: int) {
    Grouping(hs, adjacents, shapes, seeds)
    && (forall g :: 0 <= g < |seeds| ==> seeds[g] < n)
    && RealTaken(adjacents, shapes, visited)
  }

  lemma GroupingSkip(hs: seq<Holiday>, adjacents: seq<seq<Holiday>>, shapes: seq<Shape>, seeds: seq<int>,
                     visited: set<string>, visited': set<string>, n: int)
    requires GroupingSoFar(hs, adjacents, shapes, seeds, visited, n) && visited <= visited'
    ensures GroupingSoFar(hs, adjacents, shapes, seeds, visited', n + 1)
  {
  }

  lemma ShapedSnoc(hs: seq<Holiday>, adjacents: seq<seq<Holiday>>, shapes: seq<Shape>, seeds: seq<int>,
                   n: int, group: seq<Holiday>, shape: Shape)
    requires Shaped(hs, adjacents, shapes, seeds) && 0 <= n < |hs|
    requires |group| >= 2 && GroupShape(group, hs[n], shape)
    ensures Shaped(hs, adjacents + [group], shapes + [shape], seeds + [n])
  {
    var A, S, N := adjacents + [group], shapes + [shape], seeds + [n];
    forall g | 0 <= g < |A|
      ensures 0 <= N[g] < |hs| && |A[g]| >= 2 && GroupShape(A[g], hs[N[g]], S[g])
    {
      if g < |adjacents| {
        assert A[g] == adjacents[g] && S[g] == shapes[g] && N[g] == seeds[g];
      }
    }
  }

  /** The real entries of a new group were untaken and are taken now, so
      they share no date with those of the groups before it. */
  lemma RealSnoc(hs: seq<Holiday>, adjacents: seq<seq<Holiday>>, shapes: seq<Shape>,
                 visited: set<string>, visited': set<string>, group: seq<Holiday>, shape: Shape)
    requires |shapes| == |adjacents| && |shape.marks| == |group|
    requires RealInInput(hs, adjacents, shapes) && RealDistinct(adjacents, shapes) && RealTaken(adjacents, shapes, visited)
    requires forall i :: 0 <= i < |group| && shape.marks[i] ==> group[i] in hs
    requires Untaken(group, shape.marks, visited) && Taken(group, shape.marks, visited') && visited <= visited'
    ensures var A, S := adjacents + [group], shapes + [shape];
      RealInInput(hs, A, S) && RealDistinct(A, S) && RealTaken(A, S, visited')
  {
    var A, S, k := adjacents + [group], shapes + [shape], |adjacents|;
    assert forall g, i :: Real(A, S, g, i) <==>
      (g < k && Real(adjacents, shapes, g, i)) || (g == k && 0 <= i < |group| && shape.marks[i]);
    assert forall g :: 0 <= g < k ==> A[g] == adjacents[g];
    assert A[k] == group;
  }

  /** A new group seeded at record `n`, whose real entries are records
      that were untaken and are taken now, extends the grouping. */
  lemma GroupingSnoc(hs: seq<Holiday>, adjacents: seq<seq<Holiday>>, shapes: seq<Shape>, seeds: seq<int>,
                     visited: set<string>, visited': set<string>, n: int, group: seq<Holiday>, shape: Shape)
    requires GroupingSoFar(hs, adjacents, shapes, seeds, visited, n) && 0 <= n < |hs|
    requires |group| >= 2 && GroupShape(group, hs[n], shape)
    requires forall i :: 0 <= i < |group| && shape.marks[i] ==> group[i] in hs
    requires Untaken(group, shape.marks, visited) && Taken(group, shape.marks, visited') && visited <= visited'
    ensures GroupingSoFar(hs, adjacents + [group], shapes + [shape], seeds + [n], visited', n + 1)
  {
    ShapedSnoc(hs, adjacents, shapes, seeds, n, group, shape);
    RealSnoc(hs, adjacents, shapes, visited, visited', group, shape);
    var N := seeds + [n];
    assert forall g :: 0 <= g < |seeds| ==> N[g] == seeds[g];
  }

  /** The real entries of a group grown from a record of `hs` with the map
      of `hs` are records of `hs`. */
  lemma MarkedInInput(hs: seq<Holiday>, group: seq<Holiday>, shape: Shape, n: int)
    requires 0 <= n < |hs| && GroupShape(group, hs[n], shape)
    requires FoundBesides(group, shape.marks, shape.seedAt, DateMap(hs))
    ensures forall i :: 0 <= i < |group| && shape.marks[i] ==> group[i] in hs
  {
    DateMapLastWins(hs);
    forall i | 0 <= i < |group| && shape.marks[i]
      ensures group[i] in hs
    {
      if i != shape.seedAt {
        var k := group[i].date;
        var j :| LastDated(hs, k, j) && DateMap(hs)[k] == hs[j];
      }
    }
  }

  /** Every record's date is the text of a day. */
  predicate AllParse(hs: seq<Holiday>) {
    forall k :: 0 <= k < |hs| ==> Parse(hs[k].date).Some?
  }

  /** Some group has a real entry dated `s`. */
  ghost predicate InGroups(adjacents: seq<seq<Holiday>>, shapes: seq<Shape>, s: string) {
    exists g, i :: Real(adjacents, shapes, g, i) && adjacents[g][i].date == s
  }

  /** `y` is a Tuesday, Wednesday or Thursday, and no other day from the
      Friday before its week to the Friday of its week is a holiday of
      `m`. */
  ghost predicate Lone(m: map<string, Holiday>, y: Date) {
    MONDAY < Weekday(y) < FRIDAY
    && forall x: Date ::
         (DayNumber(y) - Weekday(y) - 2 <= DayNumber(x) <= DayNumber(y) - Weekday(y) + 5
          && DayNumber(x) != DayNumber(y)) ==> Format(x) !in m
  }

  /** Which records the groups take in: a record's date is that of a real
      entry of a group exactly when the record is not a lone holiday. */
  ghost predicate GroupsExactly(hs: seq<Holiday>, adjacents: seq<seq<Holiday>>, shapes: seq<Shape>) {
    forall k :: 0 <= k < |hs| ==>
      (InGroups(adjacents, shapes, hs[k].date) <==> !Lone(DateMap(hs), ParseOrZero(hs[k].date)))
  }

  /** A date of the map of records that all parse names the day it is the
      text of, and some record carries it. */
  lemma KeyDay(hs: seq<Holiday>, m: map<string, Holiday>, x: Date)
    requires m == DateMap(hs) && AllParse(hs) && Format(x) in m
    ensures Parse(Format(x)) == Some(x) && FourDigitYear(x)
    ensures exists k :: 0 <= k < |hs| && hs[k].date == Format(x)
  {
    DateMapLastWins(hs);
    var k :| LastDated(hs, Format(x), k) && DateMap(hs)[Format(x)] == hs[k];
    var z := Parse(hs[k].date).value;
    FormatParse(hs[k].date, z);
    FormatInjective(x, z);
  }

  /** A record that parses carries the text of its day, which is a date of
      the map. */
  lemma RecordDay(hs: seq<Holiday>, k: int)
    requires AllParse(hs) && 0 <= k < |hs|
    ensures hs[k].date == Format(ParseOrZero(hs[k].date)) && FourDigitYear(ParseOrZero(hs[k].date))
    ensures hs[k].date in DateMap(hs)
  {
    FormatParse(hs[k].date, Parse(hs[k].date).value);
    DateMapLastWins(hs);
  }

  /** Records sorted by date text that all parse are sorted by day. */
  lemma {:induction false} SortedDays(hs: seq<Holiday>, i: int, j: int)
    requires AllParse(hs) && SortedByKey(hs, DateOf) && 0 <= i <= j < |hs|
    ensures DayNumber(ParseOrZero(hs[i].date)) <= DayNumber(ParseOrZero(hs[j].date))
    decreases j - i
  {
    if i < j {
      SortedDays(hs, i, j - 1);
      RecordDay(hs, j - 1);
      RecordDay(hs, j);
      assert !LexLess(DateOf(hs[j]), DateOf(hs[j - 1]));
      FormatOrder(ParseOrZero(hs[j].date), ParseOrZero(hs[j - 1].date));
    }
  }

  /** The records before `n` have their dates taken. */
  ghost predicate Seen(hs: seq<Holiday>, visited: set<string>, n: int) {
    forall k :: 0 <= k < n && k < |hs| ==> hs[k].date in visited
  }

  /** In sorted records, when record `n` comes up every holiday before its
      day has been taken. */
  lemma KeysBeforeVisited(hs: seq<Holiday>, m: map<string, Holiday>, visited: set<string>, n: int)
    requires m == DateMap(hs) && AllParse(hs) && SortedByKey(hs, DateOf) && 0 <= n < |hs| && Seen(hs, visited, n)
    ensures forall x: Date :: Format(x) in m && Before(x, ParseOrZero(hs[n].date)) ==> Format(x) in visited
  {
    forall x: Date | Format(x) in m && Before(x, ParseOrZero(hs[n].date))
      ensures Format(x) in visited
    {
      KeyDay(hs, m, x);
      var k :| 0 <= k < |hs| && hs[k].date == Format(x);
      if k >= n {
        SortedDays(hs, n, k);
      }
    }
  }

  /** The taken holidays of sorted records once some group was grown: those
      before `frontier`, the Friday the last scan forward stopped at. */
  ghost predicate Frontier(m: map<string, Holiday>, visited: set<string>, n: int, frontier: Date) {
    (n > 0 ==> Weekday(frontier) == FRIDAY)
    && forall x: Date :: Format(x) in m ==> (Format(x) in visited <==> n > 0 && Before(x, frontier))
  }

  /** Every taken date is a real entry's or a lone holiday's, and no real
      entry is a lone holiday. */
  ghost predicate Complete(m: map<string, Holiday>, adjacents: seq<seq<Holiday>>, shapes: seq<Shape>,
                           visited: set<string>) {
    (forall s :: s in visited ==> InGroups(adjacents, shapes, s) || Lone(m, ParseOrZero(s)))
    && (forall g, i :: Real(adjacents, shapes, g, i) ==> !Lone(m, ParseOrZero(adjacents[g][i].date)))
  }

  /** What holds when record `n` of the sorted records, all parsing, seeds
      a group. */
  ghost predicate Seeding(hs: seq<Holiday>, m: map<string, Holiday>, visited: set<string>, n: int) {
    m == DateMap(hs) && AllParse(hs) && SortedByKey(hs, DateOf) && 0 <= n < |hs|
    && Seen(hs, visited, n) && hs[n].date !in visited
  }

  /** Nothing is taken back from the seed of sorted records: every holiday
      before its day is taken already, so at most one made-up weekend day
      stands before the seed. */
  lemma NoBackTaken(hs: seq<Holiday>, m: map<string, Holiday>, visited: set<string>, n: int,
                    group: seq<Holiday>, shape: Shape)
    requires Seeding(hs, m, visited, n) && GroupShape(group, hs[n], shape)
    requires FoundBesides(group, shape.marks, shape.seedAt, m) && Untaken(group, shape.marks, visited)
    ensures shape.seedAt <= 1 && (shape.seedAt == 1 ==> !shape.marks[0])
  {
    KeysBeforeVisited(hs, m, visited, n);
    forall i | 0 <= i < shape.seedAt
      ensures !shape.marks[i]
    {
      assert Before(shape.days[i], shape.days[shape.seedAt]);
      assert group[i].date == Format(shape.days[i]);
    }
    var second := if shape.seedAt > 1 then 1 else 0;
    assert !shape.marks[second] || second == 0;
  }

  /** `FridayGap` on day numbers. */
  lemma FridayGapDays(f: int, s: int)
    requires (f + 6) % 7 == FRIDAY && MONDAY < (s + 6) % 7 < FRIDAY && f <= s
    ensures f <= s - (s + 6) % 7 - 2
  {
    var q, r := (f + 6) / 7, (s + 6) / 7;
    assert f + 6 == 7 * q + FRIDAY && s + 6 == 7 * r + (s + 6) % 7;
  }

  /** `FridayBefore` on day numbers. */
  lemma FridayBeforeDays(s: int)
    ensures (s - (s + 6) % 7 - 2 + 6) % 7 == FRIDAY
  {
    var q := (s + 6) / 7;
    assert s - (s + 6) % 7 - 2 + 6 == 7 * (q - 1) + FRIDAY;
  }

  /** The last Friday up to a Tuesday, Wednesday or Thursday is the
      Friday before its week. */
  lemma FridayGap(friday: Date, d: Date)
    requires Weekday(friday) == FRIDAY && MONDAY < Weekday(d) < FRIDAY && DayNumber(friday) <= DayNumber(d)
    ensures DayNumber(friday) <= DayNumber(d) - Weekday(d) - 2
  {
    FridayGapDays(DayNumber(friday), DayNumber(d));
  }

  /** The weekday `k` days after a day of weekday `w`, for `0 <= w + k < 7`. */
  lemma WeekdayAhead(x: Date, y: Date)
    requires 0 <= Weekday(x) + DayNumber(y) - DayNumber(x) < 7
    ensures Weekday(y) == Weekday(x) + DayNumber(y) - DayNumber(x)
  {
    ModSevenAhead(DayNumber(x), DayNumber(y));
  }

  /** A day of the week falls two days after the Friday before its week. */
  lemma FridayBefore(x: Date)
    ensures Weekday(Shift(x, -Weekday(x) - 2)) == FRIDAY
  {
    FridayBeforeDays(DayNumber(x));
  }

  /** One record of the sorted records, all parsing, seeds a group: the
      state before, the frontier the taken holidays lie before, and how the
      group grew. */
  ghost predicate Stepping(hs: seq<Holiday>, m: map<string, Holiday>, visited: set<string>, n: int, frontier: Date,
                           group: seq<Holiday>, shape: Shape, visitedAfter: set<string>) {
    Seeding(hs, m, visited, n) && Frontier(m, visited, n, frontier)
    && Grown(m, visited, hs[n], group, shape, visitedAfter)
    && FoundBesides(group, shape.marks, shape.seedAt, m) && Untaken(group, shape.marks, visited)
  }

  /** The seed's text is that of its day, a holiday of the map; the taken
      holidays and the seed lie no later than it, and the frontier no later
      either; every holiday before it is taken. */
  lemma SeedKey(hs: seq<Holiday>, m: map<string, Holiday>, visited: set<string>, n: int, frontier: Date)
    requires Seeding(hs, m, visited, n) && Frontier(m, visited, n, frontier)
    ensures var sd := ParseOrZero(hs[n].date);
      hs[n].date == Format(sd) && FourDigitYear(sd) && Format(sd) in m
      && (n > 0 ==> Weekday(frontier) == FRIDAY && DayNumber(frontier) <= DayNumber(sd))
      && (forall x: Date :: Format(x) in m && Before(x, sd) ==> Format(x) in visited)
      && (forall x: Date :: Format(x) in m && Format(x) in visited ==> n > 0 && Before(x, frontier))
      && (forall x: Date :: Format(x) in m && Format(x) in visited + {hs[n].date} ==> DayNumber(x) <= DayNumber(sd))
  {
    var sd := ParseOrZero(hs[n].date);
    RecordDay(hs, n);
    KeysBeforeVisited(hs, m, visited, n);
    forall x: Date | Format(x) in m && Format(x) == hs[n].date
      ensures x == sd
    {
      FormatInjective(x, sd);
    }
  }

  /** After the group, the taken holidays are those before the Friday the
      scan forward stopped at, and the records up to the seed are taken. */
  lemma FrontierStep(hs: seq<Holiday>, m: map<string, Holiday>, visited: set<string>, n: int, frontier: Date,
                     group: seq<Holiday>, shape: Shape, visitedAfter: set<string>)
    requires Stepping(hs, m, visited, n, frontier, group, shape, visitedAfter)
    ensures Frontier(m, visitedAfter, n + 1, shape.forwardStop) && Seen(hs, visitedAfter, n + 1)
  {
    SeedKey(hs, m, visited, n, frontier);
    var sd, fs := shape.days[shape.seedAt], shape.forwardStop;
    assert group[shape.seedAt].date == hs[n].date && hs[n].date in MarkedDates(group, shape.marks);
    forall x: Date | Format(x) in m
      ensures Format(x) in visitedAfter <==> Before(x, fs)
    {
      KeyDay(hs, m, x);
      if Format(x) in visitedAfter && Format(x) !in visited {
        var i :| 0 <= i < |group| && shape.marks[i] && group[i].date == Format(x);
        if i == shape.seedAt {
          FormatInjective(x, sd);
        } else {
          FormatInjective(shape.days[i], x);
        }
      }
      if DayNumber(x) == DayNumber(sd) {
        DayNumberOrder(x, sd);
      }
    }
  }

  /** A Monday with no weekend day between it and a later day lies at
      most five days before it. */
  lemma MondayWithin(monday: Date, d: Date)
    requires Weekday(monday) == MONDAY && Before(monday, d)
    requires forall x: Date :: Before(monday, x) && Before(x, d) ==> !IsWeekend(x)
    ensures DayNumber(d) - DayNumber(monday) <= 5 && Weekday(d) == DayNumber(d) - DayNumber(monday) + 1
  {
    var saturday := Shift(monday, 5);
    WeekdayAhead(monday, saturday);
    assert IsWeekend(saturday);
    assert !(Before(monday, saturday) && Before(saturday, d));
    WeekdayAhead(monday, d);
  }

  /** A Friday reached from a day with no weekend day and no Friday in
      between is the Friday of that day's week, which is no weekend day and
      no Friday itself. */
  lemma FridayOfWeek(d: Date, friday: Date)
    requires Weekday(friday) == FRIDAY && Before(d, friday)
    requires forall x: Date :: Before(d, x) && Before(x, friday) ==> !IsWeekend(x) && Weekday(x) != FRIDAY
    ensures Weekday(d) < FRIDAY && DayNumber(friday) == DayNumber(d) - Weekday(d) + FRIDAY
  {
    WeekdayOfNeighbours(d);
    assert Weekday(d) < FRIDAY by {
      assert Before(d, NextDay(d));
      if DayNumber(friday) == DayNumber(d) + 1 {
        DayNumberOrder(friday, NextDay(d));
      }
    }
    var w := Weekday(d);
    var fri := Shift(d, FRIDAY - w);
    WeekdayAhead(d, fri);
    if DayNumber(friday) < DayNumber(fri) {
      WeekdayAhead(d, friday);
    }
  }

  /** A Tuesday, Wednesday or Thursday is a lone holiday when no holiday
      lies from the Friday before its week up to it, nor after it up to
      the Friday of its week. */
  lemma LoneWeek(m: map<string, Holiday>, d: Date, friday: Date)
    requires MONDAY < Weekday(d) < FRIDAY && DayNumber(friday) == DayNumber(d) - Weekday(d) + FRIDAY
    requires forall x: Date :: Format(x) in m && Before(x, d) ==> DayNumber(x) < DayNumber(d) - Weekday(d) - 2
    requires forall x: Date :: Before(d, x) && Before(x, friday) ==> Format(x) !in m
    requires Format(friday) !in m
    ensures Lone(m, d)
  {
    forall x: Date | DayNumber(d) < DayNumber(x) && DayNumber(x) == DayNumber(friday)
      ensures x == friday
    {
      DayNumberOrder(x, friday);
    }
  }

  /** A seed at day `d` whose scans took nothing else: the scan back
      stopped at a Monday, passing no weekend day, and the scan forward at
      a Friday, passing no weekend day. The holidays taken, `taken`, lie no
      later than `d`, and every holiday before `d` lies before the Friday
      `frontier` that is no later than `d`. Then `d` is a lone holiday. */
  lemma QuietSeed(m: map<string, Holiday>, taken: set<string>, d: Date, monday: Date, friday: Date, frontier: Date)
    requires Weekday(monday) == MONDAY && Before(monday, d) && Before(d, friday) && Weekday(friday) == FRIDAY
    requires BackCovered(m, taken, taken, monday, d) && ForwardCovered(m, taken, taken, d, friday, true)
    requires Format(friday) in m ==> Format(friday) in taken
    requires forall x: Date :: Format(x) in m && Format(x) in taken ==> DayNumber(x) <= DayNumber(d)
    requires forall x: Date :: Format(x) in m && Before(x, d) ==>
      Format(x) in taken && Weekday(frontier) == FRIDAY && Before(x, frontier) && DayNumber(frontier) <= DayNumber(d)
    ensures Lone(m, d)
  {
    forall x: Date | Before(monday, x) && Before(x, d)
      ensures !IsWeekend(x)
    {
    }
    MondayWithin(monday, d);
    forall x: Date | Before(d, x) && Before(x, friday)
      ensures !IsWeekend(x) && Weekday(x) != FRIDAY && Format(x) !in m
    {
    }
    FridayOfWeek(d, friday);
    var s, w := DayNumber(d), Weekday(d);
    forall x: Date | Format(x) in m && Before(x, d)
      ensures DayNumber(x) < s - w - 2
    {
      FridayGap(frontier, d);
    }
    LoneWeek(m, d, friday);
  }

  /** A group of the seed alone: the seed's day is a lone holiday. The scan
      back took nothing and met no weekend day, so it stopped at the Monday
      of the seed's week at most five days back; the scan forward met no
      weekend day, holiday or Friday before its stop, so the seed is a
      Tuesday, Wednesday or Thursday and the stop the Friday of its week. */
  lemma SingletonLone(hs: seq<Holiday>, m: map<string, Holiday>, visited: set<string>, n: int, frontier: Date,
                      group: seq<Holiday>, shape: Shape, visitedAfter: set<string>)
    requires Stepping(hs, m, visited, n, frontier, group, shape, visitedAfter) && |group| == 1
    ensures Lone(m, ParseOrZero(hs[n].date))
  {
    SeedKey(hs, m, visited, n, frontier);
    assert visitedAfter == visited + {hs[n].date} by {
      assert group[0] == hs[n] && shape.marks[0];
    }
    QuietSeed(m, visitedAfter, shape.days[0], shape.backStop, shape.forwardStop, frontier);
  }


  /** The weekday `k` days before a day of weekday `w`, for `0 <= w - k < 7`. */
  lemma WeekdayBehind(x: Date, y: Date)
    requires 0 <= Weekday(y) - (DayNumber(y) - DayNumber(x)) < 7
    ensures Weekday(x) == Weekday(y) - (DayNumber(y) - DayNumber(x))
  {
    ModSevenAhead(DayNumber(y), DayNumber(x));
  }

  /** A day is no lone holiday when a weekend day lies before it with every
      Monday in between a holiday. */
  lemma WeekendBeforeNotLone(m: map<string, Holiday>, d: Date, weekend: Date)
    requires IsWeekend(weekend) && Before(weekend, d)
    requires forall x: Date :: Before(weekend, x) && Before(x, d) && Weekday(x) == MONDAY ==> Format(x) in m
    ensures !Lone(m, d)
  {
    var w := Weekday(d);
    if MONDAY < w < FRIDAY {
      var monday := Shift(d, MONDAY - w);
      WeekdayBehind(monday, d);
      if DayNumber(weekend) < DayNumber(monday) {
        assert Format(monday) in m;
      } else {
        WeekdayBehind(weekend, d);
      }
    }
  }

  /** A day is no lone holiday when a holiday or a weekend day follows it
      before a Friday `stop` with every Friday in between a holiday. */
  lemma EntryAfterNotLone(m: map<string, Holiday>, d: Date, e: Date, stop: Date)
    requires Before(d, e) && Before(e, stop) && (Format(e) in m || IsWeekend(e))
    requires forall x: Date :: Before(d, x) && Before(x, stop) && Weekday(x) == FRIDAY ==> Format(x) in m
    ensures !Lone(m, d)
  {
    var w := Weekday(d);
    if MONDAY < w < FRIDAY {
      var friday := Shift(d, FRIDAY - w);
      WeekdayAhead(d, friday);
      if DayNumber(friday) < DayNumber(e) {
        assert Format(friday) in m;
      } else {
        WeekdayAhead(d, e);
      }
    }
  }

  /** A day after a holiday `d`, before a Friday `stop` with every Friday
      in between a holiday, is no lone holiday. */
  lemma LaterNotLone(m: map<string, Holiday>, d: Date, x: Date, stop: Date)
    requires Before(d, x) && Before(x, stop) && Format(d) in m
    requires forall y: Date :: Before(d, y) && Before(y, stop) && Weekday(y) == FRIDAY ==> Format(y) in m
    ensures !Lone(m, x)
  {
    var p := Shift(x, -Weekday(x) - 2);
    FridayBefore(x);
    if DayNumber(p) > DayNumber(d) {
      assert Format(p) in m;
    }
  }

  /** The seed of a group of two or more entries is no lone holiday: either
      the scan back stopped at a weekend day, with every Monday on the way a
      holiday, or an entry follows the seed before the Friday the scan
      forward stopped at. */
  lemma SeedNotLone(hs: seq<Holiday>, m: map<string, Holiday>, visited: set<string>, n: int, frontier: Date,
                    group: seq<Holiday>, shape: Shape, visitedAfter: set<string>)
    requires Stepping(hs, m, visited, n, frontier, group, shape, visitedAfter) && |group| >= 2
    ensures !Lone(m, ParseOrZero(hs[n].date))
  {
    NoBackTaken(hs, m, visited, n, group, shape);
    SeedKey(hs, m, visited, n, frontier);
    var sd, bs, fs := shape.days[shape.seedAt], shape.backStop, shape.forwardStop;
    if shape.seedAt == 1 {
      assert Before(shape.days[0], sd) && IsWeekend(shape.days[0]);
      assert Format(shape.days[0]) !in m || Format(shape.days[0]) in visited;
      WeekendBeforeNotLone(m, sd, bs);
    } else {
      var e := shape.days[1];
      assert Before(sd, e) && Before(e, fs);
      assert Format(e) in m || IsWeekend(e) by {
        if shape.marks[1] {
          assert group[1].date == Format(e) && group[1].date in m;
        }
      }
      EntryAfterNotLone(m, sd, e, fs);
    }
  }

  /** A real entry after the seed is no lone holiday: the seed is a
      holiday before it and every Friday up to the forward stop is one. */
  lemma AfterNotLone(hs: seq<Holiday>, m: map<string, Holiday>, visited: set<string>, n: int, frontier: Date,
                     group: seq<Holiday>, shape: Shape, visitedAfter: set<string>, i: int)
    requires Stepping(hs, m, visited, n, frontier, group, shape, visitedAfter)
    requires 0 <= i < |group| && shape.marks[i] && i != shape.seedAt
    ensures !Lone(m, ParseOrZero(group[i].date))
  {
    NoBackTaken(hs, m, visited, n, group, shape);
    SeedKey(hs, m, visited, n, frontier);
    var sd, x, fs := shape.days[shape.seedAt], shape.days[i], shape.forwardStop;
    assert shape.seedAt < i;
    assert group[i].date == Format(x) && Format(x) in m;
    KeyDay(hs, m, x);
    LaterNotLone(m, sd, x, fs);
  }

  /** A group whose real entries are no lone holidays keeps every taken
      date a real entry's or a lone holiday's once its dates are taken. */
  lemma CompleteKeep(m: map<string, Holiday>, adjacents: seq<seq<Holiday>>, shapes: seq<Shape>, visited: set<string>,
                     group: seq<Holiday>, shape: Shape, visitedAfter: set<string>)
    requires |shapes| == |adjacents| && |shape.marks| == |group| && Complete(m, adjacents, shapes, visited)
    requires visitedAfter == visited + MarkedDates(group, shape.marks)
    requires forall i :: 0 <= i < |group| && shape.marks[i] ==> !Lone(m, ParseOrZero(group[i].date))
    ensures Complete(m, adjacents + [group], shapes + [shape], visitedAfter)
  {
    var A, S, k := adjacents + [group], shapes + [shape], |adjacents|;
    assert forall g, i :: Real(A, S, g, i) <==>
      (g < k && Real(adjacents, shapes, g, i)) || (g == k && 0 <= i < |group| && shape.marks[i]);
    assert forall g :: 0 <= g < k ==> A[g] == adjacents[g];
    assert A[k] == group;
    forall s | s in visitedAfter
      ensures InGroups(A, S, s) || Lone(m, ParseOrZero(s))
    {
      if s !in visited {
        var i :| 0 <= i < |group| && shape.marks[i] && group[i].date == s;
        assert Real(A, S, k, i) && A[k][i].date == s;
      } else if InGroups(adjacents, shapes, s) {
        var g, i :| Real(adjacents, shapes, g, i) && adjacents[g][i].date == s;
        assert Real(A, S, g, i) && A[g][i].date == s;
      }
    }
  }
  /** What the loop of functions.go:191-237 knows when record `n` seeds a
      group: the groups so far, the records before `n` taken, and, for sorted
      records that all parse, the frontier and the completeness of the
      groups; the group grown from record `n` with the map of `hs`. */
  ghost predicate Growing(hs: seq<Holiday>, m: map<string, Holiday>, adjacents: seq<seq<Holiday>>, shapes: seq<Shape>,
                          seeds: seq<int>, visited: set<string>, n: int, frontier: Date,
                          group: seq<Holiday>, shape: Shape, visitedAfter: set<string>) {
    m == DateMap(hs) && 0 <= n < |hs| && hs[n].date !in visited
    && GroupingSoFar(hs, adjacents, shapes, seeds, visited, n) && Seen(hs, visited, n)
    && (SortedByKey(hs, DateOf) && AllParse(hs) ==>
          Frontier(m, visited, n, frontier) && Complete(m, adjacents, shapes, visited))
    && Grown(m, visited, hs[n], group, shape, visitedAfter)
    && FoundBesides(group, shape.marks, shape.seedAt, m)
    && Untaken(group, shape.marks, visited) && Taken(group, shape.marks, visitedAfter) && visited <= visitedAfter
  }

  /** A group of two or more entries is kept: the loop's invariant holds
      with it appended and its dates taken. */
  lemma KeepStep(hs: seq<Holiday>, m: map<string, Holiday>, adjacents: seq<seq<Holiday>>, shapes: seq<Shape>,
                 seeds: seq<int>, visited: set<string>, n: int, frontier: Date,
                 group: seq<Holiday>, shape: Shape, visitedAfter: set<string>)
    requires Growing(hs, m, adjacents, shapes, seeds, visited, n, frontier, group, shape, visitedAfter) && |group| > 1
    ensures var A, S := adjacents + [group], shapes + [shape];
      GroupingSoFar(hs, A, S, seeds + [n], visitedAfter, n + 1) && Seen(hs, visitedAfter, n + 1)
      && (SortedByKey(hs, DateOf) && AllParse(hs) ==>
            Frontier(m, visitedAfter, n + 1, shape.forwardStop) && Complete(m, A, S, visitedAfter))
  {
    assert group[shape.seedAt] == hs[n];
    if SortedByKey(hs, DateOf) && AllParse(hs) {
      FrontierStep(hs, m, visited, n, frontier, group, shape, visitedAfter);
      forall i | 0 <= i < |group| && shape.marks[i]
        ensures !Lone(m, ParseOrZero(group[i].date))
      {
        if i == shape.seedAt {
          SeedNotLone(hs, m, visited, n, frontier, group, shape, visitedAfter);
        } else {
          AfterNotLone(hs, m, visited, n, frontier, group, shape, visitedAfter, i);
        }
      }
      CompleteKeep(m, adjacents, shapes, visited, group, shape, visitedAfter);
    }
    MarkedInInput(hs, group, shape, n);
    GroupingSnoc(hs, adjacents, shapes, seeds, visited, visitedAfter, n, group, shape);
  }

  /** A group of the seed alone is dropped: the loop's invariant holds with
      the seed's date taken, a lone holiday. */
  lemma DropStep(hs: seq<Holiday>, m: map<string, Holiday>, adjacents: seq<seq<Holiday>>, shapes: seq<Shape>,
                 seeds: seq<int>, visited: set<string>, n: int, frontier: Date,
                 group: seq<Holiday>, shape: Shape, visitedAfter: set<string>)
    requires Growing(hs, m, adjacents, shapes, seeds, visited, n, frontier, group, shape, visitedAfter) && |group| <= 1
    ensures GroupingSoFar(hs, adjacents, shapes, seeds, visitedAfter, n + 1) && Seen(hs, visitedAfter, n + 1)
    ensures SortedByKey(hs, DateOf) && AllParse(hs) ==>
      Frontier(m, visitedAfter, n + 1, shape.forwardStop) && Complete(m, adjacents, shapes, visitedAfter)
  {
    assert group[0] == hs[n] && shape.marks[0];
    assert visitedAfter == visited + {hs[n].date};
    if SortedByKey(hs, DateOf) && AllParse(hs) {
      FrontierStep(hs, m, visited, n, frontier, group, shape, visitedAfter);
      SingletonLone(hs, m, visited, n, frontier, group, shape, visitedAfter);
    }
    GroupingSkip(hs, adjacents, shapes, seeds, visited, visitedAfter, n);
  }

  /** The loop of functions.go:185-237 over the sorted records `hs`: map
      each date text to its last record, then let every record whose date is
      not taken yet seed a group, keeping the groups of two or more
      entries. For sorted records that all parse, the groups take in
      exactly the records that are not lone holidays. */
  method GroupSorted(hs: seq<Holiday>) returns (adjacents: seq<seq<Holiday>>, ghost shapes: seq<Shape>, ghost seeds: seq<int>)
    ensures Grouping(hs, adjacents, shapes, seeds)
    ensures SortedByKey(hs, DateOf) && AllParse(hs) ==> GroupsExactly(hs, adjacents, shapes)
  {
    var holidayMap := BuildDateMap(hs);
    var visited: set<string> := {};
    adjacents, shapes, seeds := [], [], [];
    ghost var frontier := ZeroDate;
    for n := 0 to |hs|
      invariant GroupingSoFar(hs, adjacents, shapes, seeds, visited, n) && Seen(hs, visited, n)
      invariant SortedByKey(hs, DateOf) && AllParse(hs) ==>
        Frontier(holidayMap, visited, n, frontier) && Complete(holidayMap, adjacents, shapes, visited)
    {
      var holiday := hs[n];
      if holiday.date in visited {
        GroupingSkip(hs, adjacents, shapes, seeds, visited, visited, n);
        if SortedByKey(hs, DateOf) && AllParse(hs) {
          RecordDay(hs, n);
        }
        continue;
      }
      var group, visitedAfter, shape := GrowGroup(holidayMap, visited, holiday);
      if |group| > 1 {
        KeepStep(hs, holidayMap, adjacents, shapes, seeds, visited, n, frontier, group, shape, visitedAfter);
        adjacents, shapes, seeds := adjacents + [group], shapes + [shape], seeds + [n];
      } else {
        DropStep(hs, holidayMap, adjacents, shapes, seeds, visited, n, frontier, group, shape, visitedAfter);
      }
      frontier := shape.forwardStop;
      visited := visitedAfter;
    }
  }

  /** `largeHolidays` (functions.go:178-240): sorts the records in place by
      date text, so that the caller's slice comes back sorted, and groups
      them. */
  method LargeHolidays(holidays: array<Holiday>) returns (adjacents: seq<seq<Holiday>>, ghost shapes: seq<Shape>, ghost seeds: seq<int>)
    modifies holidays
    ensures SortedByKey(holidays[..], DateOf)
    ensures multiset(holidays[..]) == multiset(old(holidays[..]))
    ensures Grouping(holidays[..], adjacents, shapes, seeds)
    ensures AllParse(holidays[..]) ==> GroupsExactly(holidays[..], adjacents, shapes)
  {
    SortByKey(holidays, DateOf);
    adjacents, shapes, seeds := GroupSorted(holidays[..]);
  }

  /** Each real holiday date is in at most one returned group, and at most
      once in it: real entries at two different places have different
      dates. */
  lemma {:induction false} AtMostOneGroup(hs: seq<Holiday>, adjacents: seq<seq<Holiday>>, shapes: seq<Shape>, seeds: seq<int>)
    requires Grouping(hs, adjacents, shapes, seeds)
    ensures forall g, g', i, j ::
      (Real(adjacents, shapes, g, i) && Real(adjacents, shapes, g', j) && (g, i) != (g', j))
      ==> adjacents[g][i].date != adjacents[g'][j].date
  {
    forall g, g', i, j | Real(adjacents, shapes, g, i) && Real(adjacents, shapes, g', j) && (g, i) != (g', j)
      ensures adjacents[g][i].date != adjacents[g'][j].date
    {
      if g == g' {
        assert GroupShape(adjacents[g], hs[seeds[g]], shapes[g]);
        assert DistinctMarked(adjacents[g], shapes[g].marks);
      } else if g' < g {
        assert adjacents[g'][j].date != adjacents[g][i].date;
      }
    }
  }

  /** A holiday on a Friday, Saturday, Sunday or Monday is in a group. */
  lemma LongWeekendGrouped(hs: seq<Holiday>, adjacents: seq<seq<Holiday>>, shapes: seq<Shape>, k: int)
    requires GroupsExactly(hs, adjacents, shapes) && 0 <= k < |hs|
    requires var w := Weekday(ParseOrZero(hs[k].date)); w == FRIDAY || w == SATURDAY || w == SUNDAY || w == MONDAY
    ensures InGroups(adjacents, shapes, hs[k].date)
  {
  }

  /** Two holidays on neighbouring days are both in groups. */
  lemma NeighboursGrouped(hs: seq<Holiday>, adjacents: seq<seq<Holiday>>, shapes: seq<Shape>, k: int, j: int)
    requires GroupsExactly(hs, adjacents, shapes) && AllParse(hs) && 0 <= k < |hs| && 0 <= j < |hs|
    requires DayNumber(ParseOrZero(hs[j].date)) == DayNumber(ParseOrZero(hs[k].date)) + 1
    ensures InGroups(adjacents, shapes, hs[k].date) && InGroups(adjacents, shapes, hs[j].date)
  {
    var y, z := ParseOrZero(hs[k].date), ParseOrZero(hs[j].date);
    RecordDay(hs, j);
    RecordDay(hs, k);
    var m := DateMap(hs);
    assert Format(z) in m && Format(y) in m;
    assert !Lone(m, y) by {
      if MONDAY < Weekday(y) < FRIDAY {
        assert DayNumber(y) - Weekday(y) - 2 <= DayNumber(z) <= DayNumber(y) - Weekday(y) + 5;
      }
    }
    assert !Lone(m, z) by {
      if MONDAY < Weekday(z) < FRIDAY {
        WeekdayBehind(y, z);
        assert DayNumber(z) - Weekday(z) - 2 <= DayNumber(y) <= DayNumber(z) - Weekday(z) + 5;
      }
    }
  }

  /** When the seed's text parses, every entry of the group, the seed
      included, carries the text of its day: the group is a strictly
      ascending run of days, each written out as in the holiday list. */
  lemma SeedDated(group: seq<Holiday>, seed: Holiday, shape: Shape)
    requires GroupShape(group, seed, shape) && Parse(seed.date).Some?
    ensures Dated(group, shape.days)
  {
    FormatParse(seed.date, Parse(seed.date).value);
  }

  /** `GetAllHolidaysOfMonth` (functions.go:151-172) with the fetched year
      as a parameter: on a failed fetch the error and nothing else;
      otherwise the records of the month, sorted in place by the grouping,
      and the groups. */
  method GetAllHolidaysOfMonth(fetched: Result<seq<Holiday>>, month: int)
    returns (holidaysOfMonth: seq<Holiday>, adjacents: seq<seq<Holiday>>, err: Option<string>,
             ghost shapes: seq<Shape>, ghost seeds: seq<int>)
    ensures fetched.Failure? ==> holidaysOfMonth == [] && adjacents == [] && err == Some(fetched.error)
    ensures fetched.Success? ==>
      (err == None && SortedByKey(holidaysOfMonth, DateOf)
       && multiset(holidaysOfMonth) == multiset(OfMonth(fetched.value, month))
       && Grouping(holidaysOfMonth, adjacents, shapes, seeds)
       && GroupsExactly(holidaysOfMonth, adjacents, shapes))
    ensures fetched.Success? ==> forall h :: h in holidaysOfMonth <==>
      (h in fetched.value && Parse(h.date).Some? && Parse(h.date).value.month == month)
  {
    if fetched.Failure? {
      return [], [], Some(fetched.error), [], [];
    }
    var filtered := FilterMonth(fetched.value, month);
    OfMonthMembers(fetched.value, month);
    var a := new Holiday[|filtered|](i requires 0 <= i < |filtered| => filtered[i]);
    assert a[..] == filtered;
    adjacents, shapes, seeds := LargeHolidays(a);
    holidaysOfMonth, err := a[..], None;
    SameMembers(holidaysOfMonth, filtered);
  }

  /** Two lists with the same records, counted, have the same members, and
      all of one parse when all of the other do. */
  lemma SameMembers(a: seq<Holiday>, b: seq<Holiday>)
    requires multiset(a) == multiset(b)
    ensures forall h :: h in a <==> h in b
    ensures AllParse(b) ==> AllParse(a)
  {
    assert forall h :: (h in a <==> h in multiset(a)) && (h in b <==> h in multiset(b));
    assert forall k :: 0 <= k < |a| ==> a[k] in b;
  }
}
