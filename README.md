# alum-bot holiday calendar, modelled in Dafny

alum-bot is a Discord bot that answers questions about Argentine public
holidays. It fetches a year's list of `{fecha, tipo, nombre}` records and
turns it into answers:

- the next holiday;
- whether a day is a holiday;
- the holidays of a month;
- "large" holidays, meaning long weekends.

This project models the part of the bot that does that work.

- **Processing pipeline** (`HolidaysProcessor`). It decodes the records and drops those whose date does not parse. It applies the skip-today, skip-passed and skip-weekends filters and builds the processed entries. It sorts them by their date text. On request it groups them into runs of consecutive days, widened with the weekend days that touch them and linked through `Adjacent`. Finally it finds the entries just before and just after today by binary search.
- **Older grouping** (`largeHolidays`). It uses a map of the records and a `visited` set. From every untaken record it scans back and forward through the calendar. For sorted records whose dates all parse, the groups take in every record except the lone holidays. A lone holiday is a Tuesday, Wednesday or Thursday with no other holiday from the Friday before its week to the Friday of its week.
- **List scans.** These are `IsHoliday`, the selection in `NextHoliday`, the month filter of `GetAllHolidaysOfMonth`, their twins `IsHolyday` and `NextHolyday`, and `GetNextLargeHoliday`.
- **Small helpers.**
  - the Spanish date formatting;
  - the slash-command option flattener `GetParams`;
  - the start-up settings: `splitIDs`, `getToken`, `getTestGuildIDs`, and the fallback to the empty guild id.

Days are proleptic Gregorian `(year, month, day)` triples (`Calendar`).
- A day number counts days from a fixed origin. The weekday is derived from it, with Sunday as 0, as in Go.
- `DateText` models Go's `"2006-01-02"` layout:
  - `Format` writes a day the way `t.Format` does.
  - `Parse` accepts exactly what `time.Parse` accepts: four year digits, two month digits, two day digits, and a day that exists.
  - `ParseOrZero` is a parse whose error is ignored, which yields Go's zero time, 0001-01-01.
- Go's string `<` is lexicographic order on characters (`LexLess`).

Every clock reading, HTTP fetch, environment variable and command-line flag is a parameter:
- `today` is the day the clock reads;
- `fetched` and `decoded` are the outcomes of the fetch and of JSON decoding, each either a list of records or an error;
- `flag` and `env` are the texts that were read.

Several things the code does are modelled as the code has them:
- synthesized weekend entries stay in `All`;
- nothing is de-duplicated;
- the grouped list need not be sorted.

A real Saturday holiday followed by a Monday holiday shows both of the last two points. Its output is `Sat, Sun*, Sat*, Sun*, Mon`, where `*` marks a synthesized weekend entry. So the binary search (`NextAndPreviousSorted`) takes sortedness as a precondition. It is not a guarantee of the pipeline.

## Model

| member | source | states |
|---|---|---|
| Calendar.DayNumberOrder | internal/commands/holiday/holidayProcessor.go:41 | Ordering days by day number is ordering them by year, then month, then day; two days with the same number are the same day. |
| Calendar.NextDay | internal/commands/holiday/holidayProcessor.go:97 | `AddDate(0, 0, 1)` gives the day whose number is one greater. |
| Calendar.PrevDay | internal/commands/holiday/holidayProcessor.go:145 | `AddDate(0, 0, -1)` gives the day whose number is one smaller. |
| Calendar.NextPrevInverse | internal/commands/holiday/holidayProcessor.go:97 | Stepping forward and back are inverse. `NextDay(a) == b` holds exactly when b's day number is a's plus one. |
| Calendar.NoDayBetween | internal/commands/holiday/functions.go:202 | No day lies strictly between a day and its neighbours. |
| Calendar.WeekdayOfNeighbours | internal/commands/holiday/holidayProcessor.go:206-209 | The next day's weekday is one later, and Saturday is followed by Sunday. The previous day's weekday is one earlier. |
| DateText.ParseFormat | internal/commands/holiday/holidayProcessor.go:214 | A day of a four-digit year, formatted with the `2006-01-02` layout, parses back to itself. |
| DateText.FormatParse | internal/commands/holiday/holidayProcessor.go:30 | A text parses to day d exactly when d has a four-digit year and the text is d's canonical form. |
| DateText.FormatOrder | internal/commands/holiday/holidayProcessor.go:62-64 | For four-digit years, one formatted day is less than another as text exactly when it is the earlier day. |
| Sorting.SortByKey | internal/commands/holiday/holidayProcessor.go:62-64 | After the in-place sort, no element's key is smaller than its predecessor's, and the array holds the same multiset of elements. |
| Sorting.SearchFindsFirst | internal/commands/holiday/holidayProcessor.go:179-182 | For a predicate that never turns from true back to false, `sort.Search` returns the first index where it holds, or `n` when there is none. |
| HolidayProcessor.HolidayTodayIsToday | internal/commands/holiday/holidayProcessor.go:35 | "Same year and same day of the year" holds exactly when the two days are equal, and exactly when `isToday` holds. |
| HolidayProcessor.KeptMeans | internal/commands/holiday/holidayProcessor.go:35-46 | A parsed record is kept exactly when it is not today under skipToday, not before today under skipPassed, and not a Saturday or Sunday under skipWeekends. |
| HolidayProcessor.Filter | internal/commands/holiday/holidayProcessor.go:35-46 | The three checks, applied in the code's order, keep a record exactly when it is not today under skipToday, not before today under skipPassed, and not a weekend day under skipWeekends. |
| HolidayProcessor.ReadRecords | internal/commands/holiday/holidayProcessor.go:29-60 | The loop collects exactly `Survivors`: each record's entry when its date parses and passes the filters, in input order. |
| HolidayProcessor.SurvivorsSkipUnparsed | internal/commands/holiday/holidayProcessor.go:29-33 | A record whose date does not parse contributes nothing. The records after it are still read. |
| HolidayProcessor.SurvivorsInclude | internal/commands/holiday/holidayProcessor.go:29-60 | A record whose date parses to a day that passes all three checks contributes its entry to the result. |
| HolidayProcessor.SurvivorsMembers | internal/commands/holiday/holidayProcessor.go:29-60 | An entry survives exactly when some input record contributes it. |
| HolidayProcessor.SurvivorFacts | internal/commands/holiday/holidayProcessor.go:35-59 | Each surviving entry copies `Date`, `Type` and `Name` from an input record. Its `RawDate` is the day its text names, and `IsToday` holds exactly when that day is today. `DaysLeftToHoliday` is the day difference. With skipToday it is not today; with skipWeekends it is not a Saturday or Sunday; with skipPassed it is not before today. |
| HolidayProcessor.SortedByKeyByDay | internal/commands/holiday/holidayProcessor.go:62-64 | Dated entries sorted by their `Date` text are sorted by day. |
| HolidayProcessor.NextAndPrevious | internal/commands/holiday/holidayProcessor.go:199-203 | An empty list yields the zero entry for both `next` and `previous`. |
| HolidayProcessor.NextAndPreviousSorted | internal/commands/holiday/holidayProcessor.go:178-204 | On a list sorted by day: `next` is the first entry not before today, or the zero entry when there is none. `previous` is the entry just before `next`, the zero entry when `next` is first, and the last entry when no entry is on or after today. |
| HolidayProcessor.HolidaysProcessor | internal/commands/holiday/holidayProcessor.go:15-78 | A decoding error gives the empty result and the error. Otherwise there is no error, and `sorted` is a permutation of the survivors, sorted by text and by day. `All` is `sorted` grouped when `adjacents` is set and `sorted` itself otherwise. `Next` and `Previous` are found in `All`. The non-weekend entries of `All` are `sorted`, in order. |
| AdjacentGrouping.FindPrecedingWeekends | internal/commands/holiday/holidayProcessor.go:143-151 | Returns the entries of the weekend days directly before the start date. |
| AdjacentGrouping.WeekendBlockBefore | internal/commands/holiday/holidayProcessor.go:145-149 | That block holds at most two days, all on weekends, ascending one day apart. Its last day is the day before the start date, and the day before the block is a weekday. |
| AdjacentGrouping.FindSucceedingWeekends | internal/commands/holiday/holidayProcessor.go:154-162 | Returns the entries of the weekend days directly after the end date. |
| AdjacentGrouping.WeekendBlockAfter | internal/commands/holiday/holidayProcessor.go:156-160 | That block holds at most two days, all on weekends, ascending one day apart. Its first day is the day after the end date, and the day after the block is a weekday. |
| AdjacentGrouping.CreateWeekendHolidaysBetween | internal/commands/holiday/holidayProcessor.go:165-175 | Returns the entries of the weekend days strictly between the two dates. |
| AdjacentGrouping.WeekendDaysFromMembers | internal/commands/holiday/holidayProcessor.go:167-173 | The listed days are exactly the weekend days of the interval, strictly ascending. |
| AdjacentGrouping.DayNumbersOf | internal/commands/holiday/holidayProcessor.go:93-97 | One number per entry, in order: the day number of the day each entry's `Date` text names. |
| AdjacentGrouping.FollowsDirectly | internal/commands/holiday/holidayProcessor.go:93-97 | The adjacency test holds exactly when the next entry's day number is the previous entry's plus one. |
| AdjacentGrouping.ExtendRun | internal/commands/holiday/holidayProcessor.go:90-102 | The inner loop returns the run that starts at `i`, up to `RunEnd`. |
| AdjacentGrouping.CollectRuns | internal/commands/holiday/holidayProcessor.go:89-105 | The outer loop returns exactly the runs of the list. |
| AdjacentGrouping.RunEndMaximal | internal/commands/holiday/holidayProcessor.go:92-99 | Within a run every day is followed by the next day. The entry after the run's end is not the next day. |
| AdjacentGrouping.RunsFromJoin | internal/commands/holiday/holidayProcessor.go:89-105 | The runs joined in order give back the input, so they partition it. |
| AdjacentGrouping.RunsFromNonEmpty | internal/commands/holiday/holidayProcessor.go:90 | No run is empty. |
| AdjacentGrouping.WidenRun | internal/commands/holiday/holidayProcessor.go:110-128 | A run widens to: the preceding weekends; then its members, with the weekend days between neighbours inserted; then the succeeding weekends. |
| AdjacentGrouping.WidenedRun | internal/commands/holiday/holidayProcessor.go:110-128 | For a run of consecutive days, the widened group is the preceding weekend block, then the run, then the succeeding weekend block, and the blocks touch the run's ends. Nothing is inserted between consecutive days. |
| AdjacentGrouping.LinkMembers | internal/commands/holiday/holidayProcessor.go:131-135 | The linking loop yields `Link` of the group. |
| AdjacentGrouping.LinkShares | internal/commands/holiday/holidayProcessor.go:131-135 | Linking keeps the length and every field except `Adjacent`. In a group of more than one entry, every member's `Adjacent` is the whole group; a single entry is left unchanged. |
| AdjacentGrouping.GroupAdjacentHolidays | internal/commands/holiday/holidayProcessor.go:80-140 | The method returns `GroupAdjacent`: the final groups of the runs, joined in order. |
| AdjacentGrouping.GroupAdjacentKeepsReal | internal/commands/holiday/holidayProcessor.go:80-140 | The non-weekend entries of the output, in order and with `Adjacent` set aside, are exactly those of the input. An empty input gives an empty output. |
| AdjacentGrouping.RealEntriesOfPlain | internal/commands/holiday/holidayProcessor.go:49-59 | Entries that are not weekend entries and have an empty `Adjacent` are their own real entries. |
| HolidayLookup.IsHoliday | internal/commands/holiday/functions.go:93-104 | True exactly when some record's date parses to the given day. Records that do not parse never match. |
| HolidayLookup.NextHoliday | internal/commands/holiday/functions.go:113-133 | A failed fetch gives `(nil, false)`. Otherwise the result is the first record in list order that parses and is after `date` or, unless skipToday, today; with skipWeekends it is not a weekend day. It is `nil` when no record qualifies. The flag says whether the result is today. |
| HolidayLookup.FilterMonth | internal/commands/holiday/functions.go:157-167 | The loop returns `OfMonth`: the records that parse to a day of the month, in input order. |
| HolidayLookup.OfMonthMembers | internal/commands/holiday/functions.go:157-167 | A record is kept exactly when it is in the input and parses to a day of the month. Each kept record occurs as often as in the input. |
| LargeHolidays.WeekendRecord | internal/commands/holiday/functions.go:210 | A made-up record has the day's text, type "Weekend" and the English weekday name. |
| LargeHolidays.DateMap | internal/commands/holiday/functions.go:185-188 | Each key of the map is the date of the record stored under it. |
| LargeHolidays.DateMapLastWins | internal/commands/holiday/functions.go:185-188 | The keys are the records' date texts. Under each key the map holds the last record with that text. |
| LargeHolidays.BuildDateMap | internal/commands/holiday/functions.go:185-188 | The loop builds `DateMap`. |
| LargeHolidays.BackStep | internal/commands/holiday/functions.go:202-215 | One turn of the backward scan either stops, with the scan's result established, or continues with the invariant kept and a smaller measure. |
| LargeHolidays.ScanBack | internal/commands/holiday/functions.go:201-215 | The backward scan terminates. It returns ascending days before the seed whose real entries were untaken. The taken set grows by exactly their dates. It stops either after prepending one made-up weekend day or at a Monday that is not an untaken holiday. Every holiday on a day it passed is taken, and every weekend day or Monday it passed was an untaken holiday. |
| LargeHolidays.ForwardStep | internal/commands/holiday/functions.go:218-229 | One turn of the forward scan either stops at a Friday, with the scan's result established, or continues with the invariant kept and a smaller measure. |
| LargeHolidays.ScanForward | internal/commands/holiday/functions.go:217-230 | The forward scan terminates. It returns ascending days after the seed whose real entries were untaken and whose made-up entries are weekend days. The taken set grows by exactly their dates. It stops at the first Friday that is not an untaken holiday. Every holiday on a day it passed is taken, every Friday it passed was an untaken holiday, and when it appended nothing it passed no weekend day. |
| LargeHolidays.GrowGroup | internal/commands/holiday/functions.go:196-230 | A group contains its seed, has strictly ascending days, and at most its first entry is made up before the seed. Its real entries are map records with pairwise distinct dates that were untaken, and the taken set grows by exactly their dates (`Grown`). The back stop is a weekend day made up as the first entry or a Monday before every entry. The forward stop is a Friday after every entry. Between the stops every holiday is taken. |
| LargeHolidays.WeekendAfterSeed | internal/commands/holiday/functions.go:218-226 | A group seeded on a Friday or a Saturday always has an entry after its seed, because the next day is a weekend day that the forward scan reaches before it stops. |
| LargeHolidays.GroupSorted | internal/commands/holiday/functions.go:185-237 | Every group has at least two entries and is grown from a record of the list. Groups come in strictly ascending order of their seeds. Their real entries are records of the list, and no two groups share a real date. For records sorted by date text that all parse, a record's date is in some group exactly when the record is not a lone holiday (`GroupsExactly`). |
| LargeHolidays.FrontierStep | internal/commands/holiday/functions.go:191-230 | For sorted records that all parse: after each group, the taken holidays are exactly those before the Friday where the forward scan stopped. |
| LargeHolidays.SingletonLone | internal/commands/holiday/functions.go:232-236 | A group that holds only its seed is dropped only when the seed is a lone holiday: a Tuesday, Wednesday or Thursday with no other holiday from the Friday before its week to the Friday of its week. |
| LargeHolidays.SeedNotLone | internal/commands/holiday/functions.go:201-236 | The seed of a kept group, one with two or more entries, is not a lone holiday. |
| LargeHolidays.AfterNotLone | internal/commands/holiday/functions.go:217-229 | A real entry taken by the forward scan is not a lone holiday. |
| LargeHolidays.CompleteKeep | internal/commands/holiday/functions.go:232-236 | Appending a group whose real entries are not lone holidays keeps every taken date either a real entry's or a lone holiday's. |
| LargeHolidays.LongWeekendGrouped | internal/commands/holiday/functions.go:173-176 | Under `GroupsExactly`, a holiday on a Friday, Saturday, Sunday or Monday is a real entry of some group. |
| LargeHolidays.NeighboursGrouped | internal/commands/holiday/functions.go:173-176 | Under `GroupsExactly`, for records that all parse, two holidays on consecutive days are both real entries of groups. |
| LargeHolidays.LargeHolidays | internal/commands/holiday/functions.go:178-240 | The caller's array is left sorted by date text and holds the same records, and the groups satisfy `Grouping`. When every record's date parses, the groups take in exactly the records that are not lone holidays. |
| LargeHolidays.AtMostOneGroup | internal/commands/holiday/functions.go:190-198 | Real entries at two different places, whether in two groups or in one, have different dates. |
| LargeHolidays.SeedDated | internal/commands/holiday/functions.go:199 | When the seed's text parses, every entry of a group carries the text of its own day. |
| LargeHolidays.GetAllHolidaysOfMonth | internal/commands/holiday/functions.go:151-172 | A failed fetch gives nothing and the error. Otherwise the month's records come back sorted by date text: the parseable records of the month, each as often as fetched. The groups satisfy `Grouping` and take in exactly the month's records that are not lone holidays. |
| NextLargeHoliday.GetNextLargeHoliday | internal/commands/holiday/nextLargeHoliday.go:18-33 | The result is one of the groups. It is the first group whose first record parses to a day after today or, when no group qualifies, the first group. |
| Holydays.IsHolyday | internal/helpers/holydays.go:74-86 | True exactly when some record's date parses to the given day. |
| Holydays.NextHolyday | internal/helpers/holydays.go:88-109 | A failed fetch gives `nil`. Otherwise the result is the first record in list order that parses and is after `date`, or on it unless skipToday. With skipWeekends it is never a Saturday or Sunday. It is `nil` when no record qualifies, and it never returns an unparseable record. |
| I18n.WeekdayTablesAgree | internal/helpers/i18n.go:12-20 | Each capitalised weekday name is the title-cased lower-case one, Sunday first. |
| I18n.MonthTablesAgree | internal/helpers/i18n.go:22-35 | Each capitalised month name is the title-cased `months[m-1]`. |
| I18n.FormatDayNumberValue | internal/helpers/i18n.go:60-65 | The text is "1ro" exactly for day 1. Any other day is written in decimal digits that read back as the day. |
| I18n.SpanishDateNames | internal/helpers/i18n.go:45-58 | The weekday and month words name the day's weekday and month, and the month word is `MonthsToSpanish`. `dayFormatted` is the title-cased weekday, ", ", the day number, " de " and the month. A four-digit year comes back as four digits. |
| I18n.UnparsedFormatsParsed | internal/helpers/i18n.go:37-44 | Unparseable text gives four empty strings. A formatted day gives exactly `FormatDateToSpanish` of that day. |
| I18n.FormatDateAgrees | internal/helpers/i18n.go:72-84 | A date text becomes "<Weekday> <day> de <Month>" from the capitalised tables, and never comes back unchanged. |
| Params.GetParams | internal/helpers/params.go:5-18 | The method returns `ParamsOf`: the top-level options other than sub-commands, read in order. |
| Params.ParamsOfLastWins | internal/helpers/params.go:7-16 | The keys are exactly the names of top-level options that are not sub-commands. Each maps to the value of the last such option with that name. |
| Params.NoOptionsNoParams | internal/helpers/params.go:6 | The map is empty exactly when every top-level option is a sub-command or sub-command group, including when there are none. |
| Params.NestedOptionsIgnored | internal/helpers/params.go:9-12 | Emptying every nested option list leaves the map unchanged. |
| BotConfig.SplitJoin | cmd/alum-bot/main.go:33 | Splitting gives one more piece than there are commas. No piece contains a comma, and joining the pieces with commas gives the text back. |
| BotConfig.JoinSplit | cmd/alum-bot/main.go:33 | Joining comma-free pieces and splitting the result gives the pieces back. |
| BotConfig.SplitIDs | cmd/alum-bot/main.go:29-34 | The result is empty exactly for the empty text. Otherwise it has commas+1 comma-free pieces that join back to the text. |
| BotConfig.GetToken | cmd/alum-bot/main.go:22-27 | The flag value when it is set, otherwise `DISCORD_TOKEN`. |
| BotConfig.GetTestGuildIDs | cmd/alum-bot/main.go:36-41 | When the flag is set, `splitIDs` of the flag: a non-empty list that joins back to it. Otherwise `splitIDs` of `TEST_GUILD_ID`. |
| BotConfig.GuildsToRegister | cmd/alum-bot/main.go:87-91 | The guild list is never empty: an empty list becomes `[""]` and any other list is kept. |

## Left out

**Outside the model entirely**
- `GetHolidays` and `GetHolydays` (the HTTP fetch and the `/tmp` file cache) are not part of this model. Their outcome is the `fetched` parameter.
- JSON decoding is modelled only as its outcome, a record list or an error.
- Discord is not part of this model: the session, the command handlers and the message rendering. Neither are `internal/messages/messages.go` and `internal/config/config.go`.
- `DaysLeft`, in both packages, is not part of this model. It reads the wall clock and rounds floating-point hours up with a three-hour offset.

**Time**
- Time zones and instants are reduced to calendar days.
  - The code parses the records in UTC but the grouping and the search in the local zone, and its `today` is local midnight.
  - The model compares days. `zone` stands in only for the RFC 3339 offset in `FullDate`.
- `DaysLeftToHoliday` is modelled as the day difference. This is what `math.Ceil` over the hours gives when both instants are midnights of one zone.
- `NextHoliday`, `NextHolyday`, `IsHoliday`, `IsHolyday` and `GetNextLargeHoliday` compare against instants: a time of day and `time.Now()`. The model compares days: a record is after `date` or `today` exactly when it is a later day. Their contracts are therefore stated for a `date` at midnight.

**Simplifications**
- The English names `Weekday().String()` and `Month().String()`, and the layout `"Monday, 2 January 2006"`, are written out. Other layouts of `time.Format` are not modelled.
- I18n.Title upper-cases only an ASCII first letter, which covers every word in the tables. Full Unicode title-casing (`cases.Title`) is not modelled.
- AdjacentGrouping.LinkShares states `Adjacent` by value. Every member gets the group as it was before linking. Go shares one slice among the members, which makes the structure cyclic; that aliasing is not modelled.
- Sorting.SortByKey claims only sortedness and a permutation, as `sort.Slice` does. The order of equal keys is not stated.

**Stated more weakly than the source, or only in part**
- NextLargeHoliday.GetNextLargeHoliday requires a non-empty list of non-empty groups, because Go would panic indexing `holidays[0]` or `holiday[0]`. A panic is not modelled.
- I18n.MonthsToSpanish requires a month in 1..12, where Go panics instead.
- LargeHolidays.GrowGroup reads a seed whose date does not parse as the zero date 0001-01-01, as the Go code does by ignoring the parse error. The group's other entries are still stated to carry their own days' text, but the seed's text is tied to its day only when it parses (LargeHolidays.SeedDated).
- LargeHolidays.ScanForward does not state that every weekend day it passes is in the group. It states that the made-up entries are weekend days and that every untaken holiday it passes is taken.
- LargeHolidays.GroupSorted states group order and disjointness through the real entries (`Real`). The made-up weekend records may repeat across groups, as in the source. Which records end up in groups (`GroupsExactly`) is stated only for records sorted by date text whose dates all parse. A record with an unparseable date seeds its scans from 0001-01-01, and the model does not characterise those groups beyond `Grouping`.
- HolidayProcessor.HolidaysProcessor does not claim that `All` is sorted when `adjacents` is set. It is not, when a real holiday falls on a weekend.
