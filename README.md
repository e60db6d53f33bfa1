# Habit tracker: streaks and the habit store

A Dafny model of the core of a small Python habit tracker. A habit has a
name, a lower-cased frequency (`daily` or `weekly`), a creation date and a
list of completion timestamps. Its *streak* is the longest run of
consecutive periods (days, or ISO weeks) among its completions. The tracker
service stores habits and completions in two tables, rebuilds a habit from
them by name, appends completions, lists habits and selects the habit with
the longest streak.

Files, one module each:

- `wrappers.dfy` (`Wrappers`): `Option` and `Result`.
- `text.dfy` (`Text`): lower-casing of strings.
- `sorting.dfy` (`Sorting`): `sorted(set(xs))` for a strict total order, and
  the fact that only one increasing sequence has a given set of elements.
- `runs.dfy` (`Runs`): the two counters of the streak loop as functions
  (`RunEndingAt`, `LongestRunIn`), and their meaning as the longest run of
  successive keys (`IsRun`).
- `habit.dfy` (`Habits`): timestamps, the day and week keys, the two
  successor rules, `StreakOf`, its properties, and the class `Habit` whose
  methods append to the completion list and whose `Streak` method runs the
  source's two loops.
- `store.dfy` (`Store`): habit rows and completion rows, look-up by name,
  the completions of one habit, the id of a new row, filters.
- `habit_tracker.dfy` (`Tracker`): the class `HabitTracker` holding the two
  tables, with the tracker's operations.

Modelling choices:

- A timestamp is a record of its calendar-day ordinal, its ISO (year, week)
  pair and its time within the day. The daily rule "the dates differ by one
  day" becomes "the ordinals differ by 1". Calendar arithmetic is not
  modelled.
- Frequency stays a string, as in the source, which stores whatever the user
  typed, lower-cased. The streak of a habit with no completions is 0 for
  every frequency, because the source tests for emptiness first. A non-empty
  history with a frequency other than `daily` or `weekly` reaches the final
  `return longest_streak` with that variable never assigned, so Python raises
  an error there. The model returns `Failure(UnrecognisedFrequency(..))` in
  that case. The class documentation (habit.py, line 13) names only `daily`
  and `weekly`, but no code rejects other values, and the model follows the
  code.
- The weekly year wrap is exactly the source's: week 52 followed by week 1
  of the next year. A 53-week ISO year breaks the run
  (`WeeklyStreakBreaksAfterWeek53`).
- The SQLite database becomes two sequences in a `HabitTracker` object. Row
  ids follow SQLite's rule for an `INTEGER PRIMARY KEY`: one more than the
  largest id, 1 in an empty table. `Valid()` holds the `UNIQUE` name
  constraint and the primary key. It also holds that every completion row
  refers to an existing habit. The tracker's own operations keep that last
  invariant; SQLite does not enforce the foreign key by default.
- The current time is a parameter (`now`) of every operation that reads the
  clock. `Habit`'s constructor takes the creation date directly: the source
  uses the current time only when none is given, so such a caller passes
  `now`.
- Results that the source prints are return values: `CreateOutcome`, a
  `Habit?` that is null when not found, a `HabitListing`, a `Selection`.

## Model

| member | source | states |
|---|---|---|
| Text.Lower | OOFPP_Habits_Phase3/Habit_Tracker_Code/habit.py:29 | the lower-cased frequency has the same length, each upper-case letter replaced by its lower-case letter, every other character unchanged, and no upper-case letter left |
| Text.LowerOfCapitalised | OOFPP_Habits_Phase3/Habit_Tracker_Code/habit_tracker.py:184 | "Daily" is stored as "daily" and "WEEKLY" as "weekly" |
| Text.LowerOfLowerCase | OOFPP_Habits_Phase3/Habit_Tracker_Code/test_habit_tracker.py:7-12 | a string that is already lower-case, such as "daily", is stored as it is |
| Text.LowerIdempotent | OOFPP_Habits_Phase3/Habit_Tracker_Code/habit_tracker.py:165 | lower-casing the stored, already lower-cased frequency again when rebuilding a habit changes nothing |
| Sorting.Insert | OOFPP_Habits_Phase3/Habit_Tracker_Code/habit.py:65 | inserting a key into an increasing sequence keeps it increasing, adds the key, and drops it if already present |
| Sorting.SortUnique | OOFPP_Habits_Phase3/Habit_Tracker_Code/habit.py:65 | `sorted({...})`: a strictly increasing sequence holding exactly the elements of the input |
| Sorting.IncreasingUnique | OOFPP_Habits_Phase3/Habit_Tracker_Code/habit.py:76 | two strictly increasing sequences with the same elements are equal, so the sorted keys depend only on the set of keys |
| Sorting.IncreasingCardinality | OOFPP_Habits_Phase3/Habit_Tracker_Code/habit.py:65 | the sorted distinct keys are as many as the distinct keys |
| Runs.RunEndingAt | OOFPP_Habits_Phase3/Habit_Tracker_Code/habit.py:66-73 | the current-run counter after key i lies between 1 and i + 1 |
| Runs.LongestRunIn | OOFPP_Habits_Phase3/Habit_Tracker_Code/habit.py:67-71 | the longest-run counter after n keys lies between 1 and n |
| Runs.LongestRun | OOFPP_Habits_Phase3/Habit_Tracker_Code/habit.py:66-73 | for non-empty keys the longest run lies between 1 and the number of keys |
| Runs.RunEndingAtIsRun | OOFPP_Habits_Phase3/Habit_Tracker_Code/habit.py:69-73 | the keys the current-run counter counts really are successive |
| Runs.RunEndingAtIsLongest | OOFPP_Habits_Phase3/Habit_Tracker_Code/habit.py:72-73 | no run ending at a key is longer than the counter there: a broken step resets the count |
| Runs.LongestRunInIsMaximum | OOFPP_Habits_Phase3/Habit_Tracker_Code/habit.py:71 | the longest-run counter is the maximum of the current-run counter over the keys seen, and is attained |
| Runs.LongestRunIsLongest | OOFPP_Habits_Phase3/Habit_Tracker_Code/habit.py:66-73 | some run of successive keys has the returned length and no run is longer |
| Runs.LongestRunInMonotone | OOFPP_Habits_Phase3/Habit_Tracker_Code/habit.py:86 | the longest run seen never decreases as the loop goes on |
| Habits.DaysMembership | OOFPP_Habits_Phase3/Habit_Tracker_Code/habit.py:65 | a day is among the projected days exactly when some completion falls on it |
| Habits.WeeksMembership | OOFPP_Habits_Phase3/Habit_Tracker_Code/habit.py:76 | an ISO week is among the projected weeks exactly when some completion falls in it |
| Habits.DayBeforeIsStrictTotalOrder | OOFPP_Habits_Phase3/Habit_Tracker_Code/habit.py:65 | dates are totally ordered, so sorting them is defined |
| Habits.WeekBeforeIsStrictTotalOrder | OOFPP_Habits_Phase3/Habit_Tracker_Code/habit.py:76 | (year, week) tuples are totally ordered, year first |
| Habits.NextDay | OOFPP_Habits_Phase3/Habit_Tracker_Code/habit.py:69 | a date one day after another comes later in date order |
| Habits.NextWeek | OOFPP_Habits_Phase3/Habit_Tracker_Code/habit.py:83-84 | a week that follows another by the week+1 or 52-to-1 rule comes later in (year, week) order |
| Habits.DayKeys | OOFPP_Habits_Phase3/Habit_Tracker_Code/habit.py:65 | the daily keys are increasing and are exactly the distinct completion days |
| Habits.WeekKeys | OOFPP_Habits_Phase3/Habit_Tracker_Code/habit.py:76 | the weekly keys are increasing and are exactly the distinct ISO weeks |
| Habits.StreakOf | OOFPP_Habits_Phase3/Habit_Tracker_Code/habit.py:61-90 | an error exactly for a non-empty history whose frequency is neither daily nor weekly; a defined streak of a non-empty history is at least 1 |
| Habits.StreakBounds | OOFPP_Habits_Phase3/Habit_Tracker_Code/habit.py:61-90 | no completions gives 0 for any frequency; otherwise the streak is defined exactly for daily and weekly and lies between 1 and the number of distinct days or distinct ISO weeks |
| Habits.StreakOrderIndependent | OOFPP_Habits_Phase3/Habit_Tracker_Code/habit.py:65-76 | two histories with the same completions, in any order and with any repetition, have the same streak |
| Habits.StreakIgnoresRepeatedPeriod | OOFPP_Habits_Phase3/Habit_Tracker_Code/habit.py:65-76 | adding a completion on a day (daily) or in a week (weekly) that already has one leaves the streak unchanged |
| Habits.DayRunIsInterval | OOFPP_Habits_Phase3/Habit_Tracker_Code/habit.py:69 | a run of one-day steps in the sorted dates is a stretch of consecutive days |
| Habits.DayIntervalIsRun | OOFPP_Habits_Phase3/Habit_Tracker_Code/habit.py:69 | a stretch of consecutive completed days appears as a run of one-day steps in the sorted dates |
| Habits.DailyStreakIsLongestStretchOfDays | OOFPP_Habits_Phase3/Habit_Tracker_Code/habit.py:64-73 | the daily streak is the length of a longest stretch of consecutive calendar days that all have a completion |
| Habits.WeeklyStreakIsLongestRunOfWeeks | OOFPP_Habits_Phase3/Habit_Tracker_Code/habit.py:75-88 | the weekly streak is the length of a longest run of successive ISO weeks, under the week+1 and 52-to-1 rules |
| Habits.DailyStreakOfThreeConsecutiveDays | OOFPP_Habits_Phase3/Habit_Tracker_Code/test_habit_tracker.py:25-30 | completions on days d, d+1, d+2 give streak 3 |
| Habits.DailyStreakAfterGap | OOFPP_Habits_Phase3/Habit_Tracker_Code/habit.py:72-73 | completions five days apart give streak 1 |
| Habits.WeeklyStreakOfThreeConsecutiveWeeks | OOFPP_Habits_Phase3/Habit_Tracker_Code/test_habit_tracker.py:32-37 | three successive ISO weeks give weekly streak 3 |
| Habits.WeeklyStreakWrapsAfterWeek52 | OOFPP_Habits_Phase3/Habit_Tracker_Code/habit.py:83-86 | week 52 of year Y and week 1 of Y+1 give weekly streak 2 |
| Habits.WeeklyStreakBreaksAfterWeek53 | OOFPP_Habits_Phase3/Habit_Tracker_Code/habit.py:83-88 | week 53 of year Y and week 1 of Y+1 give weekly streak 1 |
| Habits.Habit.constructor | OOFPP_Habits_Phase3/Habit_Tracker_Code/habit.py:18-31 | name and creation date as given, frequency lower-cased, no completions |
| Habits.Habit.AddCompletion | OOFPP_Habits_Phase3/Habit_Tracker_Code/habit.py:33-40 | appends exactly the given timestamp at the end; name, frequency and creation date unchanged |
| Habits.Habit.Complete | OOFPP_Habits_Phase3/Habit_Tracker_Code/habit.py:42-48 | appends exactly the current time at the end; name, frequency and creation date unchanged |
| Habits.Habit.Streak | OOFPP_Habits_Phase3/Habit_Tracker_Code/habit.py:51-90 | the two loops compute `StreakOf` of the habit's frequency and completions, whose meaning the lemmas above state |
| Store.Lookup | OOFPP_Habits_Phase3/Habit_Tracker_Code/habit_tracker.py:162-163 | None exactly when no row has that exact name; otherwise a row of the table with that name |
| Store.LookupFindsRow | OOFPP_Habits_Phase3/Habit_Tracker_Code/habit_tracker.py:130 | with unique names, looking up a row's name finds that row, so the per-row look-up in the all-habits query rebuilds that row |
| Store.CompletionsOf | OOFPP_Habits_Phase3/Habit_Tracker_Code/habit_tracker.py:166-169 | the rebuilt history has at most one date per completion row |
| Store.CompletionsOfCounts | OOFPP_Habits_Phase3/Habit_Tracker_Code/habit_tracker.py:166-169 | each date occurs in the rebuilt history exactly as often as that habit's completion row with that date, duplicates included |
| Store.CompletionsOfAppend | OOFPP_Habits_Phase3/Habit_Tracker_Code/habit_tracker.py:204-205 | a new completion row extends its own habit's history by its date at the end and leaves every other habit's history unchanged |
| Store.CompletionsOfUnused | OOFPP_Habits_Phase3/Habit_Tracker_Code/habit_tracker.py:166 | an id no completion row refers to has an empty history |
| Store.CompletionsOfEmpty | OOFPP_Habits_Phase3/Habit_Tracker_Code/habit_tracker.py:166-169 | a habit's rebuilt history is empty exactly when no completion row carries its id |
| Store.NextId | OOFPP_Habits_Phase3/Habit_Tracker_Code/habit_tracker.py:35 | a new row's id is at least 1 and larger than every id in use |
| Store.NewHabitRow | OOFPP_Habits_Phase3/Habit_Tracker_Code/habit_tracker.py:183-184 | the inserted row has an id no existing row has, the given name, the lower-cased frequency and creation date now |
| Store.CreateThenLookup | OOFPP_Habits_Phase3/Habit_Tracker_Code/habit_tracker.py:183-185 | inserting under a fresh name keeps the constraints, the name then finds the new row with the lower-cased frequency, and its history is empty |
| Store.Filter | OOFPP_Habits_Phase3/Habit_Tracker_Code/habit_tracker.py:96-97 | keeps the rows satisfying the condition, each as often as in the input, drops every other row, and keeps their order |
| Store.FilterPartition | OOFPP_Habits_Phase3/Habit_Tracker_Code/habit_tracker.py:96-97 | the rows that satisfy a condition and those that do not together are all rows, each once |
| Tracker.RowStreak | OOFPP_Habits_Phase3/Habit_Tracker_Code/habit_tracker.py:130 | the streak of the habit rebuilt from a row is an error exactly when the row has a completion and its lower-cased frequency is neither daily nor weekly |
| Tracker.Streaks | OOFPP_Habits_Phase3/Habit_Tracker_Code/habit_tracker.py:130 | the streak of every rebuilt habit in table order, or an error exactly when some streak is undefined |
| Tracker.ArgMax | OOFPP_Habits_Phase3/Habit_Tracker_Code/habit_tracker.py:131 | Python's `max` with a key: an index of a largest value, and no earlier index holds that value |
| Tracker.ArgMaxPicksLargest | OOFPP_Habits_Phase3/Habit_Tracker_Code/habit_tracker.py:131 | streaks 1, 3, 2 select the second habit, the one with the largest streak |
| Tracker.ArgMaxPrefersFirst | OOFPP_Habits_Phase3/Habit_Tracker_Code/habit_tracker.py:131 | equal streaks select the first habit |
| Tracker.HabitTracker.constructor | OOFPP_Habits_Phase3/Habit_Tracker_Code/habit_tracker.py:29-44 | two empty tables satisfying the constraints |
| Tracker.HabitTracker.GetHabits | OOFPP_Habits_Phase3/Habit_Tracker_Code/habit_tracker.py:78-87 | exactly the habit table, in table order |
| Tracker.HabitTracker.CreateHabit | OOFPP_Habits_Phase3/Habit_Tracker_Code/habit_tracker.py:173-187 | a fresh name adds exactly one row with the next id, the lower-cased frequency and creation date now; a taken name changes nothing and reports it; completions never change |
| Tracker.HabitTracker.FindHabit | OOFPP_Habits_Phase3/Habit_Tracker_Code/habit_tracker.py:151-171 | null exactly when no row has the name; otherwise a new habit with the row's name, lower-cased frequency, creation date, and exactly that id's completion dates in table order |
| Tracker.HabitTracker.CompleteHabit | OOFPP_Habits_Phase3/Habit_Tracker_Code/habit_tracker.py:189-208 | an existing name gets exactly one completion row with its id and now appended; a missing name writes nothing; habit rows never change |
| Tracker.HabitTracker.LongestStreakForHabit | OOFPP_Habits_Phase3/Habit_Tracker_Code/habit_tracker.py:138-149 | not found exactly when no row has the name; otherwise the streak of the habit rebuilt from that row |
| Tracker.HabitTracker.LongestStreakOfAllHabits | OOFPP_Habits_Phase3/Habit_Tracker_Code/habit_tracker.py:125-136 | nothing selected exactly for an empty table; otherwise a habit whose streak is at least every other's and larger than every earlier one's; an error exactly when some habit's streak is undefined |
| Tracker.HabitTracker.ListHabits | OOFPP_Habits_Phase3/Habit_Tracker_Code/habit_tracker.py:89-110 | predefined and user-created lists hold exactly the rows of their kind, keep table order, and together hold every row once |
| Tracker.HabitTracker.ListHabitsByFrequency | OOFPP_Habits_Phase3/Habit_Tracker_Code/habit_tracker.py:112-123 | the rows whose frequency equals the argument ignoring case, each as often as in the table, no other row, in table order |
| Tracker.LongestStreakOfAllHabitsSelectsPray | OOFPP_Habits_Phase3/Habit_Tracker_Code/test_habit_tracker.py:93-145 | with Pray completed today, two days ago and yesterday and Go to gym completed twice, the all-habits query selects Pray with streak 3 |
| Tracker.CreateFindScenario | OOFPP_Habits_Phase3/Habit_Tracker_Code/test_habit_tracker.py:49-54 | a created habit is found with its name and frequency daily and no completions; creating the same name again is refused |
| Tracker.CompleteFindScenario | OOFPP_Habits_Phase3/Habit_Tracker_Code/test_habit_tracker.py:56-60 | completing the created habit is reported, completing a missing habit writes nothing, and the rebuilt habit has exactly one completion |

## Left out

- SQLite itself: the connection, `CREATE TABLE`, cursors, transactions and closing the connection on deletion. Two sequences in an object stand for the tables.
- `add_predefined_habits`: demonstration seeding that depends on `random.choice` and the clock. The constructor starts with empty tables.
- The clock: `datetime.now()` is a parameter `now`. `complete_habit` reads the clock twice, once for the stored row and once inside `Habit.complete()`. The model passes the same `now` to both; the second value in the source only reaches the discarded habit object and the printed message.
- Date parsing and formatting (`isoformat`, `fromisoformat`, `strftime`, `isocalendar`, `date()`): a timestamp carries its day ordinal and ISO week directly, and a stored completion date reads back as the value that was written.
- All printed messages and the interactive menu loop.
- `list_habits_by_frequency` prints each matching habit after looking it up again by name. The model returns the matching rows. `LookupFindsRow` shows that the second look-up finds the same row.
- Text.Lower: lower-cases ASCII letters only, because Python's `str.lower()` applies full Unicode case mapping, which the model does not include.
- Row order: SQL queries without `ORDER BY` are taken to return rows in insertion order. Streaks do not depend on that order (`StreakOrderIndependent`).
- Habits.Habit.Complete: does not model the printed confirmation message.
