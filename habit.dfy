/** A habit, its completion history and its streak (habit.py). */
module Habits {
  import opened Wrappers
  import opened Text
  import opened Sorting
  import opened Runs

  /** An ISO calendar week: its ISO year and its week number in that year. */
  datatype IsoWeek = IsoWeek(year: int, week: int)

  /** A completion instant, reduced to what the streak needs: the ordinal of
      its calendar day (`date()`), its ISO (year, week) (`isocalendar()[:2]`)
      and its time within the day. No calendar arithmetic is modelled: the
      three parts are given. */
  datatype Timestamp = Timestamp(day: int, isoWeek: IsoWeek, timeOfDay: int)

  /** The streak of a non-empty history whose frequency is neither "daily"
      nor "weekly" is never assigned (habit.py raises at its final return). */
  datatype StreakError = UnrecognisedFrequency(frequency: string)

  /** Calendar days in date order. */
  function DayBefore(a: int, b: int): bool {
    a < b
  }

  /** ISO weeks in the order of Python tuples: by year, then by week. */
  function WeekBefore(a: IsoWeek, b: IsoWeek): bool {
    a.year < b.year || (a.year == b.year && a.week < b.week)
  }

  lemma DayBeforeIsStrictTotalOrder()
    ensures StrictTotalOrder(DayBefore)
  {
  }

  lemma WeekBeforeIsStrictTotalOrder()
    ensures StrictTotalOrder(WeekBefore)
  {
  }

  /** Day b directly follows day a: the date difference is exactly one day. */
  function NextDay(a: int, b: int): (r: bool)
    ensures r ==> DayBefore(a, b)
  {
    b - a == 1
  }

  /** Week b directly follows week a: the next week of the same year, or week 1
      of the next year after week 52. Week 53 is not wrapped: ISO years of 53
      weeks are not taken into account. */
  function NextWeek(a: IsoWeek, b: IsoWeek): (r: bool)
    ensures r ==> WeekBefore(a, b)
  {
    (b.year == a.year && b.week == a.week + 1)
    || (b.year == a.year + 1 && a.week == 52 && b.week == 1)
  }

  function Days(cs: seq<Timestamp>): seq<int> {
    if |cs| == 0 then [] else [cs[0].day] + Days(cs[1..])
  }

  function Weeks(cs: seq<Timestamp>): seq<IsoWeek> {
    if |cs| == 0 then [] else [cs[0].isoWeek] + Weeks(cs[1..])
  }

  lemma {:induction false} DaysMembership(cs: seq<Timestamp>, d: int)
    ensures d in Days(cs) <==> exists c :: c in cs && c.day == d
  {
    if |cs| > 0 {
      DaysMembership(cs[1..], d);
      assert cs == [cs[0]] + cs[1..];
    }
  }

  lemma {:induction false} WeeksMembership(cs: seq<Timestamp>, w: IsoWeek)
    ensures w in Weeks(cs) <==> exists c :: c in cs && c.isoWeek == w
  {
    if |cs| > 0 {
      WeeksMembership(cs[1..], w);
      assert cs == [cs[0]] + cs[1..];
    }
  }

  /** The distinct calendar days of the completions. */
  ghost function DistinctDays(cs: seq<Timestamp>): set<int> {
    set c | c in cs :: c.day
  }

  /** The distinct ISO weeks of the completions. */
  ghost function DistinctWeeks(cs: seq<Timestamp>): set<IsoWeek> {
    set c | c in cs :: c.isoWeek
  }

  /** `sorted({comp.date() for comp in completions})`. */
  function DayKeys(cs: seq<Timestamp>): (r: seq<int>)
    ensures Increasing(r, DayBefore)
    ensures forall d :: d in r <==> d in DistinctDays(cs)
  {
    DayBeforeIsStrictTotalOrder();
    var r := SortUnique(Days(cs), DayBefore);
    forall d ensures d in r <==> d in DistinctDays(cs) {
      DaysMembership(cs, d);
    }
    r
  }

  /** `sorted({comp.isocalendar()[:2] for comp in completions})`. */
  function WeekKeys(cs: seq<Timestamp>): (r: seq<IsoWeek>)
    ensures Increasing(r, WeekBefore)
    ensures forall w :: w in r <==> w in DistinctWeeks(cs)
  {
    WeekBeforeIsStrictTotalOrder();
    var r := SortUnique(Weeks(cs), WeekBefore);
    forall w ensures w in r <==> w in DistinctWeeks(cs) {
      WeeksMembership(cs, w);
    }
    r
  }

  /** What `Habit.streak()` returns for a (lower-cased) frequency and a
      completion history. */
  function StreakOf(frequency: string, completions: seq<Timestamp>): (r: Result<nat, StreakError>)
    ensures r.Failure? <==> |completions| > 0 && frequency != "daily" && frequency != "weekly"
    ensures r.Success? && |completions| > 0 ==> r.value >= 1
  {
    if |completions| == 0 then Success(0)
    else if frequency == "daily" then Success(LongestRun(DayKeys(completions), NextDay))
    else if frequency == "weekly" then Success(LongestRun(WeekKeys(completions), NextWeek))
    else Failure(UnrecognisedFrequency(frequency))
  }

  /** No completions: streak 0, whatever the frequency. Otherwise the streak is
      defined exactly for "daily" and "weekly", and lies between 1 and the
      number of distinct days (daily) or distinct ISO weeks (weekly). */
  lemma StreakBounds(frequency: string, completions: seq<Timestamp>)
    ensures |completions| == 0 ==> StreakOf(frequency, completions) == Success(0)
    ensures |completions| > 0 ==>
      (StreakOf(frequency, completions).Success? <==> frequency == "daily" || frequency == "weekly")
    ensures |completions| > 0 && frequency == "daily" ==>
      1 <= StreakOf(frequency, completions).value <= |DistinctDays(completions)|
    ensures |completions| > 0 && frequency == "weekly" ==>
      1 <= StreakOf(frequency, completions).value <= |DistinctWeeks(completions)|
  {
    if |completions| > 0 {
      DayBeforeIsStrictTotalOrder();
      WeekBeforeIsStrictTotalOrder();
      var days := DayKeys(completions);
      var weeks := WeekKeys(completions);
      assert completions[0].day in DistinctDays(completions);
      assert completions[0].isoWeek in DistinctWeeks(completions);
      IncreasingCardinality(days, DayBefore);
      IncreasingCardinality(weeks, WeekBefore);
      assert (set y | y in days) == DistinctDays(completions);
      assert (set y | y in weeks) == DistinctWeeks(completions);
    }
  }

  /** The streak depends only on which completions there are, not on their
      order or on how often each is repeated. */
  lemma StreakOrderIndependent(frequency: string, a: seq<Timestamp>, b: seq<Timestamp>)
    requires forall c :: c in a <==> c in b
    ensures StreakOf(frequency, a) == StreakOf(frequency, b)
  {
    DayBeforeIsStrictTotalOrder();
    WeekBeforeIsStrictTotalOrder();
    if |a| > 0 {
      assert a[0] in b;
    }
    if |b| > 0 {
      assert b[0] in a;
    }
    assert DistinctDays(a) == DistinctDays(b);
    assert DistinctWeeks(a) == DistinctWeeks(b);
    IncreasingUnique(DayKeys(a), DayKeys(b), DayBefore);
    IncreasingUnique(WeekKeys(a), WeekKeys(b), WeekBefore);
  }

  /** A further completion on a day that already has one leaves the daily
      streak unchanged; one in a week that already has one leaves the weekly
      streak unchanged. */
  lemma StreakIgnoresRepeatedPeriod(frequency: string, completions: seq<Timestamp>, t: Timestamp)
    requires
      || (frequency == "daily" && exists c :: c in completions && c.day == t.day)
      || (frequency == "weekly" && exists c :: c in completions && c.isoWeek == t.isoWeek)
    ensures StreakOf(frequency, completions + [t]) == StreakOf(frequency, completions)
  {
    DayBeforeIsStrictTotalOrder();
    WeekBeforeIsStrictTotalOrder();
    var more := completions + [t];
    var c :| c in completions && (if frequency == "daily" then c.day == t.day else c.isoWeek == t.isoWeek);
    if frequency == "daily" {
      assert DistinctDays(more) == DistinctDays(completions);
      IncreasingUnique(DayKeys(more), DayKeys(completions), DayBefore);
    } else {
      assert DistinctWeeks(more) == DistinctWeeks(completions);
      IncreasingUnique(WeekKeys(more), WeekKeys(completions), WeekBefore);
    }
  }

  /** Consecutive days in the sorted day keys: a run of NextDay steps starting
      at keys[lo] holds the days keys[lo], keys[lo] + 1, ... */
  lemma {:induction false} DayRunIsInterval(keys: seq<int>, lo: int, hi: int)
    requires IsRun(keys, NextDay, lo, hi)
    ensures forall k :: lo <= k < hi ==> keys[k] == keys[lo] + (k - lo)
  {
    if hi - 1 > lo {
      assert NextDay(keys[hi - 2], keys[hi - 1]);
      DayRunIsInterval(keys, lo, hi - 1);
    }
  }

  /** Conversely, m consecutive days all among the increasing keys, the first
      at index lo, sit at indices lo .. lo + m - 1 and form a run. */
  lemma {:induction false} DayIntervalIsRun(keys: seq<int>, lo: int, m: int)
    requires Increasing(keys, DayBefore) && 0 <= lo < |keys| && m >= 1
    requires forall d :: keys[lo] <= d < keys[lo] + m ==> d in keys
    ensures lo + m <= |keys|
    ensures forall k :: lo <= k < lo + m ==> keys[k] == keys[lo] + (k - lo)
    ensures IsRun(keys, NextDay, lo, lo + m)
  {
    if m > 1 {
      DayIntervalIsRun(keys, lo, m - 1);
      var last := lo + m - 2;
      var d := keys[lo] + m - 1;
      assert d in keys;
      var p :| 0 <= p < |keys| && keys[p] == d;
      assert keys[last] == d - 1;
      assert p > last;
      assert DayBefore(keys[last], keys[last + 1]);
      assert p == last + 1;
    }
  }

  /** Every day from `first` to `first + m - 1` has a completion. */
  ghost predicate AllDaysCompleted(cs: seq<Timestamp>, first: int, m: int) {
    forall d :: first <= d < first + m ==> d in DistinctDays(cs)
  }

  /** The daily streak in calendar terms: some `streak` consecutive days all
      have a completion, and no longer stretch of consecutive days does. */
  lemma DailyStreakIsLongestStretchOfDays(completions: seq<Timestamp>)
    requires |completions| > 0
    ensures StreakOf("daily", completions).Success?
    ensures exists first :: AllDaysCompleted(completions, first, StreakOf("daily", completions).value)
    ensures forall first, m :: AllDaysCompleted(completions, first, m)
                               ==> m <= StreakOf("daily", completions).value
  {
    var keys := DayKeys(completions);
    var n := StreakOf("daily", completions).value;
    assert completions[0].day in DistinctDays(completions);
    LongestRunIsLongest(keys, NextDay);
    var lo, hi :| IsRun(keys, NextDay, lo, hi) && hi - lo == n;
    DayRunIsInterval(keys, lo, hi);
    forall d | keys[lo] <= d < keys[lo] + n ensures d in DistinctDays(completions) {
      assert keys[lo + (d - keys[lo])] == d;
    }
    assert AllDaysCompleted(completions, keys[lo], n);
    forall first, m | AllDaysCompleted(completions, first, m) ensures m <= n {
      if m >= 1 {
        assert first in DistinctDays(completions);
        assert first in keys;
        var i :| 0 <= i < |keys| && keys[i] == first;
        DayIntervalIsRun(keys, i, m);
      }
    }
  }

  /** The weekly streak is the length of a longest run of consecutive ISO weeks
      (by NextWeek) among the distinct weeks in order. */
  lemma WeeklyStreakIsLongestRunOfWeeks(completions: seq<Timestamp>)
    requires |completions| > 0
    ensures StreakOf("weekly", completions).Success?
    ensures exists lo, hi :: IsRun(WeekKeys(completions), NextWeek, lo, hi)
                             && hi - lo == StreakOf("weekly", completions).value
    ensures forall lo, hi :: IsRun(WeekKeys(completions), NextWeek, lo, hi)
                             ==> hi - lo <= StreakOf("weekly", completions).value
  {
    assert completions[0].isoWeek in DistinctWeeks(completions);
    LongestRunIsLongest(WeekKeys(completions), NextWeek);
  }

  /** Completions on three consecutive days, in any order of addition, give a
      daily streak of 3. */
  lemma DailyStreakOfThreeConsecutiveDays(t0: Timestamp, t1: Timestamp, t2: Timestamp)
    requires t1.day == t0.day + 1 && t2.day == t1.day + 1
    ensures StreakOf("daily", [t0, t1, t2]) == Success(3)
  {
    var keys := [t0.day, t1.day, t2.day];
    DayBeforeIsStrictTotalOrder();
    assert DistinctDays([t0, t1, t2]) == {t0.day, t1.day, t2.day};
    IncreasingUnique(DayKeys([t0, t1, t2]), keys, DayBefore);
    assert RunEndingAt(keys, NextDay, 2) == 3;
  }

  /** Two completions five days apart give a daily streak of 1. */
  lemma DailyStreakAfterGap(t0: Timestamp, t1: Timestamp)
    requires t1.day == t0.day + 5
    ensures StreakOf("daily", [t0, t1]) == Success(1)
  {
    var keys := [t0.day, t1.day];
    DayBeforeIsStrictTotalOrder();
    assert DistinctDays([t0, t1]) == {t0.day, t1.day};
    IncreasingUnique(DayKeys([t0, t1]), keys, DayBefore);
    assert RunEndingAt(keys, NextDay, 1) == 1;
  }

  /** Three successive ISO weeks give a weekly streak of 3. */
  lemma WeeklyStreakOfThreeConsecutiveWeeks(t0: Timestamp, t1: Timestamp, t2: Timestamp)
    requires NextWeek(t0.isoWeek, t1.isoWeek) && NextWeek(t1.isoWeek, t2.isoWeek)
    ensures StreakOf("weekly", [t0, t1, t2]) == Success(3)
  {
    var keys := [t0.isoWeek, t1.isoWeek, t2.isoWeek];
    WeekBeforeIsStrictTotalOrder();
    assert DistinctWeeks([t0, t1, t2]) == {t0.isoWeek, t1.isoWeek, t2.isoWeek};
    assert Increasing(keys, WeekBefore);
    IncreasingUnique(WeekKeys([t0, t1, t2]), keys, WeekBefore);
    assert RunEndingAt(keys, NextWeek, 2) == 3;
  }

  /** Week 52 of one year followed by week 1 of the next extends the run. */
  lemma WeeklyStreakWrapsAfterWeek52(t0: Timestamp, t1: Timestamp, year: int)
    requires t0.isoWeek == IsoWeek(year, 52) && t1.isoWeek == IsoWeek(year + 1, 1)
    ensures StreakOf("weekly", [t0, t1]) == Success(2)
  {
    var keys := [t0.isoWeek, t1.isoWeek];
    WeekBeforeIsStrictTotalOrder();
    assert DistinctWeeks([t0, t1]) == {t0.isoWeek, t1.isoWeek};
    IncreasingUnique(WeekKeys([t0, t1]), keys, WeekBefore);
    assert RunEndingAt(keys, NextWeek, 1) == 2;
  }

  /** Week 53 of one year followed by week 1 of the next does not extend the
      run: the year wrap is hard-wired to week 52. */
  lemma WeeklyStreakBreaksAfterWeek53(t0: Timestamp, t1: Timestamp, year: int)
    requires t0.isoWeek == IsoWeek(year, 53) && t1.isoWeek == IsoWeek(year + 1, 1)
    ensures StreakOf("weekly", [t0, t1]) == Success(1)
  {
    var keys := [t0.isoWeek, t1.isoWeek];
    WeekBeforeIsStrictTotalOrder();
    assert DistinctWeeks([t0, t1]) == {t0.isoWeek, t1.isoWeek};
    IncreasingUnique(WeekKeys([t0, t1]), keys, WeekBefore);
    assert RunEndingAt(keys, NextWeek, 1) == 1;
  }

  /** A habit and its completion history. The completion list is appended to
      in place. */
  class Habit {
    var name: string
    var frequency: string
    var creationDate: Timestamp
    var completions: seq<Timestamp>

    /** The frequency is stored lower-cased and the history starts empty. The
        creation date defaults to the current time in the source: the caller
        passes that time here. */
    constructor (name: string, frequency: string, creationDate: Timestamp)
      ensures this.name == name
      ensures this.frequency == Lower(frequency)
      ensures this.creationDate == creationDate
      ensures completions == []
    {
      this.name := name;
      this.frequency := Lower(frequency);
      this.creationDate := creationDate;
      completions := [];
    }

    /** Appends one completion; nothing else changes. */
    method AddCompletion(dateTime: Timestamp)
      modifies this
      ensures completions == old(completions) + [dateTime]
      ensures name == old(name) && frequency == old(frequency) && creationDate == old(creationDate)
    {
      completions := completions + [dateTime];
    }

    /** Appends a completion at the current time `now`; nothing else changes. */
    method Complete(now: Timestamp)
      modifies this
      ensures completions == old(completions) + [now]
      ensures name == old(name) && frequency == old(frequency) && creationDate == old(creationDate)
    {
      completions := completions + [now];
    }

    /** The longest streak: walks the sorted distinct periods, counting the
        current run and the longest run seen. */
    method Streak() returns (r: Result<nat, StreakError>)
      ensures r == StreakOf(frequency, completions)
    {
      if |completions| == 0 {
        return Success(0);
      }
      if frequency == "daily" {
        var uniqueDates := DayKeys(completions);
        assert completions[0].day in DistinctDays(completions);
        var streak, longestStreak := 1, 1;
        for i := 1 to |uniqueDates|
          invariant streak == RunEndingAt(uniqueDates, NextDay, i - 1)
          invariant longestStreak == LongestRunIn(uniqueDates, NextDay, i)
        {
          if uniqueDates[i] - uniqueDates[i - 1] == 1 {
            streak := streak + 1;
            longestStreak := Max(longestStreak, streak);
          } else {
            streak := 1;
          }
        }
        r := Success(longestStreak);
      } else if frequency == "weekly" {
        var uniqueWeeks := WeekKeys(completions);
        assert completions[0].isoWeek in DistinctWeeks(completions);
        var streak, longestStreak := 1, 1;
        for i := 1 to |uniqueWeeks|
          invariant streak == RunEndingAt(uniqueWeeks, NextWeek, i - 1)
          invariant longestStreak == LongestRunIn(uniqueWeeks, NextWeek, i)
        {
          var prev, curr := uniqueWeeks[i - 1], uniqueWeeks[i];
          if (curr.year == prev.year && curr.week == prev.week + 1)
             || (curr.year == prev.year + 1 && prev.week == 52 && curr.week == 1)
          {
            streak := streak + 1;
            longestStreak := Max(longestStreak, streak);
          } else {
            streak := 1;
          }
        }
        r := Success(longestStreak);
      } else {
        r := Failure(UnrecognisedFrequency(frequency));
      }
    }
  }
}
