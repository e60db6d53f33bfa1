/** The habit tracker service (habit_tracker.py): a store of habit rows and
    completion rows, the updates that insert into it and the queries that
    rebuild habits from it. */
module Tracker {
  import opened Wrappers
  import opened Text
  import opened Habits
  import opened Store

  /** The names `list_habits` treats as predefined habits. */
  const PredefinedHabitNames: set<string> :=
    {"Sleep at 10:30pm", "Eat one vegetable", "Read the bible", "Drink 4L of water", "Go to church"}

  /** What `create_habit` reports. */
  datatype CreateOutcome = Created | AlreadyExists

  /** The two lists `list_habits` shows. */
  datatype HabitListing = HabitListing(predefined: seq<HabitRow>, userCreated: seq<HabitRow>)

  /** The habit `longest_streak_of_all_habits` selects, with its streak. */
  datatype Selection = Selection(habit: HabitRow, streak: nat)

  /** The streak of the habit rebuilt from a row and the completion table. */
  function RowStreak(row: HabitRow, completions: seq<CompletionRow>): (r: Result<nat, StreakError>)
    ensures r.Failure? <==>
      && (exists k :: 0 <= k < |completions| && completions[k].habitId == row.id)
      && Lower(row.frequency) != "daily" && Lower(row.frequency) != "weekly"
  {
    CompletionsOfEmpty(completions, row.id);
    StreakOf(Lower(row.frequency), CompletionsOf(completions, row.id))
  }

  /** The streaks of all rows in order, or the error of the first row whose
      streak is undefined. */
  function Streaks(habits: seq<HabitRow>, completions: seq<CompletionRow>): (r: Result<seq<nat>, StreakError>)
    ensures r.Success? <==> forall i :: 0 <= i < |habits| ==> RowStreak(habits[i], completions).Success?
    ensures r.Success? ==> |r.value| == |habits|
    ensures r.Success? ==> forall i :: 0 <= i < |habits| ==> r.value[i] == RowStreak(habits[i], completions).value
  {
    if |habits| == 0 then Success([])
    else
      match RowStreak(habits[0], completions)
      case Failure(e) => Failure(e)
      case Success(s) =>
        match Streaks(habits[1..], completions)
        case Failure(e) => Failure(e)
        case Success(rest) =>
          assert forall i :: 1 <= i < |habits| ==> habits[i] == habits[1..][i - 1];
          Success([s] + rest)
  }

  /** Python's `max(xs)` over a non-empty sequence, as an index: scanning left
      to right and replacing the best only by a strictly larger value, so the
      first of several equal maxima is chosen. */
  function ArgMax(xs: seq<nat>): (k: nat)
    requires |xs| > 0
    ensures k < |xs|
    ensures forall j :: 0 <= j < |xs| ==> xs[j] <= xs[k]
    ensures forall j :: 0 <= j < k ==> xs[j] < xs[k]
  {
    if |xs| == 1 then 0
    else
      var k := ArgMax(xs[..|xs| - 1]);
      if xs[|xs| - 1] > xs[k] then |xs| - 1 else k
  }

  /** Streaks 1, 3 and 2 select the second habit. */
  lemma ArgMaxPicksLargest()
    ensures ArgMax([1, 3, 2]) == 1
  {
  }

  /** Equal streaks select the first habit. */
  lemma ArgMaxPrefersFirst()
    ensures ArgMax([2, 2]) == 0
  {
  }

  class HabitTracker {
    var habits: seq<HabitRow>
    var completions: seq<CompletionRow>

    /** The constraints the two tables keep: unique names, unique ids, and
        completions that refer to existing habits. */
    ghost predicate Valid()
      reads this
    {
      UniqueNames(habits) && UniqueIds(habits) && CompletionsReferToHabits(habits, completions)
    }

    /** Empty tables (`create_tables`; the demonstration seeding is not part
        of this model). */
    constructor ()
      ensures Valid()
      ensures habits == [] && completions == []
    {
      habits := [];
      completions := [];
    }

    /** Every habit row, in table order. */
    function GetHabits(): (rows: seq<HabitRow>)
      reads this
      ensures rows == habits
    {
      habits
    }

    /** Inserts a habit row with the frequency lower-cased and the creation
        date `now`, unless the name is taken, in which case nothing changes. */
    method CreateHabit(name: string, frequency: string, now: Timestamp) returns (outcome: CreateOutcome)
      requires Valid()
      modifies this
      ensures Valid()
      ensures outcome == (if Lookup(old(habits), name).None? then Created else AlreadyExists)
      ensures habits == if outcome == Created
                        then old(habits) + [NewHabitRow(old(habits), name, frequency, now)]
                        else old(habits)
      ensures completions == old(completions)
    {
      if Lookup(habits, name).Some? {
        return AlreadyExists;
      }
      CreateThenLookup(habits, completions, name, frequency, now);
      habits := habits + [NewHabitRow(habits, name, frequency, now)];
      outcome := Created;
    }

    /** Looks a habit up by exact name and rebuilds it: a fresh Habit from the
        row, with every completion row of that habit id added in table order.
        Null exactly when no row has that name. */
    method FindHabit(name: string) returns (habit: Habit?)
      ensures habit == null <==> Lookup(habits, name).None?
      ensures habit != null ==>
        var row := Lookup(habits, name).value;
        && fresh(habit)
        && habit.name == row.name
        && habit.frequency == Lower(row.frequency)
        && habit.creationDate == row.creationDate
        && habit.completions == CompletionsOf(completions, row.id)
    {
      var found := Lookup(habits, name);
      if found.None? {
        return null;
      }
      var row := found.value;
      habit := new Habit(row.name, row.frequency, row.creationDate);
      var k := 0;
      while k < |completions|
        invariant 0 <= k <= |completions|
        invariant habit.name == row.name && habit.frequency == Lower(row.frequency)
        invariant habit.creationDate == row.creationDate
        invariant habit.completions == CompletionsOf(completions[..k], row.id)
      {
        CompletionsOfAppend(completions[..k], completions[k], row.id);
        assert completions[..k + 1] == completions[..k] + [completions[k]];
        if completions[k].habitId == row.id {
          habit.AddCompletion(completions[k].completionDate);
        }
        k := k + 1;
      }
      assert completions[..k] == completions;
    }

    /** For an existing habit, appends one completion row with the time `now`
        under its id (and marks the rebuilt habit complete); for a missing one,
        writes nothing. The habit table never changes. */
    method CompleteHabit(name: string, now: Timestamp) returns (found: bool)
      requires Valid()
      modifies this
      ensures Valid()
      ensures found <==> Lookup(habits, name).Some?
      ensures habits == old(habits)
      ensures completions == if found
                             then old(completions) + [CompletionRow(Lookup(habits, name).value.id, now)]
                             else old(completions)
    {
      var habit := FindHabit(name);
      if habit == null {
        return false;
      }
      var habitId := Lookup(habits, name).value.id;
      ghost var i :| 0 <= i < |habits| && habits[i] == Lookup(habits, name).value;
      completions := completions + [CompletionRow(habitId, now)];
      habit.Complete(now);
      found := true;
    }

    /** The longest streak of the habit with that name: None when there is no
        such habit, otherwise the streak of the habit rebuilt from its row. */
    method LongestStreakForHabit(name: string) returns (r: Option<Result<nat, StreakError>>)
      ensures r.None? <==> Lookup(habits, name).None?
      ensures r.Some? ==> r.value == RowStreak(Lookup(habits, name).value, completions)
    {
      var habit := FindHabit(name);
      if habit == null {
        return None;
      }
      var s := habit.Streak();
      r := Some(s);
    }

    /** The habit with the longest streak and that streak: the first such row
        on ties, None for an empty table, and the error of the first habit
        whose streak is undefined (the source's exception). */
    function LongestStreakOfAllHabits(): (r: Result<Option<Selection>, StreakError>)
      reads this
      ensures r.Success? <==> forall i :: 0 <= i < |habits| ==> RowStreak(habits[i], completions).Success?
      ensures r.Success? ==> (r.value.None? <==> |habits| == 0)
      ensures r.Success? && r.value.Some? ==>
        exists i :: 0 <= i < |habits|
          && habits[i] == r.value.value.habit
          && RowStreak(habits[i], completions) == Success(r.value.value.streak)
          && (forall j :: 0 <= j < i ==> RowStreak(habits[j], completions).value < r.value.value.streak)
      ensures r.Success? && r.value.Some? ==>
        forall j :: 0 <= j < |habits| ==> RowStreak(habits[j], completions).value <= r.value.value.streak
    {
      var rows := GetHabits();
      match Streaks(rows, completions)
      case Failure(e) => Failure(e)
      case Success(streaks) =>
        if |streaks| == 0 then Success(None)
        else
          var k := ArgMax(streaks);
          Success(Some(Selection(rows[k], streaks[k])))
    }

    /** Splits the habit rows into predefined and user-created ones by name:
        both lists keep table order, each holds exactly the rows of its kind,
        and together they hold every row once. */
    function ListHabits(): (r: HabitListing)
      reads this
      ensures forall row :: row in r.predefined <==> row in habits && row.name in PredefinedHabitNames
      ensures forall row :: row in r.userCreated <==> row in habits && row.name !in PredefinedHabitNames
      ensures IsSubsequence(r.predefined, habits) && IsSubsequence(r.userCreated, habits)
      ensures multiset(r.predefined) + multiset(r.userCreated) == multiset(habits)
    {
      var isPredefined := (h: HabitRow) => h.name in PredefinedHabitNames;
      var isUserCreated := (h: HabitRow) => h.name !in PredefinedHabitNames;
      var rows := GetHabits();
      FilterPartition(rows, isPredefined, isUserCreated);
      HabitListing(Filter(rows, isPredefined), Filter(rows, isUserCreated))
    }

    /** The habit rows whose frequency equals `frequency` ignoring case, in
        table order. */
    function ListHabitsByFrequency(frequency: string): (r: seq<HabitRow>)
      reads this
      ensures forall row :: row in r <==> row in habits && Lower(row.frequency) == Lower(frequency)
      ensures forall row :: multiset(r)[row] ==
                if Lower(row.frequency) == Lower(frequency) then multiset(habits)[row] else 0
      ensures IsSubsequence(r, habits)
    {
      Filter(GetHabits(), (h: HabitRow) => Lower(h.frequency) == Lower(frequency))
    }
  }

  /** A client of the tracker, following the creation part of the test
      suite's scenario: a created habit is found under its name with the
      lower-cased frequency and no completions, and a second creation under the
      same name is refused. */
  method CreateFindScenario(now: Timestamp)
    returns (created: CreateOutcome, duplicate: CreateOutcome, frequency: string, before: seq<Timestamp>)
    ensures created == Created && duplicate == AlreadyExists
    ensures frequency == "daily" && before == []
  {
    var tracker := new HabitTracker();
    LowerOfLowerCase("daily");
    created := tracker.CreateHabit("Eat savory breakfast", "daily", now);
    assert |tracker.habits| == 1 && tracker.habits[0].name == "Eat savory breakfast";
    duplicate := tracker.CreateHabit("Eat savory breakfast", "weekly", now);
    var habit := tracker.FindHabit("Eat savory breakfast");
    frequency, before := habit.frequency, habit.completions;
  }

  /** A client of the tracker, following the completion part of the test
      suite's scenario: completing an existing habit is reported as found,
      completing a missing one writes nothing, and the rebuilt habit then has
      exactly the one completion. */
  method CompleteFindScenario(now: Timestamp) returns (found: bool, missing: bool, after: seq<Timestamp>)
    ensures found && !missing && after == [now]
  {
    var tracker := new HabitTracker();
    var created := tracker.CreateHabit("Water plants", "daily", now);
    var row := tracker.habits[0];
    assert tracker.habits == [row] && row.name == "Water plants";
    found := tracker.CompleteHabit("Water plants", now);
    assert tracker.completions == [CompletionRow(row.id, now)];
    missing := tracker.CompleteHabit("Feed the cat", now);
    var habit := tracker.FindHabit("Water plants");
    after := habit.completions;
  }

  /** The all-habits test: "Pray" (daily) completed today, two days ago and
      yesterday, and "Go to gym" (weekly) completed today and yesterday. The
      first habit is selected with streak 3. */
  lemma LongestStreakOfAllHabitsSelectsPray(tracker: HabitTracker, pray: HabitRow, gym: HabitRow,
                                            today: Timestamp, twoDaysAgo: Timestamp, yesterday: Timestamp,
                                            gymToday: Timestamp, gymYesterday: Timestamp)
    requires pray.id != gym.id && pray.frequency == "daily" && gym.frequency == "weekly"
    requires yesterday.day == twoDaysAgo.day + 1 && today.day == yesterday.day + 1
    requires tracker.habits == [pray, gym]
    requires tracker.completions == [CompletionRow(pray.id, today), CompletionRow(gym.id, gymToday),
                                     CompletionRow(pray.id, twoDaysAgo), CompletionRow(pray.id, yesterday),
                                     CompletionRow(gym.id, gymYesterday)]
    ensures tracker.LongestStreakOfAllHabits() == Success(Some(Selection(pray, 3)))
  {
    var comps := tracker.completions;
    LowerOfLowerCase("daily");
    LowerOfLowerCase("weekly");
    assert CompletionsOf(comps[4..], pray.id) == [] && CompletionsOf(comps[4..], gym.id) == [gymYesterday];
    assert CompletionsOf(comps[3..], pray.id) == [yesterday] && CompletionsOf(comps[3..], gym.id) == [gymYesterday];
    assert CompletionsOf(comps[2..], pray.id) == [twoDaysAgo, yesterday];
    assert CompletionsOf(comps[2..], gym.id) == [gymYesterday];
    assert CompletionsOf(comps[1..], gym.id) == [gymToday, gymYesterday];
    assert CompletionsOf(comps, pray.id) == [today, twoDaysAgo, yesterday];
    assert CompletionsOf(comps, gym.id) == [gymToday, gymYesterday];
    DailyStreakOfThreeConsecutiveDays(twoDaysAgo, yesterday, today);
    StreakOrderIndependent("daily", [today, twoDaysAgo, yesterday], [twoDaysAgo, yesterday, today]);
    assert RowStreak(pray, comps) == Success(3);
    StreakBounds("weekly", [gymToday, gymYesterday]);
    assert DistinctWeeks([gymToday, gymYesterday]) == {gymToday.isoWeek, gymYesterday.isoWeek};
    assert RowStreak(gym, comps).value <= 2;
    var streaks := Streaks(tracker.habits, comps);
    assert streaks.Success? && streaks.value[0] == 3 && streaks.value[1] <= 2;
  }
}
