/** The two tables the tracker keeps (habits and completions) as values, and
    the queries and updates on them (habit_tracker.py over SQLite). */
module Store {
  import opened Wrappers
  import opened Habits

  /** A row of the `habits` table: id, name, frequency, creation date. */
  datatype HabitRow = HabitRow(id: int, name: string, frequency: string, creationDate: Timestamp)

  /** A row of the `completions` table: the habit's id and a completion date. */
  datatype CompletionRow = CompletionRow(habitId: int, completionDate: Timestamp)

  /** The `UNIQUE` constraint on `habits.name`. */
  ghost predicate UniqueNames(habits: seq<HabitRow>) {
    forall i, j :: 0 <= i < j < |habits| ==> habits[i].name != habits[j].name
  }

  /** The `PRIMARY KEY` constraint on `habits.id`. */
  ghost predicate UniqueIds(habits: seq<HabitRow>) {
    forall i, j :: 0 <= i < j < |habits| ==> habits[i].id != habits[j].id
  }

  /** Every completion row refers to an existing habit row. */
  ghost predicate CompletionsReferToHabits(habits: seq<HabitRow>, completions: seq<CompletionRow>) {
    forall k :: 0 <= k < |completions| ==> exists i :: 0 <= i < |habits| && habits[i].id == completions[k].habitId
  }

  /** `SELECT ... FROM habits WHERE name = ?` followed by `fetchone()`: the first
      row with exactly that name, or None when there is none. */
  function Lookup(habits: seq<HabitRow>, name: string): (r: Option<HabitRow>)
    ensures r.None? <==> forall i :: 0 <= i < |habits| ==> habits[i].name != name
    ensures r.Some? ==> r.value in habits && r.value.name == name
  {
    if |habits| == 0 then None
    else if habits[0].name == name then Some(habits[0])
    else Lookup(habits[1..], name)
  }

  /** With unique names, looking up a row's name finds that very row. */
  lemma LookupFindsRow(habits: seq<HabitRow>, i: int)
    requires UniqueNames(habits) && 0 <= i < |habits|
    ensures Lookup(habits, habits[i].name) == Some(habits[i])
  {
  }

  /** `SELECT completion_date FROM completions WHERE habit_id = ?`: the dates
      of that habit's completion rows, in table order, duplicates included. */
  function CompletionsOf(completions: seq<CompletionRow>, id: int): (r: seq<Timestamp>)
    ensures |r| <= |completions|
  {
    if |completions| == 0 then []
    else
      var rest := CompletionsOf(completions[1..], id);
      if completions[0].habitId == id then [completions[0].completionDate] + rest else rest
  }

  /** The history rebuilt for a habit corresponds one to one with its
      completion rows: each date occurs exactly as often as the row does. */
  lemma {:induction false} CompletionsOfCounts(completions: seq<CompletionRow>, id: int, t: Timestamp)
    ensures multiset(CompletionsOf(completions, id))[t] == multiset(completions)[CompletionRow(id, t)]
  {
    if |completions| > 0 {
      CompletionsOfCounts(completions[1..], id, t);
      assert completions == [completions[0]] + completions[1..];
    }
  }

  /** A completion row appended for one habit adds its date to the end of that
      habit's history and leaves every other habit's history as it was. */
  lemma {:induction false} CompletionsOfAppend(completions: seq<CompletionRow>, row: CompletionRow, id: int)
    ensures CompletionsOf(completions + [row], id)
            == CompletionsOf(completions, id) + (if row.habitId == id then [row.completionDate] else [])
  {
    if |completions| > 0 {
      assert (completions + [row])[1..] == completions[1..] + [row];
      CompletionsOfAppend(completions[1..], row, id);
    }
  }

  /** A habit's rebuilt history is empty exactly when no completion row refers
      to its id. */
  lemma {:induction false} CompletionsOfEmpty(completions: seq<CompletionRow>, id: int)
    ensures |CompletionsOf(completions, id)| == 0
            <==> forall k :: 0 <= k < |completions| ==> completions[k].habitId != id
  {
    if |completions| > 0 {
      CompletionsOfEmpty(completions[1..], id);
      assert forall k :: 1 <= k < |completions| ==> completions[k] == completions[1..][k - 1];
    }
  }

  /** A habit id that no completion row refers to has no completions. */
  lemma {:induction false} CompletionsOfUnused(completions: seq<CompletionRow>, id: int)
    requires forall k :: 0 <= k < |completions| ==> completions[k].habitId != id
    ensures CompletionsOf(completions, id) == []
  {
    if |completions| > 0 {
      CompletionsOfUnused(completions[1..], id);
    }
  }

  /** The id SQLite gives a new `INTEGER PRIMARY KEY` row: one more than the
      largest id in the table, 1 for an empty table. */
  function NextId(habits: seq<HabitRow>): (r: int)
    ensures r >= 1
    ensures forall i :: 0 <= i < |habits| ==> habits[i].id < r
  {
    if |habits| == 0 then 1 else Runs.Max(habits[0].id + 1, NextId(habits[1..]))
  }

  /** The row `create_habit` inserts: next id, frequency lower-cased. */
  function NewHabitRow(habits: seq<HabitRow>, name: string, frequency: string, now: Timestamp): (r: HabitRow)
    ensures forall i :: 0 <= i < |habits| ==> habits[i].id != r.id
    ensures r.name == name && r.frequency == Text.Lower(frequency) && r.creationDate == now
  {
    HabitRow(NextId(habits), name, Text.Lower(frequency), now)
  }

  /** Inserting a habit under a fresh name keeps the table's constraints, and
      looking the name up afterwards finds the new row, whose history is empty. */
  lemma CreateThenLookup(habits: seq<HabitRow>, completions: seq<CompletionRow>,
                         name: string, frequency: string, now: Timestamp)
    requires UniqueNames(habits) && UniqueIds(habits) && CompletionsReferToHabits(habits, completions)
    requires Lookup(habits, name).None?
    ensures var row := NewHabitRow(habits, name, frequency, now);
      && UniqueNames(habits + [row]) && UniqueIds(habits + [row])
      && CompletionsReferToHabits(habits + [row], completions)
      && Lookup(habits + [row], name) == Some(row)
      && row.frequency == Text.Lower(frequency)
      && CompletionsOf(completions, row.id) == []
  {
    var row := NewHabitRow(habits, name, frequency, now);
    var more := habits + [row];
    assert more[|habits|] == row;
    LookupFindsRow(more, |habits|);
    forall k | 0 <= k < |completions| ensures completions[k].habitId != row.id {
      var i :| 0 <= i < |habits| && habits[i].id == completions[k].habitId;
    }
    CompletionsOfUnused(completions, row.id);
    forall k | 0 <= k < |completions|
      ensures exists i :: 0 <= i < |more| && more[i].id == completions[k].habitId
    {
      var i :| 0 <= i < |habits| && habits[i].id == completions[k].habitId;
      assert more[i] == habits[i];
    }
  }

  /** `xs` is `ys` with some elements left out, order kept. */
  ghost predicate IsSubsequence<T>(xs: seq<T>, ys: seq<T>) {
    if |xs| == 0 then true
    else if |ys| == 0 then false
    else if xs[0] == ys[0] then IsSubsequence(xs[1..], ys[1..])
    else IsSubsequence(xs, ys[1..])
  }

  /** The rows of `xs` that satisfy `p`, in order (a list comprehension with a
      condition, or `filter`). */
  function Filter<T(!new)>(xs: seq<T>, p: T -> bool): (r: seq<T>)
    ensures forall x :: x in r <==> x in xs && p(x)
    ensures forall x :: multiset(r)[x] == if p(x) then multiset(xs)[x] else 0
    ensures IsSubsequence(r, xs)
  {
    if |xs| == 0 then []
    else
      var rest := Filter(xs[1..], p);
      assert xs == [xs[0]] + xs[1..];
      if p(xs[0]) then [xs[0]] + rest
      else
        assert |rest| > 0 ==> rest[0] in rest;
        rest
  }

  /** Splitting by `p` and by its negation loses and duplicates nothing. */
  lemma {:induction false} FilterPartition<T(!new)>(xs: seq<T>, p: T -> bool, q: T -> bool)
    requires forall x :: q(x) == !p(x)
    ensures multiset(Filter(xs, p)) + multiset(Filter(xs, q)) == multiset(xs)
  {
    if |xs| > 0 {
      FilterPartition(xs[1..], p, q);
      assert xs == [xs[0]] + xs[1..];
    }
  }
}
