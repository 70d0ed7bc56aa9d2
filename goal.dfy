/** Savings and spending-limit goals (backend/app/crud/goal.py): the goals
    page with each goal's progress and the summary cards, and the goal
    create / update / delete / contribution operations. */
module GoalCrud {
  import opened Base
  import opened Calendar
  import opened Text
  import opened Models
  import opened Aggregates

  // ---------------------------------------------------------------- selection

  /** Ids strictly increase along `gs`: the order `ORDER BY id` gives. */
  predicate IdsIncrease(gs: seq<Goal>)
  {
    forall i, j :: 0 <= i < j < |gs| ==> gs[i].id < gs[j].id
  }

  /** Every goal of `gs` comes before a goal with a larger id than all of
      them. */
  lemma IdsIncreaseSnoc(gs: seq<Goal>, g: Goal)
    requires IdsIncrease(gs)
    requires forall k :: 0 <= k < |gs| ==> gs[k].id < g.id
    ensures IdsIncrease(gs + [g])
  {
  }

  /** A goal taken from an id-ordered prefix has a smaller id than the goal
      after it. */
  lemma BelowLast(goals: seq<Goal>, x: Goal)
    requires IdsIncrease(goals) && goals != []
    requires x in goals[..|goals| - 1]
    ensures x.id < goals[|goals| - 1].id
  {
    var m :| 0 <= m < |goals| - 1 && goals[..|goals| - 1][m] == x;
    assert goals[m] == x;
  }

  /** Dropping goals keeps the rest in id order. */
  lemma {:induction false} FilterIdsIncrease(goals: seq<Goal>, p: Goal -> bool)
    requires IdsIncrease(goals)
    ensures IdsIncrease(Filter(goals, p))
  {
    if goals != [] {
      var init := goals[..|goals| - 1];
      var last := goals[|goals| - 1];
      assert IdsIncrease(init);
      FilterIdsIncrease(init, p);
      var f := Filter(init, p);
      assert Filter(goals, p) == f + (if p(last) then [last] else []);
      if p(last) {
        forall k | 0 <= k < |f| ensures f[k].id < last.id {
          assert f[k] in multiset(init);
          BelowLast(goals, f[k]);
        }
        IdsIncreaseSnoc(f, last);
      } else {
        assert Filter(goals, p) == f;
      }
    }
  }

  /** The goals the page lists: only those of the requested period when the
      filter is "monthly" or "deadline", all of them otherwise; in storage
      order, which is id order. */
  function SelectedGoals(goals: seq<Goal>, filter: Option<string>): (r: seq<Goal>)
    ensures filter != Some("monthly") && filter != Some("deadline") ==> r == goals
    ensures filter == Some("monthly") || filter == Some("deadline") ==>
      && (forall i :: 0 <= i < |r| ==> r[i].period == filter.value)
      && (forall i :: 0 <= i < |goals| && goals[i].period == filter.value ==> goals[i] in r)
      && multiset(r) <= multiset(goals)
    ensures IdsIncrease(goals) ==> IdsIncrease(r)
  {
    if filter == Some("monthly") || filter == Some("deadline") then
      var p := (g: Goal) => g.period == filter.value;
      if IdsIncrease(goals) then FilterIdsIncrease(goals, p); Filter(goals, p)
      else Filter(goals, p)
    else goals
  }

  // ---------------------------------------------------------------- progress

  /** The dates a limit goal's spending is summed over: from the first of the
      month to today for a monthly goal, unbounded otherwise. */
  function LimitWindow(g: Goal, today: Date): (Option<int>, Option<int>)
  {
    if g.period == "monthly" then (Some(FirstOfMonth(today)), Some(today)) else (None, None)
  }

  /** An expense charged to the category and dated within the bounds. */
  predicate SpentOn(t: Transaction, categoryId: int, start: Option<int>, end: Option<int>)
  {
    t.kind == "expense" && t.categoryId == Some(categoryId) && InPeriod(t.date, start, end)
  }

  /** `SUM(value)` of the expenses charged to the category within the bounds,
      0 when there are none (`or 0.0`). */
  function LimitSpent(ts: seq<Transaction>, categoryId: int, start: Option<int>, end: Option<int>): int
  {
    if ts == [] then 0
    else
      var last := if SpentOn(ts[|ts| - 1], categoryId, start, end) then ts[|ts| - 1].value else 0;
      LimitSpent(ts[..|ts| - 1], categoryId, start, end) + last
  }

  /** A goal's progress: the saved amount of a saving goal, the spending of a
      limit goal with a category, and 0 otherwise. */
  function Progress(ts: seq<Transaction>, g: Goal, today: Date): int
  {
    if g.kind == "saving" then g.currentAmount
    else if g.kind == "limit" && IdGiven(g.categoryId) then
      var w := LimitWindow(g, today);
      LimitSpent(ts, g.categoryId.value, w.0, w.1)
    else 0
  }

  /** The transaction `t` counts towards the progress of goal `g`: `g` is a
      limit goal with a category, and `t` is an expense of that category
      dated within the goal's window. */
  predicate Counts(g: Goal, today: Date, t: Transaction)
  {
    && g.kind == "limit" && IdGiven(g.categoryId)
    && t.kind == "expense" && t.categoryId == g.categoryId
    && InPeriod(t.date, LimitWindow(g, today).0, LimitWindow(g, today).1)
  }

  /** A new transaction moves a goal's progress by its value exactly when it
      counts towards that goal, and leaves it alone otherwise. */
  lemma ProgressSnoc(ts: seq<Transaction>, t: Transaction, g: Goal, today: Date)
    ensures Progress(ts + [t], g, today) == Progress(ts, g, today) + (if Counts(g, today, t) then t.value else 0)
  {
    if g.kind != "saving" && g.kind == "limit" && IdGiven(g.categoryId) {
      assert (ts + [t])[..|ts|] == ts;
    }
  }

  /** The query of `get_goals_page_data` for a limit goal: the expense
      total of the rows within the bounds that are charged to the category. */
  function LimitQuery(ts: seq<Transaction>, categoryId: int, start: Option<int>, end: Option<int>): int
  {
    KindTotal(Filter(RowsInPeriod(ts, start, end), (t: Transaction) => t.categoryId == Some(categoryId)), "expense")
  }

  /** The running sum is the query's. */
  lemma {:induction false} LimitSpentQuery(ts: seq<Transaction>, categoryId: int, start: Option<int>, end: Option<int>)
    ensures LimitSpent(ts, categoryId, start, end) == LimitQuery(ts, categoryId, start, end)
  {
    if ts == [] {
      LimitQueryEmpty(categoryId, start, end);
    } else {
      LimitSpentQuery(ts[..|ts| - 1], categoryId, start, end);
      LimitQueryLast(ts, categoryId, start, end);
    }
  }

  lemma LimitQueryEmpty(categoryId: int, start: Option<int>, end: Option<int>)
    ensures LimitQuery([], categoryId, start, end) == 0
  {
    assert RowsInPeriod([], start, end) == [];
  }

  lemma LimitQueryLast(ts: seq<Transaction>, categoryId: int, start: Option<int>, end: Option<int>)
    requires ts != []
    ensures LimitQuery(ts, categoryId, start, end) == LimitQuery(ts[..|ts| - 1], categoryId, start, end) +
      (if SpentOn(ts[|ts| - 1], categoryId, start, end) then ts[|ts| - 1].value else 0)
  {
    assert ts == ts[..|ts| - 1] + [ts[|ts| - 1]];
    LimitQuerySnoc(ts[..|ts| - 1], ts[|ts| - 1], categoryId, start, end);
  }

  lemma LimitQuerySnoc(ts: seq<Transaction>, x: Transaction, categoryId: int, start: Option<int>, end: Option<int>)
    ensures LimitQuery(ts + [x], categoryId, start, end) ==
      LimitQuery(ts, categoryId, start, end) + (if SpentOn(x, categoryId, start, end) then x.value else 0)
  {
    var p := (t: Transaction) => t.categoryId == Some(categoryId);
    RowsInPeriodSnoc(ts, x, start, end);
    var added := if InPeriod(x.date, start, end) then [x] else [];
    FilteredTotalAppend(RowsInPeriod(ts, start, end), added, p, "expense");
    FilteredTotalOne(added, p, "expense");
  }

  lemma FilteredTotalAppend(rows: seq<Transaction>, added: seq<Transaction>, p: Transaction -> bool, kind: string)
    ensures KindTotal(Filter(rows + added, p), kind) == KindTotal(Filter(rows, p), kind) + KindTotal(Filter(added, p), kind)
  {
    FilterAppend(rows, added, p);
    KindTotalAppend(Filter(rows, p), Filter(added, p), kind);
  }

  lemma FilteredTotalOne(added: seq<Transaction>, p: Transaction -> bool, kind: string)
    requires |added| <= 1
    ensures KindTotal(Filter(added, p), kind) ==
      if added != [] && p(added[0]) && added[0].kind == kind then added[0].value else 0
  {
    if added != [] {
      assert added[..0] == [];
      if p(added[0]) {
        assert Filter(added, p) == [added[0]];
        assert [added[0]][..0] == [];
      } else {
        assert Filter(added, p) == [];
      }
    }
  }

  /** With no transactions, a limit goal has spent nothing. */
  lemma NoTransactionsNoSpending(g: Goal, today: Date)
    requires g.kind == "limit"
    ensures Progress([], g, today) == 0
  {
  }

  /** `(progress / target) * 100` when the target is positive, 0 otherwise
      (before rounding to a float). */
  function ProgressPercentage(progress: int, target: int): (r: real)
    ensures target <= 0 ==> r == 0.0
    ensures target > 0 ==> (r >= 100.0 <==> progress >= target)
    ensures target > 0 ==> (r == 0.0 <==> progress == 0)
    ensures target > 0 && progress >= 0 ==> r >= 0.0
  {
    if target > 0 then
      RatioFacts(progress as real, target as real);
      progress as real / target as real * 100.0
    else 0.0
  }

  lemma RatioFacts(p: real, t: real)
    requires t > 0.0
    ensures p / t * 100.0 >= 100.0 <==> p >= t
    ensures p / t * 100.0 == 0.0 <==> p == 0.0
    ensures p >= 0.0 ==> p / t * 100.0 >= 0.0
  {
    var q := p / t;
    assert q * t == p;
    if q >= 1.0 {
      assert q * t >= t;
    } else {
      assert q * t < t;
    }
  }

  /** `category_name or goal.type.capitalize()`. */
  function CategoryLabel(categories: seq<Category>, g: Goal): (r: string)
    ensures JoinedName(categories, g.categoryId).Some? && JoinedName(categories, g.categoryId).value != "" ==>
      r == JoinedName(categories, g.categoryId).value
    ensures JoinedName(categories, g.categoryId).None? || JoinedName(categories, g.categoryId).value == "" ==>
      r == Capitalize(g.kind)
  {
    var name := JoinedName(categories, g.categoryId);
    if name.Some? && name.value != "" then name.value else Capitalize(g.kind)
  }

  /** One goal as the page shows it. */
  datatype GoalView = GoalView(goal: Goal, categoryName: string, progress: int, percentage: real)

  function ViewOf(categories: seq<Category>, ts: seq<Transaction>, g: Goal, today: Date): GoalView
  {
    var progress := Progress(ts, g, today);
    GoalView(g, CategoryLabel(categories, g), progress, ProgressPercentage(progress, g.targetAmount))
  }

  // ---------------------------------------------------------------- summary

  /** The summary cards of the goals page. */
  datatype GoalsSummary = GoalsSummary(
    savedCurrent: int, savedTarget: int,
    limitSpent: int, limitTarget: int,
    activeCount: nat, savingCount: nat, limitCount: nat)

  const NoGoals := GoalsSummary(0, 0, 0, 0, 0, 0, 0)

  predicate IsSaving(g: Goal)
  {
    g.kind == "saving"
  }

  predicate IsMonthlyLimit(g: Goal)
  {
    g.kind == "limit" && g.period == "monthly"
  }

  /** What one goal adds to the cards: a saving goal its saved and target
      amounts, a monthly limit goal its spending and target; any other goal
      nothing. */
  function Tally(s: GoalsSummary, g: Goal, progress: int): GoalsSummary
  {
    if IsSaving(g) then
      s.(savedCurrent := s.savedCurrent + g.currentAmount, savedTarget := s.savedTarget + g.targetAmount,
         savingCount := s.savingCount + 1)
    else if IsMonthlyLimit(g) then
      s.(limitSpent := s.limitSpent + progress, limitTarget := s.limitTarget + g.targetAmount,
         limitCount := s.limitCount + 1)
    else s
  }

  /** The cards for the goals `gs`, before the active count is set. */
  function SummaryOf(ts: seq<Transaction>, gs: seq<Goal>, today: Date): GoalsSummary
  {
    if gs == [] then NoGoals
    else
      var g := gs[|gs| - 1];
      Tally(SummaryOf(ts, gs[..|gs| - 1], today), g, Progress(ts, g, today))
  }

  /** The saving and monthly-limit counts are those of the listed goals of
      each kind, so together they never exceed the active count. */
  lemma {:induction false} SummaryCounts(ts: seq<Transaction>, gs: seq<Goal>, today: Date)
    ensures SummaryOf(ts, gs, today).savingCount == |Filter(gs, IsSaving)|
    ensures SummaryOf(ts, gs, today).limitCount == |Filter(gs, IsMonthlyLimit)|
    ensures SummaryOf(ts, gs, today).savingCount + SummaryOf(ts, gs, today).limitCount <= |gs|
    ensures SummaryOf(ts, gs, today).activeCount == 0
  {
    if gs != [] {
      SummaryCounts(ts, gs[..|gs| - 1], today);
    }
  }

  /** The loop body of `get_goals_page_data` for one goal: its progress and
      what it adds to the cards. */
  method TallyGoal(ts: seq<Transaction>, g: Goal, today: Date, summary: GoalsSummary)
    returns (summary': GoalsSummary, progress: int)
    ensures progress == Progress(ts, g, today)
    ensures summary' == Tally(summary, g, progress)
  {
    summary' := summary;
    progress := 0;
    if g.kind == "saving" {
      progress := g.currentAmount;
      summary' := summary.(savedCurrent := summary.savedCurrent + g.currentAmount,
                           savedTarget := summary.savedTarget + g.targetAmount,
                           savingCount := summary.savingCount + 1);
    } else if g.kind == "limit" {
      if IdGiven(g.categoryId) {
        var w := LimitWindow(g, today);
        progress := LimitSpent(ts, g.categoryId.value, w.0, w.1);
      }
      if g.period == "monthly" {
        summary' := summary.(limitSpent := summary.limitSpent + progress,
                             limitTarget := summary.limitTarget + g.targetAmount,
                             limitCount := summary.limitCount + 1);
      }
    }
  }

  /** The cards after one more goal of `gs`. */
  lemma SummaryOfStep(ts: seq<Transaction>, gs: seq<Goal>, i: int, today: Date)
    requires 0 <= i < |gs|
    ensures SummaryOf(ts, gs[..i + 1], today) ==
      Tally(SummaryOf(ts, gs[..i], today), gs[i], Progress(ts, gs[i], today))
  {
    assert gs[..i + 1][..i] == gs[..i];
  }

  /** The views of the goals `gs`, in order. */
  function ViewsOf(categories: seq<Category>, ts: seq<Transaction>, gs: seq<Goal>, today: Date): (r: seq<GoalView>)
    ensures |r| == |gs|
  {
    if gs == [] then [] else ViewsOf(categories, ts, gs[..|gs| - 1], today) + [ViewOf(categories, ts, gs[|gs| - 1], today)]
  }

  lemma {:induction false} ViewsOfAt(categories: seq<Category>, ts: seq<Transaction>, gs: seq<Goal>, today: Date, k: int)
    requires 0 <= k < |gs|
    ensures ViewsOf(categories, ts, gs, today)[k] == ViewOf(categories, ts, gs[k], today)
  {
    if k < |gs| - 1 {
      ViewsOfAt(categories, ts, gs[..|gs| - 1], today, k);
    }
  }

  lemma ViewsOfStep(categories: seq<Category>, ts: seq<Transaction>, gs: seq<Goal>, i: int, today: Date)
    requires 0 <= i < |gs|
    ensures ViewsOf(categories, ts, gs[..i + 1], today) ==
      ViewsOf(categories, ts, gs[..i], today) + [ViewOf(categories, ts, gs[i], today)]
  {
    assert gs[..i + 1][..i] == gs[..i];
  }

  /** The loop body of `get_goals_page_data` for one goal: what it adds to
      the cards and how the page shows it. */
  method GoalStep(categories: seq<Category>, ts: seq<Transaction>, g: Goal, today: Date, summary: GoalsSummary)
    returns (summary': GoalsSummary, view: GoalView)
    ensures summary' == Tally(summary, g, Progress(ts, g, today))
    ensures view == ViewOf(categories, ts, g, today)
  {
    var progress;
    summary', progress := TallyGoal(ts, g, today, summary);
    var percentage := ProgressPercentage(progress, g.targetAmount);
    view := GoalView(g, CategoryLabel(categories, g), progress, percentage);
  }

  /** `get_goals_page_data`: each selected goal with its category label,
      progress and percentage, and the summary cards; `today` is the
      server's date. */
  method GetGoalsPageData(categories: seq<Category>, ts: seq<Transaction>, goals: seq<Goal>,
                          filter: Option<string>, today: Date)
    returns (summary: GoalsSummary, views: seq<GoalView>)
    ensures var selected := SelectedGoals(goals, filter);
      && summary == SummaryOf(ts, selected, today).(activeCount := |selected|)
      && |views| == |selected|
      && (forall k :: 0 <= k < |views| ==> views[k] == ViewOf(categories, ts, selected[k], today))
    ensures IdsIncrease(goals) ==> forall i, j :: 0 <= i < j < |views| ==> views[i].goal.id < views[j].goal.id
  {
    var selected := SelectedGoals(goals, filter);
    summary := NoGoals;
    views := [];
    for i := 0 to |selected|
      invariant summary == SummaryOf(ts, selected[..i], today)
      invariant views == ViewsOf(categories, ts, selected[..i], today)
    {
      SummaryOfStep(ts, selected, i, today);
      ViewsOfStep(categories, ts, selected, i, today);
      var view;
      summary, view := GoalStep(categories, ts, selected[i], today, summary);
      views := views + [view];
    }
    assert selected[..|selected|] == selected;
    forall k | 0 <= k < |views| ensures views[k] == ViewOf(categories, ts, selected[k], today) {
      ViewsOfAt(categories, ts, selected, today, k);
    }
    assert forall k :: 0 <= k < |views| ==> views[k].goal == selected[k];
    summary := summary.(activeCount := |views|);
  }

  // ---------------------------------------------------------------- create / update

  /** The fields of a `GoalCreate` request. */
  datatype GoalInput = GoalInput(
    name: string,
    kind: string,
    targetAmount: int,
    currentAmount: Option<int>,
    period: string,
    deadline: Option<Date>,
    categoryId: Option<int>)

  /** Python's `x or fallback` on an optional amount: a missing or zero
      amount gives the fallback. */
  function AmountOr(x: Option<int>, fallback: int): (r: int)
    ensures r == fallback || (x.Some? && r == x.value)
    ensures x.Some? && x.value != 0 ==> r == x.value
    ensures x.None? || x.value == 0 ==> r == fallback
  {
    if x.Some? && x.value != 0 then x.value else fallback
  }

  /** The category a created or updated goal gets: a requested (non-zero) id
      must name an existing category; without one the goal keeps `current`. */
  function GoalCategory(categories: seq<Category>, requested: Option<int>, current: Option<int>): (r: Result<Option<int>>)
    ensures !IdGiven(requested) ==> r == Ok(current)
    ensures IdGiven(requested) ==>
      (r.Ok? <==> CategoryById(categories, requested.value).Some?) &&
      (r.Ok? ==> r.value == requested)
    ensures r.Err? ==> r.error == CategoryNotFound
  {
    if IdGiven(requested) then
      if CategoryById(categories, requested.value).Some? then Ok(requested) else Err(CategoryNotFound)
    else Ok(current)
  }

  /** A goal `create_goal` stores under `id`. */
  function NewGoal(input: GoalInput, id: int, categoryId: Option<int>): Goal
  {
    Goal(id, input.name, input.kind, input.targetAmount, AmountOr(input.currentAmount, 0),
         categoryId, input.period, input.deadline)
  }

  /** `g` after `update_goal`: every field overwritten, except that a
      missing or zero current amount keeps the old one. */
  function UpdatedGoal(g: Goal, input: GoalInput, categoryId: Option<int>): Goal
  {
    Goal(g.id, input.name, input.kind, input.targetAmount, AmountOr(input.currentAmount, g.currentAmount),
         categoryId, input.period, input.deadline)
  }

  /** A goal created with an id always refers to an existing category, and
      one created without refers to none. */
  lemma NewGoalCategory(categories: seq<Category>, input: GoalInput, id: int)
    ensures var c := GoalCategory(categories, input.categoryId, None);
      c.Ok? ==>
        ((NewGoal(input, id, c.value).categoryId.Some? <==> IdGiven(input.categoryId)) &&
         (IdGiven(input.categoryId) ==> CategoryById(categories, NewGoal(input, id, c.value).categoryId.value).Some?))
  {
  }

  /** An update cannot reset the saved amount to 0: `current_amount or
      db_goal.current_amount` keeps the old amount for 0 and for none. */
  lemma UpdateKeepsAmountUnlessNonZero(g: Goal, input: GoalInput, categoryId: Option<int>)
    ensures input.currentAmount.None? || input.currentAmount == Some(0) ==>
      UpdatedGoal(g, input, categoryId).currentAmount == g.currentAmount
    ensures input.currentAmount.Some? && input.currentAmount.value != 0 ==>
      UpdatedGoal(g, input, categoryId).currentAmount == input.currentAmount.value
  {
  }

  /** Applying the same update twice is applying it once. */
  lemma UpdateGoalIdempotent(g: Goal, input: GoalInput, categoryId: Option<int>)
    ensures UpdatedGoal(UpdatedGoal(g, input, categoryId), input, categoryId) == UpdatedGoal(g, input, categoryId)
  {
  }

  /** Position of the goal with id `id`. */
  function GoalIndex(goals: seq<Goal>, id: int): (r: Option<nat>)
    ensures r.Some? ==> r.value < |goals| && goals[r.value].id == id
    ensures r.None? <==> forall i :: 0 <= i < |goals| ==> goals[i].id != id
  {
    FirstIndex(goals, (g: Goal) => g.id == id)
  }

  method AddGoal(db: Store, g: Goal)
    requires db.Valid() && g.id == db.nextId
    modifies db
    ensures db.Valid()
    ensures db.goals == old(db.goals) + [g]
    ensures db.transactions == old(db.transactions) && db.categories == old(db.categories)
    ensures db.importLogs == old(db.importLogs) && db.nextId == old(db.nextId) + 1
  {
    db.goals := db.goals + [g];
    db.nextId := db.nextId + 1;
  }

  method ReplaceGoal(db: Store, k: nat, g: Goal)
    requires db.Valid() && k < |db.goals| && g.id == db.goals[k].id
    modifies db
    ensures db.Valid()
    ensures db.goals == old(db.goals)[k := g]
    ensures db.transactions == old(db.transactions) && db.categories == old(db.categories)
    ensures db.importLogs == old(db.importLogs) && db.nextId == old(db.nextId)
  {
    ghost var before := db.goals;
    db.goals := db.goals[k := g];
    assert forall i :: 0 <= i < |before| ==> db.goals[i].id == before[i].id;
  }

  /** `create_goal`: 404 for an unknown category; otherwise the goal is
      stored with the next id. */
  method CreateGoal(db: Store, input: GoalInput) returns (r: Result<Goal>)
    requires db.Valid()
    modifies db
    ensures db.Valid()
    ensures db.transactions == old(db.transactions) && db.categories == old(db.categories)
    ensures db.importLogs == old(db.importLogs)
    ensures GoalCategory(old(db.categories), input.categoryId, None).Err? ==>
      r == Err(CategoryNotFound) && db.goals == old(db.goals) && db.nextId == old(db.nextId)
    ensures GoalCategory(old(db.categories), input.categoryId, None).Ok? ==>
      r == Ok(NewGoal(input, old(db.nextId), GoalCategory(old(db.categories), input.categoryId, None).value)) &&
      db.goals == old(db.goals) + [r.value] && db.nextId == old(db.nextId) + 1
  {
    var category := GoalCategory(db.categories, input.categoryId, None);
    if category.Err? {
      return Err(CategoryNotFound);
    }
    var g := NewGoal(input, db.nextId, category.value);
    AddGoal(db, g);
    r := Ok(g);
  }

  /** `update_goal`: 404 for an unknown goal or category; otherwise the goal
      is replaced in place by its updated version. */
  method UpdateGoal(db: Store, id: int, input: GoalInput) returns (r: Result<Goal>)
    requires db.Valid()
    modifies db
    ensures db.Valid()
    ensures db.transactions == old(db.transactions) && db.categories == old(db.categories)
    ensures db.importLogs == old(db.importLogs) && db.nextId == old(db.nextId)
    ensures GoalIndex(old(db.goals), id).None? ==> r == Err(NotFound) && db.goals == old(db.goals)
    ensures GoalIndex(old(db.goals), id).Some? ==>
      var k := GoalIndex(old(db.goals), id).value;
      var category := GoalCategory(old(db.categories), input.categoryId, old(db.goals)[k].categoryId);
      && (category.Err? ==> r == Err(CategoryNotFound) && db.goals == old(db.goals))
      && (category.Ok? ==>
            r == Ok(UpdatedGoal(old(db.goals)[k], input, category.value)) &&
            db.goals == old(db.goals)[k := r.value])
  {
    var idx := GoalIndex(db.goals, id);
    if idx.None? {
      return Err(NotFound);
    }
    var k := idx.value;
    var category := GoalCategory(db.categories, input.categoryId, db.goals[k].categoryId);
    if category.Err? {
      return Err(CategoryNotFound);
    }
    var g := UpdatedGoal(db.goals[k], input, category.value);
    ReplaceGoal(db, k, g);
    r := Ok(g);
  }

  /** `delete_goal`. */
  method DeleteGoal(db: Store, id: int) returns (r: Result<()>)
    requires db.Valid()
    modifies db
    ensures db.Valid()
    ensures db.transactions == old(db.transactions) && db.categories == old(db.categories)
    ensures db.importLogs == old(db.importLogs) && db.nextId == old(db.nextId)
    ensures GoalIndex(old(db.goals), id).None? ==> r == Err(NotFound) && db.goals == old(db.goals)
    ensures GoalIndex(old(db.goals), id).Some? ==>
      r == Ok(()) && db.goals == RemoveAt(old(db.goals), GoalIndex(old(db.goals), id).value)
    ensures forall i :: 0 <= i < |db.goals| ==> db.goals[i].id != id
  {
    match GoalIndex(db.goals, id)
    case None =>
      r := Err(NotFound);
    case Some(k) =>
      ghost var before := db.goals;
      db.goals := RemoveAt(db.goals, k);
      forall i | 0 <= i < |db.goals| ensures db.goals[i].id != id {
        if i < k {
          assert before[i].id < before[k].id;
        } else {
          assert before[k].id < before[i + 1].id;
        }
      }
      r := Ok(());
  }

  // ---------------------------------------------------------------- contributions

  /** `g` after a contribution of `amount`. */
  function Contributed(g: Goal, amount: int): Goal
  {
    g.(currentAmount := g.currentAmount + amount)
  }

  /** Two contributions amount to one of their sum, and nothing but the
      saved amount changes. */
  lemma ContributionsAdd(g: Goal, a: int, b: int)
    ensures Contributed(Contributed(g, a), b) == Contributed(g, a + b)
    ensures Contributed(g, a).(currentAmount := g.currentAmount) == g
  {
  }

  /** `add_contribution_to_goal`: 404 for an unknown goal, 400 for a goal that
      is not a saving goal; otherwise the amount is added to what is saved,
      with no cap at the target. */
  method AddContribution(db: Store, id: int, amount: int) returns (r: Result<Goal>)
    requires db.Valid()
    modifies db
    ensures db.Valid()
    ensures db.transactions == old(db.transactions) && db.categories == old(db.categories)
    ensures db.importLogs == old(db.importLogs) && db.nextId == old(db.nextId)
    ensures GoalIndex(old(db.goals), id).None? ==> r == Err(NotFound) && db.goals == old(db.goals)
    ensures GoalIndex(old(db.goals), id).Some? ==>
      var k := GoalIndex(old(db.goals), id).value;
      && (old(db.goals)[k].kind != "saving" ==> r == Err(NotASavingGoal) && db.goals == old(db.goals))
      && (old(db.goals)[k].kind == "saving" ==>
            r == Ok(Contributed(old(db.goals)[k], amount)) && db.goals == old(db.goals)[k := r.value])
  {
    var idx := GoalIndex(db.goals, id);
    if idx.None? {
      return Err(NotFound);
    }
    var k := idx.value;
    if db.goals[k].kind != "saving" {
      return Err(NotASavingGoal);
    }
    var g := Contributed(db.goals[k], amount);
    ReplaceGoal(db, k, g);
    r := Ok(g);
  }
}
