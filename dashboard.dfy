/** The dashboard (backend/app/crud/dashboard.py): the KPIs of a period and
    their change against the period before, expenses by category, and the
    running balance over the days of a period. */
module DashboardCrud {
  import opened Base
  import opened Calendar
  import opened Models
  import opened Aggregates

  // ---------------------------------------------------------------- KPIs

  /** The (type, value) of each row, which `GROUP BY type` groups. */
  function KindValues(ts: seq<Transaction>): (r: seq<(string, int)>)
    ensures |r| == |ts|
    ensures forall i :: 0 <= i < |ts| ==> r[i] == (ts[i].kind, ts[i].value)
  {
    seq(|ts|, i requires 0 <= i < |ts| => (ts[i].kind, ts[i].value))
  }

  /** A group's `SUM(value)` is the total of its type. */
  lemma {:induction false} KindValuesSum(ts: seq<Transaction>, kind: string)
    ensures KeySum(KindValues(ts), kind) == KindTotal(ts, kind)
  {
    if ts != [] {
      var ts' := ts[..|ts| - 1];
      KindValuesSum(ts', kind);
      assert KindValues(ts)[..|ts| - 1] == KindValues(ts');
    }
  }

  /** One of the first `n` groups has key `kind`. */
  predicate GroupSeen(groups: seq<(string, int)>, n: int, kind: string)
  {
    exists j :: 0 <= j < n && j < |groups| && groups[j].0 == kind
  }

  lemma GroupSeenStep(groups: seq<(string, int)>, i: nat)
    requires i < |groups|
    ensures GroupSeen(groups, i + 1, groups[i].0)
    ensures forall k :: k != groups[i].0 ==> (GroupSeen(groups, i + 1, k) <==> GroupSeen(groups, i, k))
  {
  }

  /** A type with no group has no row, so its total is 0. */
  lemma UnseenKindIsZero(rows: seq<Transaction>, groups: seq<(string, int)>, kind: string)
    requires GroupsOf(KindValues(rows), groups)
    requires !GroupSeen(groups, |groups|, kind)
    ensures KindTotal(rows, kind) == 0
  {
    forall i | 0 <= i < |rows| ensures rows[i].kind != kind {
      assert KindValues(rows)[i].0 in Keys(groups);
      var j :| 0 <= j < |groups| && Keys(groups)[j] == rows[i].kind;
    }
    KindTotalAbsent(rows, kind);
  }

  /** `_get_kpis_for_period`: the `GROUP BY type` rows within the bounds,
      read into income, expense and investment; a type without rows stays 0
      and the balance is income minus expense. */
  method KpisForPeriod(ts: seq<Transaction>, start: Option<Date>, end: Option<Date>) returns (kpis: Totals)
    ensures kpis == TotalsOf(RowsInPeriod(ts, start, end))
  {
    var rows := RowsInPeriod(ts, start, end);
    var groups := GroupSum(KindValues(rows));
    var income, expense, investment := 0, 0, 0;
    for i := 0 to |groups|
      invariant income == if GroupSeen(groups, i, "income") then KindTotal(rows, "income") else 0
      invariant expense == if GroupSeen(groups, i, "expense") then KindTotal(rows, "expense") else 0
      invariant investment == if GroupSeen(groups, i, "investment") then KindTotal(rows, "investment") else 0
    {
      var kind := groups[i].0;
      KindValuesSum(rows, kind);
      GroupSeenStep(groups, i);
      if kind == "income" {
        income := groups[i].1;
      } else if kind == "expense" {
        expense := groups[i].1;
      } else if kind == "investment" {
        investment := groups[i].1;
      }
    }
    if !GroupSeen(groups, |groups|, "income") {
      UnseenKindIsZero(rows, groups, "income");
    }
    if !GroupSeen(groups, |groups|, "expense") {
      UnseenKindIsZero(rows, groups, "expense");
    }
    if !GroupSeen(groups, |groups|, "investment") {
      UnseenKindIsZero(rows, groups, "investment");
    }
    kpis := Totals(income, expense, investment, income - expense);
  }

  /** `_calculate_percentage_change`, before `round(..., 2)`. */
  function PercentageChange(current: int, previous: int): (r: real)
    ensures previous == 0 ==> r == 0.0
    ensures current == previous ==> r == 0.0
    ensures previous != 0 ==>
      (r > 0.0 <==> (current > previous && previous > 0) || (current < previous && previous < 0))
    ensures previous != 0 ==>
      (r < 0.0 <==> (current < previous && previous > 0) || (current > previous && previous < 0))
  {
    if previous == 0 then 0.0
    else if current == 0 && previous == 0 then 0.0
    else
      var q := (current - previous) as real / previous as real;
      QuotientSign((current - previous) as real, previous as real);
      q * 100.0
  }

  lemma QuotientSign(a: real, b: real)
    requires b != 0.0
    ensures a / b > 0.0 <==> (a > 0.0 && b > 0.0) || (a < 0.0 && b < 0.0)
    ensures a / b < 0.0 <==> (a < 0.0 && b > 0.0) || (a > 0.0 && b < 0.0)
  {
    var q := a / b;
    assert q * b == a;
  }

  /** The window `get_dashboard_kpis` compares against: it ends the day
      before `start` and spans `end - start` days too. `None` when one of
      its dates falls outside the calendar (the caught OverflowError). */
  function PreviousWindow(start: Date, end: Date): (r: Option<(Date, Date)>)
    ensures r.Some? ==> r.value.1 == start - 1 && r.value.1 - r.value.0 == end - start
    ensures r.None? <==>
      start - 1 < MinOrdinal || !(MinOrdinal <= start - 1 - (end - start) <= MaxOrdinal)
  {
    var duration := end - start;
    var prevEnd := start - 1;
    if prevEnd < MinOrdinal then None
    else
      var prevStart := prevEnd - duration;
      if prevStart < MinOrdinal || prevStart > MaxOrdinal then None
      else Some((prevStart, prevEnd))
  }

  /** For a well-ordered period the previous window lies entirely before it,
      touches it, and has the same number of days. */
  lemma PreviousWindowBefore(start: Date, end: Date)
    requires start <= end
    requires PreviousWindow(start, end).Some?
    ensures var w := PreviousWindow(start, end).value;
      w.0 <= w.1 && w.1 + 1 == start && w.1 - w.0 + 1 == end - start + 1
  {
  }

  /** The change percentages of the four KPIs. */
  datatype Changes = Changes(income: real, expense: real, investment: real, balance: real)

  function ChangesBetween(current: Totals, previous: Totals): Changes
  {
    Changes(PercentageChange(current.income, previous.income),
            PercentageChange(current.expense, previous.expense),
            PercentageChange(current.investment, previous.investment),
            PercentageChange(current.balance, previous.balance))
  }

  const NoTotals := Totals(0, 0, 0, 0)

  /** The KPIs the change is measured against: those of the previous window
      when both bounds are given and the window exists, zeros otherwise. */
  function PreviousTotals(ts: seq<Transaction>, start: Option<Date>, end: Option<Date>): Totals
  {
    if start.Some? && end.Some? then
      match PreviousWindow(start.value, end.value)
      case None => NoTotals
      case Some(w) => TotalsOf(RowsInPeriod(ts, Some(w.0), Some(w.1)))
    else NoTotals
  }

  datatype DashboardKpis = DashboardKpis(current: Totals, changes: Changes)

  /** `get_dashboard_kpis`. */
  method GetDashboardKpis(ts: seq<Transaction>, start: Option<Date>, end: Option<Date>) returns (r: DashboardKpis)
    ensures r.current == TotalsOf(RowsInPeriod(ts, start, end))
    ensures r.changes == ChangesBetween(r.current, PreviousTotals(ts, start, end))
  {
    var current := KpisForPeriod(ts, start, end);
    var previous := NoTotals;
    if start.Some? && end.Some? {
      var window := PreviousWindow(start.value, end.value);
      if window.Some? {
        previous := KpisForPeriod(ts, Some(window.value.0), Some(window.value.1));
      }
    }
    r := DashboardKpis(current, ChangesBetween(current, previous));
  }

  /** Without both bounds there is nothing to compare against: every change
      is 0. */
  lemma OpenPeriodHasNoChange(ts: seq<Transaction>, start: Option<Date>, end: Option<Date>)
    requires start.None? || end.None?
    ensures ChangesBetween(TotalsOf(RowsInPeriod(ts, start, end)), PreviousTotals(ts, start, end)) ==
      Changes(0.0, 0.0, 0.0, 0.0)
  {
  }

  // ---------------------------------------------------------------- expenses by category

  /** The label of rows whose joined category name is NULL or empty. */
  const Uncategorized := "Sem Categoria"

  /** One slice of the expenses chart (`CategoryExpense`). */
  datatype CategoryExpense = CategoryExpense(name: string, value: int)

  predicate IsExpense(t: Transaction)
  {
    t.kind == "expense"
  }

  /** The expense rows within the bounds. */
  function ExpensesInPeriod(ts: seq<Transaction>, start: Option<Date>, end: Option<Date>): (r: seq<Transaction>)
    ensures forall i :: 0 <= i < |r| ==> IsExpense(r[i]) && InPeriod(r[i].date, start, end)
    ensures forall i :: 0 <= i < |ts| && IsExpense(ts[i]) && InPeriod(ts[i].date, start, end) ==> ts[i] in r
    ensures multiset(r) <= multiset(ts)
  {
    var f := RowsInPeriod(ts, start, end);
    var r := Filter(f, IsExpense);
    ExpenseRows(ts, f, r, start, end);
    r
  }

  lemma ExpenseRows(ts: seq<Transaction>, f: seq<Transaction>, r: seq<Transaction>, start: Option<Date>, end: Option<Date>)
    requires f == RowsInPeriod(ts, start, end) && r == Filter(f, IsExpense)
    ensures forall i :: 0 <= i < |r| ==> IsExpense(r[i]) && InPeriod(r[i].date, start, end)
    ensures forall i :: 0 <= i < |ts| && IsExpense(ts[i]) && InPeriod(ts[i].date, start, end) ==> ts[i] in r
    ensures multiset(r) <= multiset(ts)
  {
    forall i | 0 <= i < |r| ensures InPeriod(r[i].date, start, end) {
      assert r[i] in multiset(f);
    }
    forall i | 0 <= i < |ts| && IsExpense(ts[i]) && InPeriod(ts[i].date, start, end) ensures ts[i] in r {
      var j :| 0 <= j < |f| && f[j] == ts[i];
    }
  }

  /** The (category name, value) of each row, after the outer join. */
  function NameValues(categories: seq<Category>, ts: seq<Transaction>): (r: seq<(Option<string>, int)>)
    ensures |r| == |ts|
    ensures forall i :: 0 <= i < |ts| ==> r[i] == (JoinedName(categories, ts[i].categoryId), ts[i].value)
  {
    seq(|ts|, i requires 0 <= i < |ts| => (JoinedName(categories, ts[i].categoryId), ts[i].value))
  }

  /** `GROUP BY categories.name` over the expenses within the bounds. */
  function ExpenseGroups(categories: seq<Category>, ts: seq<Transaction>,
                         start: Option<Date>, end: Option<Date>): seq<(Option<string>, int)>
  {
    GroupSum(NameValues(categories, ExpensesInPeriod(ts, start, end)))
  }

  /** `name if name else "Sem Categoria"`. */
  function ExpenseLabel(name: Option<string>): string
  {
    if name.Some? && name.value != "" then name.value else Uncategorized
  }

  function Labelled(groups: seq<(Option<string>, int)>): (r: seq<CategoryExpense>)
    ensures |r| == |groups|
    ensures forall i :: 0 <= i < |groups| ==> r[i] == CategoryExpense(ExpenseLabel(groups[i].0), groups[i].1)
  {
    seq(|groups|, i requires 0 <= i < |groups| => CategoryExpense(ExpenseLabel(groups[i].0), groups[i].1))
  }

  /** `get_expenses_by_category`. */
  function GetExpensesByCategory(categories: seq<Category>, ts: seq<Transaction>,
                                 start: Option<Date>, end: Option<Date>): seq<CategoryExpense>
  {
    Labelled(ExpenseGroups(categories, ts, start, end))
  }

  /** One entry per distinct category name among the expenses within the
      bounds, carrying the sum of those expenses; every such expense is
      counted under its name, and one without a category under
      "Sem Categoria". */
  lemma ExpensesByCategorySpec(categories: seq<Category>, ts: seq<Transaction>,
                               start: Option<Date>, end: Option<Date>)
    ensures var g := ExpenseGroups(categories, ts, start, end);
      var r := GetExpensesByCategory(categories, ts, start, end);
      var e := ExpensesInPeriod(ts, start, end);
      && |r| == |g|
      && (forall i, j :: 0 <= i < j < |g| ==> g[i].0 != g[j].0)
      && (forall i :: 0 <= i < |r| ==>
            r[i].name == ExpenseLabel(g[i].0) && r[i].value == KeySum(NameValues(categories, e), g[i].0))
      && (forall k :: 0 <= k < |e| ==> JoinedName(categories, e[k].categoryId) in Keys(g))
      && (forall k :: 0 <= k < |e| && JoinedName(categories, e[k].categoryId).None? ==>
            exists i :: 0 <= i < |r| && r[i].name == Uncategorized)
  {
    var e := ExpensesInPeriod(ts, start, end);
    LabelledGroupsSpec(NameValues(categories, e), ExpenseGroups(categories, ts, start, end));
  }

  /** The labelled groups of any grouped (name, value) rows: one entry per
      distinct name, each carrying its sum, and a row without a name shows
      up under "Sem Categoria". */
  lemma LabelledGroupsSpec(nv: seq<(Option<string>, int)>, g: seq<(Option<string>, int)>)
    requires GroupsOf(nv, g)
    ensures |Labelled(g)| == |g|
    ensures forall i, j :: 0 <= i < j < |g| ==> g[i].0 != g[j].0
    ensures forall i :: 0 <= i < |g| ==>
      Labelled(g)[i].name == ExpenseLabel(g[i].0) && Labelled(g)[i].value == KeySum(nv, g[i].0)
    ensures forall k :: 0 <= k < |nv| ==> nv[k].0 in Keys(g)
    ensures forall k :: 0 <= k < |nv| && nv[k].0.None? ==>
      exists i :: 0 <= i < |g| && Labelled(g)[i].name == Uncategorized
  {
    forall k | 0 <= k < |nv| && nv[k].0.None?
      ensures exists i :: 0 <= i < |g| && Labelled(g)[i].name == Uncategorized
    {
      UncategorizedShown(g, nv[k].0);
    }
  }

  lemma UncategorizedShown(g: seq<(Option<string>, int)>, key: Option<string>)
    requires key in Keys(g) && key.None?
    ensures exists i :: 0 <= i < |g| && Labelled(g)[i].name == Uncategorized
  {
    var i :| 0 <= i < |g| && Keys(g)[i] == key;
    assert Labelled(g)[i].name == Uncategorized;
  }

  // ---------------------------------------------------------------- balance over time

  /** One point of the balance chart (`BalanceOverTimePoint`). */
  datatype BalancePoint = BalancePoint(date: Date, income: int, expense: int, balance: int)

  /** The per-date subquery: `SUM(value)` of the rows of type `kind` dated
      `d`, 0 when there are none (the `coalesce`). */
  function DayTotal(ts: seq<Transaction>, d: int, kind: string): int
  {
    if ts == [] then 0
    else
      var t := ts[|ts| - 1];
      DayTotal(ts[..|ts| - 1], d, kind) + (if t.date == d && t.kind == kind then t.value else 0)
  }

  predicate Ascending(ds: seq<Date>)
  {
    forall i, j :: 0 <= i < j < |ds| ==> ds[i] < ds[j]
  }

  /** Adds a date to an ascending list unless it is already there. */
  function InsertDay(d: Date, ds: seq<Date>): seq<Date>
  {
    if ds == [] then [d]
    else if d == ds[0] then ds
    else if d < ds[0] then [d] + ds
    else [ds[0]] + InsertDay(d, ds[1..])
  }

  lemma {:induction false} InsertDaySpec(d: Date, ds: seq<Date>)
    requires Ascending(ds)
    ensures Ascending(InsertDay(d, ds))
    ensures forall x :: x in InsertDay(d, ds) <==> x == d || x in ds
    decreases |ds|
  {
    if ds != [] && d != ds[0] && d >= ds[0] {
      InsertDaySpec(d, ds[1..]);
      var rest := InsertDay(d, ds[1..]);
      assert ds == [ds[0]] + ds[1..];
      forall j | 0 <= j < |rest| ensures ds[0] < rest[j] {
        assert rest[j] in rest;
      }
    }
  }

  /** `GROUP BY date ORDER BY date`: the distinct dates of the rows,
      ascending. */
  function DaysOf(ts: seq<Transaction>): seq<Date>
  {
    if ts == [] then [] else InsertDay(ts[|ts| - 1].date, DaysOf(ts[..|ts| - 1]))
  }

  /** Some row is dated `d`. */
  predicate HasDay(ts: seq<Transaction>, d: int)
  {
    exists k :: 0 <= k < |ts| && ts[k].date == d
  }

  lemma HasDaySnoc(ts: seq<Transaction>, d: int)
    requires ts != []
    ensures HasDay(ts, d) <==> HasDay(ts[..|ts| - 1], d) || ts[|ts| - 1].date == d
  {
    var ts' := ts[..|ts| - 1];
    if HasDay(ts', d) {
      var k :| 0 <= k < |ts'| && ts'[k].date == d;
      assert ts[k] == ts'[k];
    }
    if HasDay(ts, d) && ts[|ts| - 1].date != d {
      var k :| 0 <= k < |ts| && ts[k].date == d;
      assert ts'[k] == ts[k];
    }
  }

  /** Each date that has a row appears once, in ascending order. */
  lemma {:induction false} DaysOfSpec(ts: seq<Transaction>)
    ensures Ascending(DaysOf(ts))
    ensures forall d :: d in DaysOf(ts) <==> HasDay(ts, d)
  {
    if ts != [] {
      var ts' := ts[..|ts| - 1];
      DaysOfSpec(ts');
      InsertDaySpec(ts[|ts| - 1].date, DaysOf(ts'));
      forall d ensures d in DaysOf(ts) <==> HasDay(ts, d) {
        HasDaySnoc(ts, d);
      }
    }
  }

  /** Sum over the days `ds` of the rows of type `kind` on each day. */
  function SumDays(ts: seq<Transaction>, ds: seq<Date>, kind: string): int
  {
    if ds == [] then 0 else SumDays(ts, ds[..|ds| - 1], kind) + DayTotal(ts, ds[|ds| - 1], kind)
  }

  /** The running balance after the days `ds`: income minus expense. */
  function RunningBalance(ts: seq<Transaction>, ds: seq<Date>): int
  {
    SumDays(ts, ds, "income") - SumDays(ts, ds, "expense")
  }

  /** The dates of the balance chart: those of the rows within the bounds. */
  function ChartDays(ts: seq<Transaction>, start: Option<Date>, end: Option<Date>): seq<Date>
  {
    DaysOf(RowsInPeriod(ts, start, end))
  }

  /** `get_balance_over_time`: one point per date with a row within the
      bounds, ascending; each carries that day's income and expense and the
      running balance up to and including it. */
  method GetBalanceOverTime(ts: seq<Transaction>, start: Option<Date>, end: Option<Date>)
    returns (chart: seq<BalancePoint>)
    ensures var days := ChartDays(ts, start, end);
      && |chart| == |days|
      && forall k :: 0 <= k < |chart| ==>
           chart[k] == BalancePoint(days[k], DayTotal(ts, days[k], "income"), DayTotal(ts, days[k], "expense"),
                                    RunningBalance(ts, days[..k + 1]))
  {
    var days := ChartDays(ts, start, end);
    chart := [];
    var running := 0;
    for i := 0 to |days|
      invariant |chart| == i
      invariant running == RunningBalance(ts, days[..i])
      invariant forall k :: 0 <= k < i ==>
        chart[k] == BalancePoint(days[k], DayTotal(ts, days[k], "income"), DayTotal(ts, days[k], "expense"),
                                 RunningBalance(ts, days[..k + 1]))
    {
      var income := DayTotal(ts, days[i], "income");
      var expense := DayTotal(ts, days[i], "expense");
      assert days[..i + 1][..i] == days[..i];
      running := running + (income - expense);
      chart := chart + [BalancePoint(days[i], income, expense, running)];
    }
  }

  /** Each point's balance is the previous point's plus that day's income
      minus its expense; the first point's is its own income minus expense. */
  lemma RunningBalanceStep(ts: seq<Transaction>, ds: seq<Date>, k: nat)
    requires k < |ds|
    ensures RunningBalance(ts, ds[..k + 1]) ==
      (if k == 0 then 0 else RunningBalance(ts, ds[..k])) +
      DayTotal(ts, ds[k], "income") - DayTotal(ts, ds[k], "expense")
  {
    assert ds[..k + 1][..k] == ds[..k];
    if k == 0 {
      assert ds[..1][..0] == [] && ds[..1][0] == ds[0];
      assert SumDays(ts, ds[..1], "income") == DayTotal(ts, ds[0], "income");
      assert SumDays(ts, ds[..1], "expense") == DayTotal(ts, ds[0], "expense");
    }
  }
  lemma DayTotalSnoc(ts: seq<Transaction>, t: Transaction, d: int, kind: string)
    ensures DayTotal(ts + [t], d, kind) == DayTotal(ts, d, kind) + (if t.date == d && t.kind == kind then t.value else 0)
  {
    assert (ts + [t])[..|ts|] == ts;
  }

  /** Dropping rows of other dates does not change a day's total. */
  lemma {:induction false} DayTotalFilter(ts: seq<Transaction>, p: Transaction -> bool, d: int, kind: string)
    requires forall i :: 0 <= i < |ts| && ts[i].date == d ==> p(ts[i])
    ensures DayTotal(Filter(ts, p), d, kind) == DayTotal(ts, d, kind)
  {
    if ts != [] {
      var ts' := ts[..|ts| - 1];
      var t := ts[|ts| - 1];
      DayTotalFilter(ts', p, d, kind);
      if p(t) {
        DayTotalSnoc(Filter(ts', p), t, d, kind);
      } else {
        assert Filter(ts, p) == Filter(ts', p) + [];
        assert Filter(ts', p) + [] == Filter(ts', p);
      }
    }
  }

  /** Adding a row adds its value once to the sum over distinct days that
      include its date. */
  lemma {:induction false} SumDaysSnoc(ts: seq<Transaction>, t: Transaction, ds: seq<Date>, kind: string)
    requires Ascending(ds)
    ensures SumDays(ts + [t], ds, kind) ==
      SumDays(ts, ds, kind) + (if t.kind == kind && t.date in ds then t.value else 0)
  {
    if ds != [] {
      var ds' := ds[..|ds| - 1];
      var e := ds[|ds| - 1];
      assert ds == ds' + [e];
      SumDaysSnoc(ts, t, ds', kind);
      DayTotalSnoc(ts, t, e, kind);
      assert e !in ds';
    }
  }

  /** Summed over days that cover every row's date, the day totals give the
      type's total. */
  lemma {:induction false} SumDaysCover(ts: seq<Transaction>, ds: seq<Date>, kind: string)
    requires Ascending(ds)
    requires forall i :: 0 <= i < |ts| ==> ts[i].date in ds
    ensures SumDays(ts, ds, kind) == KindTotal(ts, kind)
  {
    if ts == [] {
      SumDaysEmpty(ds, kind);
    } else {
      var ts' := ts[..|ts| - 1];
      var t := ts[|ts| - 1];
      assert ts == ts' + [t];
      SumDaysCover(ts', ds, kind);
      SumDaysSnoc(ts', t, ds, kind);
    }
  }

  lemma {:induction false} SumDaysEmpty(ds: seq<Date>, kind: string)
    ensures SumDays([], ds, kind) == 0
  {
    if ds != [] {
      SumDaysEmpty(ds[..|ds| - 1], kind);
    }
  }

  lemma {:induction false} SumDaysSame(ts: seq<Transaction>, us: seq<Transaction>, ds: seq<Date>, kind: string)
    requires forall i :: 0 <= i < |ds| ==> DayTotal(ts, ds[i], kind) == DayTotal(us, ds[i], kind)
    ensures SumDays(ts, ds, kind) == SumDays(us, ds, kind)
  {
    if ds != [] {
      SumDaysSame(ts, us, ds[..|ds| - 1], kind);
    }
  }

  /** The running balance of the whole chart is the balance of the period's
      KPIs: the last point ends where `_get_kpis_for_period` says. */
  lemma FinalBalanceIsPeriodBalance(ts: seq<Transaction>, start: Option<Date>, end: Option<Date>)
    ensures RunningBalance(ts, ChartDays(ts, start, end)) == TotalsOf(RowsInPeriod(ts, start, end)).balance
  {
    var f := RowsInPeriod(ts, start, end);
    var ds := ChartDays(ts, start, end);
    DaysOfSpec(f);
    forall i | 0 <= i < |f| ensures f[i].date in ds {
      assert HasDay(f, f[i].date);
    }
    forall i, kind | 0 <= i < |ds| ensures DayTotal(ts, ds[i], kind) == DayTotal(f, ds[i], kind) {
      assert HasDay(f, ds[i]);
      var k :| 0 <= k < |f| && f[k].date == ds[i];
      DayTotalFilter(ts, (t: Transaction) => InPeriodRow(start, end, t), ds[i], kind);
    }
    SumDaysSame(ts, f, ds, "income");
    SumDaysSame(ts, f, ds, "expense");
    SumDaysCover(f, ds, "income");
    SumDaysCover(f, ds, "expense");
  }
}
