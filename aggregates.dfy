/** The SQL aggregates the listing, dashboard, goal and report queries share:
    optional inclusive date bounds, `SUM(value)` per transaction type, and
    `GROUP BY key` with `SUM`. */
module Aggregates {
  import opened Base
  import opened Calendar
  import opened Models

  /** `if start_date: date >= start_date` and `if end_date: date <= end_date`;
      a missing bound does not filter. */
  predicate InPeriod(d: int, start: Option<int>, end: Option<int>)
  {
    (start.None? || start.value <= d) && (end.None? || d <= end.value)
  }

  predicate InPeriodRow(start: Option<int>, end: Option<int>, t: Transaction)
  {
    InPeriod(t.date, start, end)
  }

  /** The transactions dated within the bounds, in storage order. */
  function RowsInPeriod(ts: seq<Transaction>, start: Option<int>, end: Option<int>): (r: seq<Transaction>)
    ensures forall i :: 0 <= i < |r| ==> InPeriod(r[i].date, start, end)
    ensures forall i :: 0 <= i < |ts| && InPeriod(ts[i].date, start, end) ==> ts[i] in r
    ensures multiset(r) <= multiset(ts)
  {
    Filter(ts, (t: Transaction) => InPeriodRow(start, end, t))
  }

  /** A row added at the end is in the period's rows exactly when its date
      is within the bounds. */
  lemma RowsInPeriodSnoc(ts: seq<Transaction>, t: Transaction, start: Option<int>, end: Option<int>)
    ensures RowsInPeriod(ts + [t], start, end) ==
      RowsInPeriod(ts, start, end) + (if InPeriod(t.date, start, end) then [t] else [])
  {
    assert (ts + [t])[..|ts|] == ts;
  }

  // ---------------------------------------------------------- totals by type

  /** `SUM(value) WHERE type = kind`, taken as 0 when no row has that type. */
  function KindTotal(ts: seq<Transaction>, kind: string): int
  {
    if ts == [] then 0
    else KindTotal(ts[..|ts| - 1], kind) + (if ts[|ts| - 1].kind == kind then ts[|ts| - 1].value else 0)
  }

  lemma {:induction false} KindTotalAppend(s: seq<Transaction>, t: seq<Transaction>, kind: string)
    ensures KindTotal(s + t, kind) == KindTotal(s, kind) + KindTotal(t, kind)
    decreases |t|
  {
    if t == [] {
      assert s + t == s;
    } else {
      assert (s + t)[..|s + t| - 1] == s + t[..|t| - 1];
      KindTotalAppend(s, t[..|t| - 1], kind);
    }
  }

  /** A type no row has totals to 0. */
  lemma {:induction false} KindTotalAbsent(ts: seq<Transaction>, kind: string)
    requires forall i :: 0 <= i < |ts| ==> ts[i].kind != kind
    ensures KindTotal(ts, kind) == 0
  {
    if ts != [] {
      KindTotalAbsent(ts[..|ts| - 1], kind);
    }
  }

  /** The total does not depend on the order of the rows: any permutation of
      the rows (an `ORDER BY`) has the same per-type sums. */
  lemma {:induction false} KindTotalPermutation(s: seq<Transaction>, t: seq<Transaction>, kind: string)
    requires multiset(s) == multiset(t)
    ensures KindTotal(s, kind) == KindTotal(t, kind)
    decreases |s|
  {
    if s == [] {
      assert |t| == |multiset(t)| == 0;
    } else {
      var s' := s[..|s| - 1];
      var x := s[|s| - 1];
      assert s == s' + [x];
      assert x in multiset(t);
      var j :| 0 <= j < |t| && t[j] == x;
      var t' := t[..j] + t[j + 1..];
      RemoveKeepsRest(t, j);
      KindTotalPermutation(s', t', kind);
      KindTotalRemove(t, j, kind);
    }
  }

  lemma RemoveKeepsRest(t: seq<Transaction>, j: int)
    requires 0 <= j < |t|
    ensures multiset(t[..j] + t[j + 1..]) == multiset(t) - multiset{t[j]}
  {
    assert t == t[..j] + [t[j]] + t[j + 1..];
  }

  lemma KindTotalRemove(t: seq<Transaction>, j: int, kind: string)
    requires 0 <= j < |t|
    ensures KindTotal(t, kind) ==
      KindTotal(t[..j] + t[j + 1..], kind) + (if t[j].kind == kind then t[j].value else 0)
  {
    assert t == t[..j] + [t[j]] + t[j + 1..];
    KindTotalAppend(t[..j] + [t[j]], t[j + 1..], kind);
    KindTotalAppend(t[..j], [t[j]], kind);
    KindTotalAppend(t[..j], t[j + 1..], kind);
    assert [t[j]][..0] == [];
  }

  /** The per-type figures the listing summary and the dashboard KPIs report. */
  datatype Totals = Totals(income: int, expense: int, investment: int, balance: int)

  /** Income, expense and investment totals of `ts`; the balance is income
      minus expense, investment left out. */
  function TotalsOf(ts: seq<Transaction>): (r: Totals)
    ensures r.balance == r.income - r.expense
  {
    var income := KindTotal(ts, "income");
    var expense := KindTotal(ts, "expense");
    Totals(income, expense, KindTotal(ts, "investment"), income - expense)
  }

  /** Reordering the rows does not change any figure. */
  lemma TotalsOfPermutation(s: seq<Transaction>, t: seq<Transaction>)
    requires multiset(s) == multiset(t)
    ensures TotalsOf(s) == TotalsOf(t)
  {
    KindTotalPermutation(s, t, "income");
    KindTotalPermutation(s, t, "expense");
    KindTotalPermutation(s, t, "investment");
  }

  // --------------------------------------------------------- GROUP BY + SUM

  /** `SUM(v)` over the (key, v) rows whose key is `k`. */
  function KeySum<K(==)>(items: seq<(K, int)>, k: K): int
  {
    if items == [] then 0
    else KeySum(items[..|items| - 1], k) + (if items[|items| - 1].0 == k then items[|items| - 1].1 else 0)
  }

  function Keys<K>(items: seq<(K, int)>): (r: seq<K>)
    ensures |r| == |items|
    ensures forall i :: 0 <= i < |items| ==> r[i] == items[i].0
  {
    seq(|items|, i requires 0 <= i < |items| => items[i].0)
  }

  lemma {:induction false} KeySumAbsent<K>(items: seq<(K, int)>, k: K)
    requires k !in Keys(items)
    ensures KeySum(items, k) == 0
  {
    if items != [] {
      var items' := items[..|items| - 1];
      assert forall i :: 0 <= i < |items'| ==> Keys(items')[i] == Keys(items)[i];
      KeySumAbsent(items', k);
    }
  }

  /** Index of the group with key `k`. */
  function GroupIndex<K(==)>(gs: seq<(K, int)>, k: K): (r: Option<nat>)
    ensures r.Some? ==> r.value < |gs| && gs[r.value].0 == k
    ensures r.None? ==> k !in Keys(gs)
  {
    if gs == [] then None
    else if gs[0].0 == k then Some(0)
    else match GroupIndex(gs[1..], k)
      case None =>
        assert forall i :: 1 <= i < |gs| ==> Keys(gs)[i] == Keys(gs[1..])[i - 1];
        None
      case Some(i) => Some(i + 1)
  }

  predicate DistinctKeys<K(==)>(gs: seq<(K, int)>)
  {
    forall i, j :: 0 <= i < j < |gs| ==> gs[i].0 != gs[j].0
  }

  /** `GROUP BY key` with `SUM(value)`: one group per distinct key, in order
      of first appearance, each carrying the sum of its rows. */
  function GroupSum<K(==)>(items: seq<(K, int)>): (gs: seq<(K, int)>)
    ensures GroupsOf(items, gs)
  {
    if items == [] then []
    else
      var items' := items[..|items| - 1];
      var item := items[|items| - 1];
      var gs' := GroupSum(items');
      assert items == items' + [item];
      match GroupIndex(gs', item.0)
      case None =>
        GroupNew(items', item, gs');
        gs' + [item]
      case Some(n) =>
        GroupAdd(items', item, gs', n);
        gs'[n := (item.0, gs'[n].1 + item.1)]
  }

  /** The invariant of the grouping: distinct keys, each group's sum, and
      the same keys as the rows. */
  predicate GroupsOf<K(==)>(items: seq<(K, int)>, gs: seq<(K, int)>)
  {
    && DistinctKeys(gs)
    && (forall i :: 0 <= i < |gs| ==> gs[i].1 == KeySum(items, gs[i].0))
    && (forall i :: 0 <= i < |gs| ==> gs[i].0 in Keys(items))
    && (forall j :: 0 <= j < |items| ==> items[j].0 in Keys(gs))
  }

  lemma KeySumSnoc<K>(items: seq<(K, int)>, item: (K, int), k: K)
    ensures KeySum(items + [item], k) == KeySum(items, k) + (if item.0 == k then item.1 else 0)
  {
    assert (items + [item])[..|items|] == items;
  }

  lemma KeysSnoc<K>(items: seq<(K, int)>, item: (K, int))
    ensures forall k :: k in Keys(items + [item]) <==> k in Keys(items) || k == item.0
  {
    var all := items + [item];
    assert forall j :: 0 <= j < |items| ==> Keys(all)[j] == Keys(items)[j];
    assert Keys(all)[|items|] == item.0;
    assert Keys(all) == Keys(items) + [item.0];
  }

  /** A row with a new key opens a group of its own at the end. */
  lemma GroupNew<K>(items: seq<(K, int)>, item: (K, int), gs: seq<(K, int)>)
    requires GroupsOf(items, gs) && item.0 !in Keys(gs)
    ensures GroupsOf(items + [item], gs + [item])
  {
    KeysSnoc(items, item);
    KeysSnoc(gs, item);
    assert item.0 !in Keys(items);
    KeySumAbsent(items, item.0);
    forall k { KeySumSnoc(items, item, k); }
  }

  /** A row with a known key adds its value to that group. */
  lemma GroupAdd<K>(items: seq<(K, int)>, item: (K, int), gs: seq<(K, int)>, n: nat)
    requires GroupsOf(items, gs) && n < |gs| && gs[n].0 == item.0
    ensures GroupsOf(items + [item], gs[n := (item.0, gs[n].1 + item.1)])
  {
    KeysSnoc(items, item);
    GroupMerge(gs, n, item);
    forall k { KeySumSnoc(items, item, k); }
  }

  lemma GroupMerge<K>(gs: seq<(K, int)>, n: nat, item: (K, int))
    requires n < |gs| && gs[n].0 == item.0
    ensures forall k :: k in Keys(gs[n := (item.0, gs[n].1 + item.1)]) <==> k in Keys(gs)
  {
    var r := gs[n := (item.0, gs[n].1 + item.1)];
    assert Keys(r) == Keys(gs);
  }
}
