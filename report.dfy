/** The expenses report (backend/app/crud/report.py): expenses by category
    within optional bounds, largest total first. */
module ReportCrud {
  import opened Base
  import opened Calendar
  import opened Models
  import opened Ordering
  import opened DashboardCrud

  /** `ORDER BY SUM(value) DESC`. */
  function TotalKey(g: (Option<string>, int)): (int, int)
  {
    (g.1, 0)
  }

  /** The grouped expenses in report order. */
  function ReportGroups(categories: seq<Category>, ts: seq<Transaction>,
                        start: Option<Date>, end: Option<Date>): seq<(Option<string>, int)>
  {
    SortDesc(ExpenseGroups(categories, ts, start, end), TotalKey)
  }

  /** `get_report_expenses_by_category`. */
  function GetReportExpensesByCategory(categories: seq<Category>, ts: seq<Transaction>,
                                       start: Option<Date>, end: Option<Date>): seq<CategoryExpense>
  {
    Labelled(ReportGroups(categories, ts, start, end))
  }

  /** The report holds the same entries as the dashboard's expenses by
      category, ordered by total, largest first. */
  lemma ReportSpec(categories: seq<Category>, ts: seq<Transaction>, start: Option<Date>, end: Option<Date>)
    ensures var r := GetReportExpensesByCategory(categories, ts, start, end);
      var d := GetExpensesByCategory(categories, ts, start, end);
      && |r| == |d|
      && (forall i :: 0 <= i < |r| ==> r[i] in d)
      && (forall j :: 0 <= j < |d| ==> d[j] in r)
      && multiset(r) == multiset(d)
      && (forall i, j :: 0 <= i < j < |r| ==> r[i].value >= r[j].value)
  {
    var g := ExpenseGroups(categories, ts, start, end);
    SortPermutes(g, TotalKey);
    SortSorted(g, TotalKey);
    LabelledPermutation(ReportGroups(categories, ts, start, end), g);
    LabelledMultiset(ReportGroups(categories, ts, start, end), g);
    LabelledDescending(ReportGroups(categories, ts, start, end));
  }

  lemma LabelledPermutation(s: seq<(Option<string>, int)>, g: seq<(Option<string>, int)>)
    requires multiset(s) == multiset(g)
    ensures |Labelled(s)| == |Labelled(g)|
    ensures forall i :: 0 <= i < |s| ==> Labelled(s)[i] in Labelled(g)
    ensures forall j :: 0 <= j < |g| ==> Labelled(g)[j] in Labelled(s)
  {
    assert |s| == |multiset(s)| == |multiset(g)| == |g|;
    forall i | 0 <= i < |s| ensures Labelled(s)[i] in Labelled(g) {
      assert s[i] in multiset(g);
      var j :| 0 <= j < |g| && g[j] == s[i];
      assert Labelled(g)[j] == Labelled(s)[i];
    }
    forall j | 0 <= j < |g| ensures Labelled(g)[j] in Labelled(s) {
      assert g[j] in multiset(s);
      var i :| 0 <= i < |s| && s[i] == g[j];
      assert Labelled(s)[i] == Labelled(g)[j];
    }
  }

  /** Labelling is done entry by entry. */
  lemma LabelledAppend(a: seq<(Option<string>, int)>, b: seq<(Option<string>, int)>)
    ensures Labelled(a + b) == Labelled(a) + Labelled(b)
  {
    assert forall i :: 0 <= i < |a| ==> (a + b)[i] == a[i];
    assert forall i :: |a| <= i < |a + b| ==> (a + b)[i] == b[i - |a|];
  }

  /** Groups that are a permutation of each other label to entries that are a
      permutation of each other, repeated labels included. */
  lemma {:induction false} LabelledMultiset(s: seq<(Option<string>, int)>, g: seq<(Option<string>, int)>)
    requires multiset(s) == multiset(g)
    ensures multiset(Labelled(s)) == multiset(Labelled(g))
  {
    if s == [] {
      assert |g| == |multiset(g)| == 0;
    } else {
      var x := s[0];
      assert x in multiset(g);
      var j :| 0 <= j < |g| && g[j] == x;
      var rest := g[..j] + g[j + 1..];
      assert g == g[..j] + [x] + g[j + 1..];
      assert s == [x] + s[1..];
      assert multiset(rest) == multiset(g) - multiset{x};
      LabelledMultiset(s[1..], rest);
      LabelledAppend([x], s[1..]);
      LabelledAppend(g[..j] + [x], g[j + 1..]);
      LabelledAppend(g[..j], [x]);
      LabelledAppend(g[..j], g[j + 1..]);
    }
  }

  lemma LabelledDescending(s: seq<(Option<string>, int)>)
    requires SortedDesc(s, TotalKey)
    ensures forall i, j :: 0 <= i < j < |s| ==> Labelled(s)[i].value >= Labelled(s)[j].value
  {
    forall i, j | 0 <= i < j < |s| ensures Labelled(s)[i].value >= Labelled(s)[j].value {
      assert KeyGeq(TotalKey(s[i]), TotalKey(s[j]));
    }
  }
}
