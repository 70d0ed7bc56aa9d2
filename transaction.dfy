/** Transactions (backend/app/crud/transaction.py): quick entry, the recent
    rows, the filtered listing with its summary, the month list, update,
    delete and the count of uncategorised rows. */
module TransactionCrud {
  import opened Base
  import opened Text
  import opened Calendar
  import opened Models
  import opened CategoryCrud
  import opened Ordering
  import opened Aggregates

  /** Python truthiness of an optional string: NULL and "" are false. */
  predicate TextGiven(s: Option<string>)
  {
    s.Some? && s.value != ""
  }

  /** The position of the row with id `id`; `.filter(id == ...).first()`. */
  function TransactionIndex(ts: seq<Transaction>, id: int): (r: Option<nat>)
    ensures r.Some? ==> r.value < |ts| && ts[r.value].id == id
    ensures r.None? <==> forall i :: 0 <= i < |ts| ==> ts[i].id != id
  {
    FirstIndex(ts, (t: Transaction) => t.id == id)
  }

  /** Each row with the name of its category (the outer join). */
  function Details(categories: seq<Category>, ts: seq<Transaction>): (r: seq<TransactionDetail>)
    ensures |r| == |ts|
    ensures forall i :: 0 <= i < |ts| ==> r[i] == Detail(categories, ts[i])
  {
    seq(|ts|, i requires 0 <= i < |ts| => Detail(categories, ts[i]))
  }

  /** The rows behind a list of details. */
  function TxsOf(r: seq<TransactionDetail>): (ts: seq<Transaction>)
    ensures |ts| == |r|
    ensures forall i :: 0 <= i < |r| ==> ts[i] == r[i].tx
  {
    seq(|r|, i requires 0 <= i < |r| => r[i].tx)
  }

  // ---------------------------------------------------------------- quick entry

  /** The body of a quick entry (`TransactionQuickCreate`). */
  datatype QuickEntry = QuickEntry(
    description: string,
    value: int,
    kind: string,
    categoryName: Option<string>,
    date: Option<Date>)

  /** The category of a quick entry: the category named in the entry when
      the name is non-empty and exists, otherwise the keyword match on the
      description as sent (before stripping). */
  function QuickEntryCategory(categories: seq<Category>, e: QuickEntry): Option<Category>
  {
    ResolveCategory(categories, if TextGiven(e.categoryName) then e.categoryName else None, e.description)
  }

  /** The row a quick entry dated `date` stores under id `id`. */
  function QuickEntryRow(categories: seq<Category>, e: QuickEntry, date: Date, id: int): Transaction
  {
    Transaction(id, date, Strip(e.description), e.value, LowerStrip(e.kind),
                IdOf(QuickEntryCategory(categories, e)), None)
  }

  /** The text a quick entry stores is already in normal form: stripping the
      description or normalising the type again changes nothing. */
  lemma QuickEntryNormalised(categories: seq<Category>, e: QuickEntry, date: Date, id: int)
    ensures var t := QuickEntryRow(categories, e, date, id);
      Strip(t.description) == t.description && LowerStrip(t.kind) == t.kind && t.account.None?
  {
    StripIdempotent(e.description);
    LowerStripIdempotent(e.kind);
  }

  /** The category rule of a quick entry: a non-empty name that exists wins;
      otherwise the keyword match decides, and the row is uncategorised
      exactly when no keyword matches either. */
  lemma QuickEntryCategoryRule(categories: seq<Category>, e: QuickEntry)
    ensures TextGiven(e.categoryName) && GetCategoryByName(categories, e.categoryName.value).Some? ==>
      QuickEntryCategory(categories, e) == GetCategoryByName(categories, e.categoryName.value)
    ensures !(TextGiven(e.categoryName) && GetCategoryByName(categories, e.categoryName.value).Some?) ==>
      QuickEntryCategory(categories, e) == FindCategoryByKeyword(categories, e.description)
    ensures !TextGiven(e.categoryName) ==>
      (QuickEntryCategory(categories, e).None? <==>
        forall i :: 0 <= i < |categories| ==> !MatchesDescription(categories[i], Lower(e.description)))
  {
    ResolveCategorySpec(categories, if TextGiven(e.categoryName) then e.categoryName else None, e.description);
  }

  /** `create_quick_entry`: the entry's date or, without one, `today`. */
  method CreateQuickEntry(db: Store, e: QuickEntry, today: Date) returns (t: Transaction)
    requires db.Valid()
    modifies db
    ensures db.Valid()
    ensures t == QuickEntryRow(old(db.categories), e, e.date.GetOr(today), old(db.nextId))
    ensures db.transactions == old(db.transactions) + [t]
    ensures db.categories == old(db.categories) && db.goals == old(db.goals)
    ensures db.importLogs == old(db.importLogs) && db.nextId == old(db.nextId) + 1
  {
    var date := if e.date.Some? then e.date.value else today;
    t := QuickEntryRow(db.categories, e, date, db.nextId);
    AddTransaction(db, t);
  }

  /** `db.add` and `commit` of one new row carrying the next id. */
  method AddTransaction(db: Store, t: Transaction)
    requires db.Valid() && t.id == db.nextId
    modifies db
    ensures db.Valid()
    ensures db.transactions == old(db.transactions) + [t]
    ensures db.categories == old(db.categories) && db.goals == old(db.goals)
    ensures db.importLogs == old(db.importLogs) && db.nextId == old(db.nextId) + 1
  {
    db.transactions := db.transactions + [t];
    db.nextId := db.nextId + 1;
  }

  // ---------------------------------------------------------------- recent rows

  /** `ORDER BY date DESC, id DESC`. */
  function RecentKey(t: Transaction): (int, int)
  {
    (t.date, t.id)
  }

  /** The rows `get_recent_transactions` returns, before the join. */
  function RecentRows(ts: seq<Transaction>, start: Option<Date>, end: Option<Date>, limit: nat): seq<Transaction>
  {
    Take(SortDesc(RowsInPeriod(ts, start, end), RecentKey), limit)
  }

  /** `get_recent_transactions`: the rows within the bounds, newest first,
      at most `limit` of them, with their category names. */
  function GetRecentTransactions(categories: seq<Category>, ts: seq<Transaction>,
                                 start: Option<Date>, end: Option<Date>, limit: nat): seq<TransactionDetail>
  {
    Details(categories, RecentRows(ts, start, end, limit))
  }

  /** The recent rows are stored rows within the bounds, in (date, id)
      descending order. */
  lemma RecentRowsSorted(ts: seq<Transaction>, start: Option<Date>, end: Option<Date>, limit: nat)
    ensures var r := RecentRows(ts, start, end, limit);
      && |r| <= limit
      && (forall i :: 0 <= i < |r| ==> r[i] in ts && InPeriod(r[i].date, start, end))
      && multiset(r) <= multiset(RowsInPeriod(ts, start, end))
      && SortedDesc(r, RecentKey)
  {
    var f := RowsInPeriod(ts, start, end);
    var s := SortDesc(f, RecentKey);
    var r := RecentRows(ts, start, end, limit);
    SortSorted(f, RecentKey);
    SortPermutes(f, RecentKey);
    TakeSubMultiset(s, limit);
    forall i | 0 <= i < |r| ensures r[i] in ts && InPeriod(r[i].date, start, end) {
      assert r[i] == s[i];
      assert s[i] in multiset(f);
      var j :| 0 <= j < |f| && f[j] == s[i];
      assert f[j] in multiset(ts);
    }
  }

  /** A stored row within the bounds that is not among the recent rows comes
      after every one of them, and is only left out when `limit` rows were
      returned. */
  lemma RecentRowsAreTop(ts: seq<Transaction>, start: Option<Date>, end: Option<Date>, limit: nat)
    ensures var r := RecentRows(ts, start, end, limit);
      forall k :: 0 <= k < |ts| && InPeriod(ts[k].date, start, end) && ts[k] !in r ==>
        |r| == limit && forall i :: 0 <= i < |r| ==> KeyGeq(RecentKey(r[i]), RecentKey(ts[k]))
  {
    var f := RowsInPeriod(ts, start, end);
    var s := SortDesc(f, RecentKey);
    SortSorted(f, RecentKey);
    SortPermutes(f, RecentKey);
    TakeIsTop(s, limit, RecentKey);
    forall k | 0 <= k < |ts| && InPeriod(ts[k].date, start, end) ensures ts[k] in s {
      assert ts[k] in multiset(f);
    }
  }

  /** `get_recent_transactions` in full: at most `limit` stored rows within
      the bounds, newest first by (date, id), each with its category name; a
      row within the bounds that is left out comes after every row returned,
      and is only left out when `limit` rows were returned. */
  lemma RecentTransactionsSpec(categories: seq<Category>, ts: seq<Transaction>,
                               start: Option<Date>, end: Option<Date>, limit: nat)
    ensures var r := GetRecentTransactions(categories, ts, start, end, limit);
      && |r| <= limit
      && (forall i :: 0 <= i < |r| ==> r[i].tx in ts && InPeriod(r[i].tx.date, start, end))
      && multiset(TxsOf(r)) <= multiset(RowsInPeriod(ts, start, end))
      && (forall i :: 0 <= i < |r| ==> r[i].categoryName == JoinedName(categories, r[i].tx.categoryId))
      && (forall i, j :: 0 <= i < j < |r| ==> KeyGeq(RecentKey(r[i].tx), RecentKey(r[j].tx)))
      && (forall k :: (0 <= k < |ts| && InPeriod(ts[k].date, start, end) &&
                       (forall i :: 0 <= i < |r| ==> r[i].tx != ts[k])) ==>
            |r| == limit && forall i :: 0 <= i < |r| ==> KeyGeq(RecentKey(r[i].tx), RecentKey(ts[k])))
  {
    var rows := RecentRows(ts, start, end, limit);
    var r := GetRecentTransactions(categories, ts, start, end, limit);
    RecentRowsSorted(ts, start, end, limit);
    RecentRowsAreTop(ts, start, end, limit);
    assert forall i :: 0 <= i < |r| ==> r[i].tx == rows[i];
    assert TxsOf(r) == rows;
    forall k | 0 <= k < |ts| && (forall i :: 0 <= i < |r| ==> r[i].tx != ts[k]) ensures ts[k] !in rows {
    }
  }

  // ---------------------------------------------------------------- listing

  /** The optional filters of `get_all_transactions`. */
  datatype ListingQuery = ListingQuery(search: Option<string>, kind: Option<string>, monthYear: Option<string>)

  predicate IsDash(c: char)
  {
    c == '-'
  }

  /** `year, month = map(int, month_year.split("-"))`; `None` is the
      ValueError (not two pieces, or a piece that is not an integer). */
  function ParseMonthYear(s: string): Option<(int, int)>
  {
    var pieces := Split(s, IsDash);
    if |pieces| != 2 then None
    else match (ParseInt(pieces[0]), ParseInt(pieces[1]))
      case (Some(y), Some(m)) => Some((y, m))
      case _ => None
  }

  /** A month filter only applies to text with exactly one dash. */
  lemma MonthYearHasOneDash(s: string)
    requires ParseMonthYear(s).Some?
    ensures |SeparatorsOf(s, IsDash)| == 1
  {
    SplitCount(s, IsDash);
  }

  /** The search filter: the lowercased term inside the lowercased
      description or the lowercased category name (a row without a
      category name only matches on its description). */
  predicate SearchHit(categories: seq<Category>, term: string, t: Transaction)
  {
    || Contains(Lower(t.description), Lower(term))
    || (JoinedName(categories, t.categoryId).Some? &&
        Contains(Lower(JoinedName(categories, t.categoryId).value), Lower(term)))
  }

  /** The `WHERE` of `get_all_transactions`: each filter applies when its
      text is non-empty, and the month filter only when it parses. */
  predicate Listed(categories: seq<Category>, q: ListingQuery, t: Transaction)
  {
    && (TextGiven(q.kind) ==> t.kind == q.kind.value)
    && (TextGiven(q.monthYear) && ParseMonthYear(q.monthYear.value).Some? ==>
          (Year(t.date), Month(t.date)) == ParseMonthYear(q.monthYear.value).value)
    && (TextGiven(q.search) ==> SearchHit(categories, q.search.value, t))
  }

  /** The stored rows the filters keep, in storage order. */
  function Matching(categories: seq<Category>, ts: seq<Transaction>, q: ListingQuery): (r: seq<Transaction>)
    ensures forall i :: 0 <= i < |r| ==> Listed(categories, q, r[i])
    ensures forall i :: 0 <= i < |ts| && Listed(categories, q, ts[i]) ==> ts[i] in r
    ensures multiset(r) <= multiset(ts)
  {
    Filter(ts, (t: Transaction) => Listed(categories, q, t))
  }

  /** `ORDER BY date DESC`. */
  function DateKey(t: Transaction): (int, int)
  {
    (t.date, 0)
  }

  /** The rows of the listing, newest date first. */
  function ListedRows(categories: seq<Category>, ts: seq<Transaction>, q: ListingQuery): seq<Transaction>
  {
    SortDesc(Matching(categories, ts, q), DateKey)
  }

  /** The listing holds exactly the stored rows the filters keep, each once,
      newest date first. */
  lemma ListingSpec(categories: seq<Category>, ts: seq<Transaction>, q: ListingQuery)
    ensures var r := ListedRows(categories, ts, q);
      && multiset(r) == multiset(Matching(categories, ts, q))
      && multiset(r) <= multiset(ts)
      && (forall i :: 0 <= i < |r| ==> Listed(categories, q, r[i]))
      && (forall k :: 0 <= k < |ts| && Listed(categories, q, ts[k]) ==> ts[k] in r)
      && (forall i, j :: 0 <= i < j < |r| ==> r[i].date >= r[j].date)
  {
    var m := Matching(categories, ts, q);
    var r := ListedRows(categories, ts, q);
    SortPermutes(m, DateKey);
    SortSorted(m, DateKey);
    forall i | 0 <= i < |r| ensures Listed(categories, q, r[i]) {
      assert r[i] in multiset(m);
    }
    forall k | 0 <= k < |ts| && Listed(categories, q, ts[k]) ensures ts[k] in r {
      assert ts[k] in multiset(m);
    }
    forall i, j | 0 <= i < j < |r| ensures r[i].date >= r[j].date {
      assert KeyGeq(DateKey(r[i]), DateKey(r[j]));
    }
  }

  /** `get_all_transactions`: the listing, and its summary accumulated over
      the listed rows. The summary is the per-type totals of the rows the
      filters keep, whatever their order. */
  method GetAllTransactions(categories: seq<Category>, ts: seq<Transaction>, q: ListingQuery)
    returns (rows: seq<TransactionDetail>, summary: Totals)
    ensures rows == Details(categories, ListedRows(categories, ts, q))
    ensures summary == TotalsOf(Matching(categories, ts, q))
  {
    var listed := ListedRows(categories, ts, q);
    rows := Details(categories, listed);
    var income, expense, investment := 0, 0, 0;
    for i := 0 to |rows|
      invariant income == KindTotal(listed[..i], "income")
      invariant expense == KindTotal(listed[..i], "expense")
      invariant investment == KindTotal(listed[..i], "investment")
    {
      var tx := rows[i].tx;
      assert listed[..i + 1][..i] == listed[..i];
      if tx.kind == "income" {
        income := income + tx.value;
      } else if tx.kind == "expense" {
        expense := expense + tx.value;
      } else if tx.kind == "investment" {
        investment := investment + tx.value;
      }
    }
    assert listed[..|rows|] == listed;
    summary := Totals(income, expense, investment, income - expense);
    SortPermutes(Matching(categories, ts, q), DateKey);
    TotalsOfPermutation(listed, Matching(categories, ts, q));
  }

  // ---------------------------------------------------------------- months

  /** `f"{year}-{str(month).zfill(2)}"`. */
  function MonthLabel(year: int, month: int): string
  {
    IntToString(year) + "-" + ZFill2(IntToString(month))
  }

  lemma DigitsHaveNoDash(s: string)
    requires AllDigits(s)
    ensures forall k :: 0 <= k < |s| ==> !IsDash(s[k])
  {
  }

  /** A month label parses back, through the listing's month filter, to the
      year and month it was made from. */
  lemma MonthLabelRoundTrip(year: nat, month: nat)
    ensures ParseMonthYear(MonthLabel(year, month)) == Some((year, month))
  {
    MonthLabelPieces(year, month);
    ParseIntOfZFilled(month);
    ParseIntOfDigits(year);
  }

  lemma MonthLabelPieces(year: nat, month: nat)
    ensures Split(MonthLabel(year, month), IsDash) == [NatToDigits(year), ZFill2(NatToDigits(month))]
  {
    var a := NatToDigits(year);
    var b := ZFill2(NatToDigits(month));
    assert MonthLabel(year, month) == a + ['-'] + b;
    assert AllDigits(b) by {
      if |NatToDigits(month)| < 2 {
        LeadingZerosIgnored(2 - |NatToDigits(month)|, NatToDigits(month));
      }
    }
    SplitAtSeparator(a, '-', b, IsDash);
    SplitNoSeparator(b, IsDash);
  }

  /** Different months have different labels. */
  lemma MonthLabelInjective(y1: nat, m1: nat, y2: nat, m2: nat)
    requires MonthLabel(y1, m1) == MonthLabel(y2, m2)
    ensures y1 == y2 && m1 == m2
  {
    MonthLabelRoundTrip(y1, m1);
    MonthLabelRoundTrip(y2, m2);
  }

  function MonthOf(t: Transaction): (int, int)
  {
    (Year(t.date), Month(t.date))
  }

  /** `a` is a later month than `b`. */
  predicate MonthAfter(a: (int, int), b: (int, int))
  {
    a.0 > b.0 || (a.0 == b.0 && a.1 > b.1)
  }

  predicate StrictlyDescending(ms: seq<(int, int)>)
  {
    forall i, j :: 0 <= i < j < |ms| ==> MonthAfter(ms[i], ms[j])
  }

  /** Adds a month to a strictly descending list unless it is already there. */
  function InsertMonth(m: (int, int), ms: seq<(int, int)>): seq<(int, int)>
  {
    if ms == [] then [m]
    else if m == ms[0] then ms
    else if MonthAfter(m, ms[0]) then [m] + ms
    else [ms[0]] + InsertMonth(m, ms[1..])
  }

  lemma {:induction false} InsertMonthSpec(m: (int, int), ms: seq<(int, int)>)
    requires StrictlyDescending(ms)
    ensures StrictlyDescending(InsertMonth(m, ms))
    ensures forall x :: x in InsertMonth(m, ms) <==> x == m || x in ms
    decreases |ms|
  {
    if ms != [] && m != ms[0] && !MonthAfter(m, ms[0]) {
      InsertMonthSpec(m, ms[1..]);
      var rest := InsertMonth(m, ms[1..]);
      assert ms == [ms[0]] + ms[1..];
      forall j | 0 <= j < |rest| ensures MonthAfter(ms[0], rest[j]) {
        assert rest[j] in rest;
      }
    }
  }

  /** `SELECT DISTINCT year, month ... ORDER BY year DESC, month DESC`. */
  function MonthsOf(ts: seq<Transaction>): seq<(int, int)>
  {
    if ts == [] then [] else InsertMonth(MonthOf(ts[|ts| - 1]), MonthsOf(ts[..|ts| - 1]))
  }

  /** Some transaction falls in month `m`. */
  predicate HasMonth(ts: seq<Transaction>, m: (int, int))
  {
    exists k :: 0 <= k < |ts| && MonthOf(ts[k]) == m
  }

  lemma HasMonthSnoc(ts: seq<Transaction>, m: (int, int))
    requires ts != []
    ensures HasMonth(ts, m) <==> HasMonth(ts[..|ts| - 1], m) || MonthOf(ts[|ts| - 1]) == m
  {
    var ts' := ts[..|ts| - 1];
    if HasMonth(ts', m) {
      var k :| 0 <= k < |ts'| && MonthOf(ts'[k]) == m;
      assert ts[k] == ts'[k];
    }
    if HasMonth(ts, m) && MonthOf(ts[|ts| - 1]) != m {
      var k :| 0 <= k < |ts| && MonthOf(ts[k]) == m;
      assert ts'[k] == ts[k];
    }
  }

  /** The distinct months of the rows, strictly descending. */
  lemma {:induction false} MonthsOfSpec(ts: seq<Transaction>)
    ensures StrictlyDescending(MonthsOf(ts))
    ensures forall m :: m in MonthsOf(ts) <==> HasMonth(ts, m)
  {
    if ts != [] {
      var ts' := ts[..|ts| - 1];
      MonthsOfSpec(ts');
      InsertMonthSpec(MonthOf(ts[|ts| - 1]), MonthsOf(ts'));
      forall m ensures m in MonthsOf(ts) <==> HasMonth(ts, m) {
        HasMonthSnoc(ts, m);
      }
    }
  }

  /** `get_available_months`. */
  function GetAvailableMonths(ts: seq<Transaction>): seq<string>
  {
    var ms := MonthsOf(ts);
    seq(|ms|, i requires 0 <= i < |ms| => MonthLabel(ms[i].0, ms[i].1))
  }

  /** Every label is the label of a listed month, and parses back to it. */
  lemma AvailableMonthsParse(ts: seq<Transaction>)
    ensures var r := GetAvailableMonths(ts);
      forall i :: 0 <= i < |r| ==> ParseMonthYear(r[i]) == Some(MonthsOf(ts)[i])
  {
    var ms := MonthsOf(ts);
    MonthsOfSpec(ts);
    forall i | 0 <= i < |ms| ensures ParseMonthYear(GetAvailableMonths(ts)[i]) == Some(ms[i]) {
      assert ms[i] in ms;
      var k :| 0 <= k < |ts| && MonthOf(ts[k]) == ms[i];
      MonthLabelRoundTrip(ms[i].0, ms[i].1);
    }
  }

  /** One label per month that has a transaction, latest first, no label
      twice; each label selects its month in the listing. */
  lemma AvailableMonthsSpec(ts: seq<Transaction>)
    ensures var r := GetAvailableMonths(ts);
      && (forall k :: 0 <= k < |ts| ==> MonthLabel(MonthOf(ts[k]).0, MonthOf(ts[k]).1) in r)
      && (forall i :: 0 <= i < |r| ==>
            ParseMonthYear(r[i]).Some? && HasMonth(ts, ParseMonthYear(r[i]).value))
      && (forall i, j :: 0 <= i < j < |r| ==>
            MonthAfter(ParseMonthYear(r[i]).value, ParseMonthYear(r[j]).value))
  {
    var ms := MonthsOf(ts);
    var r := GetAvailableMonths(ts);
    MonthsOfSpec(ts);
    AvailableMonthsParse(ts);
    forall k | 0 <= k < |ts| ensures MonthLabel(MonthOf(ts[k]).0, MonthOf(ts[k]).1) in r {
      assert HasMonth(ts, MonthOf(ts[k]));
      var i :| 0 <= i < |ms| && ms[i] == MonthOf(ts[k]);
      assert r[i] == MonthLabel(ms[i].0, ms[i].1);
    }
    forall i | 0 <= i < |r| ensures HasMonth(ts, ms[i]) {
      assert ms[i] in ms;
    }
  }

  // ---------------------------------------------------------------- delete

  /** `delete_transaction`: 404 for an unknown id; otherwise that one row
      is removed. */
  method DeleteTransaction(db: Store, id: int) returns (r: Result<()>)
    requires db.Valid()
    modifies db
    ensures db.Valid()
    ensures db.categories == old(db.categories) && db.goals == old(db.goals)
    ensures db.importLogs == old(db.importLogs) && db.nextId == old(db.nextId)
    ensures TransactionIndex(old(db.transactions), id).None? ==>
      r == Err(NotFound) && db.transactions == old(db.transactions)
    ensures TransactionIndex(old(db.transactions), id).Some? ==>
      r == Ok(()) &&
      db.transactions == RemoveAt(old(db.transactions), TransactionIndex(old(db.transactions), id).value)
    ensures forall i :: 0 <= i < |db.transactions| ==> db.transactions[i].id != id
  {
    match TransactionIndex(db.transactions, id)
    case None =>
      r := Err(NotFound);
    case Some(k) =>
      ghost var before := db.transactions;
      db.transactions := RemoveAt(db.transactions, k);
      forall i | 0 <= i < |db.transactions| ensures db.transactions[i].id != id {
        if i < k {
          assert before[i].id < before[k].id;
        } else {
          assert before[k].id < before[i + 1].id;
        }
      }
      r := Ok(());
  }

  // ---------------------------------------------------------------- update

  /** The body of an update (`TransactionUpdate`); a field not sent and a
      field sent as null are both `None`. */
  datatype TransactionUpdate = TransactionUpdate(
    description: Option<string>,
    value: Option<int>,
    kind: Option<string>,
    categoryName: Option<string>,
    date: Option<Date>)

  /** The category an update leaves on row `t`: unchanged without a
      category name; otherwise the named category, else the keyword match on
      the new description when it is non-empty or the stored one, else none. */
  function UpdatedCategory(categories: seq<Category>, t: Transaction, u: TransactionUpdate): Option<int>
  {
    if u.categoryName.None? then t.categoryId
    else IdOf(ResolveCategory(categories, u.categoryName,
                              if TextGiven(u.description) then u.description.value else t.description))
  }

  /** The row after an update, field by field: a field sent with a value
      replaces the stored one, any other is kept; id and account never
      change. */
  function UpdatedRow(categories: seq<Category>, t: Transaction, u: TransactionUpdate): Transaction
  {
    Transaction(t.id, u.date.GetOr(t.date), u.description.GetOr(t.description),
                u.value.GetOr(t.value), u.kind.GetOr(t.kind), UpdatedCategory(categories, t, u), t.account)
  }

  /** Sending the same update twice has the effect of sending it once, unless
      it sends an empty description, which moves the keyword fallback from
      the old description to the empty one. */
  lemma UpdateIdempotent(categories: seq<Category>, t: Transaction, u: TransactionUpdate)
    requires u.description != Some("")
    ensures UpdatedRow(categories, UpdatedRow(categories, t, u), u) == UpdatedRow(categories, t, u)
  {
  }

  /** An update that sends nothing leaves the row as it was. */
  lemma EmptyUpdateKeepsRow(categories: seq<Category>, t: Transaction)
    ensures UpdatedRow(categories, t, TransactionUpdate(None, None, None, None, None)) == t
  {
  }

  /** One column `setattr` writes. */
  datatype FieldValue =
    | DescriptionField(description: string)
    | ValueField(value: int)
    | KindField(kind: string)
    | DateField(date: Date)

  function SetAttr(t: Transaction, f: FieldValue): Transaction
  {
    match f
    case DescriptionField(d) => t.(description := d)
    case ValueField(v) => t.(value := v)
    case KindField(k) => t.(kind := k)
    case DateField(d) => t.(date := d)
  }

  /** `model_dump(exclude_unset=True)` without `category_name`, in the
      schema's field order; `None` is a field not sent or sent as null. */
  function UpdateData(u: TransactionUpdate): seq<Option<FieldValue>>
  {
    [ if u.description.Some? then Some(DescriptionField(u.description.value)) else None,
      if u.value.Some? then Some(ValueField(u.value.value)) else None,
      if u.kind.Some? then Some(KindField(u.kind.value)) else None,
      if u.date.Some? then Some(DateField(u.date.value)) else None ]
  }

  /** The `setattr` loop applied to the first entries of `items`. */
  function SetAttrs(t: Transaction, items: seq<Option<FieldValue>>): Transaction
  {
    if items == [] then t
    else
      var before := SetAttrs(t, items[..|items| - 1]);
      var item := items[|items| - 1];
      if item.Some? then SetAttr(before, item.value) else before
  }

  /** `update_transaction`: 404 for an unknown id; otherwise the category
      rule, then the `setattr` loop over the fields sent with a value. */
  method UpdateTransaction(db: Store, id: int, u: TransactionUpdate) returns (r: Result<Transaction>)
    requires db.Valid()
    modifies db
    ensures db.Valid()
    ensures db.categories == old(db.categories) && db.goals == old(db.goals)
    ensures db.importLogs == old(db.importLogs) && db.nextId == old(db.nextId)
    ensures TransactionIndex(old(db.transactions), id).None? ==>
      r == Err(NotFound) && db.transactions == old(db.transactions)
    ensures TransactionIndex(old(db.transactions), id).Some? ==>
      var k := TransactionIndex(old(db.transactions), id).value;
      r == Ok(UpdatedRow(old(db.categories), old(db.transactions)[k], u)) &&
      db.transactions == old(db.transactions)[k := r.value]
  {
    match TransactionIndex(db.transactions, id)
    case None =>
      r := Err(NotFound);
    case Some(k) =>
      var t := ApplyUpdate(db.categories, db.transactions[k], u);
      ReplaceTransaction(db, k, t);
      r := Ok(t);
  }

  /** The body of `update_transaction` on the stored row `t`: the category
      rule, then the `setattr` loop over the fields sent with a value. */
  method ApplyUpdate(categories: seq<Category>, t: Transaction, u: TransactionUpdate) returns (t': Transaction)
    ensures t' == UpdatedRow(categories, t, u)
  {
    t' := t;
    if u.categoryName.Some? {
      var description := if TextGiven(u.description) then u.description.value else t.description;
      t' := t'.(categoryId := IdOf(ResolveCategory(categories, u.categoryName, description)));
    }
    var items := UpdateData(u);
    ghost var start := t';
    for i := 0 to |items|
      invariant t' == SetAttrs(start, items[..i])
    {
      assert items[..i + 1][..i] == items[..i];
      if items[i].Some? {
        t' := SetAttr(t', items[i].value);
      }
    }
    assert items[..|items|] == items;
    SetAttrsOfUpdate(start, u);
  }

  /** The `setattr` loop writes exactly the fields sent with a value. */
  lemma SetAttrsOfUpdate(t: Transaction, u: TransactionUpdate)
    ensures SetAttrs(t, UpdateData(u)) ==
      t.(description := u.description.GetOr(t.description), value := u.value.GetOr(t.value),
         kind := u.kind.GetOr(t.kind), date := u.date.GetOr(t.date))
  {
    var items := UpdateData(u);
    assert items[..1][..0] == [] && items[..1][0] == items[0];
    assert SetAttrs(t, items[..1][..0]) == t;
    var t1 := SetAttrs(t, items[..1]);
    assert t1 == t.(description := u.description.GetOr(t.description));
    assert items[..2][..1] == items[..1];
    var t2 := SetAttrs(t, items[..2]);
    assert t2 == t1.(value := u.value.GetOr(t.value));
    assert items[..3][..2] == items[..2];
    var t3 := SetAttrs(t, items[..3]);
    assert t3 == t2.(kind := u.kind.GetOr(t.kind));
    assert items[..3] == items[..|items| - 1];
  }

  /** The commit of an updated row that keeps its id. */
  method ReplaceTransaction(db: Store, k: nat, t: Transaction)
    requires db.Valid() && k < |db.transactions| && t.id == db.transactions[k].id
    modifies db
    ensures db.Valid()
    ensures db.transactions == old(db.transactions)[k := t]
    ensures db.categories == old(db.categories) && db.goals == old(db.goals)
    ensures db.importLogs == old(db.importLogs) && db.nextId == old(db.nextId)
  {
    ghost var before := db.transactions;
    db.transactions := db.transactions[k := t];
    assert forall i :: 0 <= i < |before| ==> db.transactions[i].id == before[i].id;
  }

  // ---------------------------------------------------------------- uncategorised

  /** `get_uncategorized_count`: rows whose `category_id` is NULL. A row
      whose category was deleted keeps its id and is not counted. */
  function UncategorizedCount(ts: seq<Transaction>): (r: nat)
    ensures r <= |ts|
    ensures r == 0 <==> forall i :: 0 <= i < |ts| ==> ts[i].categoryId.Some?
  {
    var rows := Filter(ts, (t: Transaction) => t.categoryId.None?);
    assert rows != [] ==> rows[0] in multiset(ts);
    |rows|
  }

  /** Adding a row raises the count by one exactly when it has no category. */
  lemma UncategorizedCountAppend(ts: seq<Transaction>, t: Transaction)
    ensures UncategorizedCount(ts + [t]) == UncategorizedCount(ts) + (if t.categoryId.None? then 1 else 0)
  {
    FilterAppend(ts, [t], (t: Transaction) => t.categoryId.None?);
    assert [t][..0] == [];
  }
}
