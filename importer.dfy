/** The spreadsheet import (backend/app/crud/importer.py, and its copy in
    backend/crud.py). Reading the file, `pd.to_datetime(..., dayfirst=True)`,
    `float()` and the NFKD header decomposition are library code; they enter
    as the parameters `sheet`, `parseDate`, `parseNumber` and `decompose`. */
module ImporterCrud {
  import opened Base
  import opened Text
  import opened Calendar
  import opened Models
  import opened CategoryCrud

  /** A cell as pandas hands it over: a value (numbers already in their
      `str()` form) or NaN for a blank cell. */
  datatype Cell = Blank | Value(text: string)

  /** The table pandas read: header row and data rows. */
  datatype Sheet = Sheet(header: seq<string>, rows: seq<seq<Cell>>)

  /** What `process_import_file` returns. */
  datatype ImportResult = ImportResult(fileName: string, rowsImported: int, rowsSkipped: int)

  /** `str(cell)`; `str(float("nan"))` is "nan". */
  function CellStr(c: Cell): string
  {
    match c
    case Blank => "nan"
    case Value(s) => s
  }

  // ------------------------------------------------------------ header

  /** `encode("ascii", errors="ignore")`: the characters below 128, in
      their order; an ASCII string is kept whole. */
  function AsciiOnly(s: string): (r: string)
    ensures forall k :: 0 <= k < |r| ==> r[k] as int < 128
    ensures |r| <= |s|
    ensures (forall k :: 0 <= k < |s| ==> s[k] as int < 128) ==> r == s
  {
    if s == [] then []
    else (if s[0] as int < 128 then [s[0]] else []) + AsciiOnly(s[1..])
  }

  /** Dropping non-ASCII characters works piece by piece: what is kept of
      `s + t` is what is kept of `s` followed by what is kept of `t`. */
  lemma {:induction false} AsciiOnlyAppend(s: string, t: string)
    ensures AsciiOnly(s + t) == AsciiOnly(s) + AsciiOnly(t)
  {
    if s != [] {
      assert (s + t)[1..] == s[1..] + t;
      AsciiOnlyAppend(s[1..], t);
    } else {
      assert s + t == t;
    }
  }

  /** `lower()`, NFKD decomposition, then dropping every non-ASCII character. */
  function NormalizeHeader(h: string, decompose: string -> string): string
  {
    AsciiOnly(decompose(Lower(h)))
  }

  /** The `column_mapping` rename; unmapped names stay as they are. */
  function RenameColumn(h: string): string
  {
    if h == "data" then "date"
    else if h == "descrição" || h == "descricao" then "description"
    else if h == "valor" then "value"
    else if h == "tipo" then "type"
    else if h == "conta" then "account"
    else if h == "categoria" then "category_name"
    else h
  }

  function Columns(header: seq<string>, decompose: string -> string): (r: seq<string>)
    ensures |r| == |header|
    ensures forall k :: 0 <= k < |r| ==> r[k] == RenameColumn(NormalizeHeader(header[k], decompose))
  {
    seq(|header|, k requires 0 <= k < |header| => RenameColumn(NormalizeHeader(header[k], decompose)))
  }

  /** The mapping's "descrição" key is never used: a normalised header holds
      no accented letter, so only "descricao" is renamed to "description". */
  lemma AccentedKeyUnreachable(h: string, decompose: string -> string)
    ensures NormalizeHeader(h, decompose) != "descrição"
  {
    assert "descrição"[6] as int >= 128;
  }

  /** Combining marks between ASCII letters are dropped and the letters
      kept. */
  lemma MarkDropped(a: string, m: char, b: string)
    requires forall k :: 0 <= k < |a| ==> a[k] as int < 128
    requires forall k :: 0 <= k < |b| ==> b[k] as int < 128
    requires m as int >= 128
    ensures AsciiOnly(a + [m] + b) == a + b
  {
    AsciiOnlyAppend(a + [m], b);
    AsciiOnlyAppend(a, [m]);
  }

  /** NFKD of "descrição": base letters followed by combining accents. */
  const DecomposedDescricao: string := "descric" + ['\U{0327}'] + "a" + ['\U{0303}'] + "o"

  lemma DecomposedDescricaoIsAscii()
    ensures AsciiOnly(DecomposedDescricao) == "descricao"
  {
    MarkDropped("a", '\U{0303}', "o");
    MarkDropped("descric", '\U{0327}', "");
    assert "descric" + ['\U{0327}'] + "" == "descric" + ['\U{0327}'];
    assert DecomposedDescricao == ("descric" + ['\U{0327}']) + ("a" + ['\U{0303}'] + "o");
    AsciiOnlyAppend("descric" + ['\U{0327}'], "a" + ['\U{0303}'] + "o");
  }

  lemma LowerDescricao()
    ensures Lower("Descrição") == "descrição"
  {
  }

  /** A Portuguese "Descrição" header is renamed to "description". */
  lemma AccentedHeaderRenamed(decompose: string -> string)
    requires decompose("descrição") == DecomposedDescricao
    ensures Columns(["Descrição"], decompose) == ["description"]
  {
    LowerDescricao();
    DecomposedDescricaoIsAscii();
    assert NormalizeHeader("Descrição", decompose) == "descricao";
  }

  const RequiredColumns: seq<string> := ["date", "description", "value", "type"]

  /** An ASCII header that decomposition leaves alone is only lower-cased
      and renamed. */
  lemma PlainHeaderRenamed(h: string, decompose: string -> string)
    requires forall k :: 0 <= k < |Lower(h)| ==> Lower(h)[k] as int < 128
    requires decompose(Lower(h)) == Lower(h)
    ensures Columns([h], decompose) == [RenameColumn(Lower(h))]
  {
  }

  lemma LowerPortugueseHeaders()
    ensures Lower("Data") == "data" && Lower("Valor") == "valor" && Lower("Tipo") == "tipo"
  {
  }

  /** Each header is normalised on its own. */
  lemma ColumnsOfFour(h0: string, h1: string, h2: string, h3: string, decompose: string -> string)
    ensures Columns([h0, h1, h2, h3], decompose)
      == Columns([h0], decompose) + Columns([h1], decompose) + Columns([h2], decompose) + Columns([h3], decompose)
  {
  }

  /** The Portuguese headers "Data", "Descrição", "Valor" and "Tipo" satisfy
      the required-columns check. */
  lemma PortugueseHeadersAccepted(decompose: string -> string)
    requires decompose("descrição") == DecomposedDescricao
    requires decompose("data") == "data" && decompose("valor") == "valor" && decompose("tipo") == "tipo"
    ensures HasRequiredColumns(Columns(["Data", "Descrição", "Valor", "Tipo"], decompose))
  {
    LowerPortugueseHeaders();
    PlainHeaderRenamed("Data", decompose);
    PlainHeaderRenamed("Valor", decompose);
    PlainHeaderRenamed("Tipo", decompose);
    AccentedHeaderRenamed(decompose);
    ColumnsOfFour("Data", "Descrição", "Valor", "Tipo", decompose);
  }

  predicate HasRequiredColumns(columns: seq<string>)
  {
    forall k :: 0 <= k < |RequiredColumns| ==> RequiredColumns[k] in columns
  }

  /** Position of the first column called `name`. */
  function ColumnIndex(columns: seq<string>, name: string): (r: Option<nat>)
    ensures r.Some? ==> r.value < |columns| && columns[r.value] == name
    ensures r.None? <==> name !in columns
  {
    if columns == [] then None
    else if columns[0] == name then Some(0)
    else match ColumnIndex(columns[1..], name)
      case None => None
      case Some(k) => Some(k + 1)
  }

  /** `row[name]` (`row.get(name)`): `None` when there is no such column; a
      short row reads NaN, as pandas pads it. */
  function CellAt(columns: seq<string>, row: seq<Cell>, name: string): (r: Option<Cell>)
    ensures r.Some? <==> name in columns
  {
    match ColumnIndex(columns, name)
    case None => None
    case Some(k) => if k < |row| then Some(row[k]) else Some(Blank)
  }

  // ------------------------------------------------------------ one row

  /** `str(value).strip().replace("R$", "").replace(".", "").replace(",", ".")`. */
  function CleanValue(s: string): string
  {
    ReplaceAll(ReplaceAll(ReplaceAll(Strip(s), "R$", ""), ".", ""), ",", ".")
  }

  /** The cleaned fields of a row that parsed. */
  datatype ParsedRow = ParsedRow(date: Date, description: string, value: int, kind: string)

  /** The `try` block of the row loop; `None` is a row that raised and is skipped. */
  function ParseRow(columns: seq<string>, row: seq<Cell>,
                    parseDate: Cell -> Option<Date>, parseNumber: string -> Option<int>): (r: Option<ParsedRow>)
  {
    var dateCell := CellAt(columns, row, "date").GetOr(Blank);
    var valueCell := CellAt(columns, row, "value").GetOr(Blank);
    var descriptionCell := CellAt(columns, row, "description").GetOr(Blank);
    var typeCell := CellAt(columns, row, "type").GetOr(Blank);
    match parseDate(dateCell)
    case None => None
    case Some(d) =>
      match parseNumber(CleanValue(CellStr(valueCell)))
      case None => None
      case Some(v) =>
        Some(ParsedRow(d, Strip(CellStr(descriptionCell)), v, LowerStrip(CellStr(typeCell))))
  }

  /** The anti-duplication query: a stored transaction equal on
      (date, description, value, type). */
  predicate IsDuplicate(existing: seq<Transaction>, p: ParsedRow)
  {
    exists t :: t in existing && t.date == p.date && t.description == p.description &&
      t.value == p.value && t.kind == p.kind
  }

  /** The name an imported row asks for: the category cell unless it is NaN. */
  function CategoryCellName(cell: Option<Cell>): Option<string>
  {
    match cell
    case Some(Value(name)) => Some(name)
    case _ => None
  }

  /** `row.get("account")`: NaN is stored as NULL. */
  function AccountOf(columns: seq<string>, row: seq<Cell>): Option<string>
  {
    match CellAt(columns, row, "account")
    case Some(Value(a)) => Some(a)
    case _ => None
  }

  datatype RowOutcome = Invalid | Duplicate | Fresh(p: ParsedRow, categoryId: Option<int>, account: Option<string>)

  function ClassifyRow(columns: seq<string>, row: seq<Cell>, existing: seq<Transaction>, categories: seq<Category>,
                       parseDate: Cell -> Option<Date>, parseNumber: string -> Option<int>): RowOutcome
  {
    match ParseRow(columns, row, parseDate, parseNumber)
    case None => Invalid
    case Some(p) =>
      if IsDuplicate(existing, p) then Duplicate
      else
        var c := ResolveCategory(categories, CategoryCellName(CellAt(columns, row, "category_name")), p.description);
        Fresh(p, IdOf(c), AccountOf(columns, row))
  }

  function NewTransaction(id: int, p: ParsedRow, categoryId: Option<int>, account: Option<string>): Transaction
  {
    Transaction(id, p.date, p.description, p.value, p.kind, categoryId, account)
  }

  /** The classification of every data row, each against the committed
      rows `existing`: the session does not autoflush, so the duplicate query
      never sees rows added earlier in the same file. */
  function Outcomes(columns: seq<string>, rows: seq<seq<Cell>>, existing: seq<Transaction>,
                    categories: seq<Category>,
                    parseDate: Cell -> Option<Date>, parseNumber: string -> Option<int>): (r: seq<RowOutcome>)
    ensures |r| == |rows|
    ensures forall i :: 0 <= i < |rows| ==>
      r[i] == ClassifyRow(columns, rows[i], existing, categories, parseDate, parseNumber)
  {
    seq(|rows|, i requires 0 <= i < |rows| => ClassifyRow(columns, rows[i], existing, categories, parseDate, parseNumber))
  }

  /** The session after one more row: an invalid row changes nothing, a
      duplicate is counted, a fresh row is added with the next id. */
  function Tally(prev: (seq<Transaction>, nat), outcome: RowOutcome, firstId: int): (r: (seq<Transaction>, nat))
    ensures |r.0| + r.1 <= |prev.0| + prev.1 + 1
    ensures |prev.0| <= |r.0| <= |prev.0| + 1 && r.0[..|prev.0|] == prev.0
    ensures |r.0| == |prev.0| + 1 ==> r.0[|prev.0|].id == firstId + |prev.0|
  {
    match outcome
    case Invalid => prev
    case Duplicate => (prev.0, prev.1 + 1)
    case Fresh(p, cid, account) => (prev.0 + [NewTransaction(firstId + |prev.0|, p, cid, account)], prev.1)
  }

  /** What the row loop leaves in the session after the rows classified as
      `outcomes`: the transactions added, with consecutive ids from `firstId`,
      and the number of duplicates skipped. */
  function TallyAll(outcomes: seq<RowOutcome>, firstId: int): (r: (seq<Transaction>, nat))
    ensures |r.0| + r.1 <= |outcomes|
    ensures forall k :: 0 <= k < |r.0| ==> r.0[k].id == firstId + k
    decreases |outcomes|
  {
    if outcomes == [] then ([], 0)
    else Tally(TallyAll(outcomes[..|outcomes| - 1], firstId), outcomes[|outcomes| - 1], firstId)
  }

  function ImportOutcome(columns: seq<string>, rows: seq<seq<Cell>>, existing: seq<Transaction>,
                         categories: seq<Category>, firstId: int,
                         parseDate: Cell -> Option<Date>, parseNumber: string -> Option<int>): (seq<Transaction>, nat)
  {
    TallyAll(Outcomes(columns, rows, existing, categories, parseDate, parseNumber), firstId)
  }

  lemma TallyAllStep(outcomes: seq<RowOutcome>, i: nat, firstId: int)
    requires i < |outcomes|
    ensures TallyAll(outcomes[..i + 1], firstId) == Tally(TallyAll(outcomes[..i], firstId), outcomes[i], firstId)
  {
    assert outcomes[..i + 1][..i] == outcomes[..i];
  }

  predicate IsInvalid(o: RowOutcome) { o.Invalid? }
  predicate IsDuplicateRow(o: RowOutcome) { o.Duplicate? }
  predicate IsFresh(o: RowOutcome) { o.Fresh? }

  function CountWhere(outcomes: seq<RowOutcome>, p: RowOutcome -> bool): (r: nat)
    ensures r <= |outcomes|
    decreases |outcomes|
  {
    if outcomes == [] then 0
    else CountWhere(outcomes[..|outcomes| - 1], p) + (if p(outcomes[|outcomes| - 1]) then 1 else 0)
  }

  // ------------------------------------------------------------ properties

  /** A row is dropped exactly when it fails to parse, skipped exactly when
      it parses to a stored (date, description, value, type), and fresh
      otherwise. */
  lemma ClassifyRowCases(columns: seq<string>, row: seq<Cell>, existing: seq<Transaction>, categories: seq<Category>,
                         parseDate: Cell -> Option<Date>, parseNumber: string -> Option<int>)
    ensures var o := ClassifyRow(columns, row, existing, categories, parseDate, parseNumber);
      var p := ParseRow(columns, row, parseDate, parseNumber);
      && (o.Invalid? <==> p.None?)
      && (o.Duplicate? <==> p.Some? && IsDuplicate(existing, p.value))
      && (o.Fresh? ==> p.Some? && o.p == p.value && !IsDuplicate(existing, o.p))
  {
  }

  /** Every data row is imported, skipped or dropped, exactly one of the
      three: the imported count is the number of fresh rows, the skipped
      count the number of duplicates, and with the dropped rows they add up
      to the number of rows. */
  lemma {:induction false} TallyCounts(outcomes: seq<RowOutcome>, firstId: int)
    ensures |TallyAll(outcomes, firstId).0| == CountWhere(outcomes, IsFresh)
    ensures TallyAll(outcomes, firstId).1 == CountWhere(outcomes, IsDuplicateRow)
    ensures CountWhere(outcomes, IsFresh) + CountWhere(outcomes, IsDuplicateRow) +
            CountWhere(outcomes, IsInvalid) == |outcomes|
    decreases |outcomes|
  {
    if outcomes != [] {
      TallyCounts(outcomes[..|outcomes| - 1], firstId);
    }
  }

  /** No stored transaction equals `t` on (date, description, value, type). */
  predicate NotStoredIn(existing: seq<Transaction>, t: Transaction)
  {
    forall u :: u in existing ==>
      !(u.date == t.date && u.description == t.description && u.value == t.value && u.kind == t.kind)
  }

  lemma {:induction false} TallyAddsOnlyNew(outcomes: seq<RowOutcome>, firstId: int, existing: seq<Transaction>)
    requires forall i :: 0 <= i < |outcomes| && outcomes[i].Fresh? ==> !IsDuplicate(existing, outcomes[i].p)
    ensures forall k :: 0 <= k < |TallyAll(outcomes, firstId).0| ==> NotStoredIn(existing, TallyAll(outcomes, firstId).0[k])
    decreases |outcomes|
  {
    if outcomes != [] {
      var init := outcomes[..|outcomes| - 1];
      TallyAddsOnlyNew(init, firstId, existing);
      var prev := TallyAll(init, firstId);
      var o := outcomes[|outcomes| - 1];
      if o.Fresh? {
        var t := NewTransaction(firstId + |prev.0|, o.p, o.categoryId, o.account);
        assert NotStoredIn(existing, t);
      }
    }
  }

  /** No imported transaction equals, on (date, description, value, type), a
      transaction stored before the import. */
  lemma ImportedAreNew(columns: seq<string>, rows: seq<seq<Cell>>, existing: seq<Transaction>,
                       categories: seq<Category>, firstId: int,
                       parseDate: Cell -> Option<Date>, parseNumber: string -> Option<int>)
    ensures forall k :: 0 <= k < |ImportOutcome(columns, rows, existing, categories, firstId, parseDate, parseNumber).0| ==>
      NotStoredIn(existing, ImportOutcome(columns, rows, existing, categories, firstId, parseDate, parseNumber).0[k])
  {
    var outcomes := Outcomes(columns, rows, existing, categories, parseDate, parseNumber);
    forall i | 0 <= i < |outcomes| && outcomes[i].Fresh? ensures !IsDuplicate(existing, outcomes[i].p) {
      ClassifyRowCases(columns, rows[i], existing, categories, parseDate, parseNumber);
    }
    TallyAddsOnlyNew(outcomes, firstId, existing);
  }

  lemma StripUnchanged(s: string)
    requires s != [] && !IsSpace(s[0]) && !IsSpace(s[|s| - 1])
    ensures Strip(s) == s
  {
    assert StripLeft(s) == s;
  }

  /** Digits contain none of the characters the cleaning touches. */
  lemma DigitsAvoidMarks(s: string)
    requires AllDigits(s)
    ensures 'R' !in s && '$' !in s && '.' !in s && ',' !in s
  {
    forall k | 0 <= k < |s| ensures IsDigit(s[k]) {
    }
  }

  /** Removing "R$" from a string that starts with it and has no other 'R'. */
  lemma DropCurrency(t: string)
    requires 'R' !in t
    ensures ReplaceAll("R$" + t, "R$", "") == t
  {
    var s := "R$" + t;
    assert s[..2] == "R$" && s[2..] == t;
    ReplaceAbsent(t, "R$", "");
  }

  /** With no currency sign and no thousands separator left, cleaning only
      turns the one decimal comma into a point. */
  lemma CleanDecimalComma(x: string, c: string)
    requires x != [] && !IsSpace(x[0]) && 'R' !in x && '.' !in x && ',' !in x
    requires AllDigits(c) && c != []
    ensures CleanValue(x + [','] + c) == x + "." + c
  {
    var s := x + [','] + c;
    DigitsAvoidMarks(c);
    assert s[0] == x[0] && s[|s| - 1] == c[|c| - 1];
    StripUnchanged(s);
    assert 'R' !in s && '.' !in s;
    ReplaceAbsent(s, "R$", "");
    ReplaceAbsent(s, ".", "");
    ReplaceOneChar(x, ',', c, ".");
  }

  lemma Regroup(x: string, b: string, m: char, c: string)
    ensures x + "" + (b + [m] + c) == (x + b) + [m] + c
  {
  }

  /** Cleaning, one stage at a time. */
  lemma CleanStages(s: string, t: string, u: string, v: string)
    requires Strip(s) == s && ReplaceAll(s, "R$", "") == t && ReplaceAll(t, ".", "") == u
    requires ReplaceAll(u, ",", ".") == v
    ensures CleanValue(s) == v
  {
  }

  lemma ThousandsDropped(a: string, b: string, c: string)
    requires AllDigits(a) && AllDigits(b) && AllDigits(c)
    ensures ReplaceAll(" " + a + "." + b + "," + c, ".", "") == " " + a + b + "," + c
  {
    DigitsAvoidMarks(a);
    DigitsAvoidMarks(b);
    DigitsAvoidMarks(c);
    var x := " " + a;
    var y := b + [','] + c;
    assert " " + a + "." + b + "," + c == x + ['.'] + y;
    ReplaceOneChar(x, '.', y, "");
    Regroup(x, b, ',', c);
  }

  lemma DecimalPointed(a: string, b: string, c: string)
    requires AllDigits(a) && AllDigits(b) && AllDigits(c)
    ensures ReplaceAll(" " + a + b + "," + c, ",", ".") == " " + a + b + "." + c
  {
    DigitsAvoidMarks(a);
    DigitsAvoidMarks(b);
    DigitsAvoidMarks(c);
    assert " " + a + b + "," + c == (" " + a + b) + [','] + c;
    ReplaceOneChar(" " + a + b, ',', c, ".");
  }

  /** An amount in Brazilian format, "R$ " then digits, a '.' thousands
      separator, digits, a ',' decimal separator and digits, cleans to the
      same digits with a '.' decimal point; the space after "R$" stays (float()
      ignores it). For example "R$ 1.200,00" cleans to " 1200.00". */
  lemma CleanValueBrazilianAmount(a: string, b: string, c: string)
    requires AllDigits(a) && AllDigits(b) && AllDigits(c) && c != []
    ensures CleanValue("R$ " + a + "." + b + "," + c) == " " + a + b + "." + c
  {
    var t := " " + a + "." + b + "," + c;
    var s := "R$" + t;
    assert s == "R$ " + a + "." + b + "," + c;
    assert s[|s| - 1] == c[|c| - 1];
    StripUnchanged(s);
    DigitsAvoidMarks(a);
    DigitsAvoidMarks(b);
    DigitsAvoidMarks(c);
    DropCurrency(t);
    ThousandsDropped(a, b, c);
    DecimalPointed(a, b, c);
    CleanStages(s, t, " " + a + b + "," + c, " " + a + b + "." + c);
  }

  /** A negative amount with a decimal comma, such as "-150,50", keeps its
      sign and gets a decimal point. */
  lemma CleanValueNegative(a: string, c: string)
    requires AllDigits(a) && AllDigits(c) && c != []
    ensures CleanValue("-" + a + "," + c) == "-" + a + "." + c
  {
    DigitsAvoidMarks(a);
    var x := "-" + a;
    assert x[0] == '-';
    CleanDecimalComma(x, c);
  }

  /** A leading minus sign survives cleaning, and no comma does. */
  lemma CleanValueShape(s: string)
    ensures Strip(s) != [] && Strip(s)[0] == '-' ==> CleanValue(s) != [] && CleanValue(s)[0] == '-'
    ensures ',' !in CleanValue(s)
  {
    var a := ReplaceAll(Strip(s), "R$", "");
    var b := ReplaceAll(a, ".", "");
    if Strip(s) != [] && Strip(s)[0] == '-' {
      ReplaceKeepsHead(Strip(s), "R$", "");
      ReplaceKeepsHead(a, ".", "");
      ReplaceKeepsHead(b, ",", ".");
    }
    ReplaceCharRemovesIt(b, ',', ".");
  }

  // ------------------------------------------------------------ the import

  /** One pass of the row loop's body after the row was classified: a fresh
      row is added to the session with the next id, a duplicate is counted. */
  method Record(outcome: RowOutcome, pending: seq<Transaction>, added: nat, skipped: nat, firstId: int)
    returns (pending': seq<Transaction>, added': nat, skipped': nat)
    requires added == |pending|
    ensures (pending', skipped') == Tally((pending, skipped), outcome, firstId)
    ensures added' == |pending'|
  {
    pending', added', skipped' := pending, added, skipped;
    match outcome {
      case Invalid =>
      case Duplicate =>
        skipped' := skipped + 1;
      case Fresh(p, cid, account) =>
        pending' := pending + [NewTransaction(firstId + added, p, cid, account)];
        added' := added + 1;
    }
  }

  /** The row loop of `process_import_file`: every row is parsed, checked
      against the committed transactions and, when fresh, added to the
      session with the next id. Returns the pending rows and both counters. */
  method ImportRows(columns: seq<string>, rows: seq<seq<Cell>>, existing: seq<Transaction>,
                    categories: seq<Category>, firstId: int,
                    parseDate: Cell -> Option<Date>, parseNumber: string -> Option<int>)
    returns (pending: seq<Transaction>, transactionsAdded: nat, transactionsSkipped: nat)
    ensures (pending, transactionsSkipped) ==
      ImportOutcome(columns, rows, existing, categories, firstId, parseDate, parseNumber)
    ensures transactionsAdded == |pending|
  {
    ghost var outcomes := Outcomes(columns, rows, existing, categories, parseDate, parseNumber);
    pending, transactionsAdded, transactionsSkipped := [], 0, 0;
    var i := 0;
    while i < |rows|
      invariant 0 <= i <= |rows|
      invariant (pending, transactionsSkipped) == TallyAll(outcomes[..i], firstId)
      invariant transactionsAdded == |pending|
    {
      TallyAllStep(outcomes, i, firstId);
      var outcome := ClassifyRow(columns, rows[i], existing, categories, parseDate, parseNumber);
      assert outcome == outcomes[i];
      pending, transactionsAdded, transactionsSkipped :=
        Record(outcome, pending, transactionsAdded, transactionsSkipped, firstId);
      i := i + 1;
    }
    assert outcomes[..|rows|] == outcomes;
  }

  /** What an import computes before its commit: a file pandas cannot read
      (`sheet == None`) or one missing a required column is refused before
      any row is looked at; otherwise the rows the session would add, with
      consecutive ids from `firstId`, and the duplicates it skipped. */
  function ImportPlan(sheet: Option<Sheet>, decompose: string -> string,
                      parseDate: Cell -> Option<Date>, parseNumber: string -> Option<int>,
                      existing: seq<Transaction>, categories: seq<Category>, firstId: int)
    : (r: Result<(seq<Transaction>, nat)>)
    ensures sheet.None? ==> r == Err(UnreadableFile)
    ensures sheet.Some? ==>
      (r == Err(MissingColumns) <==> !HasRequiredColumns(Columns(sheet.value.header, decompose)))
    ensures r.Err? ==> r.error == UnreadableFile || r.error == MissingColumns
    ensures r.Ok? ==> forall k :: 0 <= k < |r.value.0| ==> r.value.0[k].id == firstId + k
  {
    if sheet.None? then Err(UnreadableFile)
    else
      var columns := Columns(sheet.value.header, decompose);
      if !HasRequiredColumns(columns) then Err(MissingColumns)
      else Ok(ImportOutcome(columns, sheet.value.rows, existing, categories, firstId, parseDate, parseNumber))
  }

  /** Everything `process_import_file` does before its commit. */
  method PlanImport(sheet: Option<Sheet>, decompose: string -> string,
                    parseDate: Cell -> Option<Date>, parseNumber: string -> Option<int>,
                    existing: seq<Transaction>, categories: seq<Category>, firstId: int)
    returns (plan: Result<(seq<Transaction>, nat)>)
    ensures plan == ImportPlan(sheet, decompose, parseDate, parseNumber, existing, categories, firstId)
  {
    if sheet.None? {
      return Err(UnreadableFile);
    }
    var columns := Columns(sheet.value.header, decompose);
    if !HasRequiredColumns(columns) {
      return Err(MissingColumns);
    }
    var pending, transactionsAdded, transactionsSkipped :=
      ImportRows(columns, sheet.value.rows, existing, categories, firstId, parseDate, parseNumber);
    plan := Ok((pending, transactionsSkipped));
  }

  /** The effect of committing `plan`: a refused file is reported as is
      and changes nothing; a failed commit changes nothing; otherwise the
      pending transactions and one import-log row counting them are added. */
  ghost predicate Committed(db: Store, plan: Result<(seq<Transaction>, nat)>, fileName: string, commitSucceeds: bool,
                            r: Result<ImportResult>,
                            transactions: seq<Transaction>, categories: seq<Category>, goals: seq<Goal>,
                            importLogs: seq<ImportLog>, nextId: int)
    reads db
  {
    if plan.Err? || !commitSucceeds then
      && r == (if plan.Err? then Err(plan.error) else Err(CommitFailed))
      && db.transactions == transactions && db.categories == categories && db.goals == goals
      && db.importLogs == importLogs && db.nextId == nextId
    else
      && r == Ok(ImportResult(fileName, |plan.value.0|, plan.value.1))
      && db.transactions == transactions + plan.value.0
      && db.importLogs == importLogs + [ImportLog(nextId + |plan.value.0|, fileName, |plan.value.0|)]
      && db.categories == categories && db.goals == goals
      && db.nextId == nextId + |plan.value.0| + 1
  }

  /** The end of `process_import_file`: the pending transactions and one
      import-log row are committed together, or, when the commit fails,
      nothing is. */
  method CommitPlan(db: Store, plan: Result<(seq<Transaction>, nat)>, fileName: string, commitSucceeds: bool)
    returns (r: Result<ImportResult>)
    requires db.Valid()
    requires plan.Ok? ==> forall k :: 0 <= k < |plan.value.0| ==> plan.value.0[k].id == db.nextId + k
    modifies db
    ensures db.Valid()
    ensures Committed(db, plan, fileName, commitSucceeds, r, old(db.transactions), old(db.categories),
                      old(db.goals), old(db.importLogs), old(db.nextId))
  {
    if plan.Err? {
      return Err(plan.error);
    }
    if !commitSucceeds {
      return Err(CommitFailed);
    }
    var firstId := db.nextId;
    var (added, skipped) := plan.value;
    db.transactions := db.transactions + added;
    db.importLogs := db.importLogs + [ImportLog(firstId + |added|, fileName, |added|)];
    db.nextId := firstId + |added| + 1;
    r := Ok(ImportResult(fileName, |added|, skipped));
  }

  /** `process_import_file`: the rows are cleaned, deduplicated against the
      committed store, categorised and added; then the transactions and one
      import-log row are committed together, or, when the commit fails,
      nothing is. */
  method ProcessImportFile(db: Store, sheet: Option<Sheet>, fileName: string,
                           decompose: string -> string,
                           parseDate: Cell -> Option<Date>, parseNumber: string -> Option<int>,
                           commitSucceeds: bool)
    returns (r: Result<ImportResult>)
    requires db.Valid()
    modifies db
    ensures db.Valid()
    ensures Committed(db, ImportPlan(sheet, decompose, parseDate, parseNumber,
                                   old(db.transactions), old(db.categories), old(db.nextId)),
                      fileName, commitSucceeds, r, old(db.transactions), old(db.categories),
                      old(db.goals), old(db.importLogs), old(db.nextId))
  {
    var plan := PlanImport(sheet, decompose, parseDate, parseNumber, db.transactions, db.categories, db.nextId);
    r := CommitPlan(db, plan, fileName, commitSucceeds);
  }
}
