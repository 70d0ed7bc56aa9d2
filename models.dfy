/** The four tables of the database (backend/app/models.py) and the session
    that holds them. Amounts (REAL columns) are integer cents. */
module Models {
  import opened Base
  import opened Calendar

  /** A row of `transactions`; `kind` is the `type` column. */
  datatype Transaction = Transaction(
    id: int,
    date: Date,
    description: string,
    value: int,
    kind: string,
    categoryId: Option<int>,
    account: Option<string>)

  /** A row of `categories`; `keywords` is a `,`/`;`-separated list. */
  datatype Category = Category(
    id: int,
    name: string,
    keywords: Option<string>,
    parentId: Option<int>)

  /** A row of `goals`; `kind` is "saving" or "limit", `period` is
      "monthly" or "deadline" (neither is checked by the backend). */
  datatype Goal = Goal(
    id: int,
    name: string,
    kind: string,
    targetAmount: int,
    currentAmount: int,
    categoryId: Option<int>,
    period: string,
    deadline: Option<Date>)

  /** A row of `import_logs`. */
  datatype ImportLog = ImportLog(id: int, fileName: string, rowsImported: int)

  /** A transaction together with the name of its category (the outer join
      on `category_id`), as the listing queries return it. */
  datatype TransactionDetail = TransactionDetail(tx: Transaction, categoryName: Option<string>)

  /** The committed state of the database. Rows are kept in insertion order,
      which is ascending id order; `nextId` stands for the autoincrement
      counters. */
  class Store {
    var transactions: seq<Transaction>
    var categories: seq<Category>
    var goals: seq<Goal>
    var importLogs: seq<ImportLog>
    var nextId: int

    ghost predicate Valid()
      reads this
    {
      && nextId >= 1
      && (forall i, j :: 0 <= i < j < |transactions| ==> transactions[i].id < transactions[j].id)
      && (forall i :: 0 <= i < |transactions| ==> transactions[i].id < nextId)
      && (forall i, j :: 0 <= i < j < |categories| ==> categories[i].id < categories[j].id)
      && (forall i :: 0 <= i < |categories| ==> categories[i].id < nextId)
      && (forall i, j :: 0 <= i < j < |categories| ==> categories[i].name != categories[j].name)
      && (forall i, j :: 0 <= i < j < |goals| ==> goals[i].id < goals[j].id)
      && (forall i :: 0 <= i < |goals| ==> goals[i].id < nextId)
      && (forall i, j :: 0 <= i < j < |importLogs| ==> importLogs[i].id < importLogs[j].id)
      && (forall i :: 0 <= i < |importLogs| ==> importLogs[i].id < nextId)
    }

    /** An empty database. */
    constructor ()
      ensures Valid()
      ensures transactions == [] && categories == [] && goals == [] && importLogs == []
    {
      transactions, categories, goals, importLogs := [], [], [], [];
      nextId := 1;
    }
  }

  /** The category a transaction or goal refers to, if it still exists. */
  function CategoryById(categories: seq<Category>, id: int): (r: Option<Category>)
    ensures r.Some? <==> exists c :: c in categories && c.id == id
    ensures r.Some? ==> r.value in categories && r.value.id == id
  {
    match FirstIndex(categories, (c: Category) => c.id == id)
    case None => None
    case Some(i) => Some(categories[i])
  }

  /** Name of the category `categoryId` points at; `None` when the id is null
      or dangling (the outer join yields NULL). */
  function JoinedName(categories: seq<Category>, categoryId: Option<int>): (r: Option<string>)
    ensures categoryId.None? ==> r.None?
    ensures categoryId.Some? ==>
      (r.Some? <==> CategoryById(categories, categoryId.value).Some?)
    ensures r.Some? ==> r.value == CategoryById(categories, categoryId.value).value.name
  {
    match categoryId
    case None => None
    case Some(id) =>
      match CategoryById(categories, id)
      case None => None
      case Some(c) => Some(c.name)
  }

  function Detail(categories: seq<Category>, t: Transaction): TransactionDetail
  {
    TransactionDetail(t, JoinedName(categories, t.categoryId))
  }

  /** Python truthiness of an optional id: NULL and 0 are false. */
  predicate IdGiven(id: Option<int>)
  {
    id.Some? && id.value != 0
  }
}
