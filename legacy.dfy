/** The older single-module CRUD (backend/crud.py). Most of its functions are
    the same code as the app package's and are modelled once there; the two
    that differ are modelled here: the quick entry, which always takes
    today's date, and the update, which spells out each field. */
module LegacyCrud {
  import opened Base
  import opened Calendar
  import opened Models
  import opened CategoryCrud
  import opened TransactionCrud

  /** `create_quick_entry` of backend/crud.py: the entry's date, if any, is
      ignored and the row is dated `today`. */
  method LegacyCreateQuickEntry(db: Store, e: QuickEntry, today: Date) returns (t: Transaction)
    requires db.Valid()
    modifies db
    ensures db.Valid()
    ensures t == QuickEntryRow(old(db.categories), e, today, old(db.nextId))
    ensures db.transactions == old(db.transactions) + [t]
    ensures db.categories == old(db.categories) && db.goals == old(db.goals)
    ensures db.importLogs == old(db.importLogs) && db.nextId == old(db.nextId) + 1
  {
    t := QuickEntryRow(db.categories, e, today, db.nextId);
    AddTransaction(db, t);
  }

  /** The two quick entries store the same row exactly when the entry sends
      no date or sends today's; otherwise only the date differs. */
  lemma QuickEntryVersionsDiffer(categories: seq<Category>, e: QuickEntry, today: Date, id: int)
    ensures var app := QuickEntryRow(categories, e, e.date.GetOr(today), id);
      var legacy := QuickEntryRow(categories, e, today, id);
      && (app == legacy <==> e.date.None? || e.date.value == today)
      && app.(date := today) == legacy
  {
  }

  /** The body of `update_transaction` in backend/crud.py on the stored row
      `t`: the category rule, then one `if` per field. */
  method LegacyApplyUpdate(categories: seq<Category>, t: Transaction, u: TransactionUpdate) returns (t': Transaction)
    ensures t' == UpdatedRow(categories, t, u)
  {
    t' := t;
    if u.categoryName.Some? {
      var category := GetCategoryByName(categories, u.categoryName.value);
      if category.None? {
        var description := if TextGiven(u.description) then u.description.value else t.description;
        category := FindCategoryByKeyword(categories, description);
      }
      t' := t'.(categoryId := IdOf(category));
    }
    if u.description.Some? {
      t' := t'.(description := u.description.value);
    }
    if u.value.Some? {
      t' := t'.(value := u.value.value);
    }
    if u.kind.Some? {
      t' := t'.(kind := u.kind.value);
    }
    if u.date.Some? {
      t' := t'.(date := u.date.value);
    }
  }

  /** `update_transaction` of backend/crud.py: 404 for an unknown id; it
      stores the same row as the app package's version. */
  method LegacyUpdateTransaction(db: Store, id: int, u: TransactionUpdate) returns (r: Result<Transaction>)
    requires db.Valid()
    modifies db
    ensures db.Valid()
    ensures db.categories == old(db.categories) && db.goals == old(db.goals)
    ensures db.importLogs == old(db.importLogs) && db.nextId == old(db.nextId)
    ensures TransactionIndex(old(db.transactions), id).None? ==>
      r == Err(NotFound) && db.transactions == old(db.transactions)
    ensures TransactionIndex(old(db.transactions), id).Some? ==>
      var k := TransactionIndex(old(db.transactions), id).value;
      r == Ok(UpdatedRow(old(db.categories), old(db.transactions)[k], u)) &&
      db.transactions == old(db.transactions)[k := r.value]
  {
    match TransactionIndex(db.transactions, id)
    case None =>
      r := Err(NotFound);
    case Some(k) =>
      var t := LegacyApplyUpdate(db.categories, db.transactions[k], u);
      ReplaceTransaction(db, k, t);
      r := Ok(t);
  }
}
