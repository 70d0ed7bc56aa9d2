/** Categories and the keyword auto-tagger (backend/app/crud/category.py). */
module CategoryCrud {
  import opened Base
  import opened Text
  import opened Models

  /** The character class `[;,]` the keyword string is split on. */
  predicate IsKeywordSep(c: char)
  {
    c == ',' || c == ';'
  }

  /** The keywords of a category as the matcher sees them: the pieces of
      `keywords` split on `,` and `;`, each stripped and then lowercased.
      A NULL or empty `keywords` gives no keywords at all. */
  function KeywordList(c: Category): (r: seq<string>)
    ensures c.keywords.Some? && c.keywords.value != [] ==>
      |r| == |Split(c.keywords.value, IsKeywordSep)| &&
      forall i :: 0 <= i < |r| ==> r[i] == Lower(Strip(Split(c.keywords.value, IsKeywordSep)[i]))
    ensures c.keywords.None? || c.keywords.value == [] ==> r == []
  {
    match c.keywords
    case None => []
    case Some(k) =>
      if k == [] then []
      else
        var pieces := Split(k, IsKeywordSep);
        seq(|pieces|, i requires 0 <= i < |pieces| => Lower(Strip(pieces[i])))
  }

  /** `kw and kw in description_lower`. */
  predicate KeywordHits(kw: string, descriptionLower: string)
  {
    kw != [] && Contains(descriptionLower, kw)
  }

  /** Some keyword of `c` occurs in the lowercased description. */
  predicate MatchesDescription(c: Category, descriptionLower: string)
  {
    exists i :: 0 <= i < |KeywordList(c)| && KeywordHits(KeywordList(c)[i], descriptionLower)
  }

  /** `find_category_by_keyword`: the first category, in storage order, one of
      whose non-empty keywords occurs in the lowercased description. */
  function FindCategoryByKeyword(categories: seq<Category>, description: string): (r: Option<Category>)
    ensures r.None? <==>
      forall i :: 0 <= i < |categories| ==> !MatchesDescription(categories[i], Lower(description))
    ensures r.Some? ==>
      exists i :: 0 <= i < |categories| && categories[i] == r.value &&
        MatchesDescription(categories[i], Lower(description)) &&
        forall j :: 0 <= j < i ==> !MatchesDescription(categories[j], Lower(description))
  {
    var descriptionLower := Lower(description);
    match FirstIndex(categories, (c: Category) => MatchesDescription(c, descriptionLower))
    case None => None
    case Some(i) => Some(categories[i])
  }

  /** `get_category_by_name`: the category whose name equals `name` exactly. */
  function GetCategoryByName(categories: seq<Category>, name: string): (r: Option<Category>)
    ensures r.Some? ==> r.value in categories && r.value.name == name
    ensures r.None? <==> forall c :: c in categories ==> c.name != name
  {
    match FirstIndex(categories, (c: Category) => c.name == name)
    case None => None
    case Some(i) => Some(categories[i])
  }

  /** The category resolution every write path shares: the category named
      `name` when a name is given and some category has it, otherwise the
      keyword auto-tagger on `description`. */
  function ResolveCategory(categories: seq<Category>, name: Option<string>, description: string): Option<Category>
  {
    var byName := if name.Some? then GetCategoryByName(categories, name.value) else None;
    if byName.Some? then byName else FindCategoryByKeyword(categories, description)
  }

  /** The name wins over the keywords, and the resolved category is null
      exactly when the name (if any) is unknown and no keyword matches. */
  lemma ResolveCategorySpec(categories: seq<Category>, name: Option<string>, description: string)
    ensures var r := ResolveCategory(categories, name, description);
      && (name.Some? && GetCategoryByName(categories, name.value).Some? ==>
            r == GetCategoryByName(categories, name.value))
      && (!(name.Some? && GetCategoryByName(categories, name.value).Some?) ==>
            r == FindCategoryByKeyword(categories, description))
      && (r.None? <==>
            (name.None? || forall c :: c in categories ==> c.name != name.value) &&
            forall i :: 0 <= i < |categories| ==> !MatchesDescription(categories[i], Lower(description)))
  {
  }

  /** The `category_id` a resolved category gives a row. */
  function IdOf(c: Option<Category>): Option<int>
  {
    if c.Some? then Some(c.value.id) else None
  }

  /** `get_categories`: `OFFSET skip LIMIT limit` over storage order, with
      SQLite's reading of negative values: an offset below 0 skips nothing
      and a limit below 0 sets no bound. */
  function GetCategories(categories: seq<Category>, skip: int, limit: int): (r: seq<Category>)
    ensures skip <= 0 && limit < 0 ==> r == categories
    ensures var from := if skip < 0 then 0 else skip;
      && (from >= |categories| ==> r == [])
      && (from < |categories| ==>
            |r| == if limit < 0 || |categories| - from < limit then |categories| - from else limit)
      && forall i :: 0 <= i < |r| ==> r[i] == categories[from + i]
  {
    var from := if skip < 0 then 0 else skip;
    if from >= |categories| then []
    else if limit < 0 || |categories| - from < limit then categories[from..]
    else categories[from..from + limit]
  }

  // ------------------------------------------------------------ properties

  /** Matching is case-insensitive in the description: two descriptions that
      agree once lowercased select the same category. */
  lemma {:induction false} DescriptionCaseIgnored(categories: seq<Category>, d1: string, d2: string)
    requires Lower(d1) == Lower(d2)
    ensures FindCategoryByKeyword(categories, d1) == FindCategoryByKeyword(categories, d2)
  {
  }

  lemma {:induction false} SplitLower(s: string)
    ensures |Split(Lower(s), IsKeywordSep)| == |Split(s, IsKeywordSep)|
    ensures forall i :: 0 <= i < |Split(s, IsKeywordSep)| ==>
      Split(Lower(s), IsKeywordSep)[i] == Lower(Split(s, IsKeywordSep)[i])
    decreases |s|
  {
    if s != [] {
      var ls := Lower(s);
      assert ls[1..] == Lower(s[1..]);
      SplitLower(s[1..]);
      var rest := Split(s[1..], IsKeywordSep);
      var lrest := Split(ls[1..], IsKeywordSep);
      if IsKeywordSep(s[0]) {
        assert IsKeywordSep(ls[0]);
        SplitLowerSep(Split(s, IsKeywordSep), Split(ls, IsKeywordSep), rest, lrest);
      } else {
        assert !IsKeywordSep(ls[0]);
        assert Lower([s[0]] + rest[0]) == [ls[0]] + lrest[0];
        SplitLowerJoin(Split(s, IsKeywordSep), Split(ls, IsKeywordSep), rest, lrest, [s[0]] + rest[0], [ls[0]] + lrest[0]);
      }
    }
  }

  lemma SplitLowerSep(ps: seq<string>, lps: seq<string>, rest: seq<string>, lrest: seq<string>)
    requires ps == [""] + rest && lps == [""] + lrest
    requires |lrest| == |rest| && forall i :: 0 <= i < |rest| ==> lrest[i] == Lower(rest[i])
    ensures |lps| == |ps| && forall i :: 0 <= i < |ps| ==> lps[i] == Lower(ps[i])
  {
  }

  lemma SplitLowerJoin(ps: seq<string>, lps: seq<string>, rest: seq<string>, lrest: seq<string>,
                       head: string, lhead: string)
    requires |rest| >= 1 && |lrest| == |rest|
    requires forall i :: 0 <= i < |rest| ==> lrest[i] == Lower(rest[i])
    requires ps == [head] + rest[1..] && lps == [lhead] + lrest[1..] && lhead == Lower(head)
    ensures |lps| == |ps| && forall i :: 0 <= i < |ps| ==> lps[i] == Lower(ps[i])
  {
  }

  /** Matching is case-insensitive in the keywords too: lowercasing a
      category's keyword string does not change what it matches. */
  lemma KeywordCaseIgnored(c: Category, k: string)
    requires c.keywords == Some(k)
    ensures KeywordList(c.(keywords := Some(Lower(k)))) == KeywordList(c)
  {
    var c' := c.(keywords := Some(Lower(k)));
    if k != [] {
      SplitLower(k);
      var ps := Split(k, IsKeywordSep);
      forall i | 0 <= i < |ps|
        ensures Lower(Strip(Lower(ps[i]))) == Lower(Strip(ps[i]))
      {
        StripLeftLower(ps[i]);
        StripRightLower(StripLeft(ps[i]));
        LowerIdempotent(Strip(ps[i]));
      }
    }
  }

  lemma {:induction false} SplitPiecesFromInput(s: string, i: int, k: int)
    requires 0 <= i < |Split(s, IsKeywordSep)| && 0 <= k < |Split(s, IsKeywordSep)[i]|
    ensures Split(s, IsKeywordSep)[i][k] in s
    decreases |s|
  {
    var r := Split(s, IsKeywordSep);
    if s != [] {
      var rest := Split(s[1..], IsKeywordSep);
      if IsKeywordSep(s[0]) {
        assert i >= 1 && r[i] == rest[i - 1];
        SplitPiecesFromInput(s[1..], i - 1, k);
      } else if i == 0 {
        if k > 0 {
          assert r[0][k] == rest[0][k - 1];
          SplitPiecesFromInput(s[1..], 0, k - 1);
        }
      } else {
        assert r[i] == rest[i];
        SplitPiecesFromInput(s[1..], i, k);
      }
    }
  }

  /** A category whose keyword string is NULL, empty, or made of separators
      and whitespace only never matches any description. */
  lemma BlankKeywordsNeverMatch(c: Category, descriptionLower: string)
    requires c.keywords.None? ||
      forall k :: 0 <= k < |c.keywords.value| ==> IsSpace(c.keywords.value[k]) || IsKeywordSep(c.keywords.value[k])
    ensures !MatchesDescription(c, descriptionLower)
  {
    if c.keywords.Some? && c.keywords.value != [] {
      var ks := c.keywords.value;
      var ps := Split(ks, IsKeywordSep);
      SplitPiecesClean(ks, IsKeywordSep);
      forall i | 0 <= i < |ps| ensures KeywordList(c)[i] == [] {
        forall k | 0 <= k < |ps[i]| ensures IsSpace(ps[i][k]) {
          SplitPiecesFromInput(ks, i, k);
        }
        AllSpaceStripsEmpty(ps[i]);
      }
    }
  }

  /** When a category with id `id` is removed from a store whose ids are
      increasing, a transaction still pointing at `id` joins to no name. */
  lemma DanglingAfterDelete(categories: seq<Category>, i: nat)
    requires i < |categories|
    requires forall a, b :: 0 <= a < b < |categories| ==> categories[a].id < categories[b].id
    ensures JoinedName(RemoveAt(categories, i), Some(categories[i].id)) == None
  {
    var rest := RemoveAt(categories, i);
    forall c | c in rest ensures c.id != categories[i].id {
      var j :| 0 <= j < |rest| && rest[j] == c;
      if j < i { assert c == categories[j]; } else { assert c == categories[j + 1]; }
    }
  }

  // ------------------------------------------------------------ state changes

  /** `create_category`. The unique constraint on `categories.name` makes the
      commit fail for a name already in use. */
  method CreateCategory(db: Store, name: string, keywords: Option<string>, parentId: Option<int>)
    returns (r: Result<Category>)
    requires db.Valid()
    modifies db
    ensures db.Valid()
    ensures db.transactions == old(db.transactions) && db.goals == old(db.goals)
    ensures db.importLogs == old(db.importLogs)
    ensures GetCategoryByName(old(db.categories), name).Some? ==>
      r == Err(NameTaken) && db.categories == old(db.categories) && db.nextId == old(db.nextId)
    ensures GetCategoryByName(old(db.categories), name).None? ==>
      r == Ok(Category(old(db.nextId), name, keywords, parentId)) &&
      db.categories == old(db.categories) + [r.value] && db.nextId == old(db.nextId) + 1
  {
    if GetCategoryByName(db.categories, name).Some? {
      return Err(NameTaken);
    }
    var c := Category(db.nextId, name, keywords, parentId);
    db.categories := db.categories + [c];
    db.nextId := db.nextId + 1;
    r := Ok(c);
  }

  /** `delete_category`: `None` for an unknown id; otherwise the category is
      removed and returned. Transactions and goals that point at it keep
      their `category_id`. */
  method DeleteCategory(db: Store, categoryId: int) returns (r: Option<Category>)
    requires db.Valid()
    modifies db
    ensures db.Valid()
    ensures db.transactions == old(db.transactions) && db.goals == old(db.goals)
    ensures db.importLogs == old(db.importLogs) && db.nextId == old(db.nextId)
    ensures CategoryById(old(db.categories), categoryId).None? ==>
      r.None? && db.categories == old(db.categories)
    ensures CategoryById(old(db.categories), categoryId).Some? ==>
      r == CategoryById(old(db.categories), categoryId) &&
      exists i :: 0 <= i < |old(db.categories)| && old(db.categories)[i] == r.value &&
        db.categories == RemoveAt(old(db.categories), i)
  {
    var idx := FirstIndex(db.categories, (c: Category) => c.id == categoryId);
    match idx
    case None =>
      r := None;
    case Some(i) =>
      r := Some(db.categories[i]);
      db.categories := RemoveAt(db.categories, i);
  }
}
