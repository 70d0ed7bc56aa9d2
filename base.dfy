/** Shared result types and sequence helpers used by every other module. */
module Base {

  datatype Option<+T> = None | Some(value: T)
  {
    /** The value, or `default` when there is none. */
    function GetOr(default: T): T
    {
      if Some? then value else default
    }
  }

  /** The errors the backend reports: HTTP 404/400 from FastAPI handlers,
      ValueError from the importer, IntegrityError from the database. */
  datatype Error =
    | NotFound            // HTTPException(404)
    | CategoryNotFound    // HTTPException(404) for a goal's unknown category
    | NotASavingGoal      // HTTPException(400) from add_contribution_to_goal
    | NameTaken           // unique constraint on categories.name
    | UnreadableFile      // ValueError: pandas could not read the file
    | MissingColumns      // ValueError: a required column is missing
    | CommitFailed        // ValueError: commit of the import failed, rolled back

  datatype Result<T> = Ok(value: T) | Err(error: Error)

  /** Position of the first element satisfying `p`, as SQL `.first()` over
      rows kept in storage order returns it. */
  function FirstIndex<T>(s: seq<T>, p: T -> bool): (r: Option<nat>)
    ensures r.Some? ==> r.value < |s| && p(s[r.value])
    ensures r.Some? ==> forall j :: 0 <= j < r.value ==> !p(s[j])
    ensures r.None? <==> forall j :: 0 <= j < |s| ==> !p(s[j])
  {
    if s == [] then None
    else if p(s[0]) then Some(0)
    else match FirstIndex(s[1..], p)
      case None => None
      case Some(k) => Some(k + 1)
  }

  /** The sequence with the element at index `i` taken out. */
  function RemoveAt<T>(s: seq<T>, i: nat): (r: seq<T>)
    requires i < |s|
    ensures |r| == |s| - 1
    ensures forall j :: 0 <= j < i ==> r[j] == s[j]
    ensures forall j :: i <= j < |r| ==> r[j] == s[j + 1]
  {
    s[..i] + s[i + 1..]
  }

  /** The elements of `s` that satisfy `p`, in their order: a `WHERE`
      clause over rows held in storage order. */
  function Filter<T>(s: seq<T>, p: T -> bool): (r: seq<T>)
    ensures |r| <= |s|
    ensures forall i :: 0 <= i < |s| && p(s[i]) ==> s[i] in r
    ensures forall i :: 0 <= i < |r| ==> p(r[i])
    ensures multiset(r) <= multiset(s)
  {
    if s == [] then []
    else
      var last := s[|s| - 1];
      assert s == s[..|s| - 1] + [last];
      Filter(s[..|s| - 1], p) + (if p(last) then [last] else [])
  }

  /** Filtering distributes over concatenation. */
  lemma {:induction false} FilterAppend<T>(s: seq<T>, t: seq<T>, p: T -> bool)
    ensures Filter(s + t, p) == Filter(s, p) + Filter(t, p)
    decreases |t|
  {
    if t != [] {
      var t' := t[..|t| - 1];
      assert (s + t)[..|s + t| - 1] == s + t';
      FilterAppend(s, t', p);
    } else {
      assert s + t == s;
    }
  }
}
