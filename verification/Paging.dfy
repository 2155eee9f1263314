/** Listing notifications page by page: the engine's sort parameters and query, and the dashboard's
    pages on top of them. */
module Paging {

  import opened Options

  /** A row with its id and the values of its other columns; strings and times are compared as numbers. */
  datatype Row = Row(id: nat, columns: map<string, int>) {
    function Value(key: string): int
    {
      if key == "id" then id else if key in columns then columns[key] else 0
    }
  }

  // ----- Sort parameters -----

  const DEFAULT_KEYS := ["created_at", "id"]
  const DEFAULT_DIR := "desc"

  predicate IsDirection(dir: string) { dir == "asc" || dir == "desc" }

  datatype SortParams = Params(keys: seq<string>, dirs: seq<string>) | UnknownDirection | TooManyDirections

  function DefaultDir(sortDirs: seq<string>): string
  {
    if sortDirs != [] then sortDirs[0] else DEFAULT_DIR
  }

  /** Keys that a row order can be built from: one direction for each, and no ties between rows. */
  predicate Complete(keys: seq<string>, dirs: seq<string>)
  {
    && |keys| == |dirs| && (forall d | d in dirs :: IsDirection(d)) && "id" in keys
  }

  function WithKey(keys: seq<string>, key: string): seq<string> { if key in keys then keys else keys + [key] }

  function WithDefaultKeys(keys: seq<string>): seq<string> { WithKey(WithKey(keys, DEFAULT_KEYS[0]), DEFAULT_KEYS[1]) }

  /** The given directions, and the default one for all further keys. */
  function PaddedDirs(dirs: seq<string>, n: nat): seq<string>
    requires |dirs| <= n
  {
    dirs + seq(n - |dirs|, _ => DefaultDir(dirs))
  }

  /** The given keys and directions come first; the default keys that are missing follow, once each, and
      the remaining directions are the first given one, or descending. */
  lemma SortParamsMean(sortKeys: seq<string>, sortDirs: seq<string>, n: nat)
    requires |sortDirs| <= n
    ensures var keys := WithDefaultKeys(sortKeys);
      && sortKeys <= keys && "created_at" in keys && "id" in keys
      && (forall i | |sortKeys| <= i < |keys| :: (keys[i] == "created_at" || keys[i] == "id") && keys[i] !in keys[..i])
    ensures var dirs := PaddedDirs(sortDirs, n);
      && sortDirs <= dirs && |dirs| == n
      && (forall i | |sortDirs| <= i < n :: dirs[i] == if sortDirs == [] then "desc" else sortDirs[0])
  {
  }

  /** _process_sort_params: it fails for an unknown direction, or for more directions than keys;
      otherwise it adds directions and default keys, and the id is always among the keys. */
  method ProcessSortParams(sortKeys: seq<string>, sortDirs: seq<string>) returns (r: SortParams)
    ensures r.UnknownDirection? <==> exists i | 0 <= i < |sortDirs| :: sortDirs[i] != "asc" && sortDirs[i] != "desc"
    ensures r.TooManyDirections? <==> !r.UnknownDirection? && |sortDirs| > |sortKeys|
    ensures r.Params? ==> Complete(r.keys, r.dirs) && forall k | k in sortKeys + DEFAULT_KEYS :: k in r.keys
    ensures r.Params? ==> sortKeys <= r.keys && "created_at" in r.keys && "id" in r.keys
    ensures r.Params? ==> forall i | |sortKeys| <= i < |r.keys| ::
              (r.keys[i] == "created_at" || r.keys[i] == "id") && r.keys[i] !in r.keys[..i]
    ensures r.Params? ==> sortDirs <= r.dirs && forall i | |sortDirs| <= i < |r.dirs| ::
              r.dirs[i] == if sortDirs == [] then "desc" else sortDirs[0]
    ensures r.Params? ==> r.keys == WithDefaultKeys(sortKeys)
    ensures r.Params? ==> |sortDirs| <= |r.keys| && r.dirs == PaddedDirs(sortDirs, |r.keys|)
  {
    var defaultDir := DefaultDir(sortDirs);
    var keys, dirs := sortKeys, [];
    if sortDirs != [] {
      for i := 0 to |sortDirs|
        invariant dirs == sortDirs[..i]
        invariant forall k | 0 <= k < i :: sortDirs[k] == "asc" || sortDirs[k] == "desc"
      {
        if sortDirs[i] != "asc" && sortDirs[i] != "desc" { return UnknownDirection; }
        dirs := dirs + [sortDirs[i]];
      }
      assert sortDirs[..|sortDirs|] == sortDirs;
    } else {
      dirs := seq(|keys|, _ => defaultDir);
    }
    while |dirs| < |keys|
      invariant sortDirs <= dirs && (|dirs| <= |keys| || dirs == sortDirs)
      invariant forall i | |sortDirs| <= i < |dirs| :: dirs[i] == defaultDir
      decreases |keys| - |dirs|
    {
      dirs := dirs + [defaultDir];
    }
    if |dirs| > |keys| { return TooManyDirections; }
    for j := 0 to |DEFAULT_KEYS|
      invariant |keys| == |dirs| && sortKeys <= keys && sortDirs <= dirs
      invariant j == 0 ==> keys == sortKeys
      invariant j == 1 ==> keys == WithKey(sortKeys, DEFAULT_KEYS[0])
      invariant j == 2 ==> keys == WithDefaultKeys(sortKeys)
      invariant forall i | |sortDirs| <= i < |dirs| :: dirs[i] == defaultDir
    {
      if DEFAULT_KEYS[j] !in keys {
        keys, dirs := keys + [DEFAULT_KEYS[j]], dirs + [defaultDir];
      }
    }
    assert dirs == PaddedDirs(sortDirs, |keys|);
    SortParamsMean(sortKeys, sortDirs, |keys|);
    return Params(keys, dirs);
  }

  // ----- The order of rows -----

  /** Row a comes before row b: ORDER BY the keys, each in its direction. */
  predicate Before(keys: seq<string>, dirs: seq<string>, a: Row, b: Row)
    requires |keys| == |dirs|
  {
    keys != [] &&
    var x, y := a.Value(keys[0]), b.Value(keys[0]);
    if x == y then Before(keys[1..], dirs[1..], a, b)
    else if dirs[0] == "asc" then x < y
    else x > y
  }

  /** The rows agree in all keys before the i-th, and in that one row a's value is smaller if the direction
      is ascending, greater if it is descending; the id is a row's own, other values are its columns'. */
  predicate FirstDifference(keys: seq<string>, dirs: seq<string>, a: Row, b: Row, i: nat)
    requires |keys| == |dirs| && i < |keys|
    requires forall key | key in keys :: key == "id" || (key in a.columns && key in b.columns)
  {
    && (forall j | 0 <= j < i :: if keys[j] == "id" then a.id == b.id else a.columns[keys[j]] == b.columns[keys[j]])
    && var (x, y) := if keys[i] == "id" then (a.id, b.id) else (a.columns[keys[i]], b.columns[keys[i]]);
       (dirs[i] == "asc" && x < y) || (dirs[i] == "desc" && x > y)
  }

  /** One row comes before another exactly if it does so in the first key in which they differ. */
  lemma {:induction false} BeforeMeans(keys: seq<string>, dirs: seq<string>, a: Row, b: Row)
    requires |keys| == |dirs| && forall d | d in dirs :: d == "asc" || d == "desc"
    requires forall key | key in keys :: key == "id" || (key in a.columns && key in b.columns)
    ensures Before(keys, dirs, a, b) <==> exists i | 0 <= i < |keys| :: FirstDifference(keys, dirs, a, b, i)
  {
    if keys == [] {
    } else {
      assert dirs[0] in dirs && keys[0] in keys;
      assert (forall d | d in dirs[1..] :: d in dirs) && forall key | key in keys[1..] :: key in keys;
      BeforeMeans(keys[1..], dirs[1..], a, b);
      forall i | 0 < i < |keys|
        ensures FirstDifference(keys, dirs, a, b, i) <==>
                  a.Value(keys[0]) == b.Value(keys[0]) && FirstDifference(keys[1..], dirs[1..], a, b, i - 1)
      {
        DifferenceInTail(keys, dirs, a, b, i);
      }
      if i :| 0 <= i < |keys[1..]| && FirstDifference(keys[1..], dirs[1..], a, b, i) {
        assert FirstDifference(keys, dirs, a, b, i + 1) <==> a.Value(keys[0]) == b.Value(keys[0]);
      }
      assert FirstDifference(keys, dirs, a, b, 0) <==>
             a.Value(keys[0]) != b.Value(keys[0]) && (dirs[0] == "asc" <==> a.Value(keys[0]) < b.Value(keys[0]));
    }
  }

  lemma DifferenceInTail(keys: seq<string>, dirs: seq<string>, a: Row, b: Row, i: nat)
    requires |keys| == |dirs| && 0 < i < |keys|
    requires forall key | key in keys :: key == "id" || (key in a.columns && key in b.columns)
    ensures FirstDifference(keys, dirs, a, b, i) <==>
              a.Value(keys[0]) == b.Value(keys[0]) && FirstDifference(keys[1..], dirs[1..], a, b, i - 1)
  {
    assert keys[0] in keys;
    if FirstDifference(keys[1..], dirs[1..], a, b, i - 1) && a.Value(keys[0]) == b.Value(keys[0]) {
      forall j | 0 <= j < i
        ensures if keys[j] == "id" then a.id == b.id else a.columns[keys[j]] == b.columns[keys[j]]
      {
        if j > 0 { assert keys[j] == keys[1..][j - 1]; }
      }
    }
    if FirstDifference(keys, dirs, a, b, i) {
      forall j | 0 <= j < i - 1
        ensures if keys[1..][j] == "id" then a.id == b.id else a.columns[keys[1..][j]] == b.columns[keys[1..][j]]
      {
        assert keys[1..][j] == keys[j + 1];
      }
    }
  }

  lemma {:induction false} BeforeIsStrict(keys: seq<string>, dirs: seq<string>, a: Row, b: Row)
    requires |keys| == |dirs|
    ensures !(Before(keys, dirs, a, b) && Before(keys, dirs, b, a))
  {
    if keys == [] {
    } else {
      BeforeIsStrict(keys[1..], dirs[1..], a, b);
    }
  }

  lemma {:induction false} BeforeIsTransitive(keys: seq<string>, dirs: seq<string>, a: Row, b: Row, c: Row)
    requires |keys| == |dirs| && Before(keys, dirs, a, b) && Before(keys, dirs, b, c)
    ensures Before(keys, dirs, a, c)
  {
    if a.Value(keys[0]) == b.Value(keys[0]) == c.Value(keys[0]) {
      BeforeIsTransitive(keys[1..], dirs[1..], a, b, c);
    }
  }

  /** With the id among the keys, no two rows tie. */
  lemma {:induction false} BeforeIsTotal(keys: seq<string>, dirs: seq<string>, a: Row, b: Row)
    requires |keys| == |dirs| && "id" in keys && a.id != b.id
    ensures Before(keys, dirs, a, b) || Before(keys, dirs, b, a)
  {
    if keys[0] != "id" {
      assert "id" in keys[1..];
      BeforeIsTotal(keys[1..], dirs[1..], a, b);
    }
  }

  predicate UniqueIds(rows: set<Row>)
  {
    forall a, b | a in rows && b in rows && a.id == b.id :: a == b
  }

  /** Row x comes before all the others. */
  predicate First(keys: seq<string>, dirs: seq<string>, rows: set<Row>, x: Row)
    requires |keys| == |dirs|
  {
    x in rows && forall y | y in rows && y != x :: Before(keys, dirs, x, y)
  }

  lemma {:induction false} FirstExists(keys: seq<string>, dirs: seq<string>, rows: set<Row>)
    requires Complete(keys, dirs) && UniqueIds(rows) && rows != {}
    ensures exists x | x in rows :: First(keys, dirs, rows, x)
  {
    hide Before;
    var x :| x in rows;
    if rows == {x} {
      assert First(keys, dirs, rows, x);
    } else {
      FirstExists(keys, dirs, rows - {x});
      var z :| z in rows - {x} && First(keys, dirs, rows - {x}, z);
      BeforeIsTotal(keys, dirs, x, z);
      if Before(keys, dirs, x, z) {
        forall y | y in rows && y != x ensures Before(keys, dirs, x, y) {
          if y != z { BeforeIsTransitive(keys, dirs, x, z, y); }
        }
        assert First(keys, dirs, rows, x);
      } else {
        assert First(keys, dirs, rows, z);
      }
    }
  }

  /** All the rows, in order. */
  ghost function Ordered(keys: seq<string>, dirs: seq<string>, rows: set<Row>): (s: seq<Row>)
    requires Complete(keys, dirs) && UniqueIds(rows)
  {
    if rows == {} then [] else
      FirstExists(keys, dirs, rows);
      var x :| First(keys, dirs, rows, x);
      [x] + Ordered(keys, dirs, rows - {x})
  }

  ghost predicate Ascending(keys: seq<string>, dirs: seq<string>, s: seq<Row>)
    requires |keys| == |dirs|
  {
    forall i, j | 0 <= i < j < |s| :: Before(keys, dirs, s[i], s[j])
  }

  /** The ordered list holds each row once, in strictly ascending order. */
  lemma {:induction false} OrderedListsAll(keys: seq<string>, dirs: seq<string>, rows: set<Row>)
    requires Complete(keys, dirs) && UniqueIds(rows)
    ensures var s := Ordered(keys, dirs, rows);
      |s| == |rows| && (forall r :: r in s <==> r in rows) && Ascending(keys, dirs, s)
  {
    hide Before;
    if rows == {} {
    } else {
      var s := Ordered(keys, dirs, rows);
      assert s[1..] == Ordered(keys, dirs, rows - {s[0]}) && s == [s[0]] + s[1..];
      OrderedListsAll(keys, dirs, rows - {s[0]});
      forall i, j | 0 <= i < j < |s| ensures Before(keys, dirs, s[i], s[j]) {
        assert s[j] == s[1..][j - 1];
        if i > 0 { assert s[i] == s[1..][i - 1]; }
      }
    }
  }

  /** There is only one such list. */
  lemma {:induction false} OrderIsUnique(keys: seq<string>, dirs: seq<string>, rows: set<Row>, s: seq<Row>)
    requires Complete(keys, dirs) && UniqueIds(rows)
    requires (forall r :: r in s <==> r in rows) && Ascending(keys, dirs, s)
    ensures s == Ordered(keys, dirs, rows)
  {
    hide Before;
    if s == [] {
      assert rows == {};
    } else {
      var o := Ordered(keys, dirs, rows);
      assert s[0] in rows;
      OrderedListsAll(keys, dirs, rows);
      if o[0] != s[0] {
        var i :| 0 <= i < |s| && s[i] == o[0];
        BeforeIsStrict(keys, dirs, s[0], o[0]);
        assert false;
      }
      var rest := rows - {s[0]};
      forall r ensures r in s[1..] <==> r in rest {
        if r in rest {
          var i :| 0 <= i < |s| && s[i] == r;
          assert r == s[1..][i - 1];
        }
        if r == s[0] && r in s[1..] {
          var i :| 0 <= i < |s[1..]| && s[1..][i] == r;
          BeforeIsStrict(keys, dirs, s[0], s[i + 1]);
        }
      }
      OrderIsUnique(keys, dirs, rest, s[1..]);
    }
  }

  // ----- The query -----

  /** The rows a list holds: those that match the filters, and come after the marker row if there is one. */
  ghost function Rest(keys: seq<string>, dirs: seq<string>, rows: set<Row>, matches: Row -> bool,
                      marker: Option<Row>): set<Row>
    requires |keys| == |dirs|
  {
    set r | r in rows && matches(r) && (marker == None || Before(keys, dirs, marker.value, r))
  }

  function Min(a: nat, b: nat): nat { if a < b then a else b }

  /** The first rows of a list, all of them without a limit. */
  function Take(s: seq<Row>, limit: Option<nat>): seq<Row>
  {
    if limit.Some? then s[..Min(limit.value, |s|)] else s
  }

  /** The rows that come after the i-th of the ordered list are the rest of that list. */
  lemma RestIsSuffix(keys: seq<string>, dirs: seq<string>, rows: set<Row>, matches: Row -> bool, i: nat)
    requires Complete(keys, dirs) && UniqueIds(rows)
    requires i < |Ordered(keys, dirs, Rest(keys, dirs, rows, matches, None))|
    ensures var s := Ordered(keys, dirs, Rest(keys, dirs, rows, matches, None));
      s[i] in rows && Ordered(keys, dirs, Rest(keys, dirs, rows, matches, Some(s[i]))) == s[i + 1..]
  {
    hide Before, Ordered;
    var all := Rest(keys, dirs, rows, matches, None);
    var s := Ordered(keys, dirs, all);
    OrderedListsAll(keys, dirs, all);
    assert s[i] in all;
    var rest := Rest(keys, dirs, rows, matches, Some(s[i]));
    forall r ensures r in s[i + 1..] <==> r in rest {
      if r in s[i + 1..] {
        var j :| 0 <= j < |s[i + 1..]| && s[i + 1..][j] == r;
        assert r == s[i + 1 + j];
        assert r in all;
      }
      if r in rest {
        assert r in s;
        var j :| 0 <= j < |s| && s[j] == r;
        BeforeIsStrict(keys, dirs, s[i], r);
        assert j > i && r == s[i + 1..][j - i - 1];
      }
    }
    OrderIsUnique(keys, dirs, rest, s[i + 1..]);
  }

  datatype Answer = Rows(rows: seq<Row>) | InvalidInput | MarkerNotFound | InvalidSortKey

  predicate HasId(rows: set<Row>, id: nat) { exists r | r in rows :: r.id == id }

  /** paginate_query and the query it makes: rows after the marker row, in order, up to the limit. */
  method PaginateQuery(rows: set<Row>, matches: Row -> bool, limit: Option<nat>, keys: seq<string>, marker: Option<Row>,
                       dirs: seq<string>) returns (answer: seq<Row>)
    requires Complete(keys, dirs) && UniqueIds(rows)
    ensures answer == Take(Ordered(keys, dirs, Rest(keys, dirs, rows, matches, marker)), limit)
  {
    hide Before, Ordered, First;
    ghost var whole := Ordered(keys, dirs, Rest(keys, dirs, rows, matches, marker));
    var left := set r | r in rows && matches(r) && (marker == None || Before(keys, dirs, marker.value, r));
    answer := [];
    while left != {} && (limit == None || |answer| < limit.value)
      invariant left <= rows && (limit.Some? ==> |answer| <= limit.value)
      invariant whole == answer + Ordered(keys, dirs, left)
      decreases left
    {
      FirstExists(keys, dirs, left);
      var x :| x in left && First(keys, dirs, left, x);
      OrderedFrom(keys, dirs, left, x);
      answer, left := answer + [x], left - {x};
    }
    OrderedListsAll(keys, dirs, left);
  }

  lemma OrderedFrom(keys: seq<string>, dirs: seq<string>, rows: set<Row>, x: Row)
    requires Complete(keys, dirs) && UniqueIds(rows) && First(keys, dirs, rows, x)
    ensures Ordered(keys, dirs, rows) == [x] + Ordered(keys, dirs, rows - {x})
  {
    hide Before;
    var s := Ordered(keys, dirs, rows);
    var y := s[0];
    if x != y { BeforeIsStrict(keys, dirs, x, y); }
  }

  /** notifications_get_all_by_filters. The limit 0 is answered before anything else is looked at. */
  method NotificationsGetAllByFilters(rows: set<Row>, columns: set<string>, matches: Row -> bool, sortKeys: seq<string>,
                                      sortDirs: seq<string>, limit: Option<nat>, marker: Option<nat>)
    returns (answer: Answer, ghost params: SortParams)
    requires UniqueIds(rows) && "id" in columns
    ensures limit == Some(0) ==> answer == Rows([])
    ensures limit != Some(0) ==>
      (answer.InvalidInput? <==>
         (exists i | 0 <= i < |sortDirs| :: sortDirs[i] != "asc" && sortDirs[i] != "desc") || |sortDirs| > |sortKeys|)
    ensures limit != Some(0) ==>
      (answer.MarkerNotFound? <==> !answer.InvalidInput? && marker.Some? && !HasId(rows, marker.value))
    ensures limit != Some(0) ==>
      (answer.InvalidSortKey? <==> !answer.InvalidInput? && !answer.MarkerNotFound? &&
                                   exists k | k in sortKeys + DEFAULT_KEYS :: k !in columns)
    ensures answer.Rows? && limit != Some(0) ==>
      && params.Params? && Complete(params.keys, params.dirs) && (forall k | k in params.keys :: k in columns)
      && params.keys == WithDefaultKeys(sortKeys)
      && |sortDirs| <= |params.keys| && params.dirs == PaddedDirs(sortDirs, |params.keys|)
      && (marker == None ==>
            answer.rows ==
              Take(Ordered(params.keys, params.dirs, Rest(params.keys, params.dirs, rows, matches, None)), limit))
      && (forall r | r in rows && marker == Some(r.id) ::
            answer.rows ==
              Take(Ordered(params.keys, params.dirs, Rest(params.keys, params.dirs, rows, matches, Some(r))), limit))
  {
    hide Before, Ordered, Rest, Take;
    params := TooManyDirections;
    if limit == Some(0) { return Rows([]), params; }
    var sort := ProcessSortParams(sortKeys, sortDirs);
    params := sort;
    if !sort.Params? { return InvalidInput, params; }
    var markerRow: Option<Row> := None;
    if marker.Some? {
      if !HasId(rows, marker.value) { return MarkerNotFound, params; }
      var r :| r in rows && r.id == marker.value;
      markerRow := Some(r);
    }
    if k :| k in sort.keys && k !in columns {
      return InvalidSortKey, params;
    }
    var found := PaginateQuery(rows, matches, limit, sort.keys, markerRow, sort.dirs);
    return Rows(found), params;
  }

  // ----- The dashboard's pages -----

  /** The sort parameters of a request that names none, as the query receives them. */
  const LIST_KEYS := ["created_at", "id"]
  const LIST_DIRS := ["desc", "desc"]

  /** What a list page that starts after the marker, or at the beginning, still has to show. */
  ghost function Listing(rows: set<Row>, matches: Row -> bool, marker: Option<Row>): seq<Row>
    requires UniqueIds(rows)
  {
    Ordered(LIST_KEYS, LIST_DIRS, Rest(LIST_KEYS, LIST_DIRS, rows, matches, marker))
  }

  /** A list that a page still has to show holds exactly the matching rows, without a marker, or those of
      them that come after it; each once; newest first, and by descending id among rows of one time. */
  lemma ListingMeans(rows: set<Row>, matches: Row -> bool, marker: Option<Row>)
    requires UniqueIds(rows) && forall r | r in rows :: "created_at" in r.columns
    requires marker.Some? ==> marker.value in rows
    ensures var list := Listing(rows, matches, marker);
      && (forall r :: r in list <==> r in rows && matches(r) && (marker == None || NewerFirst(marker.value, r)))
      && (forall i, j | 0 <= i < j < |list| :: NewerFirst(list[i], list[j]))
      && |list| == |Rest(LIST_KEYS, LIST_DIRS, rows, matches, marker)|
  {
    hide Before, Ordered;
    forall a, b | a in rows && b in rows ensures Before(LIST_KEYS, LIST_DIRS, a, b) <==> NewerFirst(a, b) {
      ListOrder(a, b);
    }
    OrderedListsAll(LIST_KEYS, LIST_DIRS, Rest(LIST_KEYS, LIST_DIRS, rows, matches, marker));
    var list := Listing(rows, matches, marker);
    forall i, j | 0 <= i < j < |list| ensures NewerFirst(list[i], list[j]) {
      assert list[i] in list && list[j] in list;
    }
  }

  predicate NewerFirst(a: Row, b: Row)
  {
    "created_at" in a.columns && "created_at" in b.columns &&
    var (x, y) := (a.columns["created_at"], b.columns["created_at"]);
    x > y || (x == y && a.id > b.id)
  }

  lemma ListOrder(a: Row, b: Row)
    requires "created_at" in a.columns && "created_at" in b.columns
    ensures Before(LIST_KEYS, LIST_DIRS, a, b) <==> NewerFirst(a, b)
  {
    assert LIST_KEYS[1..] == ["id"] && LIST_DIRS[1..] == ["desc"] && LIST_KEYS[1..][1..] == [];
    assert Before(["id"], ["desc"], a, b) <==> a.id > b.id;
  }

  /** get_request_param: one row more than a page shows, to learn whether there is a next page. */
  function RequestSize(paginate: bool, pageSize: nat, resultLimit: nat): nat
  {
    if paginate then pageSize + 1 else resultLimit
  }

  /** pagination_process: the surplus row is dropped and becomes the flag for more data. */
  method PaginationProcess(data: seq<Row>, requestSize: nat, pageSize: nat, marker: Option<nat>)
    returns (entities: seq<Row>, more: bool, prev: bool)
    requires requestSize == RequestSize(true, pageSize, 0)
    ensures entities == data[..Min(pageSize, |data|)]
    ensures more <==> |data| > pageSize
    ensures prev <==> marker.Some?
  {
    more, prev := false, false;
    entities := data[..Min(requestSize, |data|)];
    if |entities| > pageSize {
      entities := entities[..|entities| - 1];
      more := true;
      if marker.Some? { prev := true; }
    } else if marker.Some? {
      prev := true;
    }
  }

  datatype ListPage = ListPage(entities: seq<Row>, more: bool, prev: bool)

  /** What a page shows of the rows that are left. */
  predicate Shows(page: ListPage, rest: seq<Row>, pageSize: nat, maxLimit: nat)
  {
    && page.entities == rest[..Min(Min(pageSize, maxLimit), |rest|)]
    && (page.more <==> pageSize < maxLimit && pageSize < |rest|)
  }

  predicate IsMarker(rows: set<Row>, marker: Option<nat>, row: Option<Row>)
  {
    if marker == None then row == None else row.Some? && row.value in rows && row.value.id == marker.value
  }

  /** notification_list for one page; the API caps the size of the request at maxLimit. */
  method NotificationList(rows: set<Row>, columns: set<string>, matches: Row -> bool, marker: Option<nat>, pageSize: nat,
                          maxLimit: nat) returns (page: Option<ListPage>)
    requires UniqueIds(rows) && "id" in columns && "created_at" in columns
    ensures maxLimit > 0 ==> (page == None <==> marker.Some? && !HasId(rows, marker.value))
    ensures forall row | IsMarker(rows, marker, row) ::
      page.Some? && Shows(page.value, Listing(rows, matches, row), pageSize, maxLimit) && (page.value.prev <==> marker.Some?)
  {
    hide Ordered, Before, Rest;
    var requestSize := RequestSize(true, pageSize, 0);
    var answer, params := NotificationsGetAllByFilters(rows, columns, matches, ["created_at"], ["desc"],
                                                       Some(Min(maxLimit, requestSize)), marker);
    if !answer.Rows? { return None; }
    assert LIST_KEYS == WithDefaultKeys(["created_at"]) && LIST_DIRS == PaddedDirs(["desc"], 2);
    var entities, more, prev := PaginationProcess(answer.rows, requestSize, pageSize, marker);
    page := Some(ListPage(entities, more, prev));
  }

  /** The part of a list that its pages show: all of it, or, where the cap hides the surplus row, the first page. */
  function Reachable(all: seq<Row>, pageSize: nat, maxLimit: nat): seq<Row>
  {
    if pageSize < maxLimit then all else all[..Min(maxLimit, |all|)]
  }

  lemma ReachableIsAll(all: seq<Row>, pageSize: nat, maxLimit: nat)
    ensures Reachable(all, pageSize, maxLimit) == all <==> pageSize < maxLimit || |all| <= maxLimit
  {
  }

  /** The user opens the list and asks for the next page while the page says that there is one. The pages
      together are the whole list, each row once and in order, exactly when the API's cap leaves room for
      the surplus row, or the list fits under the cap. */
  method WalkPages(rows: set<Row>, columns: set<string>, matches: Row -> bool, pageSize: nat, maxLimit: nat)
    returns (shown: seq<Row>, pages: seq<seq<Row>>)
    requires UniqueIds(rows) && "id" in columns && "created_at" in columns && pageSize >= 1
    ensures shown == Flatten(pages)
    ensures shown == Reachable(Listing(rows, matches, None), pageSize, maxLimit)
    ensures shown == Listing(rows, matches, None) <==> pageSize < maxLimit || |Listing(rows, matches, None)| <= maxLimit
    ensures forall k | 0 <= k < |pages| - 1 :: |pages[k]| == pageSize
    ensures |pages| > 0 && |pages[|pages| - 1]| <= pageSize
  {
    hide Ordered, Before, Rest, Listing, Flatten, Shows, UniqueIds, Reachable;
    ghost var all := Listing(rows, matches, None);
    ReachableIsAll(all, pageSize, maxLimit);
    assert IsMarker(rows, None, None);
    var first := NotificationList(rows, columns, matches, None, pageSize, maxLimit);
    var page := first.value;
    shown, pages := page.entities, [page.entities];
    FlattenAppends([], page.entities);
    assert [] + pages == pages && [] + shown == shown && all[0..] == all;
    Advance(all, [], page, pageSize, maxLimit);
    while page.more
      invariant shown == Flatten(pages) && |pages| > 0 && page.entities == pages[|pages| - 1]
      invariant forall k | 0 <= k < |pages| - 1 :: |pages[k]| == pageSize
      invariant Progress(all, shown, page, pageSize, maxLimit)
      decreases |all| - |shown|
    {
      var marker := page.entities[|page.entities| - 1];
      NextPage(rows, matches, |shown| - 1);
      assert IsMarker(rows, Some(marker.id), Some(marker));
      var next := NotificationList(rows, columns, matches, Some(marker.id), pageSize, maxLimit);
      page := next.value;
      FlattenAppends(pages, page.entities);
      Advance(all, shown, page, pageSize, maxLimit);
      shown, pages := shown + page.entities, pages + [page.entities];
    }
  }

  function Flatten(pages: seq<seq<Row>>): seq<Row>
  {
    if pages == [] then [] else Flatten(pages[..|pages| - 1]) + pages[|pages| - 1]
  }

  /** Where a walk stands that has shown these rows of a list, its last page included. */
  predicate Progress(all: seq<Row>, shown: seq<Row>, page: ListPage, pageSize: nat, maxLimit: nat)
  {
    && shown <= all && |page.entities| <= pageSize
    && (page.more ==>
          pageSize < maxLimit && |page.entities| == pageSize && pageSize <= |shown| < |all| &&
          (pageSize > 0 ==> page.entities[pageSize - 1] == shown[|shown| - 1] == all[|shown| - 1]))
    && (!page.more ==> shown == Reachable(all, pageSize, maxLimit))
  }

  lemma Advance(all: seq<Row>, shown: seq<Row>, page: ListPage, pageSize: nat, maxLimit: nat)
    requires shown <= all && (shown == [] || pageSize < maxLimit)
    requires Shows(page, all[|shown|..], pageSize, maxLimit)
    ensures Progress(all, shown + page.entities, page, pageSize, maxLimit)
  {
    var rest := all[|shown|..];
    assert page.entities == rest[..|page.entities|];
    assert all == shown + rest;
    if page.more { assert |page.entities| == pageSize; }
  }

  lemma FlattenAppends(pages: seq<seq<Row>>, page: seq<Row>)
    ensures Flatten(pages + [page]) == Flatten(pages) + page && Flatten([]) == []
  {
    assert (pages + [page])[..|pages|] == pages;
  }

  lemma NextPage(rows: set<Row>, matches: Row -> bool, i: nat)
    requires UniqueIds(rows) && i < |Listing(rows, matches, None)|
    ensures var all := Listing(rows, matches, None);
      all[i] in rows && Listing(rows, matches, Some(all[i])) == all[i + 1..]
  {
    RestIsSuffix(LIST_KEYS, LIST_DIRS, rows, matches, i);
  }

  /** With a cap no larger than the page, the surplus row never arrives: of a table with two rows, pages
      of one row and a cap of one show the newer row and never the other. */
  method WalkMissesRow() returns (rows: set<Row>, shown: seq<Row>, missed: Row)
    ensures UniqueIds(rows) && |rows| == 2 && |shown| == 1 && shown[0] in rows
    ensures missed in rows && missed !in shown
  {
    var older, newer := Row(1, map["created_at" := 10]), Row(2, map["created_at" := 20]);
    rows := {older, newer};
    var matches := (r: Row) => true;
    ghost var all := Rest(LIST_KEYS, LIST_DIRS, rows, matches, None);
    assert all == rows;
    OrderIsUnique(LIST_KEYS, LIST_DIRS, all, [newer, older]);
    var pages;
    shown, pages := WalkPages(rows, {"id", "created_at"}, matches, 1, 1);
    assert shown == [newer, older][..1] == [newer];
    missed := older;
  }
}
