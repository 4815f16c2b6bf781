/**
 * The request handlers of the back end over an in-memory `todos` table:
 * `GET /todos` (filters and sort order), `GET /todos/:id`, `POST /todos`,
 * `PUT /todos/:id`, `DELETE /todos/:id`, `GET /dashboard` and
 * `GET /categories`. The table is a map from id to row; the AUTO_INCREMENT
 * counter and the creation timestamps are the fields `nextId` and `clock`.
 */
module Server {
  import opened Wrappers
  import opened JsString
  import opened Calendar
  import opened Todos
  import JsObject

  // ---------------------------------------------------------------------
  // Columns, time windows and the WHERE clause of GET /todos

  datatype Column = CategoryColumn | PriorityColumn | StatusColumn

  function Cell(t: Todo, col: Column): string {
    match col
    case CategoryColumn => t.category
    case PriorityColumn => t.priority
    case StatusColumn => t.status
  }

  datatype Window = Today | ThisWeek | ThisMonth

  /** The `filter` query parameter: exactly `today`, `thisweek` or `thismonth` selects a window, anything else none. */
  function WindowOf(filter: Option<string>): (w: Option<Window>)
    ensures w == Some(Today) <==> filter == Some("today")
    ensures w == Some(ThisWeek) <==> filter == Some("thisweek")
    ensures w == Some(ThisMonth) <==> filter == Some("thismonth")
  {
    if filter == Some("today") then Some(Today)
    else if filter == Some("thisweek") then Some(ThisWeek)
    else if filter == Some("thismonth") then Some(ThisMonth)
    else None
  }

  /** A due date lies in window `w` around `today`; a NULL due date lies in none. */
  predicate InWindow(w: Window, today: Date, due: Option<Date>)
    ensures InWindow(w, today, due) ==> due.Some?
    ensures w == Today && InWindow(w, today, due) ==> SameIsoWeek(due.value, today) && SameMonth(due.value, today)
  {
    due.Some? &&
    match w
    case Today => SameDay(due.value, today)
    case ThisWeek => SameIsoWeek(due.value, today)
    case ThisMonth => SameMonth(due.value, today)
  }

  /** The query parameters `category`, `status`, `priority` and `filter`; `None` when absent. */
  datatype Query = Query(category: Option<string>, status: Option<string>, priority: Option<string>, filter: Option<string>)

  /** The rows `GET /todos` selects: each truthy equality filter and the selected window, all at once. */
  predicate Matches(q: Query, today: Date, t: Todo) {
    && (Truthy(q.category) ==> t.category == q.category.value)
    && (Truthy(q.status) ==> t.status == q.status.value)
    && (Truthy(q.priority) ==> t.priority == q.priority.value)
    && (WindowOf(q.filter).Some? ==> InWindow(WindowOf(q.filter).value, today, t.dueDate))
  }

  /** One `AND ...` condition the list handler appends to its query. */
  datatype Condition = ColumnEquals(column: Column, value: string) | DueWithin(window: Window)

  predicate Holds(c: Condition, today: Date, t: Todo) {
    match c
    case ColumnEquals(col, v) => Cell(t, col) == v
    case DueWithin(w) => InWindow(w, today, t.dueDate)
  }

  predicate AllHold(conds: seq<Condition>, today: Date, t: Todo) {
    forall i :: 0 <= i < |conds| ==> Holds(conds[i], today, t)
  }

  function EqualsClause(v: Option<string>, col: Column): seq<Condition> {
    if Truthy(v) then [ColumnEquals(col, v.value)] else []
  }

  function WindowClause(filter: Option<string>): seq<Condition> {
    if WindowOf(filter).Some? then [DueWithin(WindowOf(filter).value)] else []
  }

  /** The conditions in the order the handler appends them. */
  function WhereClause(q: Query): seq<Condition> {
    EqualsClause(q.category, CategoryColumn) + EqualsClause(q.status, StatusColumn)
    + EqualsClause(q.priority, PriorityColumn) + WindowClause(q.filter)
  }

  lemma AllHoldAppend(a: seq<Condition>, b: seq<Condition>, today: Date, t: Todo)
    ensures AllHold(a + b, today, t) <==> AllHold(a, today, t) && AllHold(b, today, t)
  {
    if AllHold(a, today, t) && AllHold(b, today, t) {
      forall i | 0 <= i < |a + b| ensures Holds((a + b)[i], today, t) {
        if i >= |a| { assert (a + b)[i] == b[i - |a|]; }
      }
    }
    if AllHold(a + b, today, t) {
      forall i | 0 <= i < |a| ensures Holds(a[i], today, t) {
        assert (a + b)[i] == a[i];
      }
      forall i | 0 <= i < |b| ensures Holds(b[i], today, t) {
        assert (a + b)[|a| + i] == b[i];
      }
    }
  }

  lemma EqualsClauseHolds(v: Option<string>, col: Column, today: Date, t: Todo)
    ensures AllHold(EqualsClause(v, col), today, t) <==> (Truthy(v) ==> Cell(t, col) == v.value)
  {
    if Truthy(v) {
      assert EqualsClause(v, col)[0] == ColumnEquals(col, v.value);
    }
  }

  /** A row satisfies every appended condition exactly when it matches the query. */
  lemma WhereClauseMatches(q: Query, today: Date, t: Todo)
    ensures AllHold(WhereClause(q), today, t) <==> Matches(q, today, t)
  {
    var c := EqualsClause(q.category, CategoryColumn);
    var s := EqualsClause(q.status, StatusColumn);
    var p := EqualsClause(q.priority, PriorityColumn);
    var w := WindowClause(q.filter);
    EqualsClauseHolds(q.category, CategoryColumn, today, t);
    EqualsClauseHolds(q.status, StatusColumn, today, t);
    EqualsClauseHolds(q.priority, PriorityColumn, today, t);
    if WindowOf(q.filter).Some? {
      assert w[0] == DueWithin(WindowOf(q.filter).value);
    }
    AllHoldAppend(c, s, today, t);
    AllHoldAppend(c + s, p, today, t);
    AllHoldAppend(c + s + p, w, today, t);
    assert AllHold(c, today, t) <==> (Truthy(q.category) ==> t.category == q.category.value);
    assert AllHold(s, today, t) <==> (Truthy(q.status) ==> t.status == q.status.value);
    assert AllHold(p, today, t) <==> (Truthy(q.priority) ==> t.priority == q.priority.value);
    assert AllHold(w, today, t) <==>
      (WindowOf(q.filter).Some? ==> InWindow(WindowOf(q.filter).value, today, t.dueDate));
  }

  /** Builds the WHERE clause of `GET /todos` condition by condition, as the handler grows its query string. */
  method WhereConditions(q: Query) returns (conds: seq<Condition>)
    ensures |conds| <= 4
    ensures forall today: Date, t: Todo :: AllHold(conds, today, t) <==> Matches(q, today, t)
  {
    conds := [];
    if Truthy(q.category) {
      conds := conds + [ColumnEquals(CategoryColumn, q.category.value)];
    }
    if Truthy(q.status) {
      conds := conds + [ColumnEquals(StatusColumn, q.status.value)];
    }
    assert conds == EqualsClause(q.category, CategoryColumn) + EqualsClause(q.status, StatusColumn);
    if Truthy(q.priority) {
      conds := conds + [ColumnEquals(PriorityColumn, q.priority.value)];
    }
    assert conds == EqualsClause(q.category, CategoryColumn) + EqualsClause(q.status, StatusColumn)
                    + EqualsClause(q.priority, PriorityColumn);
    if q.filter == Some("today") {
      conds := conds + [DueWithin(Today)];
    } else if q.filter == Some("thisweek") {
      conds := conds + [DueWithin(ThisWeek)];
    } else if q.filter == Some("thismonth") {
      conds := conds + [DueWithin(ThisMonth)];
    }
    assert conds == WhereClause(q);
    forall today: Date, t: Todo ensures AllHold(conds, today, t) <==> Matches(q, today, t) {
      WhereClauseMatches(q, today, t);
    }
  }

  // ---------------------------------------------------------------------
  // Sort order of GET /todos

  /**
   * `ORDER BY priority DESC, created_at DESC`: `a` may come before `b`.
   * `rank` is the sort key of the priority column, which depends on a
   * column type the application does not define.
   */
  predicate InListOrder(a: Todo, b: Todo, rank: string -> int) {
    rank(a.priority) > rank(b.priority) || (rank(a.priority) == rank(b.priority) && a.createdAt >= b.createdAt)
  }

  ghost predicate ListSorted(s: seq<Todo>, rank: string -> int) {
    forall i, j :: 0 <= i < j < |s| ==> InListOrder(s[i], s[j], rank)
  }

  /** No row appears twice. */
  ghost predicate DistinctIds(s: seq<Todo>) {
    forall i, j :: 0 <= i < j < |s| ==> s[i].id != s[j].id
  }

  /** `s` with `t` inserted at index `k`, element by element. */
  lemma InsertedAt<T>(s: seq<T>, k: nat, t: T)
    requires k <= |s|
    ensures |s[..k] + [t] + s[k..]| == |s| + 1
    ensures forall i :: 0 <= i < |s| + 1 ==>
      (s[..k] + [t] + s[k..])[i] == if i < k then s[i] else if i == k then t else s[i - 1]
    ensures forall x :: x in s[..k] + [t] + s[k..] <==> x in s || x == t
  {
    assert s == s[..k] + s[k..];
  }

  /** Placing `t` after the rows that may precede it and before the rest keeps the listing sorted. */
  lemma InsertKeepsOrder(s: seq<Todo>, k: nat, t: Todo, rank: string -> int)
    requires ListSorted(s, rank)
    requires k <= |s|
    requires forall i :: 0 <= i < k ==> InListOrder(s[i], t, rank)
    requires k < |s| ==> !InListOrder(s[k], t, rank)
    ensures ListSorted(s[..k] + [t] + s[k..], rank)
  {
    InsertedAt(s, k, t);
    var r := s[..k] + [t] + s[k..];
    forall i, j | 0 <= i < j < |r| ensures InListOrder(r[i], r[j], rank) {
      if i < k && j > k {
        assert InListOrder(s[i], s[j - 1], rank);
      } else if i == k {
        assert InListOrder(s[k], s[j - 1], rank) || k == j - 1;
      }
    }
  }

  /** Inserts `t` into the sorted `s` after every row that may precede it. */
  method InsertInOrder(s: seq<Todo>, t: Todo, rank: string -> int) returns (r: seq<Todo>)
    requires ListSorted(s, rank)
    ensures ListSorted(r, rank)
    ensures |r| == |s| + 1
    ensures forall x :: x in r <==> x in s || x == t
    ensures DistinctIds(s) && (forall x :: x in s ==> x.id != t.id) ==> DistinctIds(r)
  {
    var k := 0;
    while k < |s| && InListOrder(s[k], t, rank)
      invariant 0 <= k <= |s|
      invariant forall i :: 0 <= i < k ==> InListOrder(s[i], t, rank)
    {
      k := k + 1;
    }
    InsertKeepsOrder(s, k, t, rank);
    InsertedAt(s, k, t);
    r := s[..k] + [t] + s[k..];
  }

  // ---------------------------------------------------------------------
  // Aggregates of GET /dashboard and GET /categories

  /** The ids of the rows whose column holds `v`. */
  function RowsWithValue(rows: map<nat, Todo>, col: Column, v: string): set<nat> {
    set id | id in rows && Cell(rows[id], col) == v
  }

  /** `SELECT COUNT(*) ... WHERE <col> = v`. */
  function Tally(rows: map<nat, Todo>, col: Column, v: string): nat {
    |RowsWithValue(rows, col, v)|
  }

  /** `SELECT COUNT(*) ... WHERE <due date in window>`. */
  function WindowTally(rows: map<nat, Todo>, w: Window, today: Date): nat {
    |WindowRows(rows, w, today)|
  }

  /** The ids of the rows due within the window around `today`. */
  function WindowRows(rows: map<nat, Todo>, w: Window, today: Date): set<nat> {
    set id | id in rows && InWindow(w, today, rows[id].dueDate)
  }

  /** The values of a column that occur in the table. */
  function UsedValues(rows: map<nat, Todo>, col: Column): set<string> {
    set id | id in rows :: Cell(rows[id], col)
  }

  /** `g` is the result of `SELECT <col>, COUNT(*) ... GROUP BY <col>`, in some order. */
  ghost predicate IsGrouping(rows: map<nat, Todo>, col: Column, g: seq<(string, nat)>) {
    && JsObject.DistinctKeys(g)
    && (forall i :: 0 <= i < |g| ==> g[i].1 == Tally(rows, col, g[i].0))
    && (forall v :: v in JsObject.Keys(g) <==> v in UsedValues(rows, col))
  }

  function SumCounts(g: seq<(string, nat)>): nat {
    if g == [] then 0 else g[0].1 + SumCounts(g[1..])
  }

  function Min(a: int, b: int): int {
    if a <= b then a else b
  }

  /** `SELECT * FROM todos ORDER BY created_at DESC LIMIT 5`. */
  ghost predicate IsRecent(rows: map<nat, Todo>, r: seq<Todo>) {
    && |r| == Min(5, |rows|)
    && (forall t :: t in r ==> t.id in rows && rows[t.id] == t)
    && DistinctIds(r)
    && (forall i, j :: 0 <= i < j < |r| ==> r[i].createdAt >= r[j].createdAt)
    && (forall t, u: Todo :: t in r && InTable(rows, u) && u !in r ==> t.createdAt >= u.createdAt)
  }

  /** The JSON object `GET /dashboard` answers with. */
  datatype Summary = Summary(
    total: nat,
    completed: nat,
    pending: nat,
    today: nat,
    thisWeek: nat,
    thisMonth: nat,
    byCategory: seq<(string, nat)>,
    byPriority: seq<(string, nat)>,
    recent: seq<Todo>)

  /** Code-point lexicographic order, standing in for the collation of `ORDER BY category`. */
  predicate StrLess(a: string, b: string)
    decreases |a|
  {
    if a == [] then b != []
    else b != [] && (a[0] < b[0] || (a[0] == b[0] && StrLess(a[1..], b[1..])))
  }

  ghost predicate Ascending(s: seq<string>) {
    forall i, j :: 0 <= i < j < |s| ==> StrLess(s[i], s[j])
  }

  // ---------------------------------------------------------------------
  // The table

  /** A stored row: its id is its key and below the counter, it was created before now, its title is non-empty and trimmed. */
  predicate RowOk(t: Todo, id: nat, nextId: nat, clock: nat) {
    t.id == id && id < nextId && t.createdAt < clock && TitleStored(t.title)
  }

  predicate InTable(rows: map<nat, Todo>, t: Todo) {
    t.id in rows && rows[t.id] == t
  }

  /** A patched row keeps its id and creation time, and its title stays non-empty and trimmed. */
  lemma PatchKeepsRow(t: Todo, b: Body, id: nat, nextId: nat, clock: nat)
    requires RowOk(t, id, nextId, clock)
    requires !(b.title.Some? && Trim(b.title.value) == "")
    ensures PatchedFrom(t, b, ApplyAll(t, FieldList(b)))
    ensures RowOk(ApplyAll(t, FieldList(b)), id, nextId, clock)
  {
    FieldListPatches(t, b);
    if b.title.Some? {
      TrimIdempotent(b.title.value);
    }
  }

  class Store {
    var rows: map<nat, Todo>
    var nextId: nat
    var clock: nat

    ghost predicate Valid()
      reads this
    {
      forall id :: id in rows ==> RowOk(rows[id], id, nextId, clock)
    }

    /** An empty table; AUTO_INCREMENT starts at 1. */
    constructor ()
      ensures Valid()
      ensures rows == map[] && nextId == 1 && clock == 0
    {
      rows := map[];
      nextId := 1;
      clock := 0;
    }

    /** `GET /todos/:id`. */
    method Get(id: nat) returns (r: Result<Todo>)
      ensures id in rows ==> r == Ok(rows[id])
      ensures id !in rows ==> r == Err(NotFound)
    {
      if id in rows {
        r := Ok(rows[id]);
      } else {
        r := Err(NotFound);
      }
    }

    /** `POST /todos`: insert the new row with the next id and the current time, or reject the title. */
    method Create(b: Body) returns (r: Result<Todo>)
      requires Valid()
      modifies this
      ensures Valid()
      ensures r == NewTodo(b, old(nextId), old(clock))
      ensures r.Err? ==> rows == old(rows) && nextId == old(nextId) && clock == old(clock)
      ensures r.Ok? ==> r.value.id !in old(rows) && rows == old(rows)[r.value.id := r.value]
      ensures r.Ok? ==> nextId == old(nextId) + 1 && clock == old(clock) + 1
    {
      r := NewTodo(b, nextId, clock);
      if r.Ok? {
        rows := rows[nextId := r.value];
        nextId := nextId + 1;
        clock := clock + 1;
      }
    }

    /**
     * `PUT /todos/:id`: the three 400 checks in the handler's order, all
     * before the table is read; then 404 for a missing id; then the row with
     * exactly the named columns changed.
     */
    method Update(id: nat, b: Body) returns (r: Result<Todo>)
      requires Valid()
      modifies this`rows
      ensures Valid()
      ensures UpdateRejection(b).Some? ==> r == Err(Invalid(UpdateRejection(b).value)) && rows == old(rows)
      ensures UpdateRejection(b).None? && id !in old(rows) ==> r == Err(NotFound) && rows == old(rows)
      ensures UpdateRejection(b).None? && id in old(rows) ==>
        && r.Ok?
        && PatchedFrom(old(rows)[id], b, r.value)
        && rows == old(rows)[id := r.value]
    {
      if b.title.Some? && Trim(b.title.value) == "" {
        return Err(Invalid(TitleCannotBeEmpty));
      }
      if Truthy(b.status) && b.status.value != "pending" && b.status.value != "completed" {
        return Err(Invalid(InvalidStatus));
      }
      var fields := UpdateFields(b);
      FieldListEmpty(b);
      if fields == [] {
        return Err(Invalid(NoFieldsToUpdate));
      }
      if id !in rows {
        return Err(NotFound);
      }
      var updated := ApplyAll(rows[id], fields);
      PatchKeepsRow(rows[id], b, id, nextId, clock);
      rows := rows[id := updated];
      r := Ok(updated);
    }

    /** `DELETE /todos/:id`. */
    method Delete(id: nat) returns (r: Result<()>)
      requires Valid()
      modifies this`rows
      ensures Valid()
      ensures r.Ok? <==> id in old(rows)
      ensures r.Err? ==> r.failure == NotFound
      ensures rows == old(rows) - {id}
    {
      if id in rows {
        rows := rows - {id};
        r := Ok(());
      } else {
        r := Err(NotFound);
      }
    }

    /** `GET /todos`: every row the query selects, once each, in the ORDER BY order. */
    method List(q: Query, today: Date, rank: string -> int) returns (r: seq<Todo>)
      requires Valid()
      ensures forall t :: t in r <==> InTable(rows, t) && Matches(q, today, t)
      ensures DistinctIds(r)
      ensures ListSorted(r, rank)
    {
      var conds := WhereConditions(q);
      var remaining := rows.Keys;
      r := [];
      while remaining != {}
        invariant remaining <= rows.Keys
        invariant forall t :: t in r <==> InTable(rows, t) && t.id !in remaining && Matches(q, today, t)
        invariant DistinctIds(r)
        invariant ListSorted(r, rank)
        decreases remaining
      {
        var id :| id in remaining;
        var row := rows[id];
        if AllHold(conds, today, row) {
          r := InsertInOrder(r, row, rank);
        }
        remaining := remaining - {id};
      }
    }

    /** One GROUP BY query: each value of the column once, with its row count. */
    method GroupCounts(col: Column) returns (g: seq<(string, nat)>)
      ensures IsGrouping(rows, col, g)
    {
      var values := UsedValues(rows, col);
      var left := values;
      g := [];
      while left != {}
        invariant left <= values
        invariant JsObject.DistinctKeys(g)
        invariant forall i :: 0 <= i < |g| ==> g[i].1 == Tally(rows, col, g[i].0)
        invariant forall v :: v in JsObject.Keys(g) <==> v in values && v !in left
        decreases left
      {
        var v :| v in left;
        assert JsObject.Keys(g + [(v, Tally(rows, col, v))]) == JsObject.Keys(g) + [v];
        g := g + [(v, Tally(rows, col, v))];
        left := left - {v};
      }
    }

    /** `GET /dashboard`, computed from one state of the table. */
    method Dashboard(today: Date) returns (s: Summary)
      requires Valid()
      ensures s.total == |rows|
      ensures s.completed == Tally(rows, StatusColumn, "completed")
      ensures s.pending == Tally(rows, StatusColumn, "pending")
      ensures s.today == WindowTally(rows, Today, today)
      ensures s.thisWeek == WindowTally(rows, ThisWeek, today)
      ensures s.thisMonth == WindowTally(rows, ThisMonth, today)
      ensures IsGrouping(rows, CategoryColumn, s.byCategory)
      ensures IsGrouping(rows, PriorityColumn, s.byPriority)
      ensures IsRecent(rows, s.recent)
    {
      var byCategory := GroupCounts(CategoryColumn);
      var byPriority := GroupCounts(PriorityColumn);
      var all := List(Query(None, None, None, None), today, _ => 0);
      ListingCoversTable(rows, all);
      var recent := all[..Min(5, |all|)];
      RecentPrefix(rows, all, recent);
      s := Summary(
        |rows|,
        Tally(rows, StatusColumn, "completed"),
        Tally(rows, StatusColumn, "pending"),
        WindowTally(rows, Today, today),
        WindowTally(rows, ThisWeek, today),
        WindowTally(rows, ThisMonth, today),
        byCategory,
        byPriority,
        recent);
    }

    /** `GET /categories`: the categories in use, each once, in ascending order. */
    method Categories() returns (cs: seq<string>)
      ensures Ascending(cs)
      ensures forall c :: c in cs <==> c in UsedValues(rows, CategoryColumn)
    {
      var used := UsedValues(rows, CategoryColumn);
      var left := used;
      cs := [];
      while left != {}
        invariant left <= used
        invariant Ascending(cs)
        invariant forall c :: c in cs <==> c in used && c !in left
        decreases left
      {
        var c :| c in left;
        cs := InsertAscending(cs, c);
        left := left - {c};
      }
    }
  }

  // ---------------------------------------------------------------------
  // Lemmas

  /** The set of ids a listing holds. */
  function IdSet(s: seq<Todo>): set<nat> {
    set i | 0 <= i < |s| :: s[i].id
  }

  lemma {:induction false} DistinctIdsCount(s: seq<Todo>)
    requires DistinctIds(s)
    ensures |IdSet(s)| == |s|
    decreases |s|
  {
    if s != [] {
      DistinctIdsCount(s[1..]);
      assert IdSet(s) == {s[0].id} + IdSet(s[1..]) by {
        forall x | x in IdSet(s) ensures x in {s[0].id} + IdSet(s[1..]) {
          var i :| 0 <= i < |s| && s[i].id == x;
          if i > 0 { assert s[1..][i - 1].id == x; }
        }
        forall x | x in IdSet(s[1..]) ensures x in IdSet(s) {
          var i :| 0 <= i < |s[1..]| && s[1..][i].id == x;
          assert s[i + 1].id == x;
        }
      }
      assert s[0].id !in IdSet(s[1..]);
    }
  }

  /** A listing of every row, each once, is as long as the table. */
  lemma ListingCoversTable(rows: map<nat, Todo>, all: seq<Todo>)
    requires forall t :: t in all <==> InTable(rows, t) && Matches(Query(None, None, None, None), Date(0, 0, 0), t)
    requires DistinctIds(all)
    requires forall id :: id in rows ==> rows[id].id == id
    ensures |all| == |rows|
  {
    DistinctIdsCount(all);
    assert IdSet(all) == rows.Keys by {
      forall id | id in rows ensures id in IdSet(all) {
        assert InTable(rows, rows[id]);
        var i :| 0 <= i < |all| && all[i] == rows[id];
        assert all[i].id == id;
      }
      forall id | id in IdSet(all) ensures id in rows {
        var i :| 0 <= i < |all| && all[i].id == id;
        assert all[i] in all;
      }
    }
  }

  /** The first five of all rows in creation-time order are the five most recent rows. */
  lemma RecentPrefix(rows: map<nat, Todo>, all: seq<Todo>, recent: seq<Todo>)
    requires forall t :: t in all <==> InTable(rows, t)
    requires DistinctIds(all)
    requires ListSorted(all, _ => 0)
    requires |all| == |rows|
    requires recent == all[..Min(5, |all|)]
    ensures IsRecent(rows, recent)
  {
    assert forall i :: 0 <= i < |recent| ==> recent[i] == all[i];
    assert forall t :: t in recent ==> t in all;
    forall i, j | 0 <= i < j < |recent| ensures recent[i].createdAt >= recent[j].createdAt {
      assert InListOrder(all[i], all[j], _ => 0);
    }
    forall t, u | t in recent && InTable(rows, u) && u !in recent
      ensures t.createdAt >= u.createdAt
    {
      var i :| 0 <= i < |recent| && recent[i] == t;
      var j :| 0 <= j < |all| && all[j] == u;
      assert InListOrder(all[i], all[j], _ => 0);
    }
  }

  /** Inserts `c`, not yet present, into the ascending `s`. */
  method InsertAscending(s: seq<string>, c: string) returns (r: seq<string>)
    requires Ascending(s)
    requires c !in s
    ensures Ascending(r)
    ensures forall x :: x in r <==> x in s || x == c
  {
    var k := 0;
    while k < |s| && StrLess(s[k], c)
      invariant 0 <= k <= |s|
      invariant forall i :: 0 <= i < k ==> StrLess(s[i], c)
    {
      k := k + 1;
    }
    if k < |s| {
      StrLessTrichotomy(s[k], c);
      forall j | k < j < |s| ensures StrLess(c, s[j]) {
        StrLessTransitive(c, s[k], s[j]);
      }
    }
    r := s[..k] + [c] + s[k..];
    assert s == s[..k] + s[k..];
    assert forall i :: 0 <= i < |r| ==> r[i] == if i < k then s[i] else if i == k then c else s[i - 1];
  }

  lemma {:induction false} StrLessTrichotomy(a: string, b: string)
    ensures a == b || StrLess(a, b) || StrLess(b, a)
    decreases |a|
  {
    if a != [] && b != [] && a[0] == b[0] {
      StrLessTrichotomy(a[1..], b[1..]);
      if a[1..] == b[1..] {
        assert a == [a[0]] + a[1..] && b == [b[0]] + b[1..];
      }
    }
  }

  lemma {:induction false} StrLessTransitive(a: string, b: string, c: string)
    requires StrLess(a, b) && StrLess(b, c)
    ensures StrLess(a, c)
    decreases |a|
  {
    if a != [] && a[0] == b[0] && b[0] == c[0] {
      StrLessTransitive(a[1..], b[1..], c[1..]);
    }
  }

  lemma SubsetCard<T>(a: set<T>, b: set<T>)
    requires a <= b
    ensures |a| <= |b|
  {
    assert b == a + (b - a);
  }

  /** Completed and pending rows are disjoint, so together they are at most all rows. */
  lemma StatusCountsBounded(rows: map<nat, Todo>)
    ensures Tally(rows, StatusColumn, "completed") + Tally(rows, StatusColumn, "pending") <= |rows|
  {
    var c := RowsWithValue(rows, StatusColumn, "completed");
    var p := RowsWithValue(rows, StatusColumn, "pending");
    assert c !! p;
    SubsetCard(c + p, rows.Keys);
  }

  /**
   * A row whose status is `''` is counted as neither completed nor pending,
   * so any table holding one has completed + pending below total.
   */
  lemma EmptyStatusUncounted(rows: map<nat, Todo>, id: nat)
    requires id in rows && rows[id].status == ""
    ensures id !in RowsWithValue(rows, StatusColumn, "completed")
    ensures id !in RowsWithValue(rows, StatusColumn, "pending")
    ensures Tally(rows, StatusColumn, "completed") + Tally(rows, StatusColumn, "pending") < |rows|
  {
    var c := RowsWithValue(rows, StatusColumn, "completed");
    var p := RowsWithValue(rows, StatusColumn, "pending");
    assert c !! p;
    assert c + p <= rows.Keys - {id};
    SubsetCard(c + p, rows.Keys - {id});
    assert |rows.Keys - {id}| == |rows.Keys| - 1;
  }

  /** A row due today is due this week and this month; each window count is at most the total. */
  lemma WindowCountsNested(rows: map<nat, Todo>, today: Date)
    ensures WindowTally(rows, Today, today) <= WindowTally(rows, ThisWeek, today) <= |rows|
    ensures WindowTally(rows, Today, today) <= WindowTally(rows, ThisMonth, today) <= |rows|
  {
    var d := WindowRows(rows, Today, today);
    var w := WindowRows(rows, ThisWeek, today);
    var m := WindowRows(rows, ThisMonth, today);
    SubsetCard(d, w);
    SubsetCard(d, m);
    SubsetCard(w, rows.Keys);
    SubsetCard(m, rows.Keys);
  }

  /** The rows whose column value is one of `keys`. */
  function RowsWithValueIn(rows: map<nat, Todo>, col: Column, keys: seq<string>): set<nat> {
    set id | id in rows && Cell(rows[id], col) in keys
  }

  lemma RowsWithValueInCons(rows: map<nat, Todo>, col: Column, v: string, keys: seq<string>)
    requires v !in keys
    ensures RowsWithValueIn(rows, col, [v] + keys) == RowsWithValue(rows, col, v) + RowsWithValueIn(rows, col, keys)
    ensures RowsWithValue(rows, col, v) !! RowsWithValueIn(rows, col, keys)
  {
  }

  lemma {:induction false} SumCountsCover(rows: map<nat, Todo>, col: Column, g: seq<(string, nat)>)
    requires JsObject.DistinctKeys(g)
    requires forall i :: 0 <= i < |g| ==> g[i].1 == Tally(rows, col, g[i].0)
    ensures SumCounts(g) == |RowsWithValueIn(rows, col, JsObject.Keys(g))|
    decreases |g|
  {
    if g == [] {
      assert RowsWithValueIn(rows, col, JsObject.Keys(g)) == {};
    } else {
      SumCountsCover(rows, col, g[1..]);
      assert JsObject.Keys(g) == [g[0].0] + JsObject.Keys(g[1..]);
      assert g[0].0 !in JsObject.Keys(g[1..]);
      RowsWithValueInCons(rows, col, g[0].0, JsObject.Keys(g[1..]));
    }
  }

  /** The counts of a GROUP BY add up to the number of rows. */
  lemma GroupingSumsToTotal(rows: map<nat, Todo>, col: Column, g: seq<(string, nat)>)
    requires IsGrouping(rows, col, g)
    ensures SumCounts(g) == |rows|
  {
    SumCountsCover(rows, col, g);
    assert RowsWithValueIn(rows, col, JsObject.Keys(g)) == rows.Keys;
  }

  /** Every group of a GROUP BY has at least one row. */
  lemma GroupCountsPositive(rows: map<nat, Todo>, col: Column, g: seq<(string, nat)>)
    requires IsGrouping(rows, col, g)
    ensures forall i :: 0 <= i < |g| ==> g[i].1 >= 1
  {
    forall i | 0 <= i < |g| ensures g[i].1 >= 1 {
      assert g[i].0 in JsObject.Keys(g);
      var id :| id in rows && Cell(rows[id], col) == g[i].0;
      SubsetCard({id}, RowsWithValue(rows, col, g[i].0));
    }
  }
}
