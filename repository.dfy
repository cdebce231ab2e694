/** The data access layer of `api/src/repositories/taskRepository.js`,
    with the `tasks` table held in memory: each SQL statement the repository
    issues is stated as an operation on a sequence of rows. */
module Repository {
  import opened Js
  import opened Tasks

  /** A row of the `tasks` table. A `title` the database holds as NULL is `None`. */
  datatype Row = Row(
    id: int,
    title: Option<string>,
    description: string,
    status: string,
    priority: string,
    created_at: Timestamp,
    updated_at: Timestamp)

  /** A row as the object `pg` hands to `new Task(row)`. */
  function RowData(r: Row): TaskData
  {
    TaskData(Some(r.id), r.title, Some(r.description), Some(r.status), Some(r.priority),
             Some(r.created_at), Some(r.updated_at), None, None)
  }

  /** `new Task(row)`. */
  function FromRow(r: Row): Task
  {
    New(RowData(r))
  }

  /** `result.rows.map(row => new Task(row))`. */
  function FromRows(rows: seq<Row>): (ts: seq<Task>)
    ensures |ts| == |rows|
    ensures forall i :: 0 <= i < |rows| ==>
      && ts[i].id == Some(rows[i].id) && ts[i].title == rows[i].title
      && ts[i].createdAt == Some(rows[i].created_at) && ts[i].updatedAt == Some(rows[i].updated_at)
      && (rows[i].status != "" ==> ts[i].status == rows[i].status)
      && (rows[i].status == "" ==> ts[i].status == "TODO")
  {
    seq(|rows|, i requires 0 <= i < |rows| => FromRow(rows[i]))
  }

  // ----- SELECT ... ORDER BY CASE priority ... END, created_at DESC -----

  /** `CASE priority WHEN 'HIGH' THEN 1 WHEN 'MEDIUM' THEN 2 WHEN 'LOW' THEN 3 END`;
      any other priority yields NULL, which an ascending sort puts last. */
  function PriorityRank(p: string): (r: nat)
    ensures 1 <= r <= 4
    ensures r == 4 <==> p !in Priorities
  {
    if p == "HIGH" then 1 else if p == "MEDIUM" then 2 else if p == "LOW" then 3 else 4
  }

  /** Row `a` may be listed before row `b`. */
  predicate InOrder(a: Row, b: Row)
  {
    PriorityRank(a.priority) < PriorityRank(b.priority)
    || (PriorityRank(a.priority) == PriorityRank(b.priority) && a.created_at >= b.created_at)
  }

  ghost predicate Ordered(s: seq<Row>)
  {
    forall i, j :: 0 <= i < j < |s| ==> InOrder(s[i], s[j])
  }

  /** Any two rows are comparable: the order is total. */
  lemma InOrderTotal(a: Row, b: Row)
    ensures InOrder(a, b) || InOrder(b, a)
  {
  }

  lemma InOrderTransitive(a: Row, b: Row, c: Row)
    requires InOrder(a, b) && InOrder(b, c)
    ensures InOrder(a, c)
  {
  }

  /** Every element of `s` may follow `a`. */
  ghost predicate AllAfter(a: Row, s: seq<Row>)
  {
    forall j :: 0 <= j < |s| ==> InOrder(a, s[j])
  }

  /** Puts `x` before the first element it may precede. */
  function Insert(x: Row, s: seq<Row>): seq<Row>
  {
    if s == [] || InOrder(x, s[0]) then [x] + s
    else [s[0]] + Insert(x, s[1..])
  }

  /** Insertion adds exactly `x`. */
  lemma {:induction false} InsertPermutes(x: Row, s: seq<Row>)
    ensures multiset(Insert(x, s)) == multiset(s) + multiset{x}
  {
    if s != [] && !InOrder(x, s[0]) {
      InsertPermutes(x, s[1..]);
      assert s == [s[0]] + s[1..];
    }
  }

  /** What may precede `x` and every element of `s` may precede the result. */
  lemma {:induction false} InsertKeepsBound(a: Row, x: Row, s: seq<Row>)
    requires InOrder(a, x) && AllAfter(a, s)
    ensures AllAfter(a, Insert(x, s))
  {
    if s != [] && !InOrder(x, s[0]) {
      assert AllAfter(a, s[1..]);
      InsertKeepsBound(a, x, s[1..]);
    }
  }

  /** Insertion into an ordered listing keeps it ordered. */
  lemma {:induction false} InsertOrdered(x: Row, s: seq<Row>)
    requires Ordered(s)
    ensures Ordered(Insert(x, s))
  {
    if s == [] {
    } else if InOrder(x, s[0]) {
      assert AllAfter(x, s) by {
        forall j | 0 <= j < |s| ensures InOrder(x, s[j]) {
          if j > 0 { InOrderTransitive(x, s[0], s[j]); }
        }
      }
      OrderedCons(x, s);
    } else {
      assert Ordered(s[1..]);
      InsertOrdered(x, s[1..]);
      assert AllAfter(s[0], s[1..]);
      InsertKeepsBound(s[0], x, s[1..]);
      OrderedCons(s[0], Insert(x, s[1..]));
    }
  }

  /** An element that may precede every element of an ordered listing can
      be put in front of it. */
  lemma OrderedCons(a: Row, s: seq<Row>)
    requires AllAfter(a, s) && Ordered(s)
    ensures Ordered([a] + s)
  {
  }

  /** The row order of `findAll`: every row once, HIGH before MEDIUM before
      LOW before any other priority, newest `created_at` first within a
      priority. Rows that tie on both keys are listed in table order. */
  function Listing(rows: seq<Row>): (r: seq<Row>)
    ensures Ordered(r)
    ensures multiset(r) == multiset(rows)
  {
    if rows == [] then []
    else
      assert rows == [rows[0]] + rows[1..];
      var rest := Listing(rows[1..]);
      InsertOrdered(rows[0], rest);
      InsertPermutes(rows[0], rest);
      Insert(rows[0], rest)
  }

  // ----- SELECT ... WHERE id = $1 -----

  /** The first row with the given id, if any. */
  function Lookup(rows: seq<Row>, id: int): (r: Option<Row>)
    ensures r.None? <==> forall i :: 0 <= i < |rows| ==> rows[i].id != id
    ensures r.Some? ==> exists i :: 0 <= i < |rows| && rows[i] == r.value && r.value.id == id
  {
    if rows == [] then None
    else if rows[0].id == id then Some(rows[0])
    else Lookup(rows[1..], id)
  }

  /** In a table with unique ids the lookup finds the one row carrying the id. */
  lemma LookupUnique(rows: seq<Row>, i: int)
    requires 0 <= i < |rows|
    requires forall a, b :: 0 <= a < b < |rows| ==> rows[a].id != rows[b].id
    ensures Lookup(rows, rows[i].id) == Some(rows[i])
  {
    var r := Lookup(rows, rows[i].id);
    var k :| 0 <= k < |rows| && rows[k] == r.value && r.value.id == rows[i].id;
    assert k == i;
  }

  // ----- INSERT ... RETURNING -----

  /** The row `INSERT INTO tasks (title, description, status, priority)`
      creates: `description || ''`, `status || 'TODO'`, `priority || 'MEDIUM'`,
      both timestamps the statement's `CURRENT_TIMESTAMP`. */
  function InsertedRow(id: int, d: TaskData, now: Timestamp): Row
  {
    Row(id, d.title, OrElse(d.description, ""), OrElse(d.status, "TODO"),
        OrElse(d.priority, "MEDIUM"), now, now)
  }

  /** A row appended under the sequence's next value gets a fresh id that
      the lookup then finds, and the ids stay valid. */
  lemma AppendFresh(rows: seq<Row>, r: Row, next: int)
    requires IdsValid(rows, next) && r.id == next
    ensures IdsValid(rows + [r], next + 1)
    ensures Lookup(rows, next).None?
    ensures Lookup(rows + [r], next) == Some(r)
  {
    var t := rows + [r];
    assert t[|rows|] == r;
    assert forall i :: 0 <= i < |rows| ==> t[i] == rows[i];
    LookupUnique(t, |rows|);
  }

  // ----- UPDATE ... SET x = COALESCE($n, x) ... RETURNING -----

  /** SQL `COALESCE(supplied, current)`: only NULL keeps the current value. */
  function Coalesce<T>(supplied: Option<T>, current: T): T
  {
    if supplied.Some? then supplied.value else current
  }

  /** The row an `UPDATE` leaves in place of `r`. */
  function Merged(r: Row, d: TaskData, now: Timestamp): Row
  {
    Row(r.id,
        if d.title.Some? then d.title else r.title,
        Coalesce(d.description, r.description),
        Coalesce(d.status, r.status),
        Coalesce(d.priority, r.priority),
        r.created_at,
        now)
  }

  /** A supplied field replaces the stored one, even when it is the empty
      string; a missing field keeps it; id and creation time never change. */
  lemma MergeReplacesSuppliedFields(r: Row, d: TaskData, now: Timestamp)
    ensures var m := Merged(r, d, now);
      && m.id == r.id && m.created_at == r.created_at && m.updated_at == now
      && (d.title.Some? ==> m.title == d.title) && (d.title.None? ==> m.title == r.title)
      && (d.description.Some? ==> m.description == d.description.value)
      && (d.description.None? ==> m.description == r.description)
      && (d.status.Some? ==> m.status == d.status.value) && (d.status.None? ==> m.status == r.status)
      && (d.priority.Some? ==> m.priority == d.priority.value) && (d.priority.None? ==> m.priority == r.priority)
  {
  }

  /** The table after `UPDATE tasks SET ... WHERE id = $5`. */
  function UpdatedRows(rows: seq<Row>, id: int, d: TaskData, now: Timestamp): (r: seq<Row>)
    ensures |r| == |rows|
    ensures forall i :: 0 <= i < |rows| ==>
      && r[i].id == rows[i].id && r[i].created_at == rows[i].created_at
      && (rows[i].id != id ==> r[i] == rows[i])
      && (rows[i].id == id ==> r[i].updated_at == now)
  {
    seq(|rows|, i requires 0 <= i < |rows| => if rows[i].id == id then Merged(rows[i], d, now) else rows[i])
  }

  /** The row `RETURNING` reports is the merged row now stored under the id. */
  lemma {:induction false} UpdatedLookup(rows: seq<Row>, id: int, d: TaskData, now: Timestamp)
    ensures Lookup(UpdatedRows(rows, id, d, now), id) ==
      (match Lookup(rows, id) case None => None case Some(r) => Some(Merged(r, d, now)))
  {
    if rows != [] {
      UpdatedLookup(rows[1..], id, d, now);
      assert UpdatedRows(rows, id, d, now)[1..] == UpdatedRows(rows[1..], id, d, now);
    }
  }

  // ----- DELETE FROM tasks WHERE id = $1 -----

  /** The table invariant: the sequence's next value is positive, every id
      lies in `[1, next)`, and ids are pairwise distinct. */
  ghost predicate IdsValid(rows: seq<Row>, next: int)
  {
    && 1 <= next
    && (forall i :: 0 <= i < |rows| ==> 1 <= rows[i].id < next)
    && (forall i, j :: 0 <= i < j < |rows| ==> rows[i].id != rows[j].id)
  }

  /** The table after `DELETE FROM tasks WHERE id = $1`: the other rows, in order. */
  function Without(rows: seq<Row>, id: int): (r: seq<Row>)
    ensures forall x :: x in r <==> x in rows && x.id != id
    ensures multiset(r) <= multiset(rows)
  {
    if rows == [] then []
    else
      assert rows == [rows[0]] + rows[1..];
      if rows[0].id == id then Without(rows[1..], id) else [rows[0]] + Without(rows[1..], id)
  }

  /** Deleting rows keeps the ids valid. */
  lemma {:induction false} WithoutKeepsIds(rows: seq<Row>, id: int, next: int)
    requires IdsValid(rows, next)
    ensures IdsValid(Without(rows, id), next)
  {
    if rows != [] {
      var rest := rows[1..];
      assert IdsValid(rest, next) by {
        forall i, j | 0 <= i < j < |rest| ensures rest[i].id != rest[j].id {
          assert rest[i] == rows[i + 1] && rest[j] == rows[j + 1];
        }
      }
      WithoutKeepsIds(rest, id, next);
      var w := Without(rest, id);
      forall x | x in w ensures x.id != rows[0].id && 1 <= x.id < next {
        var k :| 0 <= k < |rest| && rest[k] == x;
        assert rows[k + 1] == x;
      }
    }
  }

  // ----- SELECT status, COUNT(*) ... GROUP BY status, folded into { TODO: 0, IN_PROGRESS: 0, DONE: 0 } -----

  const Seed: map<string, nat> := map["TODO" := 0, "IN_PROGRESS" := 0, "DONE" := 0]

  /** The number of rows with the given status. */
  function CountOf(rows: seq<Row>, s: string): nat
  {
    if rows == [] then 0
    else CountOf(rows[..|rows| - 1], s) + (if rows[|rows| - 1].status == s then 1 else 0)
  }

  /** A status that no row carries counts zero. */
  lemma {:induction false} CountOfAbsent(rows: seq<Row>, s: string)
    requires forall i :: 0 <= i < |rows| ==> rows[i].status != s
    ensures CountOf(rows, s) == 0
  {
    if rows != [] {
      CountOfAbsent(rows[..|rows| - 1], s);
    }
  }

  /** Adds one row of status `s` to the accumulator. */
  function Bump(acc: map<string, nat>, s: string): map<string, nat>
  {
    acc[s := (if s in acc then acc[s] else 0) + 1]
  }

  /** `countByStatus()`: the zero-seeded buckets, each bumped once per row. */
  function StatusCounts(rows: seq<Row>): (c: map<string, nat>)
    ensures "TODO" in c && "IN_PROGRESS" in c && "DONE" in c
  {
    if rows == [] then Seed
    else Bump(StatusCounts(rows[..|rows| - 1]), rows[|rows| - 1].status)
  }

  /** The seed buckets are always present, a bucket appears for every
      status that occurs and for no other, and each holds the number of
      rows with that status. */
  lemma {:induction false} StatusCountsSpec(rows: seq<Row>)
    ensures var c := StatusCounts(rows);
      && (forall s :: s in c <==> s in Seed || exists i :: 0 <= i < |rows| && rows[i].status == s)
      && (forall s :: s in c ==> c[s] == CountOf(rows, s))
  {
    if rows != [] {
      var init := rows[..|rows| - 1];
      assert forall i :: 0 <= i < |init| ==> init[i] == rows[i];
      var last := rows[|rows| - 1].status;
      StatusCountsSpec(init);
      if last !in StatusCounts(init) {
        CountOfAbsent(init, last);
      }
    }
  }

  /** When every status is one of the three enum values the three buckets
      account for every row. */
  lemma {:induction false} CountsCoverAllRows(rows: seq<Row>)
    requires forall i :: 0 <= i < |rows| ==> rows[i].status in Statuses
    ensures CountOf(rows, "TODO") + CountOf(rows, "IN_PROGRESS") + CountOf(rows, "DONE") == |rows|
  {
    if rows != [] {
      var init := rows[..|rows| - 1];
      assert forall i :: 0 <= i < |init| ==> init[i] == rows[i];
      CountsCoverAllRows(init);
    }
  }

  /** The `tasks` table and its id sequence. */
  class TaskRepository {
    var rows: seq<Row>
    /** The next value of the table's id sequence. */
    var nextId: int

    /** The table invariant `IdsValid` holds of the rows and the sequence. */
    ghost predicate Valid()
      reads this
    {
      IdsValid(rows, nextId)
    }

    constructor ()
      ensures Valid() && rows == [] && nextId == 1
    {
      rows := [];
      nextId := 1;
    }

    /** `findAll()`. */
    function FindAll(): seq<Task>
      reads this
    {
      FromRows(Listing(rows))
    }

    /** `findById(id)`: `None` exactly when no row has the id. */
    function FindById(id: int): (t: Option<Task>)
      reads this
      ensures t.None? <==> forall i :: 0 <= i < |rows| ==> rows[i].id != id
      ensures t.Some? ==> exists i :: 0 <= i < |rows| && rows[i].id == id && t.value == FromRow(rows[i])
    {
      match Lookup(rows, id)
      case None => None
      case Some(r) => Some(FromRow(r))
    }

    /** `create(taskData)`: appends one row under a fresh id and returns it. */
    method Create(d: TaskData, now: Timestamp) returns (t: Task)
      requires Valid()
      modifies this
      ensures Valid()
      ensures nextId == old(nextId) + 1
      ensures rows == old(rows) + [InsertedRow(old(nextId), d, now)]
      ensures forall i :: 0 <= i < |old(rows)| ==> old(rows)[i].id != old(nextId)
      ensures t == FromRow(InsertedRow(old(nextId), d, now))
    {
      var row := InsertedRow(nextId, d, now);
      rows := rows + [row];
      nextId := nextId + 1;
      t := FromRow(row);
    }

    /** `update(id, taskData)`: merges into the row with the id, or returns
        `None` when there is none. */
    method Update(id: int, d: TaskData, now: Timestamp) returns (t: Option<Task>)
      requires Valid()
      modifies this
      ensures Valid() && nextId == old(nextId)
      ensures rows == UpdatedRows(old(rows), id, d, now)
      ensures t == match Lookup(old(rows), id) case None => None case Some(r) => Some(FromRow(Merged(r, d, now)))
    {
      UpdatedLookup(rows, id, d, now);
      rows := UpdatedRows(rows, id, d, now);
      t := match Lookup(rows, id) case None => None case Some(r) => Some(FromRow(r));
    }

    /** `delete(id)`: `true` exactly when a row with the id existed. */
    method Delete(id: int) returns (deleted: bool)
      requires Valid()
      modifies this
      ensures Valid() && nextId == old(nextId)
      ensures rows == Without(old(rows), id)
      ensures deleted <==> Lookup(old(rows), id).Some?
    {
      WithoutKeepsIds(rows, id, nextId);
      deleted := Lookup(rows, id).Some?;
      rows := Without(rows, id);
    }

    /** `countByStatus()`: a fold over the rows into the zero-seeded buckets. */
    method CountByStatus() returns (counts: map<string, nat>)
      ensures counts == StatusCounts(rows)
    {
      counts := Seed;
      var i := 0;
      while i < |rows|
        invariant 0 <= i <= |rows|
        invariant counts == StatusCounts(rows[..i])
      {
        assert rows[..i + 1][..i] == rows[..i];
        counts := Bump(counts, rows[i].status);
        i := i + 1;
      }
      assert rows[..|rows|] == rows;
    }
  }
}
