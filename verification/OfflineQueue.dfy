/**
  The agent's offline store: the SQLite table `offline_payloads` and the operations of
  `SQLiteQueue`. The table is an ordered sequence of rows whose ids are handed out by
  AUTOINCREMENT: strictly increasing and never reused, with inserts failing once the largest
  64-bit row id has been used. What the database driver may do wrong is a parameter.
 */
module OfflineQueue {
  import opened Wrappers

  const MAX_ROWID := 0x7fff_ffff_ffff_ffff

  datatype Row = Row(id: int, payload: string, createdAt: int)

  datatype Table = Table(rows: seq<Row>, nextId: int)

  const EMPTY_TABLE := Table([], 1)

  ghost predicate Ascending(rows: seq<Row>) {
    forall i, j :: 0 <= i < j < |rows| ==> rows[i].id < rows[j].id
  }

  ghost predicate ValidTable(t: Table) {
    && 1 <= t.nextId <= MAX_ROWID + 1
    && Ascending(t.rows)
    && forall i :: 0 <= i < |t.rows| ==> 1 <= t.rows[i].id < t.nextId
  }

  /** The row an INSERT would add, or none when the row ids are used up. */
  function Insert(t: Table, payload: string, now: int): Option<Table> {
    if t.nextId > MAX_ROWID then None
    else Some(Table(t.rows + [Row(t.nextId, payload, now)], t.nextId + 1))
  }

  /** `DELETE ... WHERE id = ?` for every id of a set. */
  function Without(rows: seq<Row>, ids: set<int>): seq<Row> {
    if rows == [] then []
    else if rows[0].id in ids then Without(rows[1..], ids)
    else [rows[0]] + Without(rows[1..], ids)
  }

  function Elements(ids: seq<int>): set<int> {
    set x | x in ids
  }

  function Ids(rows: seq<Row>): seq<int> {
    seq(|rows|, i requires 0 <= i < |rows| => rows[i].id)
  }

  lemma {:induction false} WithoutTwice(rows: seq<Row>, a: set<int>, b: set<int>)
    ensures Without(Without(rows, a), b) == Without(rows, a + b)
  {
    if rows != [] {
      WithoutTwice(rows[1..], a, b);
      if rows[0].id !in a {
        var rest := Without(rows[1..], a);
        assert ([rows[0]] + rest)[1..] == rest;
      }
    }
  }

  /** Removing exactly the ids of the first k rows leaves the rest, in order. */
  lemma {:induction false} WithoutPrefix(rows: seq<Row>, ids: set<int>, k: nat)
    requires k <= |rows|
    requires forall i :: 0 <= i < k ==> rows[i].id in ids
    requires forall i :: k <= i < |rows| ==> rows[i].id !in ids
    ensures Without(rows, ids) == rows[k..]
  {
    if rows != [] {
      WithoutPrefix(rows[1..], ids, if k == 0 then 0 else k - 1);
    }
  }

  /**
    What the cursor behind `DequeueAll` may do. Reading stops after any number of rows without
    an error being seen, because the end of the iteration is not checked.
   */
  datatype Cursor = QueryError | ScanError(at: nat) | StopsAfter(count: nat)

  datatype DeleteFault = NoFault | BeginError | PrepareError | ExecError(at: nat) | CommitRolledBack | CommitReplyLost

  /** The rows `DequeueAll` hands out, or none when it reports an error. */
  function Snapshot(rows: seq<Row>, cursor: Cursor): Option<seq<Row>> {
    match cursor
    case QueryError => None
    case ScanError(at) => if at < |rows| then None else Some(rows)
    case StopsAfter(count) => Some(if count < |rows| then rows[..count] else rows)
  }

  /** Does the delete transaction report success, for a list of this many ids? */
  predicate DeleteReportsOk(fault: DeleteFault, count: nat) {
    fault.NoFault? || count == 0 || (fault.ExecError? && fault.at >= count)
  }

  /** Does the delete transaction take effect? A lost reply to COMMIT is an error that did take effect. */
  predicate DeleteTakesEffect(fault: DeleteFault, count: nat) {
    DeleteReportsOk(fault, count) || fault.CommitReplyLost?
  }

  function DeleteRows(t: Table, ids: seq<int>, fault: DeleteFault): Table {
    if DeleteTakesEffect(fault, |ids|) then t.(rows := Without(t.rows, Elements(ids))) else t
  }

  /** Every method runs under the mutex, so each one is a single atomic step of the table. */
  class SQLiteQueue {
    var table: Table

    ghost predicate Valid()
      reads this
    {
      ValidTable(table)
    }

    constructor ()
      ensures Valid() && table == EMPTY_TABLE
    {
      table := EMPTY_TABLE;
    }

    method Enqueue(payload: string, now: int, fault: bool) returns (ok: bool)
      requires Valid()
      modifies this
      ensures Valid()
      ensures ok <==> !fault && old(table.nextId) <= 9_223_372_036_854_775_807
      ensures ok ==> table.rows == old(table.rows) + [Row(old(table.nextId), payload, now)]
      ensures ok ==> table.nextId == old(table.nextId) + 1
      ensures !ok ==> table == old(table)
    {
      var inserted := if fault then None else Insert(table, payload, now);
      match inserted
      case None => ok := false;
      case Some(t) => table := t; ok := true;
    }

    /** On success the answer is a prefix of the queue: the whole of it unless reading stopped early. */
    method DequeueAll(cursor: Cursor) returns (r: Option<seq<Row>>)
      requires Valid()
      ensures r == Snapshot(table.rows, cursor)
      ensures r.Some? ==> r.value <= table.rows
      ensures r.None? <==> cursor.QueryError? || (cursor.ScanError? && cursor.at < |table.rows|)
      ensures r.Some? && (cursor.StopsAfter? ==> |table.rows| <= cursor.count) ==> r.value == table.rows
      ensures r.Some? && cursor.StopsAfter? && cursor.count <= |table.rows| ==> |r.value| == cursor.count
    {
      if cursor.QueryError? {
        return None;
      }
      var list: seq<Row> := [];
      var i := 0;
      while i < |table.rows| && !(cursor.StopsAfter? && cursor.count <= i)
        invariant 0 <= i <= |table.rows|
        invariant list == table.rows[..i]
        invariant cursor.StopsAfter? ==> i <= cursor.count
        invariant cursor.ScanError? ==> i <= cursor.at
      {
        if cursor.ScanError? && cursor.at == i {
          return None;
        }
        list := list + [table.rows[i]];
        i := i + 1;
      }
      assert i == |table.rows| ==> list == table.rows;
      return Some(list);
    }

    /** All or nothing: on every exit either exactly the rows with these ids are gone, or the table is
        untouched. Only when the reply to COMMIT is lost does an error come with the rows gone. */
    method Delete(ids: seq<int>, fault: DeleteFault) returns (ok: bool)
      requires Valid()
      modifies this
      ensures Valid()
      ensures table == DeleteRows(old(table), ids, fault)
      ensures ok <==> DeleteReportsOk(fault, |ids|)
      ensures table.nextId == old(table.nextId)
      ensures ok <==> ids == [] || fault.NoFault? || (fault.ExecError? && |ids| <= fault.at)
      ensures !ok && !fault.CommitReplyLost? ==> table == old(table)
      ensures ok || fault.CommitReplyLost? ==>
                forall row :: row in table.rows <==> row in old(table.rows) && row.id !in ids
    {
      hide Without;
      WithoutKeepsOrder(table.rows, Elements(ids));
      WithoutNothing(table.rows);
      if ids == [] {
        return true;
      }
      if fault.BeginError? || fault.PrepareError? {
        return false;
      }
      var working := table.rows;
      var i := 0;
      while i < |ids|
        invariant 0 <= i <= |ids|
        invariant working == Without(table.rows, Elements(ids[..i]))
        invariant fault.ExecError? ==> i <= fault.at
        invariant table == old(table)
      {
        if fault.ExecError? && fault.at == i {
          return false;
        }
        WithoutTwice(table.rows, Elements(ids[..i]), {ids[i]});
        assert Elements(ids[..i + 1]) == Elements(ids[..i]) + {ids[i]};
        working := Without(working, {ids[i]});
        i := i + 1;
      }
      assert ids[..i] == ids;
      if fault.CommitRolledBack? {
        return false;
      }
      table := table.(rows := working);
      return !fault.CommitReplyLost?;
    }

    method Count() returns (count: nat)
      ensures count == |table.rows|
    {
      count := |table.rows|;
    }
  }

  lemma WithoutNothing(rows: seq<Row>)
    ensures Without(rows, {}) == rows
    ensures Without(rows, Elements([])) == rows
  {
    WithoutPrefix(rows, {}, 0);
    assert Elements([]) == {};
  }

  lemma {:induction false} WithoutKeepsOrder(rows: seq<Row>, ids: set<int>)
    requires Ascending(rows)
    ensures Ascending(Without(rows, ids))
    ensures forall row :: row in Without(rows, ids) <==> row in rows && row.id !in ids
  {
    if rows != [] {
      WithoutKeepsOrder(rows[1..], ids);
    }
  }
}
