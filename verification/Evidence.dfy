/**
 Reading the newest evidence of a cell (`latest_by_scenario`). Rows that share the newest time of a
 cell are told apart by the order in which the query returns them: a sequence of row ids that the
 database is free to choose.
 */
module Evidence {
  import opened Wrappers
  import opened Provenance
  import opened Queue
  import opened QueueInvariants

  datatype Record = Record(payload: Payload, freshUntil: int, build: Option<string>)

  predicate IsNewest(rows: map<nat, Row>, cell: Cell, o: nat) {
    && o in rows && rows[o].cell == cell
    && forall p | p in rows && rows[p].cell == cell :: rows[p].payload.observedAt <= rows[o].payload.observedAt
  }

  function Newest(rows: map<nat, Row>, cell: Cell): set<nat> {
    set o | o in rows && IsNewest(rows, cell, o)
  }

  function LastOf(order: seq<nat>, ids: set<nat>): (last: Option<nat>)
    ensures last.Some? ==> last.value in ids
    ensures last.None? <==> forall o | o in order :: o !in ids
  {
    if order == [] then None
    else
      var n := |order| - 1;
      if order[n] in ids then Some(order[n]) else LastOf(order[..n], ids)
  }

  /** The order in which a query returns rows lists every row. */
  predicate Lists(order: seq<nat>, rows: map<nat, Row>) {
    forall o | o in rows :: o in order
  }

  /** The evaluator build that the row's task recorded with its last lease. */
  ghost function BuildOf(tasks: map<nat, Task>, r: Row): Option<string> {
    if k :| k in tasks && FiledFor(r, tasks[k]) then tasks[k].build else None
  }

  ghost function RecordOf(tasks: map<nat, Task>, r: Row): Record {
    Record(r.payload, r.payload.freshUntil, BuildOf(tasks, r))
  }

  ghost function Latest(db: Db, order: seq<nat>, cell: Cell): Option<Record> {
    var o :- LastOf(order, Newest(db.rows, cell));
    if o in db.rows then Some(RecordOf(db.tasks, db.rows[o])) else None
  }

  lemma BuildIsUnique(tasks: map<nat, Task>, r: Row, k: nat)
    requires UniqueCells(tasks) && k in tasks && FiledFor(r, tasks[k])
    ensures BuildOf(tasks, r) == tasks[k].build
  {
  }

  lemma {:induction false} NewestExists(rows: map<nat, Row>, cell: Cell, ids: set<nat>)
    requires ids != {} && forall o | o in ids :: o in rows && rows[o].cell == cell
    ensures exists o :: o in ids && forall p | p in ids :: rows[p].payload.observedAt <= rows[o].payload.observedAt
    decreases |ids|
  {
    var a :| a in ids;
    if ids == {a} {
      assert forall p | p in ids :: rows[p].payload.observedAt <= rows[a].payload.observedAt;
    } else {
      var rest := ids - {a};
      assert rest != {};
      NewestExists(rows, cell, rest);
      var o :| o in rest && forall p | p in rest :: rows[p].payload.observedAt <= rows[o].payload.observedAt;
      var top := if rows[o].payload.observedAt <= rows[a].payload.observedAt then a else o;
      assert forall p | p in ids :: p == a || p in rest;
      assert forall p | p in ids :: rows[p].payload.observedAt <= rows[top].payload.observedAt;
    }
  }

  /** The evidence of a cell is missing only when the cell has no row, and no row of the cell is newer than it. */
  lemma LatestIsNewest(db: Db, order: seq<nat>, cell: Cell)
    requires Lists(order, db.rows)
    ensures Latest(db, order, cell).None? <==> forall o | o in db.rows :: db.rows[o].cell != cell
    ensures Latest(db, order, cell).Some? ==>
              exists o | o in db.rows ::
                && db.rows[o].cell == cell && Latest(db, order, cell).value == RecordOf(db.tasks, db.rows[o])
                && forall p | p in db.rows && db.rows[p].cell == cell ::
                     db.rows[p].payload.observedAt <= db.rows[o].payload.observedAt
  {
    var ids := set o | o in db.rows && db.rows[o].cell == cell;
    if ids != {} {
      NewestExists(db.rows, cell, ids);
      var o :| o in ids && forall p | p in ids :: db.rows[p].payload.observedAt <= db.rows[o].payload.observedAt;
      assert o in Newest(db.rows, cell) by {
        assert forall p | p in db.rows && db.rows[p].cell == cell :: p in ids;
      }
      assert o in order && o in db.rows && db.rows[o].cell == cell;
    } else {
      assert forall o | o in db.rows && db.rows[o].cell == cell :: o in ids;
    }
    var last := LastOf(order, Newest(db.rows, cell));
    if last.Some? {
      assert IsNewest(db.rows, cell, last.value) && last.value in ids;
      assert Latest(db, order, cell) == Some(RecordOf(db.tasks, db.rows[last.value]));
    }
  }
}
