/**
  The owner-scoped table behind the task, habit and note routes.

  Each of the three route modules keeps one table of rows; a row has the id the
  database assigned, the id of the user who owns it, and the mutable columns
  (`P`, different for tasks, habits and notes). Every query a route runs is
  filtered on the caller's id, so a caller only ever sees or touches their own
  rows, and a row owned by someone else is answered exactly like a missing id.

  The table is specified here as a value (`Table`) with one function per route
  operation; the class `Store` is the same table updated in place, the way the
  routes change it through the database session.
*/
module OwnedStore {
  import opened Http

  /** One row: the database-assigned id, the owner's id, and the mutable columns. */
  datatype Row<P> = Row(id: int, userId: nat, fields: P)

  /** The rows, filed by id, and the id the database hands out next. */
  datatype Table<P> = Table(rows: map<int, Row<P>>, nextId: int)

  /** The result of an update or delete: the new table and the row the
      lookup on (id, owner) matched, if any. */
  datatype Outcome<P> = Outcome(table: Table<P>, row: Option<Row<P>>)

  /** Every row is filed under its own id, and ids are positive and below the
      next id to be handed out (so that id is fresh). */
  predicate Consistent<P>(t: Table<P>) {
    && 1 <= t.nextId
    && forall id :: id in t.rows ==> 1 <= id < t.nextId && t.rows[id].id == id
  }

  /** The rows owned by `owner`: the query filtered on `user_id`. */
  function Owned<P(==, !new)>(t: Table<P>, owner: nat): (mine: set<Row<P>>)
    requires Consistent(t)
    ensures forall r :: r in mine <==> r.id in t.rows && t.rows[r.id] == r && r.userId == owner
  {
    set id | id in t.rows && t.rows[id].userId == owner :: t.rows[id]
  }

  /** The lookup that both update and delete run first: the row with this id,
      provided it belongs to `owner`. */
  function Find<P>(t: Table<P>, id: int, owner: nat): (row: Option<Row<P>>) {
    if id in t.rows && t.rows[id].userId == owner then Some(t.rows[id]) else None
  }

  /** `create`: one new row, stamped with the caller's id, under an id no row has. */
  function Create<P>(t: Table<P>, owner: nat, fields: P): (res: (Table<P>, Row<P>))
    requires Consistent(t)
    ensures Consistent(res.0)
    ensures res.1.id !in t.rows && res.1.userId == owner && res.1.fields == fields
    ensures res.0.rows == t.rows[res.1.id := res.1]
  {
    var row := Row(t.nextId, owner, fields);
    (Table(t.rows[t.nextId := row], t.nextId + 1), row)
  }

  /** `update`: on a miss nothing changes; on a hit every mutable column is
      replaced by the input while id and owner stay. */
  function Update<P>(t: Table<P>, owner: nat, id: int, fields: P): (out: Outcome<P>)
    requires Consistent(t)
    ensures Consistent(out.table)
    ensures out.row.None? <==> Find(t, id, owner).None?
    ensures out.row.None? ==> out.table == t
    ensures out.row.Some? ==>
      && out.row.value == Row(t.rows[id].id, t.rows[id].userId, fields)
      && out.table == Table(t.rows[id := out.row.value], t.nextId)
  {
    match Find(t, id, owner)
    case None => Outcome(t, None)
    case Some(row) =>
      var updated := row.(fields := fields);
      Outcome(t.(rows := t.rows[id := updated]), Some(updated))
  }

  /** `delete`: on a miss nothing changes; on a hit exactly that row goes. */
  function Delete<P>(t: Table<P>, owner: nat, id: int): (out: Outcome<P>)
    requires Consistent(t)
    ensures Consistent(out.table)
    ensures out.row == Find(t, id, owner)
    ensures out.row.None? ==> out.table == t
    ensures out.row.Some? ==> out.table == Table(t.rows - {id}, t.nextId)
  {
    match Find(t, id, owner)
    case None => Outcome(t, None)
    case Some(row) => Outcome(t.(rows := t.rows - {id}), Some(row))
  }

  /** A request a signed-in user can send to one of the three route modules. */
  datatype Op<P> = CreateOp(fields: P) | UpdateOp(id: int, fields: P) | DeleteOp(id: int)

  function Apply<P>(t: Table<P>, caller: nat, op: Op<P>): (t': Table<P>)
    requires Consistent(t)
    ensures Consistent(t')
  {
    match op
    case CreateOp(fields) => Create(t, caller, fields).0
    case UpdateOp(id, fields) => Update(t, caller, id, fields).table
    case DeleteOp(id) => Delete(t, caller, id).table
  }

  /** The table after `caller` has sent `ops`, one after the other. */
  function Run<P>(t: Table<P>, caller: nat, ops: seq<Op<P>>): (t': Table<P>)
    requires Consistent(t)
    ensures Consistent(t')
    decreases |ops|
  {
    if ops == [] then t else Run(Apply(t, caller, ops[0]), caller, ops[1..])
  }

  /** After `create`, the owner's listing has gained exactly the new row and
      every other user's listing is as it was. */
  lemma CreateThenList<P(!new)>(t: Table<P>, owner: nat, fields: P, other: nat)
    requires Consistent(t)
    ensures var (t', row) := Create(t, owner, fields);
      && Owned(t', owner) == Owned(t, owner) + {row}
      && (other != owner ==> Owned(t', other) == Owned(t, other))
  {
  }

  /** A successful `update` is a full replace: the owner's listing shows the
      new columns in place of the old row, and other users' listings are as
      they were. */
  lemma UpdateThenList<P(!new)>(t: Table<P>, owner: nat, id: int, fields: P, other: nat)
    requires Consistent(t)
    requires Find(t, id, owner).Some?
    ensures var out := Update(t, owner, id, fields);
      && out.row == Some(Row(id, owner, fields))
      && Owned(out.table, owner) == Owned(t, owner) - {t.rows[id]} + {Row(id, owner, fields)}
      && (other != owner ==> Owned(out.table, other) == Owned(t, other))
  {
  }

  /** A successful `delete` removes exactly the matched row from the owner's
      listing and leaves other users' listings as they were. */
  lemma DeleteThenList<P(!new)>(t: Table<P>, owner: nat, id: int, other: nat)
    requires Consistent(t)
    requires Find(t, id, owner).Some?
    ensures var out := Delete(t, owner, id);
      && id !in out.table.rows
      && Owned(out.table, owner) == Owned(t, owner) - {t.rows[id]}
      && (other != owner ==> Owned(out.table, other) == Owned(t, other))
  {
  }

  /** A row owned by someone else is answered exactly like an id that does
      not exist: update and delete report the same miss and change nothing,
      whether the row is there or not. */
  lemma ForeignRowLooksMissing<P>(t: Table<P>, caller: nat, id: int, fields: P)
    requires Consistent(t)
    requires id in t.rows && t.rows[id].userId != caller
    ensures var gone := t.(rows := t.rows - {id});
      && Consistent(gone)
      && Update(t, caller, id, fields) == Outcome(t, None)
      && Update(gone, caller, id, fields) == Outcome(gone, None)
      && Delete(t, caller, id) == Outcome(t, None)
      && Delete(gone, caller, id) == Outcome(gone, None)
  {
  }

  /** Sending the same update twice leaves the table as sending it once. */
  lemma UpdateIdempotent<P>(t: Table<P>, owner: nat, id: int, fields: P)
    requires Consistent(t)
    ensures var once := Update(t, owner, id, fields);
      Update(once.table, owner, id, fields) == once
  {
  }

  /** One request by `caller` leaves the rows of every other user as they were. */
  lemma ApplyKeepsOthers<P(!new)>(t: Table<P>, caller: nat, op: Op<P>, other: nat)
    requires Consistent(t)
    requires other != caller
    ensures Owned(Apply(t, caller, op), other) == Owned(t, other)
  {
    match op
    case CreateOp(fields) => CreateThenList(t, caller, fields, other);
    case UpdateOp(id, fields) =>
      if Find(t, id, caller).Some? { UpdateThenList(t, caller, id, fields, other); }
    case DeleteOp(id) =>
      if Find(t, id, caller).Some? { DeleteThenList(t, caller, id, other); }
  }

  /** Ownership scoping: no sequence of requests by one user creates, changes
      or removes a row of another user. */
  lemma {:induction false} OtherOwnersUntouched<P(!new)>(t: Table<P>, caller: nat, ops: seq<Op<P>>, other: nat)
    requires Consistent(t)
    requires other != caller
    ensures Owned(Run(t, caller, ops), other) == Owned(t, other)
    decreases |ops|
  {
    if ops != [] {
      var t1 := Apply(t, caller, ops[0]);
      ApplyKeepsOthers(t, caller, ops[0], other);
      OtherOwnersUntouched(t1, caller, ops[1..], other);
    }
  }

  /** The table of one route module, changed in place as the routes change it
      through the database session (`db.add`, column assignments, `db.delete`,
      each followed by `commit`). */
  class Store<P(==)> {
    var rows: map<int, Row<P>>
    var nextId: int

    /** The table as a value, for the specification functions above. */
    function State(): (t: Table<P>)
      reads this
    {
      Table(rows, nextId)
    }

    ghost predicate Valid()
      reads this
    {
      Consistent(State())
    }

    constructor ()
      ensures Valid() && rows == map[]
    {
      rows := map[];
      nextId := 1;
    }

    /** `db.add(row)`, `commit`, `refresh`: the database assigns a fresh id. */
    method Add(owner: nat, fields: P) returns (row: Row<P>)
      requires Valid()
      modifies this
      ensures Valid()
      ensures (State(), row) == Create(old(State()), owner, fields)
    {
      row := Row(nextId, owner, fields);
      rows := rows[nextId := row];
      nextId := nextId + 1;
    }

    /** Lookup on (id, owner), then, on a hit, every mutable column assigned
      and committed. */
    method Replace(owner: nat, id: int, fields: P) returns (row: Option<Row<P>>)
      requires Valid()
      modifies this
      ensures Valid()
      ensures Outcome(State(), row) == Update(old(State()), owner, id, fields)
    {
      row := Find(State(), id, owner);
      if row.Some? {
        var updated := row.value.(fields := fields);
        rows := rows[id := updated];
        row := Some(updated);
      }
    }

    /** Lookup on (id, owner), then, on a hit, `db.delete` and commit. */
    method Remove(owner: nat, id: int) returns (row: Option<Row<P>>)
      requires Valid()
      modifies this
      ensures Valid()
      ensures Outcome(State(), row) == Delete(old(State()), owner, id)
    {
      row := Find(State(), id, owner);
      if row.Some? {
        rows := rows - {id};
      }
    }
  }
}
