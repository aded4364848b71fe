/** The `envelopes` table of src/app/store.py: an append-only sequence of
    rows with AUTOINCREMENT ids, the insert that appends one row verbatim,
    and the three COUNT queries behind the summary (with SQL's three-valued
    logic for NULL statuses). The sqlite connection is abstracted away: a
    database is the table (if it has been created) and nothing else. */
module Store {
  import opened Wrappers
  import opened Events

  /** The statuses the summary counts as ok, exactly as the SQL lists them. */
  const SuccessStatuses: set<string> := {"VERIFIED", "COMPLETED", "SETTLED", "OK"}

  /** The largest rowid sqlite can assign (2^63 - 1). */
  const MaxRowId: nat := 0x7FFF_FFFF_FFFF_FFFF

  /** The dict handed to `insert_envelope`. `env.get` yields None both for a
      missing key and for a key bound to None, so every field is optional. */
  datatype Envelope = Envelope(
    missionId: Option<string>,
    eventType: Option<string>,
    status: Option<string>,
    proofRef: Option<string>,
    meta: Option<Meta>
  )

  /** The `meta_json` column: the text `json.dumps` produces, identified with
      the document it encodes (the encoding itself is not modelled). */
  datatype MetaJson = MetaJson(doc: Meta)

  /** One stored row. A `None` column is SQL NULL. */
  datatype Row = Row(
    id: nat,
    missionId: Option<string>,
    eventType: Option<string>,
    status: Option<string>,
    proofRef: Option<string>,
    metaJson: MetaJson
  )

  /** The table: its rows in insertion order and the AUTOINCREMENT counter
      (the largest id ever assigned, kept in sqlite_sequence). */
  datatype Table = Table(rows: seq<Row>, lastId: nat)

  /** The database file: the `envelopes` table exists or it does not. */
  datatype Db = Db(envelopes: Option<Table>)

  /** What sqlite raises on the modelled paths. */
  datatype SqlError =
    | NoSuchTable   // the statement names a table that was never created
    | DatabaseFull  // AUTOINCREMENT has already handed out the largest rowid

  /** The dict `summary_counts` returns. */
  datatype Summary = Summary(total: nat, ok: nat, fail: nat)

  /** Rows carry ids 1..lastId in strictly increasing order, and the counter
      never exceeds sqlite's largest rowid. */
  predicate ValidTable(t: Table) {
    && t.lastId <= MaxRowId
    && (forall i :: 0 <= i < |t.rows| ==> 1 <= t.rows[i].id <= t.lastId)
    && (forall i, j :: 0 <= i < j < |t.rows| ==> t.rows[i].id < t.rows[j].id)
  }

  predicate ValidDb(db: Db) {
    db.envelopes.Some? ==> ValidTable(db.envelopes.value)
  }

  /** `ensure_tables`: CREATE TABLE IF NOT EXISTS. An existing table is left
      exactly as it is; a missing one is created empty. */
  function EnsureTables(db: Db): (r: Db)
    ensures r.envelopes.Some?
    ensures db.envelopes.Some? ==> r == db
    ensures db.envelopes.None? ==> r.envelopes.value.rows == [] && r.envelopes.value.lastId == 0
    ensures ValidDb(db) ==> ValidDb(r)
  {
    if db.envelopes.Some? then db else Db(Some(Table([], 0)))
  }

  /** `json.dumps(env.get("meta") or {})`: an absent meta, a None meta and an
      empty meta all serialise as the empty object. */
  function SerializeMeta(meta: Option<Meta>): (j: MetaJson)
    ensures meta.Some? ==> j.doc == meta.value
    ensures meta.None? ==> j.doc == map[]
  {
    match meta
    case None => MetaJson(map[])
    case Some(m) => MetaJson(m)  // `or {}` turns an empty meta into {}, which is m itself
  }

  /** The row `insert_envelope` writes for `env` under id `id`. */
  function NewRow(id: nat, env: Envelope): (row: Row)
    ensures row.id == id
    ensures row.missionId == env.missionId && row.eventType == env.eventType
    ensures row.status == env.status && row.proofRef == env.proofRef
    ensures row.metaJson == SerializeMeta(env.meta)
  {
    Row(id, env.missionId, env.eventType, env.status, env.proofRef, SerializeMeta(env.meta))
  }

  /** The table after appending `env`, when AUTOINCREMENT still has an id. */
  function Append(t: Table, env: Envelope): (r: Result<Table, SqlError>)
    ensures t.lastId >= MaxRowId <==> r.Failure?
    ensures r.Failure? ==> r.error == DatabaseFull
    ensures r.Success? ==> r.value.lastId == t.lastId + 1
    ensures r.Success? ==> r.value.rows == t.rows + [NewRow(t.lastId + 1, env)]
  {
    if t.lastId >= MaxRowId then Failure(DatabaseFull)
    else Success(Table(t.rows + [NewRow(t.lastId + 1, env)], t.lastId + 1))
  }

  /** `insert_envelope`: one INSERT, no lookup of earlier rows, no
      normalisation. Of the errors sqlite can raise, the model covers only a
      missing table and AUTOINCREMENT running out of ids; otherwise it
      appends. */
  function InsertEnvelope(db: Db, env: Envelope): (r: Result<Db, SqlError>)
    ensures db.envelopes.None? ==> r == Failure(NoSuchTable)
    ensures db.envelopes.Some? ==> (r.Success? <==> db.envelopes.value.lastId < MaxRowId)
    ensures db.envelopes.Some? && r.Failure? ==> r.error == DatabaseFull
    ensures r.Success? ==>
      && db.envelopes.Some? && r.value.envelopes.Some?
      && r.value.envelopes.value.lastId == db.envelopes.value.lastId + 1
    ensures r.Success? ==>
      var before := db.envelopes.value.rows;
      var after := r.value.envelopes.value.rows;
      && |after| == |before| + 1
      && after[..|before|] == before
      && after[|before|] == NewRow(db.envelopes.value.lastId + 1, env)
    ensures ValidDb(db) && r.Success? ==> ValidDb(r.value)
    ensures ValidDb(db) && r.Success? ==>
      var after := r.value.envelopes.value.rows;
      forall i :: 0 <= i < |after| - 1 ==> after[i].id < after[|after| - 1].id
  {
    match db.envelopes
    case None => Failure(NoSuchTable)
    case Some(t) =>
      match Append(t, env)
      case Failure(e) => Failure(e)
      case Success(t') => Success(Db(Some(t')))
  }

  // ---------------------------------------------------------------------
  // The summary queries, with SQL's three-valued logic.

  /** SQL truth values: a comparison with NULL is neither true nor false. */
  datatype SqlBool = SqlTrue | SqlFalse | SqlNull

  /** SQL NOT: NOT NULL is NULL. */
  function SqlNot(b: SqlBool): (r: SqlBool)
    ensures r == SqlNull <==> b == SqlNull
    ensures r == SqlTrue <==> b == SqlFalse
  {
    match b
    case SqlTrue => SqlFalse
    case SqlFalse => SqlTrue
    case SqlNull => SqlNull
  }

  /** `status IN ('VERIFIED','COMPLETED','SETTLED','OK')`: an exact,
      case-sensitive string comparison, NULL for a NULL status. */
  function StatusIn(status: Option<string>): (r: SqlBool)
    ensures r == SqlNull <==> status.None?
    ensures r == SqlTrue <==> status.Some? && status.value in SuccessStatuses
  {
    match status
    case None => SqlNull
    case Some(s) => if s in SuccessStatuses then SqlTrue else SqlFalse
  }

  /** The three SELECT COUNT(*) statements of `summary_counts`. */
  datatype Query = CountAll | CountStatusIn | CountStatusNotIn

  /** The WHERE clause of `q` on one row. COUNT(*) has none, so it keeps
      every row; `status NOT IN (...)` keeps exactly the rows with a non-NULL
      status outside the success set. */
  function Where(q: Query, row: Row): (r: SqlBool)
    ensures q == CountAll ==> r == SqlTrue
    ensures q == CountStatusIn ==> r == StatusIn(row.status)
    ensures q == CountStatusNotIn ==>
              (r == SqlTrue <==> row.status.Some? && row.status.value !in SuccessStatuses)
    ensures q != CountAll ==> (r == SqlNull <==> row.status.None?)
  {
    match q
    case CountAll => SqlTrue
    case CountStatusIn => StatusIn(row.status)
    case CountStatusNotIn => SqlNot(StatusIn(row.status))
  }

  /** SELECT COUNT(*) ... WHERE: the rows whose WHERE clause is TRUE (a NULL
      outcome drops the row just as FALSE does). */
  function Count(rows: seq<Row>, q: Query): (n: nat)
    ensures n <= |rows|
    ensures n == 0 <==> forall i :: 0 <= i < |rows| ==> Where(q, rows[i]) != SqlTrue
    ensures n == |rows| <==> forall i :: 0 <= i < |rows| ==> Where(q, rows[i]) == SqlTrue
  {
    if rows == [] then 0
    else (if Where(q, rows[0]) == SqlTrue then 1 else 0) + Count(rows[1..], q)
  }

  /** The number of rows whose status is NULL. */
  function NullStatusCount(rows: seq<Row>): (n: nat)
    ensures n <= |rows|
  {
    if rows == [] then 0
    else (if rows[0].status.None? then 1 else 0) + NullStatusCount(rows[1..])
  }

  /** Counting over a row appended at the end adds that row's contribution. */
  lemma {:induction false} CountAppend(rows: seq<Row>, row: Row, q: Query)
    ensures Count(rows + [row], q) == Count(rows, q) + (if Where(q, row) == SqlTrue then 1 else 0)
  {
    if rows == [] {
      assert rows + [row] == [row];
    } else {
      assert (rows + [row])[1..] == rows[1..] + [row];
      CountAppend(rows[1..], row, q);
    }
  }

  /** Counting one more row of a prefix adds that row's contribution. */
  lemma CountStep(rows: seq<Row>, i: nat, q: Query)
    requires i < |rows|
    ensures Count(rows[..i + 1], q) == Count(rows[..i], q) + (if Where(q, rows[i]) == SqlTrue then 1 else 0)
  {
    assert rows[..i + 1] == rows[..i] + [rows[i]];
    CountAppend(rows[..i], rows[i], q);
  }

  /** COUNT(*) without a WHERE clause counts every row. */
  lemma {:induction false} CountAllIsTotal(rows: seq<Row>)
    ensures Count(rows, CountAll) == |rows|
  {
    if rows != [] {
      CountAllIsTotal(rows[1..]);
    }
  }

  /** `summary_counts`: the three COUNT(*) statements, tallied here in one
      pass over a single table state. The source runs them as three separate
      statements; the model assumes no other connection commits in between.
      The only sqlite error modelled is the missing table. */
  method SummaryCounts(db: Db) returns (r: Result<Summary, SqlError>)
    ensures db.envelopes.None? ==> r == Failure(NoSuchTable)
    ensures db.envelopes.Some? ==> r.Success?
    ensures r.Success? ==>
      var rows := db.envelopes.value.rows;
      && r.value.total == |rows|
      && r.value.ok == Count(rows, CountStatusIn)
      && r.value.fail == Count(rows, CountStatusNotIn)
  {
    if db.envelopes.None? {
      return Failure(NoSuchTable);
    }
    var rows := db.envelopes.value.rows;
    var total, ok, fail := 0, 0, 0;
    var i := 0;
    while i < |rows|
      invariant 0 <= i <= |rows|
      invariant total == Count(rows[..i], CountAll)
      invariant ok == Count(rows[..i], CountStatusIn)
      invariant fail == Count(rows[..i], CountStatusNotIn)
    {
      CountStep(rows, i, CountAll);
      CountStep(rows, i, CountStatusIn);
      CountStep(rows, i, CountStatusNotIn);
      total := total + 1;
      if Where(CountStatusIn, rows[i]) == SqlTrue {
        ok := ok + 1;
      }
      if Where(CountStatusNotIn, rows[i]) == SqlTrue {
        fail := fail + 1;
      }
      i := i + 1;
    }
    assert rows[..i] == rows;
    CountAllIsTotal(rows);
    return Success(Summary(total, ok, fail));
  }

  /** The summary counts split the table: every row is ok, fail, or has a
      NULL status, and no row is two of these. So ok + fail <= total, with
      equality exactly when no status is NULL. */
  lemma {:induction false} CountsPartition(rows: seq<Row>)
    ensures Count(rows, CountStatusIn) + Count(rows, CountStatusNotIn) + NullStatusCount(rows) == |rows|
    ensures Count(rows, CountStatusIn) + Count(rows, CountStatusNotIn) == |rows|
            <==> forall i :: 0 <= i < |rows| ==> rows[i].status.Some?
  {
    if rows != [] {
      CountsPartition(rows[1..]);
      if forall i :: 0 <= i < |rows| ==> rows[i].status.Some? {
        assert forall i :: 0 <= i < |rows[1..]| ==> rows[1..][i].status.Some? by {
          forall i | 0 <= i < |rows[1..]| ensures rows[1..][i].status.Some? {
            assert rows[1..][i] == rows[i + 1];
          }
        }
      } else if rows[0].status.Some? {
        var k :| 0 <= k < |rows| && rows[k].status.None?;
        assert rows[1..][k - 1] == rows[k];
      }
    }
  }

  /** `ok` counts exactly the rows whose status is, character for character,
      one of the four success statuses; `fail` exactly the rows with any
      other non-NULL status. */
  lemma {:induction false} CountsByStatus(rows: seq<Row>)
    ensures Count(rows, CountStatusIn) == 0 <==>
            forall i :: 0 <= i < |rows| ==> rows[i].status.None? || rows[i].status.value !in SuccessStatuses
    ensures Count(rows, CountStatusNotIn) == 0 <==>
            forall i :: 0 <= i < |rows| ==> rows[i].status.None? || rows[i].status.value in SuccessStatuses
  {
    if rows != [] {
      CountsByStatus(rows[1..]);
      assert forall i :: 1 <= i < |rows| ==> rows[i] == rows[1..][i - 1];
    }
  }

  /** Inserting one envelope moves the summary by exactly that envelope's
      row: total grows by one, ok by one iff its status is a success status,
      fail by one iff its status is some other string, neither if NULL. */
  lemma InsertSummaryEffect(db: Db, env: Envelope, db': Db)
    requires InsertEnvelope(db, env) == Success(db')
    ensures |db'.envelopes.value.rows| == |db.envelopes.value.rows| + 1
    ensures Count(db'.envelopes.value.rows, CountStatusIn) == Count(db.envelopes.value.rows, CountStatusIn)
              + (if env.status.Some? && env.status.value in SuccessStatuses then 1 else 0)
    ensures Count(db'.envelopes.value.rows, CountStatusNotIn) == Count(db.envelopes.value.rows, CountStatusNotIn)
              + (if env.status.Some? && env.status.value !in SuccessStatuses then 1 else 0)
  {
    var t := db.envelopes.value;
    var row := NewRow(t.lastId + 1, env);
    assert db'.envelopes.value.rows == t.rows + [row];
    CountAppend(t.rows, row, CountStatusIn);
    CountAppend(t.rows, row, CountStatusNotIn);
  }

  /** There is no dedup: inserting the same envelope twice appends two rows
      with the same columns and two different ids. */
  lemma InsertTwiceKeepsBoth(db: Db, env: Envelope, db1: Db, db2: Db)
    requires InsertEnvelope(db, env) == Success(db1)
    requires InsertEnvelope(db1, env) == Success(db2)
    ensures
      var rows := db.envelopes.value.rows;
      var rows2 := db2.envelopes.value.rows;
      && |rows2| == |rows| + 2
      && rows2[..|rows|] == rows
      && rows2[|rows|].id < rows2[|rows| + 1].id
      && rows2[|rows|].(id := 0) == rows2[|rows| + 1].(id := 0)
  {
    var t := db.envelopes.value;
    assert db1.envelopes.value.rows == t.rows + [NewRow(t.lastId + 1, env)];
    assert db2.envelopes.value.rows == t.rows + [NewRow(t.lastId + 1, env)] + [NewRow(t.lastId + 2, env)];
  }
}
