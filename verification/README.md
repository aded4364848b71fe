# FlexyFins envelope ledger — a Dafny model

This project models the core of the FlexyFins mission-event service. It has
four parts, and each is a Dafny module.

- **Store** (`store.dfy`, `src/app/store.py`). The sqlite table `envelopes` is
  an append-only sequence of rows plus its AUTOINCREMENT counter. The model
  covers `ensure_tables` (create if missing), `insert_envelope` (append one row
  verbatim under a fresh id) and `summary_counts`. The summary is the three
  `COUNT(*)` queries, evaluated with SQL's three-valued logic, so a row whose
  status is NULL is counted in `total` but in neither `ok` nor `fail`.
- **Api** (`api.dfy`, `src/app/api.py`). This is the in-memory ingest service.
  `EVENT_STORE` is a sequence of envelopes threaded through the endpoints.
  `ingest` appends and reports the new length, and `health` leaves the store
  alone.
- **Mission** (`mission.dfy`, `src/app.py`). This is the mission runner.
  `run_mission` strips the mission id and rejects it with HTTP 400 unless it
  starts with `VAL-`. Otherwise it emits MISSION_STARTED/VERIFIED and then
  PROOF_MINTED/COMPLETED. Emission is the ordered list of envelopes returned.
  The service health check is modelled too.
- **Ops** (`ops.dfy`, `src/app/ops.py`). These are the static evidence-tier and
  runbook tables, with their lookups.

Three helper modules support these. `Text` (`text.dfy`) models Python's
`str.strip()` over the exact `str.isspace()` code points, plus `startswith`.
`Events` (`events.dfy`) holds the envelope record. `Wrappers`
(`wrappers.dfy`) holds Option and Result.

The insert in the code is a plain append. It has no idempotent or
finality-aware dedup, it does not upper-case the status, and it stores a
missing `proof_ref` as NULL, not as `""`. No modelled file computes a
latest-row-per-mission query or a `tier * 25` score. The model follows the
code, so none of these appear as behaviour.

## Model

| member | source | states |
|---|---|---|
| Store.EnsureTables | src/app/store.py:8-24 | CREATE TABLE IF NOT EXISTS: an existing table is kept exactly, a missing one is created empty with counter 0, and validity is preserved |
| Store.SerializeMeta | src/app/store.py:36 | the stored meta document is `meta` itself when given, and the empty object when meta is absent or None (an empty meta also gives the empty object) |
| Store.NewRow | src/app/store.py:29-37 | mission_id, event_type, status and proof_ref are copied verbatim (no case change, NULL stays NULL) and meta is serialised by the rule above |
| Store.Append | src/app/store.py:13 | AUTOINCREMENT: the new row gets id lastId+1 and the counter advances; once the largest rowid 2^63-1 has been used the insert fails with SQLITE_FULL |
| Store.InsertEnvelope | src/app/store.py:27-40 | without the table the insert fails with NoSuchTable; with it, the insert succeeds exactly when the counter is below 2^63-1 and otherwise fails with DatabaseFull; on success the counter advances by one, the table grows by exactly one row at the end, every earlier row is unchanged, the new row is the envelope's columns verbatim, and in a valid table (ids increasing, within 1..counter) the new id exceeds every earlier id and validity is preserved |
| Store.InsertTwiceKeepsBoth | src/app/store.py:27-40 | no dedup: the same envelope inserted twice yields two rows with equal columns and increasing ids |
| Store.SqlNot | src/app/store.py:49 | SQL NOT maps NULL to NULL and swaps TRUE and FALSE |
| Store.StatusIn | src/app/store.py:47 | `status IN (...)` is NULL exactly for a NULL status and TRUE exactly for a case-sensitive match of one of VERIFIED, COMPLETED, SETTLED, OK |
| Store.SummaryCounts | src/app/store.py:43-51 | over one table state, returns total = number of rows, ok = rows the IN query keeps, fail = rows the NOT IN query keeps; no table gives NoSuchTable |
| Store.Where | src/app/store.py:45-49 | COUNT(*) keeps every row, the IN clause is StatusIn of the status, the NOT IN clause is TRUE exactly for a non-NULL status outside the success set, and both clauses are NULL exactly for a NULL status |
| Store.Count | src/app/store.py:45-49 | a COUNT(*) ... WHERE is at most the row count, is zero exactly when the WHERE clause is TRUE for no row, and equals the row count exactly when it is TRUE for every row |
| Store.CountAllIsTotal | src/app/store.py:45 | COUNT(*) with no WHERE clause counts every row |
| Store.CountsPartition | src/app/store.py:45-49 | ok + fail + (rows with NULL status) = total, so ok + fail <= total, with equality exactly when no status is NULL |
| Store.CountsByStatus | src/app/store.py:46-49 | ok is zero exactly when no row has a success status, and fail is zero exactly when every non-NULL status is a success status; "verified" is not ok |
| Store.InsertSummaryEffect | src/app/store.py:27-49 | an insert adds one to total, one to ok iff its status is a success status, one to fail iff its status is another string, and nothing to either if NULL |
| Api.Envelope | src/app/api.py:8-13 | an envelope built without the optional fields has proof_ref and meta None, the required fields as given |
| Api.Health | src/app/api.py:20-22 | the health check answers ok and leaves the store unchanged |
| Api.Ingest | src/app/api.py:25-28 | ingest appends exactly the envelope at the end, leaves earlier entries unchanged, answers ok, and reports the new store length |
| Api.IngestAllAppends | src/app/api.py:25-28 | a batch of ingests appends the batch in order; the i-th reply is ok with stored = old length + i + 1 |
| Api.ReplayKeepsEveryCopy | src/app/api.py:25-28 | ingesting one envelope n times adds n copies of it to the store |
| Text.Strip | src/app.py:38 | the stripped id has no whitespace at either end and is no longer than the input |
| Text.StripSplit | src/app.py:38 | every string is its stripped form with whitespace only before and after it |
| Text.StripPadded | src/app.py:38 | any whitespace around a trimmed string strips back to that string, so the stripped form is unique |
| Text.StripIdempotent | src/app.py:38 | stripping twice equals stripping once |
| Text.StripIgnoresPadding | src/app.py:38 | adding whitespace on either side does not change the stripped result |
| Text.StripEmptyIffAllSpace | src/app.py:11 | a string strips to empty exactly when it is all whitespace |
| Mission.Health | src/app.py:27-29 | the health check answers ok with the app name and clock reading; FlexyFins counts as configured iff the URL variable is set and holds a non-whitespace character |
| Mission.Payload | src/app.py:16-20 | omitted playbook and mode default to "chimera" and "LIVE"; mission_id and run_id are kept as given |
| Mission.RunProofRef | src/app.py:48 | the first proof_ref is "run:manual" when run_id is None or empty and "run:" + run_id otherwise |
| Mission.ManifestProofRef | src/app.py:65 | the second proof_ref is "manifest:" then the mission id then ".md" |
| Mission.RunMission | src/app.py:32-70 | a run is rejected (400, fixed detail, nothing emitted) exactly when the stripped id lacks the VAL- prefix; otherwise exactly two events are emitted, MISSION_STARTED/VERIFIED then PROOF_MINTED/COMPLETED, with the derived proof_refs and metas, both statuses in the ledger's success set, and both events and the reply carry the stripped id |
| Mission.StartedMeta | src/app.py:49-54 | the MISSION_STARTED meta has exactly the keys mission_name, playbook, mode and ts, holding GOLDEN_DELIVERY, the payload's playbook and mode, and the clock reading |
| Mission.MintedMeta | src/app.py:66 | the PROOF_MINTED meta has exactly the keys note and ts, holding the placeholder note and the clock reading |
| Mission.StartedMetaEchoesPayload | src/app.py:49-54 | the first event's meta (which RunMission attaches) holds exactly mission_name GOLDEN_DELIVERY, the playbook and mode (defaulted), and the clock reading |
| Mission.AcceptedIdIsCanonical | src/app.py:38-40 | an accepted (stripped) id starts with VAL-, has no surrounding whitespace and is stable under strip; the manifest reference starts with "manifest:VAL-" |
| Mission.PaddingIsIgnored | src/app.py:38-70 | whitespace around the mission id never changes the outcome of a run |
| Ops.TierOf | src/app/ops.py:6-13 | exactly the six listed event types have a tier, and every tier lies in 1..4 |
| Ops.TierTableSize | src/app/ops.py:6-13 | the tier table has six entries |
| Ops.TierOrdering | src/app/ops.py:7-12 | PAYMENT_SUCCEEDED = PAYMENT_VERIFIED = 1 < ORDER_TAGGED = 2 < DELIVERY_DISPATCHED = PROOF_MINTED = 3 < SETTLEMENT_CONFIRMED = 4 |
| Ops.SettlementIsUniqueTop | src/app/ops.py:6-13 | SETTLEMENT_CONFIRMED is the only event type with the maximum tier 4 |
| Ops.RunbookFor | src/app/ops.py:16-57 | exactly the five listed reason codes have a runbook, each with a non-empty title and three steps; any other code gives none |
| Ops.RunbookTableSize | src/app/ops.py:16-57 | the runbook table has five entries |

## Left out

- The sqlite connection, commit and close are not modelled, and neither is the `FLEXYFINS_DB_PATH` file path. The database is a value.
- Store.InsertEnvelope: of sqlite's errors only the missing table (NoSuchTable) and AUTOINCREMENT exhaustion (DatabaseFull) are modelled. The OperationalErrors "unable to open database file", "database is locked" (after the 5 s busy timeout), "attempt to write a readonly database" and disk I/O errors, and SQLITE_FULL from a full disk, are not; the model's insert succeeds whenever the table exists and an id is left.
- Store.SummaryCounts: of sqlite's errors only the missing table is modelled. The same OperationalErrors (unable to open the file, database locked, disk I/O) are not, so the model's summary succeeds whenever the table exists.
- The `ts` column (`DEFAULT CURRENT_TIMESTAMP`) is a wall-clock value, so rows carry no timestamp.
- The `_utc_now()` readings in `src/app.py` become the parameters `startedAt`, `mintedAt` and `now`.
- The JSON text `json.dumps` produces is abstracted to the document it encodes, which is an injective stand-in.
- Meta values are scalars (text, integer, boolean, null). Floats (such as `{"amount": 12.5}`) and nested lists and objects are not modelled. A falsy non-mapping meta (0, "", []) is not modelled either, because meta is a mapping or absent.
- The fields of the dict given to `insert_envelope` are text or NULL. Values of other Python types passed through `env.get` are not modelled.
- AUTOINCREMENT behaviour after deletes is not modelled, because the core never deletes rows.
- `emit_event` is not part of this model. It is a network call, so emission is the returned list. A failure of the first emit is not modelled; it would stop the second.
- The three COUNT statements of `summary_counts` run separately, without a transaction around them. The model assumes they all read the same table state. A concurrent insert committed between them could make the source return ok + fail > total, which the model does not cover.
- FastAPI routing, Pydantic validation (a 422 for a missing or mistyped field), async handlers and concurrent mutation of the module-global `EVENT_STORE` are not modelled.
- Behaviour the code does not have is not modelled: idempotent or finality-aware insert, status upper-casing, turning a NULL proof_ref into "", a latest-per-mission query, a `tier * 25` score, and listing the known codes on a runbook miss. The summary's `fail` is the NOT IN count, not total − ok. The two differ by the number of NULL statuses (Store.CountsPartition).
