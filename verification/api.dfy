/** The ingest service of src/app/api.py: a module-global list of envelopes
    (`EVENT_STORE`), an ingest endpoint that appends to it and a health
    endpoint. The list is threaded through the functions explicitly. */
module Api {
  import opened Wrappers
  import opened Events

  /** The in-memory `EVENT_STORE`: every ingested envelope, oldest first. */
  type EventStore = seq<EventEnvelope>

  /** The JSON body `ingest` answers with. */
  datatype IngestResponse = IngestResponse(ok: bool, stored: nat)

  /** The JSON body `health` answers with. */
  datatype HealthResponse = HealthResponse(ok: bool)

  /** An endpoint's reply together with the store it leaves behind. */
  datatype Reply<T> = Reply(store: EventStore, body: T)

  /** An envelope as the request body builds it when the sender leaves out
      the optional fields: `proof_ref` and `meta` default to None. */
  function Envelope(missionId: string, eventType: string, status: string): (e: EventEnvelope)
    ensures e.missionId == missionId && e.eventType == eventType && e.status == status
    ensures e.proofRef.None? && e.meta.None?
  {
    EventEnvelope(missionId, eventType, status, None, None)
  }

  /** `GET /api/health`: always ok, and the store is left alone. */
  function Health(store: EventStore): (r: Reply<HealthResponse>)
    ensures r.store == store
    ensures r.body.ok
  {
    Reply(store, HealthResponse(true))
  }

  /** `POST /api/gd/ingest`: append the envelope (its `model_dump`, which
      keeps all five fields) and report the new length. There is no
      rejection path and no dedup. */
  function Ingest(store: EventStore, envelope: EventEnvelope): (r: Reply<IngestResponse>)
    ensures |r.store| == |store| + 1
    ensures r.store[..|store|] == store
    ensures r.store[|store|] == envelope
    ensures r.body.ok
    ensures r.body.stored == |r.store|
  {
    var store' := store + [envelope];
    Reply(store', IngestResponse(true, |store'|))
  }

  /** A sequence of ingest requests handled one after another; the replies
      are listed in request order. */
  function IngestAll(store: EventStore, envelopes: seq<EventEnvelope>): (r: Reply<seq<IngestResponse>>)
    ensures |r.body| == |envelopes|
    decreases |envelopes|
  {
    if envelopes == [] then Reply(store, [])
    else
      var first := Ingest(store, envelopes[0]);
      var rest := IngestAll(first.store, envelopes[1..]);
      Reply(rest.store, [first.body] + rest.body)
  }

  /** Ingesting a batch appends the batch, in order, after what was stored;
      the i-th reply is ok and reports the store length right after the
      i-th append. */
  lemma {:induction false} IngestAllAppends(store: EventStore, envelopes: seq<EventEnvelope>)
    ensures IngestAll(store, envelopes).store == store + envelopes
    ensures forall i :: 0 <= i < |envelopes| ==>
              IngestAll(store, envelopes).body[i] == IngestResponse(true, |store| + i + 1)
    decreases |envelopes|
  {
    if envelopes != [] {
      var first := Ingest(store, envelopes[0]);
      IngestAllAppends(first.store, envelopes[1..]);
      assert first.store + envelopes[1..] == store + envelopes;
      var r := IngestAll(store, envelopes);
      forall i | 0 <= i < |envelopes|
        ensures r.body[i] == IngestResponse(true, |store| + i + 1)
      {
        if i > 0 {
          assert r.body[i] == IngestAll(first.store, envelopes[1..]).body[i - 1];
        }
      }
    }
  }

  /** Replaying one envelope n times leaves n more copies of it in the
      store: nothing is deduplicated. */
  lemma ReplayKeepsEveryCopy(store: EventStore, envelope: EventEnvelope, n: nat)
    ensures var store' := IngestAll(store, seq(n, _ => envelope)).store;
            |store'| == |store| + n
            && multiset(store')[envelope] == multiset(store)[envelope] + n
  {
    var copies := seq(n, _ => envelope);
    IngestAllAppends(store, copies);
    assert multiset(copies) == multiset{envelope}[envelope := n] by {
      ReplicatedMultiset(envelope, n);
    }
  }

  lemma {:induction false} ReplicatedMultiset(envelope: EventEnvelope, n: nat)
    ensures multiset(seq(n, _ => envelope)) == multiset{envelope}[envelope := n]
  {
    if n > 0 {
      ReplicatedMultiset(envelope, n - 1);
      assert seq(n, _ => envelope) == seq(n - 1, _ => envelope) + [envelope];
    }
  }
}
