/** The mission runner of src/app.py: validate the mission id of a run
    request, then emit a MISSION_STARTED event followed by a PROOF_MINTED
    event. Emission is modelled as the ordered list of envelopes handed to
    the emitter; the two wall-clock readings are parameters. */
module Mission {
  import opened Wrappers
  import opened Events
  import opened Text
  import Store

  const AppName: string := "GOLDEN_DELIVERY"
  const MissionPrefix: string := "VAL-"
  const DefaultPlaybook: string := "chimera"
  const DefaultMode: string := "LIVE"
  const RejectDetail: string := "mission_id must start with VAL-"
  const ProofNote: string := "placeholder proof minted; wire real manifest path next"

  /** The body of `POST /api/gd/run`. */
  datatype RunPayload = RunPayload(missionId: string, playbook: string, mode: string, runId: Option<string>)

  /** The HTTPException a rejected run raises. */
  datatype HttpError = HttpError(statusCode: int, detail: string)

  /** The JSON body of an accepted run. */
  datatype RunResponse = RunResponse(ok: bool, missionId: string)

  /** An accepted run: the envelopes emitted, in emission order, and the reply. */
  datatype Run = Run(emitted: seq<EventEnvelope>, response: RunResponse)

  /** The JSON body of the service's health check. */
  datatype ServiceHealth = ServiceHealth(ok: bool, app: string, ts: string, flexyfinsConfigured: bool)

  /** `GET /api/health`. `rawUrl` is the FLEXYFINS_URL environment variable
      (None when unset), which the service strips once at start-up; `now` is
      the `_utc_now()` reading. The emitter counts as configured exactly when
      the variable holds a non-whitespace character. */
  function Health(rawUrl: Option<string>, now: string): (r: ServiceHealth)
    ensures r.ok && r.app == "GOLDEN_DELIVERY" && r.ts == now
    ensures r.flexyfinsConfigured <==> rawUrl.Some? && !AllSpace(rawUrl.value)
  {
    var url := Strip(rawUrl.GetOr(""));
    StripEmptyIffAllSpace(rawUrl.GetOr(""));
    ServiceHealth(true, AppName, now, url != "")
  }

  /** The payload the request body builds: a field the caller leaves out
      takes its declared default. */
  function Payload(missionId: string, playbook: Option<string>, mode: Option<string>, runId: Option<string>): (p: RunPayload)
    ensures p.missionId == missionId && p.runId == runId
    ensures p.playbook == (if playbook.Some? then playbook.value else "chimera")
    ensures p.mode == (if mode.Some? then mode.value else "LIVE")
  {
    RunPayload(missionId, playbook.GetOr(DefaultPlaybook), mode.GetOr(DefaultMode), runId)
  }

  /** The MISSION_STARTED proof reference: `run:` and the run id, where a
      missing or empty run id (both falsy) reads as `manual`. */
  function RunProofRef(runId: Option<string>): (r: string)
    ensures runId.None? || runId.value == "" ==> r == "run:manual"
    ensures runId.Some? && runId.value != "" ==> r == "run:" + runId.value
  {
    "run:" + (if runId.Some? && runId.value != "" then runId.value else "manual")
  }

  /** The PROOF_MINTED proof reference: `manifest:<mission id>.md`. */
  function ManifestProofRef(missionId: string): (r: string)
    ensures |r| == |missionId| + 12
    ensures r[..9] == "manifest:" && r[9..9 + |missionId|] == missionId && r[9 + |missionId|..] == ".md"
  {
    "manifest:" + missionId + ".md"
  }

  /** The meta of the MISSION_STARTED event: the app name, the run's
      playbook and mode, and the clock reading, under exactly these keys. */
  function StartedMeta(payload: RunPayload, startedAt: string): (m: Meta)
    ensures m.Keys == {"mission_name", "playbook", "mode", "ts"}
    ensures m["mission_name"] == Str("GOLDEN_DELIVERY")
    ensures m["playbook"] == Str(payload.playbook) && m["mode"] == Str(payload.mode)
    ensures m["ts"] == Str(startedAt)
  {
    map["mission_name" := Str(AppName), "playbook" := Str(payload.playbook),
        "mode" := Str(payload.mode), "ts" := Str(startedAt)]
  }

  /** The meta of the PROOF_MINTED event: the placeholder note and the
      clock reading, under exactly these keys. */
  function MintedMeta(mintedAt: string): (m: Meta)
    ensures m.Keys == {"note", "ts"}
    ensures m["note"] == Str("placeholder proof minted; wire real manifest path next")
    ensures m["ts"] == Str(mintedAt)
  {
    map["note" := Str(ProofNote), "ts" := Str(mintedAt)]
  }

  /** `run_mission`. The id is stripped first; an id without the `VAL-`
      prefix is rejected with 400 before anything is emitted. Otherwise two
      events go out, MISSION_STARTED/VERIFIED then PROOF_MINTED/COMPLETED,
      both and the reply carrying the stripped id. `startedAt` and
      `mintedAt` are the two `_utc_now()` readings. */
  function RunMission(payload: RunPayload, startedAt: string, mintedAt: string): (r: Result<Run, HttpError>)
    ensures r.Failure? <==> !StartsWith(Strip(payload.missionId), MissionPrefix)
    ensures r.Failure? ==> r.error.statusCode == 400 && r.error.detail == RejectDetail
    ensures r.Success? ==> |r.value.emitted| == 2
    ensures r.Success? ==> r.value.response == RunResponse(true, Strip(payload.missionId))
    ensures r.Success? ==> r.value.emitted[0].missionId == Strip(payload.missionId)
    ensures r.Success? ==> r.value.emitted[1].missionId == Strip(payload.missionId)
    ensures r.Success? ==> r.value.emitted[0].eventType == "MISSION_STARTED" && r.value.emitted[0].status == "VERIFIED"
    ensures r.Success? ==> r.value.emitted[1].eventType == "PROOF_MINTED" && r.value.emitted[1].status == "COMPLETED"
    ensures r.Success? ==> r.value.emitted[0].proofRef == Some(RunProofRef(payload.runId))
    ensures r.Success? ==> r.value.emitted[1].proofRef == Some(ManifestProofRef(Strip(payload.missionId)))
    ensures r.Success? ==> r.value.emitted[0].meta == Some(StartedMeta(payload, startedAt))
    ensures r.Success? ==> r.value.emitted[1].meta == Some(MintedMeta(mintedAt))
    // both statuses are in the ledger's success set
    ensures r.Success? ==>
      r.value.emitted[0].status in Store.SuccessStatuses && r.value.emitted[1].status in Store.SuccessStatuses
  {
    var missionId := Strip(payload.missionId);
    if !StartsWith(missionId, MissionPrefix) then
      Failure(HttpError(400, RejectDetail))
    else
      var started := EventEnvelope(
        missionId, "MISSION_STARTED", "VERIFIED", Some(RunProofRef(payload.runId)),
        Some(StartedMeta(payload, startedAt)));
      var minted := EventEnvelope(
        missionId, "PROOF_MINTED", "COMPLETED", Some(ManifestProofRef(missionId)),
        Some(MintedMeta(mintedAt)));
      Success(Run([started, minted], RunResponse(true, missionId)))
  }

  /** The MISSION_STARTED event's meta names the app and echoes the
      playbook and mode, which are "chimera" and "LIVE" unless given. */
  lemma StartedMetaEchoesPayload(missionId: string, playbook: Option<string>, mode: Option<string>,
                                 runId: Option<string>, startedAt: string)
    ensures
      var meta := StartedMeta(Payload(missionId, playbook, mode, runId), startedAt);
      && meta.Keys == {"mission_name", "playbook", "mode", "ts"}
      && meta["mission_name"] == Str("GOLDEN_DELIVERY")
      && meta["playbook"] == Str(playbook.GetOr("chimera"))
      && meta["mode"] == Str(mode.GetOr("LIVE"))
      && meta["ts"] == Str(startedAt)
  {
  }

  /** The id an accepted run emits and returns (by RunMission's contract,
      the stripped id) starts with `VAL-`, has no surrounding whitespace, is
      stable under another strip, and the manifest reference embeds it. */
  lemma AcceptedIdIsCanonical(missionId: string)
    requires StartsWith(Strip(missionId), MissionPrefix)
    ensures Trimmed(Strip(missionId))
    ensures Strip(Strip(missionId)) == Strip(missionId)
    ensures StartsWith(ManifestProofRef(Strip(missionId)), "manifest:VAL-")
  {
    StripIdempotent(missionId);
    ManifestOfValId(Strip(missionId));
  }

  lemma ManifestOfValId(id: string)
    requires StartsWith(id, MissionPrefix)
    ensures StartsWith(ManifestProofRef(id), "manifest:VAL-")
  {
    var ref := ManifestProofRef(id);
    assert ref[9..13] == ref[9..9 + |id|][..4];
    assert ref[..13] == ref[..9] + ref[9..13];
  }

  /** Whitespace around the mission id never changes the outcome of a run. */
  lemma PaddingIsIgnored(payload: RunPayload, before: string, after: string, startedAt: string, mintedAt: string)
    requires AllSpace(before) && AllSpace(after)
    ensures RunMission(payload.(missionId := before + payload.missionId + after), startedAt, mintedAt)
            == RunMission(payload, startedAt, mintedAt)
  {
    StripIgnoresPadding(payload.missionId, before, after);
  }
}
