/** The static tables of src/app/ops.py: the evidence tier of each event
    type (higher is more financially credible) and the runbook of each
    reason code, with their lookups. */
module Ops {
  import opened Wrappers

  /** `EVIDENCE_TIERS`. */
  const EvidenceTiers: map<string, int> := map[
    "PAYMENT_SUCCEEDED" := 1,
    "PAYMENT_VERIFIED" := 1,
    "ORDER_TAGGED" := 2,
    "DELIVERY_DISPATCHED" := 3,
    "PROOF_MINTED" := 3,
    "SETTLEMENT_CONFIRMED" := 4
  ]

  /** A runbook: a title and its remediation steps, in the order to take them. */
  datatype Runbook = Runbook(title: string, steps: seq<string>)

  /** `RUNBOOKS`. */
  const Runbooks: map<string, Runbook> := map[
    "webhook_invalid" := Runbook(
      "Webhook signature invalid",
      [ "Confirm webhook secret matches provider settings.",
        "Rotate webhook secret and update Secret Manager / env var.",
        "Replay webhook event from provider dashboard." ]),
    "auth_failed" := Runbook(
      "Authorization failed",
      [ "Confirm API token scopes (Shopify Admin, MoR provider).",
        "Rotate token and redeploy service.",
        "Verify env vars are present at runtime (not local-only)." ]),
    "tag_failed" := Runbook(
      "Shopify tagging failed",
      [ "Check SHOPIFY_ADMIN_TOKEN scopes: write_orders/read_orders.",
        "Confirm SHOPIFY_STORE_URL is correct (myshop.myshopify.com).",
        "Retry tagging with exponential backoff; emit FAILURE envelope on final try." ]),
    "delivery_failed" := Runbook(
      "Delivery dispatch failed",
      [ "Verify delivery asset exists and URL is reachable.",
        "Check storage permissions (GCS signed URL or public object).",
        "Re-dispatch delivery and emit DELIVERY_DISPATCHED once confirmed." ]),
    "payout_pending" := Runbook(
      "Settlement pending",
      [ "Record payout expected date in meta.payout_expected_at.",
        "Run daily payout scan job.",
        "Emit SETTLEMENT_CONFIRMED once payout reference is observed." ])
  ]

  /** `EVIDENCE_TIERS.get(event_type)`: exactly six event types have a tier,
      and every tier lies in 1..4. */
  function TierOf(eventType: string): (r: Option<int>)
    ensures r.Some? <==>
      eventType in {"PAYMENT_SUCCEEDED", "PAYMENT_VERIFIED", "ORDER_TAGGED",
                    "DELIVERY_DISPATCHED", "PROOF_MINTED", "SETTLEMENT_CONFIRMED"}
    ensures r.Some? ==> 1 <= r.value <= 4
  {
    if eventType in EvidenceTiers then Some(EvidenceTiers[eventType]) else None
  }

  /** `RUNBOOKS.get(reason_code)`: exactly five reason codes have a runbook,
      each with a non-empty title and exactly three steps. */
  function RunbookFor(reasonCode: string): (r: Option<Runbook>)
    ensures r.Some? <==>
      reasonCode in {"webhook_invalid", "auth_failed", "tag_failed", "delivery_failed", "payout_pending"}
    ensures r.Some? ==> |r.value.title| > 0 && |r.value.steps| == 3
  {
    if reasonCode in Runbooks then Some(Runbooks[reasonCode]) else None
  }

  /** The tier table has exactly six entries. */
  lemma TierTableSize()
    ensures |EvidenceTiers| == 6
  {
    var keys := EvidenceTiers.Keys;
    assert keys == {"PAYMENT_SUCCEEDED", "PAYMENT_VERIFIED", "ORDER_TAGGED",
                    "DELIVERY_DISPATCHED", "PROOF_MINTED", "SETTLEMENT_CONFIRMED"};
  }

  /** The runbook table has exactly five entries. */
  lemma RunbookTableSize()
    ensures |Runbooks| == 5
  {
    assert Runbooks.Keys == {"webhook_invalid", "auth_failed", "tag_failed", "delivery_failed", "payout_pending"};
  }

  /** The tiers rank payment below tagging below dispatch and proof below
      settlement, with ties inside a rank. */
  lemma TierOrdering()
    ensures TierOf("PAYMENT_SUCCEEDED") == TierOf("PAYMENT_VERIFIED") == Some(1)
    ensures TierOf("ORDER_TAGGED") == Some(2)
    ensures TierOf("DELIVERY_DISPATCHED") == TierOf("PROOF_MINTED") == Some(3)
    ensures TierOf("SETTLEMENT_CONFIRMED") == Some(4)
  {
  }

  /** SETTLEMENT_CONFIRMED outranks every other event type with a tier. */
  lemma SettlementIsUniqueTop(eventType: string)
    requires TierOf(eventType).Some?
    ensures TierOf(eventType).value <= 4
    ensures TierOf(eventType).value == 4 <==> eventType == "SETTLEMENT_CONFIRMED"
  {
  }
}
