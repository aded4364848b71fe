/** The envelope record shared by the ingest endpoint and the mission runner:
    one reported fact about a mission's progress. */
module Events {
  import opened Wrappers

  /** A value inside an envelope's `meta` mapping. The ledger never
      interprets it; nested lists and objects are not modelled. */
  datatype MetaValue = Str(text: string) | Number(number: int) | Flag(flag: bool) | Null

  /** The open key/value `meta` mapping of an envelope. */
  type Meta = map<string, MetaValue>

  /** `EventEnvelope` of src/app/api.py: three required strings and two
      optional fields that are None when the sender omits them. */
  datatype EventEnvelope = EventEnvelope(
    missionId: string,
    eventType: string,
    status: string,
    proofRef: Option<string>,
    meta: Option<Meta>
  )
}
