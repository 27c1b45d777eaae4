/** The ingestion event. */
module Events {
  import opened Prelude
  import opened Labels

  /** Times are nanoseconds; None is Go's zero time. */
  datatype Event = Event(
    id: string,
    tenant: string,
    source: string,
    kind: string,
    labels: LabelMap,
    number: real,
    text: string,
    occurredAt: Option<int>,
    receivedAt: Option<int>,
    dedupeKey: string)
}
