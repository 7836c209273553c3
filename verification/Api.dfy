/** What the daemon and its plugins exchange. */
module Api {
  import opened Values
  import opened Schema

  /** The rows a candidate offers for a reference slot. */
  datatype EntityFill = EntityFill(slotId: string, rows: seq<Row>)

  /** A raw JSON text with what it decodes to: `canonical` is its normalised form, absent when it is
      not JSON, and `fill` the entity fill, absent when it is none. The queue's digest of a text
      stands for its normal form, the plugin's for the text itself. */
  datatype Json = Json(text: string, canonical: Option<string>, fill: Option<EntityFill>)

  const NO_JSON := Json("", None, None)

  datatype Code =
    | DEADLINE_EXCEEDED
    | CANCELLED
    | STATE_CONFLICT
    | QUEUE_FULL
    | OWNER_CONFLICT
    | INVALID_RESULT
    | INVALID_ARGUMENT
    | UNMATCHED_REQUEST
    | OTHER_CODE

  datatype Reply<+T> = Ok(value: T) | Err(code: Code)

  /** What the right plugin answers a request with: nothing, the rows of a result set, or another text. */
  datatype Payload = NoPayload | Rows(rows: seq<seq<Data>>) | OtherPayload(text: string)
}
