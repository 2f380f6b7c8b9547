/**
 * Values that come from libraries outside the model — `uuid`, `chrono`,
 * `std::net` and `serde_json` — kept abstract. Fresh identifiers and clock
 * readings are supplied by the caller; JSON text is produced and read by
 * a codec pair whose round trip is a stated hypothesis, not a fact.
 */
module Externals {
  import opened Wrappers

  /** A UUID, known by its canonical hyphenated text (what `to_string()` yields). */
  datatype Uuid = Uuid(text: string)

  /** A `chrono::DateTime<Utc>` reading; only carried, never computed with. */
  datatype Timestamp = Timestamp(ticks: int)

  /** A peer address, known by its textual form. */
  datatype SocketAddr = SocketAddr(text: string)

  /** A `serde_json::Value`. Numbers are kept as exact reals. */
  datatype JsonValue =
    | JNull
    | JBool(b: bool)
    | JNumber(n: real)
    | JString(s: string)
    | JArray(items: seq<JsonValue>)
    | JObject(fields: map<string, JsonValue>)

  /** `serde_json::to_string` / `from_str` for one Rust type. */
  datatype JsonCodec<!T> = JsonCodec(encode: T -> string, decode: string -> Option<T>)

  /** The hypothesis under which the wire round trips hold: reading back what was written gives the value. */
  ghost predicate RoundTrips<T(!new)>(c: JsonCodec<T>)
  {
    forall x: T :: c.decode(c.encode(x)) == Some(x)
  }
}
