/**
 * Values shared by the note service and the client note cache: the three note
 * kinds, the rows the service stores and returns, the request bodies the
 * handlers read, and the responses they produce.
 */
module Wire {

  datatype Option<+T> = None | Some(value: T)

  /** The three independent note collections, each with its own table and routes. */
  datatype Kind = Shopping | Map | Calendar

  type Id = string

  /**
   * A row as the service stores and returns it. Shopping and map notes are
   * `Row`s; calendar notes carry a `date` and a `person` as well.
   * Timestamps and dates are kept as the ISO-8601 text the service stores.
   */
  datatype Row =
    | Row(id: Id, text: string, createdAt: string)
    | CalendarRow(id: Id, text: string, date: string, person: int, createdAt: string)

  /** The fields of a JSON request body that the handlers read; `None` is an absent field. */
  datatype Body = Body(text: Option<string>, date: Option<string>, person: Option<int>)

  /** The JSON payload of a response. */
  datatype Payload =
    | Rows(rows: seq<Row>)                     // an array of records
    | Created(row: Row)                        // the full record just inserted
    | Echo(id: Id, text: string, date: Option<string>, person: Option<int>)  // update: echoed fields, success: true
    | Deleted                                  // { success: true }
    | Error(message: string)                   // { error: message }

  datatype Response = Response(status: int, payload: Payload)

  /** `Response.ok` of the Fetch API: a 2xx status. */
  predicate IsOk(status: int) {
    200 <= status < 300
  }

  /** JavaScript truthiness of an optional string field: present and non-empty. */
  predicate TruthyText(field: Option<string>) {
    field.Some? && field.value != ""
  }

  /** JavaScript truthiness of an optional number field: present and non-zero. */
  predicate TruthyNumber(field: Option<int>) {
    field.Some? && field.value != 0
  }

  /** The singular noun used in the per-kind messages. */
  function Noun(k: Kind): string {
    match k
    case Shopping => "shopping note"
    case Map => "map note"
    case Calendar => "calendar note"
  }
}
