/**
 * The BigQuery client, seen from the assistant as an oracle: every metadata call
 * either returns a value or raises one of the exceptions the code distinguishes
 * (NotFound, PermissionDenied, anything else).
 */
module Warehouse {
  import opened Wrappers

  /** The outcome of one client call. */
  datatype Fetch<T> =
    | Found(value: T)
    | NotFound(message: string)
    | PermissionDenied(message: string)
    | Failed(message: string)

  /** One dataset/table pair of the configuration form (`{"dataset": ..., "table": ...}`). */
  datatype TableRef = TableRef(dataset: string, table: string)

  /** A schema field as the client reports it; `mode` is "" when the client gives none. */
  datatype SchemaField = SchemaField(name: string, fieldType: string, mode: string, description: Option<string>)

  /** Table metadata as returned by `get_table`. */
  datatype TableMeta = TableMeta(
    numRows: Option<nat>,
    created: Option<string>,
    description: Option<string>,
    schema: seq<SchemaField>)

  /** A sample row: each column it holds, mapped to the `str()` rendering of its value. */
  type SampleRow = map<string, string>

  /**
   * The client: its default project, `get_service_account_email()`, `get_dataset(id)`,
   * `get_table(id)` and the sample query `SELECT * FROM ... LIMIT 5` keyed by the
   * fully qualified table name it reads.
   */
  datatype Client = Client(
    project: string,
    serviceAccount: Fetch<string>,
    getDataset: string -> Fetch<()>,
    getTable: string -> Fetch<TableMeta>,
    sampleRows: string -> Fetch<seq<SampleRow>>)

  /** A result cell after normalisation: only plain scalars reach a query result. */
  datatype Scalar = Str(s: string) | Int(i: int) | Float(r: real) | Bool(b: bool) | Null

  /** The statistics a successful query reports. */
  datatype Stats = Stats(rows: nat, bytesProcessed: nat, bytesBilled: nat, seconds: real, slotMillis: nat)

  /** One result row: column name to cell. */
  type Row = map<string, Scalar>

  /** The `query_result` of a successful execution. */
  datatype QueryData = QueryData(columns: seq<string>, data: seq<Row>, stats: Stats)

  /** What `execute_bigquery_query(sql, return_error=True)` gives back. */
  datatype ExecOutcome = Succeeded(result: QueryData) | ExecFailed(error: string)
}

/** The records the chat keeps: assistant replies and transcript entries. */
module Transcript {
  import opened Wrappers
  import opened Warehouse

  /**
   * An assistant reply. `Reply` is the result dictionary (a missing "sql" key is
   * the empty string); `NotInitialized` is the bare string returned when no model
   * handle is present.
   */
  datatype Reply =
    | Reply(understanding: string, sql: string, explanation: string, error: Option<string>, queryResult: Option<QueryData>)
    | NotInitialized

  /** The synthetic leading entry of a saved transcript; a loaded file may lack either key. */
  datatype Metadata = Metadata(timestamp: string, projectId: Option<string>, tables: Option<seq<TableRef>>)

  /** One transcript entry: `{"user": ...}`, `{"assistant": ...}` or `{"metadata": ...}`. */
  datatype Entry = UserTurn(text: string) | AssistantTurn(reply: Reply) | MetadataEntry(meta: Metadata)
}
