/** `st.session_state`: the per-browser-session state every component reads and updates. */
module SessionState {
  import opened Wrappers
  import opened Warehouse
  import opened Transcript
  import opened Schema

  class Session {
    var initialized: bool
    var gcpProject: string
    var tables: seq<TableRef>
    var schemaInfo: SchemaInfo
    var chatHistory: seq<Entry>
    /** `bq_client`: None until a client has been created. */
    var client: Option<Client>
    /** Whether `gemini_model` holds a model handle (it is None otherwise). */
    var hasModel: bool
    var errorCount: int
    var currentQuery: string
    var viewMode: bool
    var processingQuery: bool
    var currentInput: string

    /**
     * The state set up on the first run: not initialized, no project, one empty
     * dataset/table entry, no schema, no history, no client or model, no errors,
     * not in view mode and nothing pending.
     */
    constructor ()
      ensures !initialized && gcpProject == "" && tables == [TableRef("", "")]
      ensures schemaInfo == [] && chatHistory == [] && client == None && !hasModel
      ensures errorCount == 0 && currentQuery == "" && !viewMode
      ensures !processingQuery && currentInput == ""
    {
      initialized := false;
      gcpProject := "";
      tables := [TableRef("", "")];
      schemaInfo := [];
      chatHistory := [];
      client := None;
      hasModel := false;
      errorCount := 0;
      currentQuery := "";
      viewMode := false;
      processingQuery := false;
      currentInput := "";
    }
  }
}
