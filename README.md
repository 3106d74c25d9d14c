# AIlment Report Assistant — a Dafny model of its core

The AIlment Report Assistant is a Streamlit chat application. A user names a
Google Cloud project and one or more BigQuery dataset/table pairs. The
application checks access to each of them and collects their schemas. It then
answers natural-language questions: it asks a Gemini model for SQL, runs the
SQL, asks the model to explain the results, and asks once for a corrected query
when execution fails. Transcripts are saved as timestamped JSON files. A saved
transcript can be loaded back read-only.

This project models the core of that application in Dafny and proves
properties of the model:

- `utils/gemini.py`:
  - the system prompt;
  - the history context;
  - the generate / execute / explain / correct turn (`process_user_query`);
  - the reply parser (`process_text_response`).
- `utils/schema.py`:
  - schema extraction into an insertion-ordered dictionary;
  - the schema text given to the model, including its column-aligned sample table.
- `utils/auth.py`: the fail-fast access check.
- `components/config_form.py`: the add / remove / update edits of the table list.
- `components/chat_interface.py`:
  - which widgets a transcript renders to;
  - the pending-query hand-off between reruns;
  - the submit and example buttons.
- `app.py`:
  - the session's initial state;
  - Start New Chat (save, validate, initialise);
  - the listing, sorting and labelling of saved chats;
  - loading a chat and its metadata;
  - the gating of the main area.

Modules:

- `Wrappers`: `Option`.
- `Text`: the Python string operations the code uses (`in`, `split`, `strip`, `lower`, `ljust`, `replace`, decimal rendering, string order).
- `Dict`: an insertion-ordered dictionary as a sequence of pairs.
- `Warehouse` and `Transcript`: the client oracle and the transcript records.
- `Schema`
- `ReplyParser`
- `SessionState`: `st.session_state` as a class whose fields the operations update.
- `Assistant`
- `Access`
- `ConfigForm`
- `ChatInterface`
- `App`

External services enter the model as parameters:

- **The BigQuery client** is a value of function fields: service account, dataset, table and sample-row lookups, each returning a found value or one of three exceptions.
- **The Gemini model** is a function from a call number and a structured prompt to an answer or a raised exception.
- **Query execution** is a function from an attempt number and the SQL text to a result or an error.
- **Client construction** is a `Connection` value.
- **Model initialisation** is a boolean.
- **The clock** is a `DateTime` plus the ISO string of the same instant.

Each turn returns a trace of model calls and executions, so that bounds on
retries can be stated.

## Model

All source paths are under `Ailment_Report_Assistant/`.

| member | source | states |
|---|---|---|
| Text.Split | Ailment_Report_Assistant/utils/gemini.py:264 | `str.split`. There are two or more pieces exactly when the separator occurs. The first piece is the text before its first occurrence. The second piece runs from there to its next occurrence. |
| Text.JoinSplit | Ailment_Report_Assistant/utils/gemini.py:264 | Joining the pieces of a split with the separator gives back the original text, so nothing is lost or reordered. |
| Text.SplitPieceIsFree | Ailment_Report_Assistant/utils/gemini.py:271-273 | No piece of a split contains the separator. |
| Text.Strip | Ailment_Report_Assistant/utils/gemini.py:273 | `str.strip`: the result is a contiguous slice of the input. Only whitespace is removed on either side. The result neither starts nor ends with whitespace. |
| Text.Lower | Ailment_Report_Assistant/utils/gemini.py:267 | `str.lower` keeps the length and lower-cases each character. |
| Text.LeftJustify | Ailment_Report_Assistant/utils/schema.py:123 | `str.ljust` keeps the text as a prefix. It pads with spaces up to the width and never truncates. |
| Text.DecimalRoundTrip | Ailment_Report_Assistant/utils/schema.py:93 | The decimal rendering of a row count reads back as the same number. |
| Dict.Put | Ailment_Report_Assistant/utils/schema.py:67 | Python dictionary assignment. Assigning to an existing key keeps the key order. A new key is appended at the end. Distinct keys stay distinct. |
| Dict.GetPut | Ailment_Report_Assistant/utils/schema.py:67 | After assigning `v` to `k`, the dictionary gives `v` for `k` and the old value for every other key. |
| Dict.PutPut | Ailment_Report_Assistant/utils/schema.py:114-118 | A second assignment to the same key overrides the first. |
| Schema.ColumnOf | Ailment_Report_Assistant/utils/schema.py:40-48 | A column keeps the field's name and type. It is nullable exactly when the mode is empty or `NULLABLE`. A missing or empty description becomes "". |
| Schema.InfoOf | Ailment_Report_Assistant/utils/schema.py:28-64 | The project comes from the client. The full name is project.dataset.table. There is one column per schema field, in order. A failed sample query leaves no sample rows. |
| Schema.ExtractSchema | Ailment_Report_Assistant/utils/schema.py:5-72 | The loop builds exactly `Extracted`: one dictionary store per table whose lookup succeeds. |
| Schema.ExtractedKeysDistinct | Ailment_Report_Assistant/utils/schema.py:67 | The extracted dictionary never holds a key twice. |
| Schema.ExtractedHasKey | Ailment_Report_Assistant/utils/schema.py:21-25 | A `dataset.table` key is present exactly when some listed entry has that key and its lookup succeeds. |
| Schema.ExtractedLastWins | Ailment_Report_Assistant/utils/schema.py:67 | When an entry is listed more than once, the value kept is the one built from its last occurrence. |
| Schema.FailedTableIsSkipped | Ailment_Report_Assistant/utils/schema.py:69-70 | A table whose lookup raises contributes nothing: the result is as if it were not listed. |
| Schema.ColumnWidths | Ailment_Report_Assistant/utils/schema.py:110-118 | The nested loop computes `WidthTable`: each column's name length, raised to the longest sample value. |
| Schema.WidthBounds | Ailment_Report_Assistant/utils/schema.py:114-118 | A width is at least the name's length and at least every present value's length. It equals one of these. |
| Schema.WidthTableGet | Ailment_Report_Assistant/utils/schema.py:111-118 | The width table has an entry exactly for the column names, and each entry holds that column's width. |
| Schema.CellWidthOfColumn | Ailment_Report_Assistant/utils/schema.py:123 | The width looked up for a column is the computed width; the default of 15 is never used. |
| Schema.HeaderCellsLength | Ailment_Report_Assistant/utils/schema.py:120-125 | Each header cell is its column's width plus two. |
| Schema.CellLength | Ailment_Report_Assistant/utils/schema.py:133-137 | Each row cell is its column's width plus two. A missing value, printed as `NULL`, is at least four characters. |
| Schema.RowCellsLength | Ailment_Report_Assistant/utils/schema.py:130-139 | A sample row is as long as the header when every missing value's column is at least two wide. |
| Schema.DistinctWidthTable | Ailment_Report_Assistant/utils/schema.py:127 | With distinct column names, the separator's width formula (sum of widths plus two per column) equals the header's length. |
| Schema.SeparatorMatchesHeader | Ailment_Report_Assistant/utils/schema.py:120-128 | With distinct column names, the separator line is exactly as long as the header line plus its newline. |
| Schema.EmptySample | Ailment_Report_Assistant/utils/schema.py:140-141 | A table without sample rows gets the no-sample-data line instead of a table. |
| Schema.ColumnLine | Ailment_Report_Assistant/utils/schema.py:100-106 | The column line is `  - name (type)`. The description follows after a colon only when it is non-empty. |
| Schema.DescriptionLine | Ailment_Report_Assistant/utils/schema.py:95-96 | The description line is present exactly when the table has a description. |
| Schema.FormatHeader | Ailment_Report_Assistant/utils/schema.py:120-123 | The loop builds two spaces followed by the justified column names. |
| Schema.FormatRow | Ailment_Report_Assistant/utils/schema.py:131-139 | The loop builds one justified sample row. |
| Schema.FormatSample | Ailment_Report_Assistant/utils/schema.py:108-141 | The loop builds the sample section: heading, header, separator and one line per row, or the no-sample-data line. |
| Schema.FormatTable | Ailment_Report_Assistant/utils/schema.py:89-143 | The loop builds one table's block: title, facts, description, columns, sample and the closing blank lines. |
| Schema.FormatSchema | Ailment_Report_Assistant/utils/schema.py:75-145 | The loop builds the introduction followed by one block per dictionary entry, in insertion order. |
| Schema.TableBlockShape | Ailment_Report_Assistant/utils/schema.py:89-143 | Every block starts with `Table: <full name>` and ends with a blank line pair. |
| Schema.BlocksPrefix | Ailment_Report_Assistant/utils/schema.py:88 | The blocks of the first `i` tables are a prefix of the blocks of all tables. |
| Schema.SchemaTextInOrder | Ailment_Report_Assistant/utils/schema.py:86-145 | Table `i`'s block follows the introduction and the blocks of every earlier table. |
| ReplyParser.Paragraphs | Ailment_Report_Assistant/utils/gemini.py:264 | A reply always has at least one paragraph. |
| ReplyParser.ParagraphPriority | Ailment_Report_Assistant/utils/gemini.py:266-280 | An understanding keyword wins over the SQL markers, and those win over the explanation keywords. A paragraph matching none of them sets nothing. |
| ReplyParser.FencedSql | Ailment_Report_Assistant/utils/gemini.py:270-274 | In a fenced paragraph, the SQL is the stripped text after the first ```` ```sql ```` up to the next ```` ``` ````, within the piece before any second ```` ```sql ````. |
| ReplyParser.SingleFenceSql | Ailment_Report_Assistant/utils/gemini.py:270-274 | With a single ```` ```sql ```` fence, the SQL is the stripped text between it and the next closing fence. |
| ReplyParser.OtherCaseFenceSetsNothing | Ailment_Report_Assistant/utils/gemini.py:269-274 | A fence written in another letter case passes the lower-cased test but fails the case-sensitive split, so it sets nothing. |
| ReplyParser.MarkedSql | Ailment_Report_Assistant/utils/gemini.py:275-278 | Without a fence, the SQL is the stripped text after the first `SQL Query:` up to any second one. |
| ReplyParser.OtherCaseMarkerSetsNothing | Ailment_Report_Assistant/utils/gemini.py:275-278 | A marker in another letter case sets nothing. |
| ReplyParser.Effects | Ailment_Report_Assistant/utils/gemini.py:266 | One effect per paragraph. |
| ReplyParser.LastAssignedIsLast | Ailment_Report_Assistant/utils/gemini.py:266-280 | A field is unset exactly when no paragraph sets it. Otherwise its value is that of the last paragraph that sets it. |
| ReplyParser.LastEffectWins | Ailment_Report_Assistant/utils/gemini.py:266-280 | The last paragraph that sets a field decides that field. |
| ReplyParser.Assemble | Ailment_Report_Assistant/utils/gemini.py:252-257 | A parsed reply never carries an error or a query result. |
| ReplyParser.Parsed | Ailment_Report_Assistant/utils/gemini.py:241-284 | The parse of any text is a reply with no error and no query result. |
| ReplyParser.ProcessTextResponse | Ailment_Report_Assistant/utils/gemini.py:241-284 | The paragraph loop computes `Parsed`: each field is its last assignment, with the fallback applied. |
| ReplyParser.UnderstandingParagraphIsNeverSql | Ailment_Report_Assistant/utils/gemini.py:267-269 | Non-empty parsed SQL comes from a paragraph without any understanding keyword. |
| ReplyParser.UnmatchedReplyIsExplanation | Ailment_Report_Assistant/utils/gemini.py:282-283 | When no paragraph matches, the whole text becomes the explanation. |
| ReplyParser.FallbackOnlyWhenAllEmpty | Ailment_Report_Assistant/utils/gemini.py:282-283 | The fields are the last assignments exactly when at least one of them is non-empty. Otherwise the fallback replaces them. |
| ReplyParser.WellFormedReply | Ailment_Report_Assistant/utils/gemini.py:266-283 | A reply with one understanding, one SQL and one explanation paragraph parses into exactly those three parts. |
| Assistant.SystemPromptEmbeds | Ailment_Report_Assistant/utils/gemini.py:47-93 | The system prompt contains the schema text, the fully qualified name format built from the project id, and the line naming the current project id. |
| Assistant.Recent | Ailment_Report_Assistant/utils/gemini.py:119 | `chat_history[-3:]` is the last three entries, or all of them when there are fewer. |
| Assistant.EntryPiece | Ailment_Report_Assistant/utils/gemini.py:120-127 | One entry adds what `EntryText` gives: a user line, both lines of a structured reply, and nothing for other entries. |
| Assistant.BuildHistory | Ailment_Report_Assistant/utils/gemini.py:116-127 | The loop computes `HistoryText`. |
| Assistant.ShortTranscriptHasNoHistory | Ailment_Report_Assistant/utils/gemini.py:118 | A transcript of at most one entry gives no history text. |
| Assistant.HistoryUsesLastThree | Ailment_Report_Assistant/utils/gemini.py:119 | Entries before the last three never influence the history text. |
| Assistant.HistoryIgnoresSqlAndResults | Ailment_Report_Assistant/utils/gemini.py:122-127 | Transcripts that agree on questions, understandings and explanations give the same history. SQL, errors and results are never included. |
| Assistant.HistoryEndsWithQuestion | Ailment_Report_Assistant/utils/gemini.py:120-121 | When the transcript ends with the current question, the history text ends with that question's line. |
| Assistant.HistoryFormIffHistory | Ailment_Report_Assistant/utils/gemini.py:129-133 | The context has the history form exactly when the history text is non-empty. |
| Assistant.FailureReply | Ailment_Report_Assistant/utils/gemini.py:231-238 | The exception reply carries the message as its error, and no SQL or result. |
| Assistant.Head | Ailment_Report_Assistant/utils/gemini.py:206 | `head(5)` is a prefix of at most five rows: exactly five when there are that many, otherwise all of them. |
| Assistant.ProcessUserQuery | Ailment_Report_Assistant/utils/gemini.py:96-238 | Without a model, the reply is the not-initialized string and nothing is called or changed. Otherwise the method records the query, sets the error count to the turn's count, and returns the reply and trace of `Respond` on the context built from the schema, project, history and question. |
| Assistant.RunQuery | Ailment_Report_Assistant/utils/gemini.py:139-228 | Executing a parsed reply gives the reply, trace and error count of `Run`. |
| Assistant.CorrectQuery | Ailment_Report_Assistant/utils/gemini.py:176-224 | The correction branch gives the reply and trace of `Corrected`. |
| Assistant.RetryBound | Ailment_Report_Assistant/utils/gemini.py:135-224 | A turn runs SQL at most twice and calls the model at most three times. |
| Assistant.NoSqlNoExecution | Ailment_Report_Assistant/utils/gemini.py:140 | Nothing is executed exactly when the first call raised or its reply has no SQL. |
| Assistant.ErrorCountAtMostOne | Ailment_Report_Assistant/utils/gemini.py:172-175 | The error count ends at 1 exactly when the first execution failed, and at 0 otherwise; the branch at 225-227 is unreachable. |
| Assistant.QueryResultFromSuccess | Ailment_Report_Assistant/utils/gemini.py:144-193 | A reply carrying a query result got it from a successful execution of the reply's own SQL, recorded in the trace. |
| Assistant.ErrorExcludesResult | Ailment_Report_Assistant/utils/gemini.py:219-227 | A turn always answers with a reply dictionary, and a reply with an error has no query result. |
| Assistant.ExceptionGivesErrorReply | Ailment_Report_Assistant/utils/gemini.py:231-238 | A turn whose last model call raised answers with the error reply for that message, and only such turns do. |
| Assistant.RespondConsistent | Ailment_Report_Assistant/utils/gemini.py:135-238 | Every traced model call was answered, except possibly a raising last one. The counts of executions and calls obey the bounds above. |
| Assistant.NoSqlReplyIsParsed | Ailment_Report_Assistant/utils/gemini.py:137-140 | A first reply without SQL is returned as parsed. The trace is the one question: no execution and one model request. |
| Assistant.FirstRunSucceeds | Ailment_Report_Assistant/utils/gemini.py:144-171 | A successful first run attaches its result, and a non-empty explanation answer replaces the parsed explanation. The trace is question, execution, explanation request: one execution and two requests. |
| Assistant.CorrectionSucceeds | Ailment_Report_Assistant/utils/gemini.py:176-218 | After a failed run, a successful correction replaces the SQL, attaches the result and takes a non-empty explanation. The explanation prompt carries at most five sample rows. The trace is question, execution, fix request, execution, explanation request: two executions and three requests. |
| Assistant.CorrectionFails | Ailment_Report_Assistant/utils/gemini.py:176-221 | A failed correction reports the second error with the retry apology and keeps the original SQL. The trace is question, execution, fix request, execution: two executions and two requests. |
| Assistant.NoCorrection | Ailment_Report_Assistant/utils/gemini.py:176-224 | A correction without SQL reports the first error with the rephrase apology and keeps the original SQL. The trace is question, execution, fix request: one execution and two requests. |
| Access.EntryCheck | Ailment_Report_Assistant/utils/auth.py:22-52 | An entry passes exactly when both lookups succeed. The dataset is looked up first, and the table only after the dataset was found. |
| Access.EntryMessages | Ailment_Report_Assistant/utils/auth.py:29-64 | The exact refusal message for each of not found and permission denied, on the dataset and on the table. Any other failure goes to the outer handler's message. |
| Access.CheckEntriesPassIff | Ailment_Report_Assistant/utils/auth.py:22-52 | The loop passes exactly when every entry passes. It then makes both lookups of every entry, in order. |
| Access.GrantedIffAllFound | Ailment_Report_Assistant/utils/auth.py:5-64 | Access is granted exactly when the service-account call and every dataset and table lookup succeed. There is an error exactly when access is refused. |
| Access.ProjectCheckedFirst | Ailment_Report_Assistant/utils/auth.py:17-64 | The project check is the first lookup. When it fails, nothing else is looked up and the error is the outer handler's message. |
| Access.FirstFailureWins | Ailment_Report_Assistant/utils/auth.py:22-52 | A refusal comes from the first failing entry. Every earlier entry passed, and no later entry was looked up. |
| SessionState.Session.constructor | Ailment_Report_Assistant/app.py:31-44 | The first-run session state. |
| ConfigForm.AddTable | Ailment_Report_Assistant/components/config_form.py:106-110 | Appends an empty dataset/table entry. |
| ConfigForm.RemoveTable | Ailment_Report_Assistant/components/config_form.py:113-118 | Removes entry `index` only when `0 < index < len`. |
| ConfigForm.UpdateTable | Ailment_Report_Assistant/components/config_form.py:96-103 | Sets the named field of entry `index`. It raises past the end, and ignores unknown fields. |
| ConfigForm.AddAppendsOne | Ailment_Report_Assistant/components/config_form.py:106-110 | Adding grows the list by one empty entry at the end and keeps the others. |
| ConfigForm.RemoveDeletesOne | Ailment_Report_Assistant/components/config_form.py:117-118 | Removal changes the list exactly when `0 < index < len`. It then deletes that entry and shifts the later ones down. |
| ConfigForm.RemoveKeepsFirst | Ailment_Report_Assistant/components/config_form.py:117 | Removal never empties the list and never touches the first entry. |
| ConfigForm.UpdateChangesOneField | Ailment_Report_Assistant/components/config_form.py:100-103 | An update changes only the named field of the named entry. It raises only past the end, and then changes nothing. |
| ConfigForm.RemoveButtons | Ailment_Report_Assistant/components/config_form.py:46-48 | One remove button per entry after the first. |
| ConfigForm.RemoveButtonsAreRemovable | Ailment_Report_Assistant/components/config_form.py:46-48 | The remove buttons are offered exactly for the indices the removal honours. |
| ConfigForm.EditsKeepFirstEntry | Ailment_Report_Assistant/components/config_form.py:96-118 | No sequence of form edits empties the list. The first entry changes only through updates to it. |
| ChatInterface.DisplayChatHistory | Ailment_Report_Assistant/components/chat_interface.py:6-70 | The loop renders exactly `Rendered(history)`: each entry's widgets, in order. |
| ChatInterface.RenderedAppend | Ailment_Report_Assistant/components/chat_interface.py:13 | Rendering a concatenation renders the two parts one after the other. |
| ChatInterface.MetadataNeverRendered | Ailment_Report_Assistant/components/chat_interface.py:14-15 | A metadata entry renders nothing anywhere in the transcript. |
| ChatInterface.RowCap | Ailment_Report_Assistant/components/chat_interface.py:49-61 | At most 100 rows are shown, as a prefix of the result. The rows note appears exactly when there are more than 100. The no-results notice appears exactly when there are none. |
| ChatInterface.ResultWidgetsKinds | Ailment_Report_Assistant/components/chat_interface.py:36-61 | A result always shows its statistics, plus only tables, notes and the no-results notice. |
| ChatInterface.ReplyWidgetsParts | Ailment_Report_Assistant/components/chat_interface.py:25-70 | A reply renders its understanding, SQL, results, error and explanation, in that order, each only when present. |
| ChatInterface.UnderstandingShownWhenPresent | Ailment_Report_Assistant/components/chat_interface.py:26-27 | The understanding is shown exactly when the reply has a non-empty one, and only that text. |
| ChatInterface.SqlShownWhenPresent | Ailment_Report_Assistant/components/chat_interface.py:30-32 | SQL is shown exactly when the reply has a non-empty one. |
| ChatInterface.ErrorShownWhenPresent | Ailment_Report_Assistant/components/chat_interface.py:64-66 | An error is shown exactly when the reply carries a non-empty one. |
| ChatInterface.ExplanationShownWhenPresent | Ailment_Report_Assistant/components/chat_interface.py:69-70 | The explanation is shown exactly when it is non-empty. |
| ChatInterface.ResultsOnlyOnSuccess | Ailment_Report_Assistant/components/chat_interface.py:35-61 | Statistics, tables and notes appear only for a reply with a query result, and they come from that result. |
| ChatInterface.Submit | Ailment_Report_Assistant/components/chat_interface.py:114-116 | A non-empty input becomes pending. An empty one changes nothing. |
| ChatInterface.ChooseExample | Ailment_Report_Assistant/components/chat_interface.py:122-135 | An example button makes its question pending. |
| ChatInterface.TakePending | Ailment_Report_Assistant/components/chat_interface.py:87-94 | The returned question is the queued input; the input and the pending flag are cleared and the question is appended to the transcript. The model, current query and error count are untouched. |
| ChatInterface.AnswerQuestion | Ailment_Report_Assistant/components/chat_interface.py:96-98 | The reply is appended to the transcript. With a model it is the turn's reply on the transcript as it was, and the error count is the turn's; without one it is the not-initialized string. |
| ChatInterface.ProcessPending | Ailment_Report_Assistant/components/chat_interface.py:85-100 | With nothing pending nothing changes, the current query and error count included. Otherwise the question and then the reply are appended and the input is cleared. With a model, the reply and the error count are those of the turn on the history that already ends with the question, and the question becomes the current query. Without one, the reply is the not-initialized string and the query and count are kept. |
| App.Pad | Ailment_Report_Assistant/app.py:73 | A zero-padded field has exactly its width and only digits. |
| App.Stamp | Ailment_Report_Assistant/app.py:73 | `%Y%m%d_%H%M%S` is fifteen characters. |
| App.PadOrder | Ailment_Report_Assistant/app.py:73-182 | Padded fields compare as strings exactly as their numbers compare. |
| App.StampOrder | Ailment_Report_Assistant/app.py:73-182 | Timestamps compare as strings exactly as the instants compare. |
| App.FileNameOrder | Ailment_Report_Assistant/app.py:74-182 | Saved-chat file names compare as strings exactly as their save times compare. |
| App.ChatFiles | Ailment_Report_Assistant/app.py:181 | The filter keeps only `chat_history_*.json` names and never adds any. |
| App.ChatFilesKeep | Ailment_Report_Assistant/app.py:181 | A name is kept exactly when it is listed and has the prefix and suffix. |
| App.SavedNamesAreListed | Ailment_Report_Assistant/app.py:74-181 | Every name the save writes passes the listing's filter. |
| App.Insert | Ailment_Report_Assistant/app.py:182 | One insertion step extends the sorted (descending) prefix by one element and permutes the array. |
| App.SortDescending | Ailment_Report_Assistant/app.py:182 | `sort(reverse=True)` leaves the array in descending order and permutes its elements. |
| App.ListChatFiles | Ailment_Report_Assistant/app.py:179-182 | The listing holds exactly the chat files, each as often as listed, in descending order. |
| App.NewestFirst | Ailment_Report_Assistant/app.py:182 | The first saved chat listed is the most recent one. |
| App.LabelIsStamp | Ailment_Report_Assistant/app.py:188-189 | The label of a saved chat is exactly its timestamp. |
| App.ScanMetadata | Ailment_Report_Assistant/app.py:209-218 | The scan finds the last project and the last table list given by any metadata entry. The defaults are none and the empty list. |
| App.LoadChat | Ailment_Report_Assistant/app.py:205-228 | The loaded transcript replaces the history. Without initialisation, the metadata is reported and view mode is switched on. Otherwise nothing else changes. |
| App.LastMetadataWins | Ailment_Report_Assistant/app.py:213-218 | The last metadata entry decides each key it holds. Earlier entries decide only the keys it lacks. |
| App.SaveChat | Ailment_Report_Assistant/app.py:65-125 | A non-empty history is saved under the timestamped name, with metadata placed first. An empty one is not saved. The history is cleared either way. |
| App.Initialize | Ailment_Report_Assistant/app.py:127-167 | Given a client made for the session's project, the outcome follows the validation, client, access and model order. Initialisation is set only when the chat started. The client is replaced once the configuration is valid and the client is created, and it belongs to the session's project. The schema and model change exactly when access succeeded. |
| App.StartNewChat | Ailment_Report_Assistant/app.py:61-167 | View mode is switched off, the chat is saved and cleared, then `Initialize` runs on the new state, with a client made for the session's project. |
| App.StartedIff | Ailment_Report_Assistant/app.py:127-161 | The chat starts exactly when the configuration is valid, the client is created, all access checks pass and the model is available. |
| App.InvalidConfigStops | Ailment_Report_Assistant/app.py:127-131 | An invalid configuration stops before any client is made. A missing project is reported first. |
| App.SavedChatRestoresConfig | Ailment_Report_Assistant/app.py:108-218 | Loading a saved transcript reports the project and tables it was saved with. |
| App.ResavedShowsOriginalConfig | Ailment_Report_Assistant/app.py:108-218 | Saving a loaded transcript again puts the new metadata in front, so a later load still reports the original configuration. |
| App.AreaGating | Ailment_Report_Assistant/app.py:239-251 | The chat area is shown exactly when initialised, or in view mode with a history. The input shows only when initialised outside view mode. The view note shows only in view mode, and never together with the input. |
| App.LoadedChatIsReadOnly | Ailment_Report_Assistant/app.py:228-249 | A loaded chat is shown with the view note and without the input. |
| App.AfterStart | Ailment_Report_Assistant/app.py:240-251 | After Start New Chat, the input shows exactly when initialised, and the welcome notice shows otherwise. |

## Left out

- The BigQuery client, query execution (`utils/bq_client.py`) and the Gemini SDK are oracles passed as parameters. `utils/bq_client.py` is not part of this model.
- `initialize_gemini_model`, environment variables and the API key field (`components/config_form.py:55-68`) are reduced to a boolean saying whether a model handle was obtained.
- Streamlit rendering, spinners, `st.stop` and `st.rerun` are left out. Widgets are abstract values, and each rerun is a separate call.
- The Schema Information expander of the configuration form (`components/config_form.py:70-93`) is rendering only and is not modelled.
- The JSON encoder, file reads and writes, and the `chats` directory creation are left out. A saved chat is its file name plus its entries, and a loaded file is a transcript.
- The two explanation prompts contain a pandas `to_string` rendering of the rows. They are structured prompt values (statistics, columns, rows) instead of text; the retry prompt carries the error text.
- The system prompt's instruction prose is abridged to fixed constants. The schema text and both occurrences of the project id (inside the fully qualified name format and on the project line) are embedded where the source puts them.
- The first explanation prompt (`utils/gemini.py:148`) nests double quotes inside a double-quoted f-string, which Python accepts only from version 3.12 on. The model takes the prompt that line evidently means, with the reply's SQL in it.
- Assistant.ProcessUserQuery: the error message of an exception is a string chosen by the oracle. The traceback shown with `st.error` is not modelled.
- Text.Lower: only ASCII letters are lower-cased. The keywords searched for are ASCII, so other case mappings cannot create or remove a match.
- Sample values are their `str()` renderings. Query result cells are a small scalar type.
- Transcript entries are assumed to have one of three shapes (user, assistant, metadata). A hand-edited file with other keys is not modelled.
- The lazy initialisation of `processing_query` and `current_input` (`components/chat_interface.py:78-82`) is folded into the session's constructor.
- App.Stamp: years are padded to four digits, and the model does not say what `%Y` prints for years before 1000.
- App.SaveChat: the metadata `timestamp` is an ISO string parameter. The model does not tie it to the `DateTime` used for the file name, and microseconds are not modelled.
- App.LoadChat: the Project and Tables notices are not rendered. The model returns what the scan found.
- Python's `in` test on a string applied to the not-initialized reply (substring instead of key lookup) is modelled by its outcome: that reply renders nothing and adds nothing to the history.
- A metadata `project_id` of JSON `null` and a non-string entry are not distinguished from a missing key.
- Assistant.RunQuery and Assistant.CorrectQuery require a parsed reply (and RunQuery an error count of zero). `ProcessUserQuery` always calls them in that state.
