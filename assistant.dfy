/**
 * `process_user_query` and the prompt it builds: one turn of the assistant.
 *
 * The language model and the query executor are oracles. The model is asked at
 * most three times per turn (numbered 0, 1, 2 in the order of asking) and the
 * executor runs at most two queries (attempts 0 and 1). An answer either carries
 * the reply's text or is an exception, which ends the turn with the error reply.
 */
module Assistant {
  import opened Wrappers
  import opened Text
  import opened Warehouse
  import opened Transcript
  import opened Schema
  import opened ReplyParser
  import opened SessionState

  /** What the model is asked. The explanation requests carry the data rendered into their text. */
  datatype Prompt =
    | Question(context: string)
    | FixRequest(error: string)
    | ExplainResult(sql: string, stats: Stats, columns: seq<string>, rows: seq<Row>)
    | ExplainCorrected(stats: Stats, columns: seq<string>, sample: seq<Row>)

  /** The outcome of one `generate_content` call followed by reading `.text`. */
  datatype Answer = Answered(text: string) | Raised(message: string)

  /** The model: the answer to the `k`-th request of the turn. */
  type Model = (nat, Prompt) -> Answer

  /** `execute_bigquery_query(sql, return_error=True)` at attempt `k` of the turn. */
  type Executor = (nat, string) -> ExecOutcome

  /** One call to a collaborator, in the order made, with the number it was made under. */
  datatype Event = Asked(number: nat, prompt: Prompt) | Executed(attempt: nat, sql: string)

  // ---------------------------------------------------------------------------
  // get_system_prompt
  // ---------------------------------------------------------------------------

  /** The fixed prose of the system prompt, up to the schema text (abridged). */
  const PromptIntro: string := "You are an expert SQL assistant for Google BigQuery. [...]\n\n"

  /** The fixed prose between the schema text and the naming rule (abridged). */
  const PromptRules: string := "\n\nWhen generating SQL:\n- ALWAYS use fully qualified table names in the format "

  /** The naming rule, with the project id as the qualifier of every table name. */
  function NameRule(projectId: string): string
  {
    "`" + projectId + ".dataset_id.table_id`"
  }

  /** The line stating the current project id. */
  function ProjectLine(projectId: string): string
  {
    "\n- The current project ID is: " + projectId
  }

  /** The fixed prose after the project line (abridged). */
  const PromptClosing: string := "\n[...]\n"

  /** `get_system_prompt`: a fixed template embedding the schema text and, twice, the project id. */
  function SystemPrompt(schemaText: string, projectId: string): string
  {
    PromptIntro + schemaText + PromptRules + NameRule(projectId) + ProjectLine(projectId) + PromptClosing
  }

  /** `m` occurs in any text it is spliced into. */
  lemma Embedded(a: string, m: string, b: string)
    ensures Contains(a + m + b, m)
  {
    assert (a + m + b)[|a|..|a| + |m|] == m;
    assert OccursAt(a + m + b, m, |a|);
    ContainsIff(a + m + b, m);
  }

  /** The parts of a six-part template, the fifth itself a tag and a value, all occur in it. */
  lemma TemplateParts(a: string, b: string, c: string, d: string, tag: string, v: string, f: string)
    ensures var p := a + b + c + d + (tag + v) + f;
      Contains(p, b) && Contains(p, d) && Contains(p, tag + v) && Contains(p, v)
  {
    var e := tag + v;
    var p := a + b + c + d + e + f;
    assert p == a + b + (c + d + e + f);
    Embedded(a, b, c + d + e + f);
    assert p == (a + b + c) + d + (e + f);
    Embedded(a + b + c, d, e + f);
    assert p == (a + b + c + d) + e + f;
    Embedded(a + b + c + d, e, f);
    assert p == (a + b + c + d + tag) + v + f;
    Embedded(a + b + c + d + tag, v, f);
  }

  /**
   * The system prompt embeds the schema text, the naming rule qualified by the
   * project id and the line stating the project id.
   */
  lemma SystemPromptEmbeds(schemaText: string, projectId: string)
    ensures Contains(SystemPrompt(schemaText, projectId), schemaText)
    ensures Contains(SystemPrompt(schemaText, projectId), NameRule(projectId))
    ensures Contains(SystemPrompt(schemaText, projectId), ProjectLine(projectId))
    ensures Contains(SystemPrompt(schemaText, projectId), projectId)
  {
    TemplateParts(PromptIntro, schemaText, PromptRules, NameRule(projectId),
                  "\n- The current project ID is: ", projectId, PromptClosing);
  }

  // ---------------------------------------------------------------------------
  // The conversation-history context
  // ---------------------------------------------------------------------------

  /**
   * What one transcript entry contributes: a user turn its text; an assistant
   * reply its understanding and its explanation; the bare not-initialized
   * message and metadata entries nothing.
   */
  function EntryText(e: Entry): string
  {
    match e
    case UserTurn(q) => "User: " + q + "\n\n"
    case AssistantTurn(r) =>
      if r.Reply? then
        "Assistant's understanding: " + r.understanding + "\n\n"
        + "Assistant's explanation: " + r.explanation + "\n\n"
      else ""
    case MetadataEntry(_) => ""
  }

  function EntriesText(es: seq<Entry>): string
  {
    if es == [] then "" else EntriesText(es[..|es| - 1]) + EntryText(es[|es| - 1])
  }

  /** `chat_history[-3:]`. */
  function Recent(h: seq<Entry>): (r: seq<Entry>)
    ensures |r| == if |h| < 3 then |h| else 3
    ensures r <= h[|h| - |r|..]
  {
    if |h| < 3 then h else h[|h| - 3..]
  }

  /** `chat_history_text`: built only when the transcript has more than one entry. */
  function HistoryText(h: seq<Entry>): string
  {
    if |h| > 1 then EntriesText(Recent(h)) else ""
  }

  lemma EntriesTextSnoc(es: seq<Entry>, i: nat)
    requires i < |es|
    ensures EntriesText(es[..i + 1]) == EntriesText(es[..i]) + EntryText(es[i])
  {
    assert es[..i + 1][..i] == es[..i];
  }

  /** The body of the history loop: what one entry adds to the history text. */
  method EntryPiece(e: Entry) returns (piece: string)
    ensures piece == EntryText(e)
  {
    piece := "";
    match e {
      case UserTurn(q) =>
        piece := "User: " + q + "\n\n";
      case AssistantTurn(r) =>
        if r.Reply? {
          piece := "Assistant's understanding: " + r.understanding + "\n\n"
                   + "Assistant's explanation: " + r.explanation + "\n\n";
        }
      case MetadataEntry(_) =>
    }
  }

  /** The history loop of `process_user_query`. */
  method BuildHistory(h: seq<Entry>) returns (text: string)
    ensures text == HistoryText(h)
  {
    text := "";
    if |h| > 1 {
      var recent := if |h| < 3 then h else h[|h| - 3..];
      var i := 0;
      while i < |recent|
        invariant 0 <= i <= |recent|
        invariant text == EntriesText(recent[..i])
      {
        EntriesTextSnoc(recent, i);
        var piece := EntryPiece(recent[i]);
        text := text + piece;
        i := i + 1;
      }
      assert recent[..|recent|] == recent;
    }
  }

  /** The prompt of the first request. */
  function QuestionContext(system: string, history: string, query: string): string
  {
    if history != "" then
      system + "\n\nRecent conversation history:\n" + history + "\n\nUser's new question: " + query
    else
      system + "\n\nUser's question: " + query
  }

  /** A transcript of at most one entry gives no history. */
  lemma ShortTranscriptHasNoHistory(h: seq<Entry>)
    requires |h| <= 1
    ensures HistoryText(h) == ""
  {
  }

  /** Only the last three entries count: whatever precedes them is ignored. */
  lemma HistoryUsesLastThree(earlier: seq<Entry>, last: seq<Entry>)
    requires |last| >= 3
    ensures HistoryText(earlier + last) == HistoryText(last)
  {
    var h := earlier + last;
    assert h[|h| - 3..] == last[|last| - 3..];
    assert Recent(h) == Recent(last);
  }

  /** An entry with its SQL, error and query result dropped: all the history ever shows of it. */
  function Visible(e: Entry): Entry
  {
    match e
    case AssistantTurn(r) =>
      if r.Reply? then AssistantTurn(Reply(r.understanding, "", r.explanation, None, None)) else e
    case _ => e
  }

  lemma EntryTextVisible(e: Entry)
    ensures EntryText(Visible(e)) == EntryText(e)
  {
  }

  lemma {:induction false} EntriesTextVisible(a: seq<Entry>, b: seq<Entry>)
    requires |a| == |b| && forall i :: 0 <= i < |a| ==> Visible(a[i]) == Visible(b[i])
    ensures EntriesText(a) == EntriesText(b)
  {
    if a != [] {
      var n := |a| - 1;
      var a', b' := a[..n], b[..n];
      forall i | 0 <= i < n ensures Visible(a'[i]) == Visible(b'[i]) {
        assert a'[i] == a[i] && b'[i] == b[i];
      }
      EntriesTextVisible(a', b');
      EntryTextVisible(a[n]);
      EntryTextVisible(b[n]);
      assert EntriesText(a) == EntriesText(a') + EntryText(a[n]);
      assert EntriesText(b) == EntriesText(b') + EntryText(b[n]);
    }
  }

  /** The history never includes SQL, query results or errors: transcripts that differ only there agree. */
  lemma HistoryIgnoresSqlAndResults(a: seq<Entry>, b: seq<Entry>)
    requires |a| == |b| && forall i :: 0 <= i < |a| ==> Visible(a[i]) == Visible(b[i])
    ensures HistoryText(a) == HistoryText(b)
  {
    if |a| > 1 {
      var ra, rb := Recent(a), Recent(b);
      forall i | 0 <= i < |ra| ensures Visible(ra[i]) == Visible(rb[i]) {
        assert ra[i] == a[|a| - |ra| + i];
        assert rb[i] == b[|b| - |rb| + i];
      }
      EntriesTextVisible(ra, rb);
    }
  }

  /** When the newest entry is the question just appended, the history ends with it. */
  lemma HistoryEndsWithQuestion(h: seq<Entry>, q: string)
    requires |h| > 1 && h[|h| - 1] == UserTurn(q)
    ensures var text := HistoryText(h);
      |text| >= |"User: " + q + "\n\n"| && text[|text| - |"User: " + q + "\n\n"|..] == "User: " + q + "\n\n"
  {
    var r := Recent(h);
    assert r[|r| - 1] == h[|h| - 1];
    SuffixOfAppend(EntriesText(r[..|r| - 1]), "User: " + q + "\n\n");
  }

  /** The "Recent conversation history" form is used exactly when there is some history text. */
  lemma HistoryFormIffHistory(system: string, history: string, query: string)
    ensures system + "\n\nRecent conversation history:\n" <= QuestionContext(system, history, query)
      <==> history != ""
  {
    var ctx := QuestionContext(system, history, query);
    var head := system + "\n\nRecent conversation history:\n";
    if history == "" {
      assert ctx[|system| + 2] == 'U';
      assert head[|system| + 2] == 'R';
    } else {
      var a := system + "\n\nRecent conversation history:\n";
      assert ctx == a + history + "\n\nUser's new question: " + query;
      AppendAssoc(a, history, "\n\nUser's new question: ");
      PrefixOfAppend(a, history + "\n\nUser's new question: " + query);
      AppendAssoc(a, history + "\n\nUser's new question: ", query);
      AppendAssoc(a, history, "\n\nUser's new question: " + query);
    }
  }

  // ---------------------------------------------------------------------------
  // process_user_query
  // ---------------------------------------------------------------------------

  const ErrorUnderstanding: string := "I encountered an error while processing your query."
  const RetryApology: string :=
    "I wasn't able to run a successful query even after attempting to fix it. Could you please rephrase your question or provide more details?"
  const NoCorrectionApology: string :=
    "I couldn't generate a corrected SQL query. Could you please rephrase your question or provide more details?"

  /** The reply returned from the exception handler. */
  function FailureReply(message: string): (r: Reply)
    ensures r.Reply? && r.error == Some(message) && r.queryResult == None && r.sql == ""
  {
    Reply(ErrorUnderstanding, "", "Error: " + message, Some(message), None)
  }

  /** `df.head(n)`. */
  function Head(rows: seq<Row>, n: nat): (r: seq<Row>)
    ensures |r| <= n && r <= rows && (|rows| >= n ==> |r| == n) && (|rows| < n ==> r == rows)
  {
    if |rows| <= n then rows else rows[..n]
  }

  /** The outcome of (part of) a turn: the reply, the calls made, and `error_count`. */
  datatype Turn = Turn(reply: Reply, trace: seq<Event>, errorCount: nat)

  /** A structured reply as the parser leaves it: no error and no result attached. */
  predicate Fresh(r: Reply)
  {
    r.Reply? && r.error == None && r.queryResult == None
  }

  /** The explanation request `k` for the result attached to `r`: a non-empty answer replaces the explanation. */
  function Explained(r: Reply, k: nat, p: Prompt, model: Model, trace: seq<Event>, errorCount: nat): Turn
    requires r.Reply?
  {
    var t := trace + [Asked(k, p)];
    match model(k, p)
    case Raised(m) => Turn(FailureReply(m), t, errorCount)
    case Answered(x) => Turn(if x != "" then r.(explanation := x) else r, t, errorCount)
  }

  /** After the correction request answered with reply `c`: run its SQL, if any. */
  function Retried(r: Reply, err: string, c: Reply, model: Model, exec: Executor): Turn
    requires r.Reply? && c.Reply?
  {
    if c.sql == "" then Turn(r.(error := Some(err), explanation := NoCorrectionApology), [], 1)
    else
      match exec(1, c.sql)
      case Succeeded(d) =>
        Explained(r.(sql := c.sql, queryResult := Some(d)), 2, ExplainCorrected(d.stats, d.columns, Head(d.data, 5)),
                  model, [Executed(1, c.sql)], 1)
      case ExecFailed(err2) =>
        Turn(r.(error := Some(err2), explanation := RetryApology), [Executed(1, c.sql)], 1)
  }

  /**
   * A reply parser: `process_text_response`. The stages below take it as a
   * parameter so that their properties hold for any parser that leaves no
   * error and no result attached; `Respond` supplies `Parsed`.
   */
  type Parser = string -> Reply

  ghost predicate FreshParser(parse: Parser)
  {
    forall x :: Fresh(parse(x))
  }

  /** The first execution failed with `err`: request a correction. */
  function Corrected(parse: Parser, r: Reply, err: string, model: Model, exec: Executor): Turn
    requires FreshParser(parse) && r.Reply?
  {
    var fix := FixRequest(err);
    match model(1, fix)
    case Raised(m) => Turn(FailureReply(m), [Asked(1, fix)], 1)
    case Answered(fixText) =>
      var t := Retried(r, err, parse(fixText), model, exec);
      Turn(t.reply, [Asked(1, fix)] + t.trace, t.errorCount)
  }

  /** After the first answer was parsed into `r`: run its SQL, if any. */
  function Run(parse: Parser, r: Reply, model: Model, exec: Executor): Turn
    requires FreshParser(parse) && r.Reply?
  {
    if r.sql == "" then Turn(r, [], 0)
    else
      match exec(0, r.sql)
      case Succeeded(d) =>
        Explained(r.(queryResult := Some(d)), 1, ExplainResult(r.sql, d.stats, d.columns, d.data),
                  model, [Executed(0, r.sql)], 0)
      case ExecFailed(err) =>
        var t := Corrected(parse, r, err, model, exec);
        Turn(t.reply, [Executed(0, r.sql)] + t.trace, t.errorCount)
  }

  /** One turn on the prompt `context`, with replies read by `parse`. */
  function Exchange(parse: Parser, context: string, model: Model, exec: Executor): Turn
    requires FreshParser(parse)
  {
    var ask := Question(context);
    match model(0, ask)
    case Raised(m) => Turn(FailureReply(m), [Asked(0, ask)], 0)
    case Answered(text) =>
      var t := Run(parse, parse(text), model, exec);
      Turn(t.reply, [Asked(0, ask)] + t.trace, t.errorCount)
  }

  /** One turn of the assistant on the prompt `context`. */
  function Respond(context: string, model: Model, exec: Executor): Turn
  {
    Exchange(Parsed, context, model, exec)
  }

  /** The prompt of the first request for `query` in `s`. */
  function TurnContext(schemaInfo: SchemaInfo, project: string, history: seq<Entry>, query: string): string
  {
    QuestionContext(SystemPrompt(SchemaText(schemaInfo, project), project), HistoryText(history), query)
  }

  /** `process_user_query(user_query)` against the session state. */
  method ProcessUserQuery(s: Session, query: string, model: Model, exec: Executor)
    returns (reply: Reply, trace: seq<Event>)
    modifies s`currentQuery, s`errorCount
    ensures !old(s.hasModel) ==> reply == NotInitialized && trace == []
    ensures !old(s.hasModel) ==> s.currentQuery == old(s.currentQuery) && s.errorCount == old(s.errorCount)
    ensures old(s.hasModel) ==>
      var t := Respond(TurnContext(s.schemaInfo, s.gcpProject, s.chatHistory, query), model, exec);
      reply == t.reply && trace == t.trace && s.errorCount == t.errorCount && s.currentQuery == query
  {
    if !s.hasModel {
      return NotInitialized, [];
    }
    s.currentQuery := query;
    s.errorCount := 0;
    var schemaText := FormatSchema(s.schemaInfo, s.gcpProject);
    var system := SystemPrompt(schemaText, s.gcpProject);
    var historyText := BuildHistory(s.chatHistory);
    var context;
    if historyText != "" {
      context := system + "\n\nRecent conversation history:\n" + historyText + "\n\nUser's new question: " + query;
    } else {
      context := system + "\n\nUser's question: " + query;
    }
    assert context == TurnContext(s.schemaInfo, s.gcpProject, s.chatHistory, query);
    var ask := Question(context);
    var answer := model(0, ask);
    if answer.Raised? {
      return FailureReply(answer.message), [Asked(0, ask)];
    }
    var result := ProcessTextResponse(answer.text);
    var rest;
    reply, rest := RunQuery(s, result, model, exec);
    trace := [Asked(0, ask)] + rest;
  }

  /** The part of `process_user_query` after the first answer was parsed into `r`. */
  method RunQuery(s: Session, r: Reply, model: Model, exec: Executor) returns (reply: Reply, trace: seq<Event>)
    requires r.Reply? && s.errorCount == 0
    modifies s`errorCount
    ensures var t := Run(Parsed, r, model, exec);
      reply == t.reply && trace == t.trace && s.errorCount == t.errorCount
  {
    reply, trace := r, [];
    if r.sql != "" {
      var sqlQuery := r.sql;
      var queryResult := exec(0, sqlQuery);
      if queryResult.Succeeded? {
        var d := queryResult.result;
        reply := r.(queryResult := Some(d));
        var explain := ExplainResult(r.sql, d.stats, d.columns, d.data);
        trace := [Executed(0, sqlQuery), Asked(1, explain)];
        var explanation := model(1, explain);
        if explanation.Raised? {
          return FailureReply(explanation.message), trace;
        }
        if explanation.text != "" {
          reply := reply.(explanation := explanation.text);
        }
      } else {
        s.errorCount := s.errorCount + 1;
        if s.errorCount <= 1 {
          var rest;
          reply, rest := CorrectQuery(r, queryResult.error, model, exec);
          trace := [Executed(0, sqlQuery)] + rest;
        } else {
          assert false;
        }
      }
    }
  }

  /** The first-failure branch of `process_user_query`: ask for a corrected query and run it. */
  method CorrectQuery(r: Reply, err: string, model: Model, exec: Executor) returns (reply: Reply, trace: seq<Event>)
    requires r.Reply?
    ensures var t := Corrected(Parsed, r, err, model, exec);
      reply == t.reply && trace == t.trace
  {
    reply := r;
    var fix := FixRequest(err);
    trace := [Asked(1, fix)];
    var fixAnswer := model(1, fix);
    if fixAnswer.Raised? {
      return FailureReply(fixAnswer.message), trace;
    }
    var correctedResult := ProcessTextResponse(fixAnswer.text);
    if correctedResult.sql != "" {
      var correctedSql := correctedResult.sql;
      trace := trace + [Executed(1, correctedSql)];
      var correctedQueryResult := exec(1, correctedSql);
      if correctedQueryResult.Succeeded? {
        var d := correctedQueryResult.result;
        reply := reply.(sql := correctedSql, queryResult := Some(d));
        var explain := ExplainCorrected(d.stats, d.columns, Head(d.data, 5));
        trace := trace + [Asked(2, explain)];
        var explanation := model(2, explain);
        if explanation.Raised? {
          return FailureReply(explanation.message), trace;
        }
        if explanation.text != "" {
          reply := reply.(explanation := explanation.text);
        }
      } else {
        reply := reply.(error := Some(correctedQueryResult.error), explanation := RetryApology);
      }
    } else {
      reply := reply.(error := Some(err), explanation := NoCorrectionApology);
    }
  }

  // ---------------------------------------------------------------------------
  // Properties of a turn
  // ---------------------------------------------------------------------------

  /** The number of query executions in a trace. */
  function Executions(trace: seq<Event>): nat
  {
    if trace == [] then 0 else (if trace[0].Executed? then 1 else 0) + Executions(trace[1..])
  }

  /** The number of model requests in a trace. */
  function Requests(trace: seq<Event>): nat
  {
    if trace == [] then 0 else (if trace[0].Asked? then 1 else 0) + Requests(trace[1..])
  }

  /** The reply built by the exception handler. */
  predicate IsFailureReply(r: Reply)
  {
    r.Reply? && r.error.Some? && r == FailureReply(r.error.value)
  }

  /** The last call of a trace is a model request that raised. */
  predicate EndsInException(model: Model, trace: seq<Event>)
  {
    trace != [] && trace[|trace| - 1].Asked? && model(trace[|trace| - 1].number, trace[|trace| - 1].prompt).Raised?
  }

  /** The message of the exception the trace ends in. */
  function RaisedMessage(model: Model, trace: seq<Event>): string
    requires EndsInException(model, trace)
  {
    model(trace[|trace| - 1].number, trace[|trace| - 1].prompt).message
  }

  /** What holds of every stage of a turn. */
  ghost predicate Consistent(t: Turn, model: Model, exec: Executor)
  {
    t.reply.Reply?
    && (t.reply.error.Some? ==> t.reply.queryResult.None?)
    && (t.reply.queryResult.Some? ==>
          exists a :: Executed(a, t.reply.sql) in t.trace && exec(a, t.reply.sql) == Succeeded(t.reply.queryResult.value))
    && (IsFailureReply(t.reply) <==> EndsInException(model, t.trace))
    && (EndsInException(model, t.trace) ==> t.reply == FailureReply(RaisedMessage(model, t.trace)))
  }

  lemma CountsPrepend(e: Event, t: seq<Event>)
    ensures Executions([e] + t) == (if e.Executed? then 1 else 0) + Executions(t)
    ensures Requests([e] + t) == (if e.Asked? then 1 else 0) + Requests(t)
  {
    assert ([e] + t)[1..] == t;
  }

  /** The counts of a three-event trace. */
  lemma Counts3(a: Event, b: Event, c: Event)
    ensures Executions([a, b, c]) == (if a.Executed? then 1 else 0) + (if b.Executed? then 1 else 0) + (if c.Executed? then 1 else 0)
    ensures Requests([a, b, c]) == (if a.Asked? then 1 else 0) + (if b.Asked? then 1 else 0) + (if c.Asked? then 1 else 0)
  {
    assert [a, b, c] == [a] + ([b] + [c]);
    CountsPrepend(a, [b] + [c]);
    CountsPrepend(b, [c]);
    CountsPrepend(c, []);
  }

  /** Prepending a call that did not raise keeps a stage consistent. */
  lemma PrependKeepsConsistent(e: Event, t: Turn, model: Model, exec: Executor)
    requires Consistent(t, model, exec)
    requires e.Asked? ==> model(e.number, e.prompt).Answered?
    ensures Consistent(t.(trace := [e] + t.trace), model, exec)
    ensures Executions([e] + t.trace) == (if e.Executed? then 1 else 0) + Executions(t.trace)
    ensures Requests([e] + t.trace) == (if e.Asked? then 1 else 0) + Requests(t.trace)
  {
    CountsPrepend(e, t.trace);
    var t' := t.(trace := [e] + t.trace);
    if t.trace != [] {
      assert t'.trace[|t'.trace| - 1] == t.trace[|t.trace| - 1];
    }
    if t.reply.queryResult.Some? {
      var a :| Executed(a, t.reply.sql) in t.trace && exec(a, t.reply.sql) == Succeeded(t.reply.queryResult.value);
      assert Executed(a, t.reply.sql) in t'.trace;
    }
  }

  lemma ExplainedConsistent(r: Reply, k: nat, p: Prompt, model: Model, exec: Executor, e: Event)
    requires r.Reply? && r.error == None && r.queryResult.Some?
    requires e.Executed? && e.sql == r.sql && exec(e.attempt, r.sql) == Succeeded(r.queryResult.value)
    ensures Consistent(Explained(r, k, p, model, [e], 0), model, exec)
    ensures Consistent(Explained(r, k, p, model, [e], 1), model, exec)
    ensures Executions([e] + [Asked(k, p)]) == 1 && Requests([e] + [Asked(k, p)]) == 1
  {
    assert e in [e] + [Asked(k, p)];
    CountsPrepend(e, [Asked(k, p)]);
    CountsPrepend(Asked(k, p), []);
  }

  /** The correction stage; its apologies keep the original (non-empty) SQL, so they are never exception replies. */
  lemma RetriedConsistent(r: Reply, err: string, c: Reply, model: Model, exec: Executor)
    requires Fresh(r) && r.sql != "" && c.Reply?
    ensures var t := Retried(r, err, c, model, exec);
      Consistent(t, model, exec) && t.errorCount == 1
      && Executions(t.trace) == (if c.sql == "" then 0 else 1)
      && Requests(t.trace) <= 1
  {
    if c.sql != "" {
      var e := Executed(1, c.sql);
      match exec(1, c.sql)
      case Succeeded(d) =>
        ExplainedConsistent(r.(sql := c.sql, queryResult := Some(d)), 2,
          ExplainCorrected(d.stats, d.columns, Head(d.data, 5)), model, exec, e);
      case ExecFailed(err2) =>
        CountsPrepend(e, []);
    }
  }

  lemma CorrectedConsistent(parse: Parser, r: Reply, err: string, model: Model, exec: Executor)
    requires FreshParser(parse) && Fresh(r) && r.sql != ""
    ensures var t := Corrected(parse, r, err, model, exec);
      Consistent(t, model, exec) && t.errorCount == 1 && Executions(t.trace) <= 1 && Requests(t.trace) <= 2
  {
    var fix := FixRequest(err);
    match model(1, fix)
    case Raised(m) =>
    case Answered(fixText) =>
      var t := Retried(r, err, parse(fixText), model, exec);
      RetriedConsistent(r, err, parse(fixText), model, exec);
      PrependKeepsConsistent(Asked(1, fix), t, model, exec);
  }

  lemma RunConsistent(parse: Parser, r: Reply, model: Model, exec: Executor)
    requires FreshParser(parse) && Fresh(r)
    ensures var t := Run(parse, r, model, exec);
      Consistent(t, model, exec)
      && t.errorCount == (if r.sql != "" && exec(0, r.sql).ExecFailed? then 1 else 0)
      && (Executions(t.trace) == 0 <==> r.sql == "")
      && Executions(t.trace) <= 2 && Requests(t.trace) <= 2
  {
    if r.sql != "" {
      var e := Executed(0, r.sql);
      match exec(0, r.sql)
      case Succeeded(d) =>
        ExplainedConsistent(r.(queryResult := Some(d)), 1, ExplainResult(r.sql, d.stats, d.columns, d.data), model, exec, e);
      case ExecFailed(err) =>
        var t := Corrected(parse, r, err, model, exec);
        CorrectedConsistent(parse, r, err, model, exec);
        PrependKeepsConsistent(e, t, model, exec);
    }
  }

  /** The first answer of a turn as parsed, unless the first request raised. */
  function FirstReply(parse: Parser, context: string, model: Model): Option<Reply>
  {
    match model(0, Question(context))
    case Answered(text) => Some(parse(text))
    case Raised(_) => None
  }

  lemma ExchangeConsistent(parse: Parser, context: string, model: Model, exec: Executor)
    requires FreshParser(parse)
    ensures var t := Exchange(parse, context, model, exec);
      var first := FirstReply(parse, context, model);
      Consistent(t, model, exec)
      && t.errorCount == (if first.Some? && first.value.sql != "" && exec(0, first.value.sql).ExecFailed? then 1 else 0)
      && (Executions(t.trace) == 0 <==> first.None? || first.value.sql == "")
      && Executions(t.trace) <= 2 && Requests(t.trace) <= 3
  {
    var ask := Question(context);
    match model(0, ask)
    case Raised(m) =>
      assert [Asked(0, ask)][1..] == [];
    case Answered(text) =>
      var t := Run(parse, parse(text), model, exec);
      RunConsistent(parse, parse(text), model, exec);
      PrependKeepsConsistent(Asked(0, ask), t, model, exec);
  }

  lemma RespondConsistent(context: string, model: Model, exec: Executor)
    ensures var t := Respond(context, model, exec);
      var first := FirstReply(Parsed, context, model);
      Consistent(t, model, exec)
      && t.errorCount == (if first.Some? && first.value.sql != "" && exec(0, first.value.sql).ExecFailed? then 1 else 0)
      && (Executions(t.trace) == 0 <==> first.None? || first.value.sql == "")
      && Executions(t.trace) <= 2 && Requests(t.trace) <= 3
  {
    ExchangeConsistent(Parsed, context, model, exec);
  }

  /** Retry bound: a turn makes at most two executions and three model requests. */
  lemma RetryBound(context: string, model: Model, exec: Executor)
    ensures var t := Respond(context, model, exec);
      Executions(t.trace) <= 2 && Requests(t.trace) <= 3
  {
    RespondConsistent(context, model, exec);
  }

  /** Nothing is executed exactly when the first request raised or its answer held no SQL. */
  lemma NoSqlNoExecution(context: string, model: Model, exec: Executor)
    ensures var first := FirstReply(Parsed, context, model);
      Executions(Respond(context, model, exec).trace) == 0 <==> first.None? || first.value.sql == ""
  {
    RespondConsistent(context, model, exec);
  }

  /**
   * `error_count` is reset at the start of the turn, so it ends at 1 exactly when
   * the first execution failed and at 0 otherwise; the correction branch is
   * therefore the one always taken after a failure.
   */
  lemma ErrorCountAtMostOne(context: string, model: Model, exec: Executor)
    ensures var first := FirstReply(Parsed, context, model);
      Respond(context, model, exec).errorCount
        == (if first.Some? && first.value.sql != "" && exec(0, first.value.sql).ExecFailed? then 1 else 0)
  {
    RespondConsistent(context, model, exec);
  }

  /** An attached query result was returned by a successful execution, in this turn, of the reply's SQL. */
  lemma QueryResultFromSuccess(context: string, model: Model, exec: Executor)
    ensures var t := Respond(context, model, exec);
      t.reply.Reply? && t.reply.queryResult.Some? ==>
        exists a :: Executed(a, t.reply.sql) in t.trace && exec(a, t.reply.sql) == Succeeded(t.reply.queryResult.value)
  {
    RespondConsistent(context, model, exec);
  }

  /** A turn always gives a structured reply, and never both an error and a query result. */
  lemma ErrorExcludesResult(context: string, model: Model, exec: Executor)
    ensures var t := Respond(context, model, exec);
      t.reply.Reply? && (t.reply.error.Some? ==> t.reply.queryResult.None?)
  {
    RespondConsistent(context, model, exec);
  }

  /**
   * An exception from any model request ends the turn at once with the error
   * reply carrying its message, and the error reply arises only that way.
   */
  lemma ExceptionGivesErrorReply(context: string, model: Model, exec: Executor)
    ensures var t := Respond(context, model, exec);
      EndsInException(model, t.trace) ==> t.reply == FailureReply(RaisedMessage(model, t.trace))
    ensures var t := Respond(context, model, exec);
      IsFailureReply(t.reply) <==> EndsInException(model, t.trace)
  {
    RespondConsistent(context, model, exec);
  }

  /** Without SQL in the first answer the parsed reply is returned unchanged. */
  lemma NoSqlReplyIsParsed(context: string, model: Model, exec: Executor, text: string)
    requires model(0, Question(context)) == Answered(text) && Parsed(text).sql == ""
    ensures Respond(context, model, exec).reply == Parsed(text)
    ensures Respond(context, model, exec).trace == [Asked(0, Question(context))]
    ensures Executions(Respond(context, model, exec).trace) == 0 && Requests(Respond(context, model, exec).trace) == 1
  {
    CountsPrepend(Asked(0, Question(context)), []);
  }

  /**
   * Success on the first run: the result is attached, the SQL is the extracted
   * one, and a non-empty explanation answer replaces the parsed explanation.
   */
  lemma FirstRunSucceeds(context: string, model: Model, exec: Executor, text: string, d: QueryData, x: string)
    requires model(0, Question(context)) == Answered(text)
    requires Parsed(text).sql != "" && exec(0, Parsed(text).sql) == Succeeded(d)
    requires model(1, ExplainResult(Parsed(text).sql, d.stats, d.columns, d.data)) == Answered(x)
    ensures Respond(context, model, exec).reply
      == Parsed(text).(queryResult := Some(d), explanation := if x != "" then x else Parsed(text).explanation)
    ensures Respond(context, model, exec).trace
      == [Asked(0, Question(context)), Executed(0, Parsed(text).sql),
          Asked(1, ExplainResult(Parsed(text).sql, d.stats, d.columns, d.data))]
    ensures Executions(Respond(context, model, exec).trace) == 1 && Requests(Respond(context, model, exec).trace) == 2
  {
    Counts3(Asked(0, Question(context)), Executed(0, Parsed(text).sql),
            Asked(1, ExplainResult(Parsed(text).sql, d.stats, d.columns, d.data)));
  }

  /** A successful correction replaces the SQL with the corrected one and attaches its result. */
  lemma CorrectionSucceeds(context: string, model: Model, exec: Executor,
                           text: string, err: string, fixText: string, d: QueryData, x: string)
    requires model(0, Question(context)) == Answered(text)
    requires Parsed(text).sql != "" && exec(0, Parsed(text).sql) == ExecFailed(err)
    requires model(1, FixRequest(err)) == Answered(fixText)
    requires Parsed(fixText).sql != "" && exec(1, Parsed(fixText).sql) == Succeeded(d)
    requires model(2, ExplainCorrected(d.stats, d.columns, Head(d.data, 5))) == Answered(x)
    ensures Respond(context, model, exec).reply
      == Parsed(text).(sql := Parsed(fixText).sql, queryResult := Some(d),
                       explanation := if x != "" then x else Parsed(text).explanation)
    ensures Respond(context, model, exec).trace
      == [Asked(0, Question(context)), Executed(0, Parsed(text).sql), Asked(1, FixRequest(err)),
          Executed(1, Parsed(fixText).sql), Asked(2, ExplainCorrected(d.stats, d.columns, Head(d.data, 5)))]
    ensures Executions(Respond(context, model, exec).trace) == 2 && Requests(Respond(context, model, exec).trace) == 3
  {
    var tail := [Asked(1, FixRequest(err)), Executed(1, Parsed(fixText).sql),
                 Asked(2, ExplainCorrected(d.stats, d.columns, Head(d.data, 5)))];
    Counts3(tail[0], tail[1], tail[2]);
    CountsPrepend(Executed(0, Parsed(text).sql), tail);
    CountsPrepend(Asked(0, Question(context)), [Executed(0, Parsed(text).sql)] + tail);
    assert Respond(context, model, exec).trace == [Asked(0, Question(context))] + ([Executed(0, Parsed(text).sql)] + tail);
  }

  /** A failing correction reports the corrected query's error and the retry apology, keeping the original SQL. */
  lemma CorrectionFails(context: string, model: Model, exec: Executor,
                        text: string, err: string, fixText: string, err2: string)
    requires model(0, Question(context)) == Answered(text)
    requires Parsed(text).sql != "" && exec(0, Parsed(text).sql) == ExecFailed(err)
    requires model(1, FixRequest(err)) == Answered(fixText)
    requires Parsed(fixText).sql != "" && exec(1, Parsed(fixText).sql) == ExecFailed(err2)
    ensures Respond(context, model, exec).reply
      == Parsed(text).(error := Some(err2), explanation := RetryApology)
    ensures Respond(context, model, exec).trace
      == [Asked(0, Question(context)), Executed(0, Parsed(text).sql), Asked(1, FixRequest(err)),
          Executed(1, Parsed(fixText).sql)]
    ensures Executions(Respond(context, model, exec).trace) == 2 && Requests(Respond(context, model, exec).trace) == 2
  {
    var tail := [Executed(0, Parsed(text).sql), Asked(1, FixRequest(err)), Executed(1, Parsed(fixText).sql)];
    Counts3(tail[0], tail[1], tail[2]);
    CountsPrepend(Asked(0, Question(context)), tail);
    assert Respond(context, model, exec).trace == [Asked(0, Question(context))] + tail;
  }

  /** No SQL in the correction: the original error and the no-correction apology, keeping the original SQL. */
  lemma NoCorrection(context: string, model: Model, exec: Executor, text: string, err: string, fixText: string)
    requires model(0, Question(context)) == Answered(text)
    requires Parsed(text).sql != "" && exec(0, Parsed(text).sql) == ExecFailed(err)
    requires model(1, FixRequest(err)) == Answered(fixText)
    requires Parsed(fixText).sql == ""
    ensures Respond(context, model, exec).reply
      == Parsed(text).(error := Some(err), explanation := NoCorrectionApology)
    ensures Respond(context, model, exec).trace
      == [Asked(0, Question(context)), Executed(0, Parsed(text).sql), Asked(1, FixRequest(err))]
    ensures Executions(Respond(context, model, exec).trace) == 1 && Requests(Respond(context, model, exec).trace) == 2
  {
    Counts3(Asked(0, Question(context)), Executed(0, Parsed(text).sql), Asked(1, FixRequest(err)));
  }
}
