/**
 * The chat area: what `display_chat_history` shows for a transcript, and the
 * submit-then-process cycle of `display_user_input`.
 */
module ChatInterface {
  import opened Wrappers
  import opened Text
  import opened Warehouse
  import opened Transcript
  import opened SessionState
  import opened Assistant

  /** The most result rows the chat displays. */
  const MaxShownRows: nat := 100

  /** One element the chat area shows, in display order. */
  datatype Widget =
    | UserMessage(text: string)
    | AssistantBubble
    | UnderstandingText(text: string)
    | SqlCode(sql: string)
    | QuerySuccess(stats: Stats)
    | RowsNote(total: nat)
    | ResultTable(rows: seq<Row>)
    | NoResults
    | QueryError(message: string)
    | ExplanationText(text: string)

  /** The statistics banner and the result table (or the no-results note) of a successful query. */
  function ResultWidgets(d: QueryData): seq<Widget>
  {
    [QuerySuccess(d.stats)]
    + if d.data == [] then [NoResults]
      else if |d.data| > MaxShownRows then [RowsNote(|d.data|), ResultTable(d.data[..MaxShownRows])]
      else [ResultTable(d.data)]
  }

  /** What an assistant reply shows: each part only when present and non-empty. */
  function ReplyWidgets(r: Reply): seq<Widget>
  {
    match r
    case NotInitialized => []
    case Reply(u, sql, x, err, qr) =>
      (if u != "" then [UnderstandingText(u)] else [])
      + (if sql != "" then [SqlCode(sql)] else [])
      + (if qr.Some? then ResultWidgets(qr.value) else [])
      + (if err.Some? && err.value != "" then [QueryError(err.value)] else [])
      + (if x != "" then [ExplanationText(x)] else [])
  }

  /** What one entry shows; metadata entries show nothing. */
  function EntryWidgets(e: Entry): seq<Widget>
  {
    match e
    case MetadataEntry(_) => []
    case UserTurn(q) => [UserMessage(q)]
    case AssistantTurn(r) => [AssistantBubble] + ReplyWidgets(r)
  }

  /** What `display_chat_history` shows for the transcript `h`. */
  function Rendered(h: seq<Entry>): seq<Widget>
  {
    if h == [] then [] else Rendered(h[..|h| - 1]) + EntryWidgets(h[|h| - 1])
  }

  lemma RenderedSnoc(h: seq<Entry>, i: nat)
    requires i < |h|
    ensures Rendered(h[..i + 1]) == Rendered(h[..i]) + EntryWidgets(h[i])
  {
    assert h[..i + 1][..i] == h[..i];
  }

  /** `display_chat_history()`: the loop over the transcript. */
  method DisplayChatHistory(h: seq<Entry>) returns (shown: seq<Widget>)
    ensures shown == Rendered(h)
  {
    shown := [];
    var i := 0;
    while i < |h|
      invariant 0 <= i <= |h|
      invariant shown == Rendered(h[..i])
    {
      RenderedSnoc(h, i);
      var entry := h[i];
      if !entry.MetadataEntry? {
        if entry.UserTurn? {
          shown := shown + [UserMessage(entry.text)];
        }
        if entry.AssistantTurn? {
          shown := shown + [AssistantBubble] + ReplyWidgets(entry.reply);
        }
      }
      i := i + 1;
    }
    assert h[..|h|] == h;
  }

  lemma {:induction false} RenderedAppend(a: seq<Entry>, b: seq<Entry>)
    ensures Rendered(a + b) == Rendered(a) + Rendered(b)
    decreases |b|
  {
    if b == [] {
      assert a + b == a;
    } else {
      var b' := b[..|b| - 1];
      var last := b[|b| - 1];
      assert (a + b)[..|a + b| - 1] == a + b';
      assert (a + b)[|a + b| - 1] == last;
      assert Rendered(a + b) == Rendered(a + b') + EntryWidgets(last);
      RenderedAppend(a, b');
      AppendAssoc(Rendered(a), Rendered(b'), EntryWidgets(last));
    }
  }

  /** Metadata entries are never rendered: removing one changes nothing on screen. */
  lemma MetadataNeverRendered(pre: seq<Entry>, m: Metadata, post: seq<Entry>)
    ensures Rendered(pre + [MetadataEntry(m)] + post) == Rendered(pre + post)
  {
    var meta := [MetadataEntry(m)];
    assert Rendered(meta) == [] by {
      assert meta[..0] == [];
    }
    RenderedAppend(pre, meta);
    assert Rendered(pre + meta) == Rendered(pre);
    RenderedAppend(pre + meta, post);
    RenderedAppend(pre, post);
  }

  /**
   * At most 100 rows are shown, the first ones; the "first 100 of N" note appears
   * exactly when there are more than 100 rows, and the no-results note exactly
   * when there are none.
   */
  lemma RowCap(d: QueryData)
    ensures forall w :: w in ResultWidgets(d) && w.ResultTable? ==>
      |w.rows| <= MaxShownRows && w.rows <= d.data && (|d.data| <= MaxShownRows ==> w.rows == d.data)
    ensures (exists w :: w in ResultWidgets(d) && w.RowsNote?) <==> |d.data| > MaxShownRows
    ensures RowsNote(|d.data|) in ResultWidgets(d) <==> |d.data| > MaxShownRows
    ensures NoResults in ResultWidgets(d) <==> d.data == []
  {
    if |d.data| > MaxShownRows {
      assert ResultWidgets(d)[1] == RowsNote(|d.data|);
    }
  }

  /** A result block holds only its banner, its note and its table or no-results note. */
  lemma ResultWidgetsKinds(d: QueryData)
    ensures QuerySuccess(d.stats) in ResultWidgets(d)
    ensures forall w :: w in ResultWidgets(d) ==>
      (w.QuerySuccess? && w == QuerySuccess(d.stats)) || w.RowsNote? || w.ResultTable? || w.NoResults?
  {
    assert ResultWidgets(d)[0] == QuerySuccess(d.stats);
  }

  /** The parts of a reply's display, in order. */
  lemma ReplyWidgetsParts(r: Reply)
    requires r.Reply?
    ensures ReplyWidgets(r)
      == (if r.understanding != "" then [UnderstandingText(r.understanding)] else [])
         + ((if r.sql != "" then [SqlCode(r.sql)] else [])
         + ((if r.queryResult.Some? then ResultWidgets(r.queryResult.value) else [])
         + ((if r.error.Some? && r.error.value != "" then [QueryError(r.error.value)] else [])
         + (if r.explanation != "" then [ExplanationText(r.explanation)] else []))))
  {
    var a := if r.understanding != "" then [UnderstandingText(r.understanding)] else [];
    var b := if r.sql != "" then [SqlCode(r.sql)] else [];
    var c := if r.queryResult.Some? then ResultWidgets(r.queryResult.value) else [];
    var e := if r.error.Some? && r.error.value != "" then [QueryError(r.error.value)] else [];
    var x := if r.explanation != "" then [ExplanationText(r.explanation)] else [];
    AppendAssoc(a + b + c, e, x);
    AppendAssoc(a + b, c, e + x);
    AppendAssoc(a, b, c + (e + x));
  }

  /** Whether a result block shows text parts: it never does. */
  lemma ResultWidgetsHaveNoText(r: Reply)
    requires r.Reply?
    ensures forall w :: w in (if r.queryResult.Some? then ResultWidgets(r.queryResult.value) else []) ==>
      !w.UnderstandingText? && !w.SqlCode? && !w.QueryError? && !w.ExplanationText?
  {
    if r.queryResult.Some? {
      ResultWidgetsKinds(r.queryResult.value);
    }
  }

  /** A widget is in a reply's display exactly when it is in one of the display's parts. */
  lemma PartsMembership(r: Reply, w: Widget)
    requires r.Reply?
    ensures w in ReplyWidgets(r) <==>
      w in (if r.understanding != "" then [UnderstandingText(r.understanding)] else [])
      || w in (if r.sql != "" then [SqlCode(r.sql)] else [])
      || w in (if r.queryResult.Some? then ResultWidgets(r.queryResult.value) else [])
      || w in (if r.error.Some? && r.error.value != "" then [QueryError(r.error.value)] else [])
      || w in (if r.explanation != "" then [ExplanationText(r.explanation)] else [])
  {
    ReplyWidgetsParts(r);
  }

  /** The understanding is shown exactly when the reply has a non-empty one. */
  lemma UnderstandingShownWhenPresent(r: Reply)
    ensures forall u :: UnderstandingText(u) in ReplyWidgets(r) <==> r.Reply? && r.understanding != "" && u == r.understanding
  {
    if r.Reply? {
      ReplyWidgetsParts(r);
      ResultWidgetsHaveNoText(r);
      forall u ensures UnderstandingText(u) in ReplyWidgets(r) <==> r.Reply? && r.understanding != "" && u == r.understanding {
        PartsMembership(r, UnderstandingText(u));
      }
    }
  }

  /** The SQL is shown exactly when the reply has a non-empty one. */
  lemma SqlShownWhenPresent(r: Reply)
    ensures forall q :: SqlCode(q) in ReplyWidgets(r) <==> r.Reply? && r.sql != "" && q == r.sql
  {
    if r.Reply? {
      ReplyWidgetsParts(r);
      ResultWidgetsHaveNoText(r);
      forall q ensures SqlCode(q) in ReplyWidgets(r) <==> r.Reply? && r.sql != "" && q == r.sql {
        PartsMembership(r, SqlCode(q));
      }
    }
  }

  /** The error is shown exactly when the reply has a non-empty one. */
  lemma ErrorShownWhenPresent(r: Reply)
    ensures forall m :: QueryError(m) in ReplyWidgets(r) <==> r.Reply? && r.error == Some(m) && m != ""
  {
    if r.Reply? {
      ReplyWidgetsParts(r);
      ResultWidgetsHaveNoText(r);
      forall m ensures QueryError(m) in ReplyWidgets(r) <==> r.Reply? && r.error == Some(m) && m != "" {
        PartsMembership(r, QueryError(m));
      }
    }
  }

  /** The explanation is shown exactly when the reply has a non-empty one. */
  lemma ExplanationShownWhenPresent(r: Reply)
    ensures forall x :: ExplanationText(x) in ReplyWidgets(r) <==> r.Reply? && r.explanation != "" && x == r.explanation
  {
    if r.Reply? {
      ReplyWidgetsParts(r);
      ResultWidgetsHaveNoText(r);
      forall x ensures ExplanationText(x) in ReplyWidgets(r) <==> r.Reply? && r.explanation != "" && x == r.explanation {
        PartsMembership(r, ExplanationText(x));
      }
    }
  }

  /** Query statistics and rows are shown only for a reply carrying a (successful) query result. */
  lemma ResultsOnlyOnSuccess(r: Reply)
    ensures forall st :: QuerySuccess(st) in ReplyWidgets(r) <==> r.Reply? && r.queryResult.Some? && st == r.queryResult.value.stats
    ensures forall w :: w in ReplyWidgets(r) && (w.ResultTable? || w.NoResults? || w.RowsNote?) ==>
      r.Reply? && r.queryResult.Some? && w in ResultWidgets(r.queryResult.value)
  {
    if r.Reply? {
      ReplyWidgetsParts(r);
      if r.queryResult.Some? {
        ResultWidgetsKinds(r.queryResult.value);
      }
    }
  }

  /** The example questions offered below the input form. */
  const Examples: seq<string> := [
    "How many rows are in each table?",
    "Which stages have the best/worst survival rates?",
    "How many patients were diagnosed with each stage?",
    "Find patients who are over 65 years old with Stage III cancer."
  ]

  /** The form's submit: accepted only with non-empty input, which is then queued. */
  method Submit(s: Session, input: string)
    modifies s`currentInput, s`processingQuery
    ensures input != "" ==> s.currentInput == input && s.processingQuery
    ensures input == "" ==> s.currentInput == old(s.currentInput) && s.processingQuery == old(s.processingQuery)
  {
    if input != "" {
      s.currentInput := input;
      s.processingQuery := true;
    }
  }

  /** Clicking example button `i` queues that example question. */
  method ChooseExample(s: Session, i: nat)
    requires i < |Examples|
    modifies s`currentInput, s`processingQuery
    ensures s.currentInput == Examples[i] && s.processingQuery
  {
    s.currentInput := Examples[i];
    s.processingQuery := true;
  }

  /** Taking the queued question: the queue is cleared and the question enters the transcript. */
  method TakePending(s: Session) returns (query: string)
    modifies s`currentInput, s`processingQuery, s`chatHistory
    ensures query == old(s.currentInput) && s.currentInput == "" && !s.processingQuery
    ensures s.chatHistory == old(s.chatHistory) + [UserTurn(query)]
    ensures s.hasModel == old(s.hasModel) && s.currentQuery == old(s.currentQuery) && s.errorCount == old(s.errorCount)
  {
    query := s.currentInput;
    s.currentInput := "";
    s.processingQuery := false;
    s.chatHistory := s.chatHistory + [UserTurn(query)];
  }

  /** Answering `query`: the reply enters the transcript after it. */
  method AnswerQuestion(s: Session, query: string, model: Model, exec: Executor) returns (reply: Reply)
    modifies s`chatHistory, s`currentQuery, s`errorCount
    ensures s.chatHistory == old(s.chatHistory) + [AssistantTurn(reply)]
    ensures old(s.hasModel) ==>
      var t := Respond(TurnContext(s.schemaInfo, s.gcpProject, old(s.chatHistory), query), model, exec);
      reply == t.reply && s.currentQuery == query && s.errorCount == t.errorCount
    ensures !old(s.hasModel) ==>
      reply == NotInitialized && s.currentQuery == old(s.currentQuery) && s.errorCount == old(s.errorCount)
  {
    var trace;
    reply, trace := ProcessUserQuery(s, query, model, exec);
    s.chatHistory := s.chatHistory + [AssistantTurn(reply)];
  }

  /**
   * The processing step at the top of `display_user_input`: a queued question is
   * taken, the queue is cleared, and the transcript grows by the question and
   * then the reply computed with the question already in the transcript.
   */
  method ProcessPending(s: Session, model: Model, exec: Executor) returns (reply: Option<Reply>)
    modifies s`currentInput, s`processingQuery, s`chatHistory, s`currentQuery, s`errorCount
    ensures !old(s.processingQuery) ==>
      reply == None && s.chatHistory == old(s.chatHistory) && s.currentInput == old(s.currentInput) && !s.processingQuery
    ensures !old(s.processingQuery) ==> s.currentQuery == old(s.currentQuery) && s.errorCount == old(s.errorCount)
    ensures old(s.processingQuery) ==>
      && reply.Some?
      && s.chatHistory == old(s.chatHistory) + [UserTurn(old(s.currentInput)), AssistantTurn(reply.value)]
      && s.currentInput == "" && !s.processingQuery
    ensures old(s.processingQuery) && old(s.hasModel) ==>
      var t := Respond(TurnContext(s.schemaInfo, s.gcpProject, old(s.chatHistory) + [UserTurn(old(s.currentInput))],
                                   old(s.currentInput)), model, exec);
      reply == Some(t.reply) && s.currentQuery == old(s.currentInput) && s.errorCount == t.errorCount
    ensures old(s.processingQuery) && !old(s.hasModel) ==>
      reply == Some(NotInitialized) && s.currentQuery == old(s.currentQuery) && s.errorCount == old(s.errorCount)
  {
    if !s.processingQuery {
      return None;
    }
    var query := TakePending(s);
    var answer := AnswerQuestion(s, query, model, exec);
    reply := Some(answer);
  }
}
