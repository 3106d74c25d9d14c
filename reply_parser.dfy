/**
 * `process_text_response`: the heuristic that splits the model's free-text reply
 * into an understanding, an SQL query and an explanation.
 *
 * The reply is cut into paragraphs at every "\n\n". Each paragraph is tested once,
 * by keywords of its lower-cased text, in a fixed order: understanding keywords
 * first, SQL markers second, explanation keywords third; the first test that fires
 * decides what the paragraph sets. For every field the last paragraph that sets it
 * wins. When all three fields end empty the whole reply becomes the explanation.
 */
module ReplyParser {
  import opened Wrappers
  import opened Text
  import opened Transcript

  /** The separator between paragraphs. */
  const ParagraphBreak: string := "\n\n"

  /** The reply's paragraphs (`text.split("\n\n")`). */
  function Paragraphs(text: string): (parts: seq<string>)
    ensures |parts| >= 1
  {
    Split(text, ParagraphBreak)
  }

  predicate MentionsUnderstanding(part: string)
  {
    var p := Lower(part);
    Contains(p, "understanding") || Contains(p, "i understand") || Contains(p, "understand that")
  }

  predicate MentionsSql(part: string)
  {
    var p := Lower(part);
    Contains(p, "sql query:") || Contains(p, "```sql")
  }

  predicate MentionsExplanation(part: string)
  {
    var p := Lower(part);
    Contains(p, "explanation:") || Contains(p, "results show") || Contains(p, "analysis:")
  }

  /** What one paragraph does to the result dictionary. */
  datatype Effect = SetUnderstanding(text: string) | SetSql(sql: string) | SetExplanation(text: string) | NoEffect

  /**
   * The if/elif/elif chain applied to one paragraph. The SQL is cut out with
   * case-sensitive splits although the test that selects the branch is
   * case-insensitive, so a paragraph found only through another spelling
   * (```SQL, sql query:) sets nothing.
   */
  function ParagraphEffect(part: string): Effect
  {
    var lower := Lower(part);
    if Contains(lower, "understanding") || Contains(lower, "i understand") || Contains(lower, "understand that") then
      SetUnderstanding(part)
    else if Contains(lower, "sql query:") || Contains(lower, "```sql") then
      if Contains(lower, "```sql") then
        var sqlParts := Split(part, "```sql");
        if |sqlParts| > 1 then SetSql(Strip(Split(sqlParts[1], "```")[0])) else NoEffect
      else
        var sqlParts := Split(part, "SQL Query:");
        if |sqlParts| > 1 then SetSql(Strip(sqlParts[1])) else NoEffect
    else if Contains(lower, "explanation:") || Contains(lower, "results show") || Contains(lower, "analysis:") then
      SetExplanation(part)
    else
      NoEffect
  }

  datatype Field = Understanding | Sql | Explanation

  /** The value an effect assigns to field `f`, if it assigns that field. */
  function Assigned(e: Effect, f: Field): Option<string>
  {
    match (e, f)
    case (SetUnderstanding(t), Understanding) => Some(t)
    case (SetSql(q), Sql) => Some(q)
    case (SetExplanation(t), Explanation) => Some(t)
    case _ => None
  }


  /** The effect of each paragraph, in order. */
  function Effects(parts: seq<string>): (es: seq<Effect>)
    ensures |es| == |parts|
  {
    seq(|parts|, i requires 0 <= i < |parts| => ParagraphEffect(parts[i]))
  }

  /**
   * The value of field `f` after applying the effects `es` in order: the value
   * assigned by the last effect that assigns `f`, or None when no effect does.
   */
  function LastAssigned(es: seq<Effect>, f: Field): Option<string>
  {
    if es == [] then None
    else
      match Assigned(es[|es| - 1], f)
      case Some(v) => Some(v)
      case None => LastAssigned(es[..|es| - 1], f)
  }

  /**
   * The meaning of `LastAssigned`: None exactly when no effect assigns `f`, and
   * otherwise the value of an assigning effect after which none assigns `f`.
   */
  lemma {:induction false} LastAssignedIsLast(es: seq<Effect>, f: Field)
    ensures LastAssigned(es, f).None? <==> forall i :: 0 <= i < |es| ==> Assigned(es[i], f).None?
    ensures LastAssigned(es, f).Some? ==>
      exists i :: 0 <= i < |es| && Assigned(es[i], f) == LastAssigned(es, f)
                  && forall j :: i < j < |es| ==> Assigned(es[j], f).None?
  {
    if es != [] && Assigned(es[|es| - 1], f).None? {
      var init := es[..|es| - 1];
      LastAssignedIsLast(init, f);
      assert forall i :: 0 <= i < |init| ==> init[i] == es[i];
    }
  }

  /** One more effect either assigns field `f` or leaves it as it was. */
  lemma LastAssignedSnoc(es: seq<Effect>, i: nat)
    requires i < |es|
    ensures forall f :: LastAssigned(es[..i + 1], f) == Assigned(es[i], f).OrElse(LastAssigned(es[..i], f))
  {
    assert es[..i + 1][..i] == es[..i];
  }

  /**
   * The structured reply built from the effects `es` of the paragraphs of `text`:
   * each field from its last assigning effect, or the whole text as explanation
   * when all three fields are empty. `error` is always None and there is no query
   * result.
   */
  function Assemble(es: seq<Effect>, text: string): (r: Reply)
    ensures r.Reply? && r.error == None && r.queryResult == None
  {
    var u := LastAssigned(es, Understanding).GetOr("");
    var q := LastAssigned(es, Sql).GetOr("");
    var x := LastAssigned(es, Explanation).GetOr("");
    if u == "" && q == "" && x == "" then Reply("", "", text, None, None)
    else Reply(u, q, x, None, None)
  }

  /** The structured reply `process_text_response` gives for `text`. */
  function Parsed(text: string): (r: Reply)
    ensures r.Reply? && r.error == None && r.queryResult == None
  {
    Assemble(Effects(Paragraphs(text)), text)
  }

  /** `process_text_response(text)`: the paragraph loop, overwriting one field per paragraph. */
  method ProcessTextResponse(text: string) returns (r: Reply)
    ensures r == Parsed(text)
  {
    var understanding, sql, explanation := "", "", "";
    var parts := Split(text, ParagraphBreak);
    ghost var es := Effects(parts);
    var i := 0;
    while i < |parts|
      invariant 0 <= i <= |parts|
      invariant understanding == LastAssigned(es[..i], Understanding).GetOr("")
      invariant sql == LastAssigned(es[..i], Sql).GetOr("")
      invariant explanation == LastAssigned(es[..i], Explanation).GetOr("")
    {
      var effect := ParagraphEffect(parts[i]);
      LastAssignedSnoc(es, i);
      match effect {
        case SetUnderstanding(t) => understanding := t;
        case SetSql(q) => sql := q;
        case SetExplanation(t) => explanation := t;
        case NoEffect =>
      }
      i := i + 1;
    }
    assert es[..|parts|] == es;
    if understanding == "" && sql == "" && explanation == "" {
      explanation := text;
    }
    r := Reply(understanding, sql, explanation, None, None);
  }

  // ---------------------------------------------------------------------------
  // Properties of the parser
  // ---------------------------------------------------------------------------

  /**
   * The order of the tests: understanding keywords win over SQL markers, which win
   * over explanation keywords; a paragraph sets at most one field.
   */
  lemma ParagraphPriority(part: string)
    ensures MentionsUnderstanding(part) ==> ParagraphEffect(part) == SetUnderstanding(part)
    ensures ParagraphEffect(part).SetSql? ==> !MentionsUnderstanding(part) && MentionsSql(part)
    ensures ParagraphEffect(part).SetExplanation? ==>
      ParagraphEffect(part).text == part && !MentionsUnderstanding(part) && !MentionsSql(part) && MentionsExplanation(part)
    ensures !MentionsUnderstanding(part) && !MentionsSql(part) && !MentionsExplanation(part) ==>
      ParagraphEffect(part) == NoEffect
  {
  }

  /**
   * Last match wins: field `f` ends with the value assigned by effect `i` whenever
   * `i` assigns `f` and no later effect does.
   */
  lemma LastEffectWins(es: seq<Effect>, f: Field, i: nat)
    requires i < |es| && Assigned(es[i], f).Some?
    requires forall j :: i < j < |es| ==> Assigned(es[j], f).None?
    ensures LastAssigned(es, f) == Assigned(es[i], f)
  {
    LastAssignedIsLast(es, f);
    var r := LastAssigned(es, f);
    var k :| 0 <= k < |es| && Assigned(es[k], f) == r
                         && forall j :: k < j < |es| ==> Assigned(es[j], f).None?;
  }

  /**
   * Fenced SQL: with an exact "```sql" in a paragraph that mentions no
   * understanding keyword, the SQL set is the stripped text after the first
   * "```sql", up to the next "```" within the piece that ends at a second "```sql".
   */
  lemma FencedSql(part: string)
    requires !MentionsUnderstanding(part) && Contains(part, "```sql")
    ensures ParagraphEffect(part)
      == SetSql(Strip(Before(Before(After(part, "```sql"), "```sql"), "```")))
  {
    ContainsLower(part, "```sql");
  }

  /** With a single fence in the paragraph, that is the text between "```sql" and the next "```". */
  lemma SingleFenceSql(part: string)
    requires !MentionsUnderstanding(part) && Contains(part, "```sql")
    requires !Contains(After(part, "```sql"), "```sql")
    ensures ParagraphEffect(part) == SetSql(Strip(Before(After(part, "```sql"), "```")))
  {
    FencedSql(part);
  }

  /** A fence spelled in another case (e.g. "```SQL") is detected but leaves `sql` unset. */
  lemma OtherCaseFenceSetsNothing(part: string)
    requires !MentionsUnderstanding(part)
    requires Contains(Lower(part), "```sql") && !Contains(part, "```sql")
    ensures ParagraphEffect(part) == NoEffect
  {
  }

  /**
   * Unfenced SQL: without any "```sql" (in any case), the SQL set is the stripped
   * text after the first exact "SQL Query:", up to a second "SQL Query:" if there is one.
   */
  lemma MarkedSql(part: string)
    requires !MentionsUnderstanding(part) && !Contains(Lower(part), "```sql")
    requires Contains(part, "SQL Query:")
    ensures ParagraphEffect(part) == SetSql(Strip(Before(After(part, "SQL Query:"), "SQL Query:")))
  {
    ContainsLowered(part, "SQL Query:");
    assert Lower("SQL Query:") == "sql query:";
  }

  /** A marker only in another case (e.g. "sql query:") leaves `sql` unset. */
  lemma OtherCaseMarkerSetsNothing(part: string)
    requires !MentionsUnderstanding(part) && !Contains(Lower(part), "```sql")
    requires Contains(Lower(part), "sql query:") && !Contains(part, "SQL Query:")
    ensures ParagraphEffect(part) == NoEffect
  {
  }

  /** The SQL of a parsed reply, when set, comes from a paragraph that mentions no understanding keyword. */
  lemma UnderstandingParagraphIsNeverSql(text: string)
    ensures var parts := Paragraphs(text);
      Parsed(text).sql != "" ==>
        exists i :: 0 <= i < |parts| && ParagraphEffect(parts[i]) == SetSql(Parsed(text).sql)
          && !MentionsUnderstanding(parts[i])
  {
    var parts := Paragraphs(text);
    var es := Effects(parts);
    var q := LastAssigned(es, Sql);
    LastAssignedIsLast(es, Sql);
    if Parsed(text).sql != "" {
      assert q.Some? && q.value == Parsed(text).sql;
      var i :| 0 <= i < |es| && Assigned(es[i], Sql) == q;
      assert es[i] == ParagraphEffect(parts[i]);
      ParagraphPriority(parts[i]);
    }
  }

  /** When no paragraph matches any rule, the reply is only its raw text as explanation. */
  lemma UnmatchedReplyIsExplanation(text: string)
    requires forall i :: 0 <= i < |Paragraphs(text)| ==> ParagraphEffect(Paragraphs(text)[i]) == NoEffect
    ensures Parsed(text) == Reply("", "", text, None, None)
  {
    var es := Effects(Paragraphs(text));
    forall f: Field ensures LastAssigned(es, f).None? {
      forall i | 0 <= i < |es| ensures Assigned(es[i], f).None? {
        assert es[i] == NoEffect;
      }
      LastAssignedIsLast(es, f);
    }
  }

  /** A field that some paragraph sets to a non-empty value is never overwritten by the fallback. */
  lemma FallbackOnlyWhenAllEmpty(text: string)
    ensures var es := Effects(Paragraphs(text));
      (LastAssigned(es, Understanding).GetOr("") != "" || LastAssigned(es, Sql).GetOr("") != ""
        || LastAssigned(es, Explanation).GetOr("") != "")
      <==> Parsed(text) == Reply(LastAssigned(es, Understanding).GetOr(""), LastAssigned(es, Sql).GetOr(""),
                                 LastAssigned(es, Explanation).GetOr(""), None, None)
             && (Parsed(text).understanding != "" || Parsed(text).sql != "" || Parsed(text).explanation != "")
  {
  }

  /**
   * A well-formed reply, whose paragraphs set each field exactly once (in any order)
   * and whose SQL is not empty, is parsed into exactly those three values.
   */
  lemma WellFormedReply(text: string, iu: nat, iq: nat, ix: nat)
    requires var es := Effects(Paragraphs(text));
      && iu < |es| && iq < |es| && ix < |es|
      && es[iu].SetUnderstanding? && es[iq].SetSql? && es[iq].sql != "" && es[ix].SetExplanation?
      && forall j :: 0 <= j < |es| && j != iu && j != iq && j != ix ==> es[j] == NoEffect
    ensures var es := Effects(Paragraphs(text));
      Parsed(text) == Reply(es[iu].text, es[iq].sql, es[ix].text, None, None)
  {
    WellFormedEffects(Effects(Paragraphs(text)), text, iu, iq, ix);
  }

  lemma WellFormedEffects(es: seq<Effect>, text: string, iu: nat, iq: nat, ix: nat)
    requires iu < |es| && iq < |es| && ix < |es|
    requires es[iu].SetUnderstanding? && es[iq].SetSql? && es[iq].sql != "" && es[ix].SetExplanation?
    requires forall j :: 0 <= j < |es| && j != iu && j != iq && j != ix ==> es[j] == NoEffect
    ensures Assemble(es, text) == Reply(es[iu].text, es[iq].sql, es[ix].text, None, None)
  {
    forall j | iu < j < |es| ensures Assigned(es[j], Understanding).None? {
      if j != iq && j != ix { assert es[j] == NoEffect; }
    }
    forall j | iq < j < |es| ensures Assigned(es[j], Sql).None? {
      if j != iu && j != ix { assert es[j] == NoEffect; }
    }
    forall j | ix < j < |es| ensures Assigned(es[j], Explanation).None? {
      if j != iu && j != iq { assert es[j] == NoEffect; }
    }
    LastEffectWins(es, Understanding, iu);
    LastEffectWins(es, Sql, iq);
    LastEffectWins(es, Explanation, ix);
  }
}
