/**
 * The application shell: the sidebar's Start-New-Chat button (save, validate,
 * connect, verify access, fetch the schema, initialise), the list of saved chats
 * (filter, newest first, labels), loading a saved chat (the metadata scan) and
 * the gating of the main area.
 */
module App {
  import opened Wrappers
  import opened Text
  import opened Warehouse
  import opened Transcript
  import opened Schema
  import opened Access
  import opened SessionState

  // ---------------------------------------------------------------------------
  // Saved-chat file names: `chat_history_%Y%m%d_%H%M%S.json`
  // ---------------------------------------------------------------------------

  /** A local time as `datetime.now()` gives it, to the second. */
  datatype DateTime = DateTime(year: nat, month: nat, day: nat, hour: nat, minute: nat, second: nat)

  /** The ranges `datetime` keeps its fields in. */
  predicate WellFormed(t: DateTime)
  {
    1 <= t.year <= 9999 && 1 <= t.month <= 12 && 1 <= t.day <= 31
    && t.hour < 24 && t.minute < 60 && t.second < 60
  }

  /** `t` comes strictly before `u`: the fields compared from the year down to the second. */
  predicate Earlier(t: DateTime, u: DateTime)
  {
    t.year < u.year
    || (t.year == u.year && (t.month < u.month
    || (t.month == u.month && (t.day < u.day
    || (t.day == u.day && (t.hour < u.hour
    || (t.hour == u.hour && (t.minute < u.minute
    || (t.minute == u.minute && t.second < u.second)))))))))
  }

  function Pow10(w: nat): nat
  {
    if w == 0 then 1 else 10 * Pow10(w - 1)
  }

  /** The last `w` decimal digits of `n`, zero-padded on the left (a `%0wd` directive). */
  function Pad(n: nat, w: nat): (r: string)
    ensures |r| == w && AllDigits(r)
  {
    if w == 0 then "" else Pad(n / 10, w - 1) + [DigitChar(n % 10)]
  }

  /** `strftime("%Y%m%d_%H%M%S")`. */
  function Stamp(t: DateTime): (r: string)
    ensures |r| == 15
  {
    Pad(t.year, 4) + (Pad(t.month, 2) + (Pad(t.day, 2) + ("_" + (Pad(t.hour, 2) + (Pad(t.minute, 2) + Pad(t.second, 2))))))
  }

  const ChatPrefix: string := "chat_history_"
  const ChatSuffix: string := ".json"

  /** The name the save gives the file written at time `t`. */
  function ChatFileName(t: DateTime): string
  {
    ChatPrefix + (Stamp(t) + ChatSuffix)
  }

  /** With both numbers below `10^w`, digit strings compare as the numbers do. */
  lemma {:induction false} PadOrder(a: nat, b: nat, w: nat)
    requires a < Pow10(w) && b < Pow10(w)
    ensures LexLt(Pad(a, w), Pad(b, w)) <==> a < b
    ensures Pad(a, w) == Pad(b, w) <==> a == b
  {
    if w > 0 {
      PadOrder(a / 10, b / 10, w - 1);
      var da := [DigitChar(a % 10)];
      var db := [DigitChar(b % 10)];
      LexLtConcat(Pad(a / 10, w - 1), da, Pad(b / 10, w - 1), db);
      assert LexLt(da, db) <==> a % 10 < b % 10 by {
        assert da[1..] == "" && db[1..] == "";
      }
      assert a == 10 * (a / 10) + a % 10 && b == 10 * (b / 10) + b % 10;
      if Pad(a, w) == Pad(b, w) {
        assert Pad(a / 10, w - 1) == Pad(a, w)[..w - 1] == Pad(b / 10, w - 1);
        assert da == Pad(a, w)[w - 1..] == db;
      }
    }
  }

  lemma StampFieldsOrder(t: DateTime, u: DateTime)
    requires WellFormed(t) && WellFormed(u)
    ensures LexLt(Pad(t.year, 4), Pad(u.year, 4)) <==> t.year < u.year
    ensures Pad(t.year, 4) == Pad(u.year, 4) <==> t.year == u.year
    ensures LexLt(Pad(t.month, 2), Pad(u.month, 2)) <==> t.month < u.month
    ensures Pad(t.month, 2) == Pad(u.month, 2) <==> t.month == u.month
    ensures LexLt(Pad(t.day, 2), Pad(u.day, 2)) <==> t.day < u.day
    ensures Pad(t.day, 2) == Pad(u.day, 2) <==> t.day == u.day
    ensures LexLt(Pad(t.hour, 2), Pad(u.hour, 2)) <==> t.hour < u.hour
    ensures Pad(t.hour, 2) == Pad(u.hour, 2) <==> t.hour == u.hour
    ensures LexLt(Pad(t.minute, 2), Pad(u.minute, 2)) <==> t.minute < u.minute
    ensures Pad(t.minute, 2) == Pad(u.minute, 2) <==> t.minute == u.minute
    ensures LexLt(Pad(t.second, 2), Pad(u.second, 2)) <==> t.second < u.second
    ensures Pad(t.second, 2) == Pad(u.second, 2) <==> t.second == u.second
  {
    assert Pow10(2) == 100 && Pow10(4) == 10000;
    PadOrder(t.year, u.year, 4);
    PadOrder(t.month, u.month, 2);
    PadOrder(t.day, u.day, 2);
    PadOrder(t.hour, u.hour, 2);
    PadOrder(t.minute, u.minute, 2);
    PadOrder(t.second, u.second, 2);
  }

  /** Fixed-width stamps sort lexicographically in chronological order. */
  lemma StampOrder(t: DateTime, u: DateTime)
    requires WellFormed(t) && WellFormed(u)
    ensures LexLt(Stamp(t), Stamp(u)) <==> Earlier(t, u)
  {
    StampFieldsOrder(t, u);
    var s5, r5 := Pad(t.second, 2), Pad(u.second, 2);
    var s4, r4 := Pad(t.minute, 2) + s5, Pad(u.minute, 2) + r5;
    LexLtConcat(Pad(t.minute, 2), s5, Pad(u.minute, 2), r5);
    var s3, r3 := Pad(t.hour, 2) + s4, Pad(u.hour, 2) + r4;
    LexLtConcat(Pad(t.hour, 2), s4, Pad(u.hour, 2), r4);
    var s2, r2 := "_" + s3, "_" + r3;
    LexLtConcat("_", s3, "_", r3);
    var s1, r1 := Pad(t.day, 2) + s2, Pad(u.day, 2) + r2;
    LexLtConcat(Pad(t.day, 2), s2, Pad(u.day, 2), r2);
    var s0, r0 := Pad(t.month, 2) + s1, Pad(u.month, 2) + r1;
    LexLtConcat(Pad(t.month, 2), s1, Pad(u.month, 2), r1);
    LexLtConcat(Pad(t.year, 4), s0, Pad(u.year, 4), r0);
  }

  /** The saved files' names, too, sort in the order the chats were saved. */
  lemma FileNameOrder(t: DateTime, u: DateTime)
    requires WellFormed(t) && WellFormed(u)
    ensures LexLt(ChatFileName(t), ChatFileName(u)) <==> Earlier(t, u)
  {
    StampOrder(t, u);
    LexLtConcat(Stamp(t), ChatSuffix, Stamp(u), ChatSuffix);
    LexLtConcat(ChatPrefix, Stamp(t) + ChatSuffix, ChatPrefix, Stamp(u) + ChatSuffix);
  }

  // ---------------------------------------------------------------------------
  // The list of saved chats
  // ---------------------------------------------------------------------------

  /** `f.startswith("chat_history_") and f.endswith(".json")`. */
  predicate IsChatFile(f: string)
  {
    ChatPrefix <= f && |f| >= |ChatSuffix| && f[|f| - |ChatSuffix|..] == ChatSuffix
  }

  /** The directory listing with everything but saved chats dropped, in listing order. */
  function ChatFiles(listing: seq<string>): (r: seq<string>)
    ensures forall i :: 0 <= i < |r| ==> IsChatFile(r[i])
    ensures |r| <= |listing|
  {
    if listing == [] then []
    else (if IsChatFile(listing[0]) then [listing[0]] else []) + ChatFiles(listing[1..])
  }

  /** A name is listed exactly when it is in the directory and is a saved-chat name. */
  lemma {:induction false} ChatFilesKeep(listing: seq<string>, f: string)
    ensures f in ChatFiles(listing) <==> f in listing && IsChatFile(f)
  {
    if listing != [] {
      ChatFilesKeep(listing[1..], f);
      assert listing == [listing[0]] + listing[1..];
    }
  }

  /** Every file the save writes is one the list offers. */
  lemma SavedNamesAreListed(t: DateTime)
    ensures IsChatFile(ChatFileName(t))
  {
    var f := ChatFileName(t);
    assert f == ChatPrefix + Stamp(t) + ChatSuffix;
    assert f[|f| - |ChatSuffix|..] == ChatSuffix;
  }

  /** Newest first: each name is lexicographically no smaller than the ones after it. */
  predicate Descending(s: seq<string>)
  {
    forall p, q :: 0 <= p < q < |s| ==> LexLe(s[q], s[p])
  }

  /** The first `n` elements are in descending order. */
  predicate DescendingUpTo(a: seq<string>, n: int)
    requires n <= |a|
  {
    forall p, q :: 0 <= p < q < n ==> LexLe(a[q], a[p])
  }

  /** Moves `a[i]` down by adjacent swaps into its place among the sorted `a[..i]`. */
  method Insert(a: array<string>, i: int)
    requires 0 <= i < a.Length && DescendingUpTo(a[..], i)
    modifies a
    ensures DescendingUpTo(a[..], i + 1)
    ensures multiset(a[..]) == multiset(old(a[..]))
  {
    var j := i;
    while j > 0 && LexLt(a[j - 1], a[j])
      invariant 0 <= j <= i
      invariant forall p, q :: 0 <= p < q <= i && q != j ==> LexLe(a[q], a[p])
      invariant multiset(a[..]) == multiset(old(a[..]))
    {
      a[j - 1], a[j] := a[j], a[j - 1];
      j := j - 1;
    }
    if j > 0 {
      LexLeTotal(a[j - 1], a[j]);
      forall p | 0 <= p < j
        ensures LexLe(a[j], a[p])
      {
        if p < j - 1 {
          LexLeTransitive(a[j], a[j - 1], a[p]);
        }
      }
    }
  }

  /** `chat_files.sort(reverse=True)`: insertion sort by adjacent swaps. */
  method SortDescending(a: array<string>)
    modifies a
    ensures Descending(a[..])
    ensures multiset(a[..]) == multiset(old(a[..]))
  {
    var i := 0;
    while i < a.Length
      invariant 0 <= i <= a.Length
      invariant DescendingUpTo(a[..], i)
      invariant multiset(a[..]) == multiset(old(a[..]))
    {
      Insert(a, i);
      i := i + 1;
    }
  }

  /** The saved chats the sidebar offers, newest first. */
  method ListChatFiles(listing: seq<string>) returns (files: seq<string>)
    ensures multiset(files) == multiset(ChatFiles(listing))
    ensures Descending(files)
  {
    var kept := ChatFiles(listing);
    var a := new string[|kept|](i requires 0 <= i < |kept| => kept[i]);
    assert a[..] == kept;
    SortDescending(a);
    files := a[..];
  }

  /** Among saved chats listed newest first, the first was saved last. */
  lemma NewestFirst(files: seq<string>, times: seq<DateTime>)
    requires Descending(files) && |files| == |times| > 0
    requires forall i :: 0 <= i < |times| ==> WellFormed(times[i]) && files[i] == ChatFileName(times[i])
    ensures forall i :: 0 <= i < |times| ==> !Earlier(times[0], times[i])
  {
    forall i | 0 <= i < |times|
      ensures !Earlier(times[0], times[i])
    {
      FileNameOrder(times[0], times[i]);
      if i > 0 && LexLt(files[0], files[i]) {
        LexLeAntisymmetric(files[0], files[i]);
      }
    }
  }

  /** Python's `s.replace(old, new)`: every non-overlapping occurrence of `pattern`, from the left, becomes `repl`. */
  function Replace(s: string, pattern: string, repl: string): string
    requires pattern != ""
  {
    Join(Split(s, pattern), repl)
  }

  /** What the selection box shows for a file name. */
  function Label(f: string): string
  {
    Replace(Replace(f, ChatPrefix, ""), ChatSuffix, "")
  }

  /** `t` does not occur in a text that lacks its first character. */
  lemma Absent(s: string, t: string)
    requires t != "" && forall i :: 0 <= i < |s| ==> s[i] != t[0]
    ensures Find(s, t) == None
  {
    forall j: nat ensures !OccursAt(s, t, j) {
      if j + |t| <= |s| {
        assert s[j..j + |t|][0] == s[j];
      }
    }
  }

  lemma StampChars(t: DateTime)
    ensures forall i :: 0 <= i < |Stamp(t)| ==> Stamp(t)[i] == '_' || IsDigit(Stamp(t)[i])
  {
  }

  /** Removing the prefix from a saved name leaves the stamp and the extension. */
  lemma DropPrefix(t: DateTime)
    ensures Replace(ChatFileName(t), ChatPrefix, "") == Stamp(t) + ChatSuffix
  {
    var rest := Stamp(t) + ChatSuffix;
    var f := ChatFileName(t);
    StampChars(t);
    Absent(rest, ChatPrefix);
    assert OccursAt(f, ChatPrefix, 0);
    assert f[|ChatPrefix|..] == rest;
    assert Split(rest, ChatPrefix) == [rest];
    assert Split(f, ChatPrefix) == [""] + [rest];
    assert Join([""] + [rest], "") == "" + "" + Join([rest], "");
  }

  /** Removing the extension from the stamp and the extension leaves the stamp. */
  lemma DropSuffix(t: DateTime)
    ensures Replace(Stamp(t) + ChatSuffix, ChatSuffix, "") == Stamp(t)
  {
    var st := Stamp(t);
    var rest := st + ChatSuffix;
    StampChars(t);
    assert OccursAt(rest, ChatSuffix, 15);
    forall j: nat | j < 15
      ensures !OccursAt(rest, ChatSuffix, j)
    {
      assert rest[j] == st[j];
    }
    assert Find(rest, ChatSuffix) == Some(15);
    assert rest[..15] == st && rest[15 + |ChatSuffix|..] == "";
    assert Split("", ChatSuffix) == [""];
    assert Split(rest, ChatSuffix) == [st] + [""];
    assert Join([st] + [""], "") == st + "" + Join([""], "");
  }

  /** The selection box labels a saved chat with its stamp alone. */
  lemma LabelIsStamp(t: DateTime)
    ensures Label(ChatFileName(t)) == Stamp(t)
  {
    DropPrefix(t);
    DropSuffix(t);
  }
  // ---------------------------------------------------------------------------
  // Loading a saved chat: the metadata scan
  // ---------------------------------------------------------------------------

  /** The `project_id` of the last metadata entry that has one. */
  function LastProject(es: seq<Entry>): Option<string>
  {
    if es == [] then None
    else
      var e := es[|es| - 1];
      if e.MetadataEntry? && e.meta.projectId.Some? then e.meta.projectId
      else LastProject(es[..|es| - 1])
  }

  /** The `tables` of the last metadata entry that has them; none at all without one. */
  function LastTables(es: seq<Entry>): seq<TableRef>
  {
    if es == [] then []
    else
      var e := es[|es| - 1];
      if e.MetadataEntry? && e.meta.tables.Some? then e.meta.tables.value
      else LastTables(es[..|es| - 1])
  }

  /** The loop over the loaded entries that picks up the project and tables to show. */
  method ScanMetadata(es: seq<Entry>) returns (project: Option<string>, tables: seq<TableRef>)
    ensures project == LastProject(es) && tables == LastTables(es)
  {
    project, tables := None, [];
    var i := 0;
    while i < |es|
      invariant 0 <= i <= |es|
      invariant project == LastProject(es[..i]) && tables == LastTables(es[..i])
    {
      assert es[..i + 1][..i] == es[..i];
      match es[i] {
        case MetadataEntry(m) =>
          if m.projectId.Some? {
            project := m.projectId;
          }
          if m.tables.Some? {
            tables := m.tables.value;
          }
        case _ =>
      }
      i := i + 1;
    }
    assert es[..|es|] == es;
  }

  /** What the sidebar shows about a chat loaded while not initialised. */
  datatype LoadedInfo = LoadedInfo(project: Option<string>, tables: seq<TableRef>)

  /**
   * Loading a saved chat: the transcript replaces the history; when the chat is
   * not initialised the metadata is scanned and view mode is switched on.
   */
  method LoadChat(s: Session, loaded: seq<Entry>) returns (shown: Option<LoadedInfo>)
    modifies s`chatHistory, s`viewMode
    ensures s.chatHistory == loaded
    ensures s.initialized ==> shown == None && s.viewMode == old(s.viewMode)
    ensures !s.initialized ==> shown == Some(LoadedInfo(LastProject(loaded), LastTables(loaded))) && s.viewMode
  {
    s.chatHistory := loaded;
    shown := None;
    if !s.initialized {
      var project, tables := ScanMetadata(loaded);
      shown := Some(LoadedInfo(project, tables));
      s.viewMode := true;
    }
  }

  /** Entries after the last metadata entry do not disturb it: the last one that has a key wins. */
  lemma {:induction false} LastMetadataWins(pre: seq<Entry>, m: Metadata, post: seq<Entry>)
    requires forall k :: 0 <= k < |post| ==> !post[k].MetadataEntry?
    ensures LastProject(pre + [MetadataEntry(m)] + post) == m.projectId.OrElse(LastProject(pre))
    ensures LastTables(pre + [MetadataEntry(m)] + post) == m.tables.GetOr(LastTables(pre))
    decreases |post|
  {
    var es := pre + [MetadataEntry(m)] + post;
    if post == [] {
      assert es[..|es| - 1] == pre;
    } else {
      var shorter := post[..|post| - 1];
      LastMetadataWins(pre, m, shorter);
      assert es[..|es| - 1] == pre + [MetadataEntry(m)] + shorter;
    }
  }

  // ---------------------------------------------------------------------------
  // Start New Chat
  // ---------------------------------------------------------------------------

  /** What `bigquery.Client(project=...)` did: made a client or raised with a message. */
  datatype Connection = Connected(client: Client) | ConnectFailed(message: string)

  /** A file the save writes: its name under `chats/` and the entries dumped into it. */
  datatype SavedChat = SavedChat(fileName: string, entries: seq<Entry>)

  /** How a press of Start New Chat ended, after the save. */
  datatype StartOutcome =
    | MissingProject
    | MissingTableNames
    | ConnectError(message: string)
    | AccessRefused(error: Option<string>)
    | ModelUnavailable
    | Started

  /** Every entry of the form names both a dataset and a table. */
  predicate AllNamed(tables: seq<TableRef>)
  {
    forall i :: 0 <= i < |tables| ==> tables[i].dataset != "" && tables[i].table != ""
  }

  /** The configuration passes the form's validation. */
  predicate ValidConfig(project: string, tables: seq<TableRef>)
  {
    project != "" && AllNamed(tables)
  }

  /** The outcome of validation, connection, access check and model set-up, in that order. */
  function StartResult(project: string, tables: seq<TableRef>, conn: Connection, modelReady: bool): StartOutcome
  {
    if project == "" then MissingProject
    else if !AllNamed(tables) then MissingTableNames
    else match conn
      case ConnectFailed(m) => ConnectError(m)
      case Connected(c) =>
        var access := VerifyAccess(c, project, tables);
        if !access.success then AccessRefused(access.error)
        else if !modelReady then ModelUnavailable
        else Started
  }

  /** The sidebar message for each outcome. */
  function Notice(o: StartOutcome): string
  {
    match o
    case MissingProject => "Please enter a GCP Project ID"
    case MissingTableNames => "Please enter all dataset and table names"
    case ConnectError(m) => "Error initializing chat: " + m
    case AccessRefused(e) => "Access verification failed: " + e.GetOr("None")
    case ModelUnavailable => "Failed to initialize Gemini model. Check your API key."
    case Started => "Chat initialized successfully!"
  }

  /** The transcript a save writes: one metadata entry in front of the history. */
  function SavedEntries(iso: string, project: string, tables: seq<TableRef>, h: seq<Entry>): seq<Entry>
  {
    [MetadataEntry(Metadata(iso, Some(project), Some(tables)))] + h
  }

  /** The save step: with a non-empty history, write it behind a metadata entry and clear it. */
  method SaveChat(s: Session, now: DateTime, iso: string) returns (saved: Option<SavedChat>)
    modifies s`chatHistory
    ensures saved == if old(s.chatHistory) == [] then None
      else Some(SavedChat(ChatFileName(now), SavedEntries(iso, s.gcpProject, s.tables, old(s.chatHistory))))
    ensures s.chatHistory == []
  {
    saved := None;
    if |s.chatHistory| > 0 {
      s.chatHistory := [MetadataEntry(Metadata(iso, Some(s.gcpProject), Some(s.tables)))] + s.chatHistory;
      saved := Some(SavedChat(ChatFileName(now), s.chatHistory));
      s.chatHistory := [];
    }
  }

  /** Validation, then client, access check, schema and model, stopping at the first failure. */
  method Initialize(s: Session, conn: Connection, modelReady: bool) returns (outcome: StartOutcome)
    requires conn.Connected? ==> conn.client.project == s.gcpProject
    modifies s`client, s`schemaInfo, s`hasModel, s`initialized
    ensures outcome == StartResult(s.gcpProject, s.tables, conn, modelReady)
    ensures s.initialized == (old(s.initialized) || outcome == Started)
    ensures s.client == if ValidConfig(s.gcpProject, s.tables) && conn.Connected? then Some(conn.client) else old(s.client)
    ensures ValidConfig(s.gcpProject, s.tables) && conn.Connected? ==> s.client.value.project == s.gcpProject
    ensures ValidConfig(s.gcpProject, s.tables) && conn.Connected? && VerifyAccess(conn.client, s.gcpProject, s.tables).success
      ==> s.schemaInfo == Extracted(conn.client, s.tables) && s.hasModel == modelReady
    ensures !(ValidConfig(s.gcpProject, s.tables) && conn.Connected? && VerifyAccess(conn.client, s.gcpProject, s.tables).success)
      ==> s.schemaInfo == old(s.schemaInfo) && s.hasModel == old(s.hasModel)
  {
    if s.gcpProject == "" {
      outcome := MissingProject;
    } else if exists i :: 0 <= i < |s.tables| && (s.tables[i].dataset == "" || s.tables[i].table == "") {
      outcome := MissingTableNames;
    } else {
      match conn {
        case ConnectFailed(m) =>
          outcome := ConnectError(m);
        case Connected(c) =>
          s.client := Some(c);
          var access := VerifyAccess(c, s.gcpProject, s.tables);
          if access.success {
            s.schemaInfo := ExtractSchema(c, s.tables);
            s.hasModel := modelReady;
            if !modelReady {
              outcome := ModelUnavailable;
            } else {
              s.initialized := true;
              outcome := Started;
            }
          } else {
            outcome := AccessRefused(access.error);
          }
      }
    }
  }

  /**
   * The Start New Chat button. `now` and `iso` are the two readings of the clock
   * (for the file name and for the metadata); `conn` is what creating the client
   * for the session's project gave; `modelReady` is whether `initialize_gemini_model`
   * returned a handle.
   */
  method StartNewChat(s: Session, now: DateTime, iso: string, conn: Connection, modelReady: bool)
    returns (saved: Option<SavedChat>, outcome: StartOutcome)
    requires conn.Connected? ==> conn.client.project == s.gcpProject
    modifies s`viewMode, s`chatHistory, s`client, s`schemaInfo, s`hasModel, s`initialized
    ensures saved == if old(s.chatHistory) == [] then None
      else Some(SavedChat(ChatFileName(now), SavedEntries(iso, s.gcpProject, s.tables, old(s.chatHistory))))
    ensures outcome == StartResult(s.gcpProject, s.tables, conn, modelReady)
    ensures !s.viewMode && s.chatHistory == []
    ensures s.initialized == (old(s.initialized) || outcome == Started)
    ensures s.client == if ValidConfig(s.gcpProject, s.tables) && conn.Connected? then Some(conn.client) else old(s.client)
    ensures ValidConfig(s.gcpProject, s.tables) && conn.Connected? ==> s.client.value.project == s.gcpProject
    ensures ValidConfig(s.gcpProject, s.tables) && conn.Connected? && VerifyAccess(conn.client, s.gcpProject, s.tables).success
      ==> s.schemaInfo == Extracted(conn.client, s.tables) && s.hasModel == modelReady
    ensures !(ValidConfig(s.gcpProject, s.tables) && conn.Connected? && VerifyAccess(conn.client, s.gcpProject, s.tables).success)
      ==> s.schemaInfo == old(s.schemaInfo) && s.hasModel == old(s.hasModel)
  {
    s.viewMode := false;
    saved := SaveChat(s, now, iso);
    outcome := Initialize(s, conn, modelReady);
  }

  /**
   * The chat starts exactly when the form is filled in, the client is created,
   * the project and every dataset and table can be read, and the model is set up.
   */
  lemma StartedIff(project: string, tables: seq<TableRef>, conn: Connection, modelReady: bool)
    ensures StartResult(project, tables, conn, modelReady) == Started <==>
      ValidConfig(project, tables) && conn.Connected? && modelReady
      && conn.client.serviceAccount.Found?
      && forall i :: 0 <= i < |tables| ==> Passes(conn.client, project, tables[i])
  {
    if conn.Connected? {
      GrantedIffAllFound(conn.client, project, tables);
    }
  }

  /** An incomplete form never reaches the client: validation decides the outcome alone. */
  lemma InvalidConfigStops(project: string, tables: seq<TableRef>, conn: Connection, modelReady: bool)
    ensures !ValidConfig(project, tables) <==>
      StartResult(project, tables, conn, modelReady) in {MissingProject, MissingTableNames}
    ensures project == "" ==> StartResult(project, tables, conn, modelReady) == MissingProject
  {
  }

  /** Loading a chat saved by this application shows the configuration it was saved with. */
  lemma SavedChatRestoresConfig(iso: string, project: string, tables: seq<TableRef>, h: seq<Entry>)
    requires forall k :: 0 <= k < |h| ==> !h[k].MetadataEntry?
    ensures LastProject(SavedEntries(iso, project, tables, h)) == Some(project)
    ensures LastTables(SavedEntries(iso, project, tables, h)) == tables
  {
    LastMetadataWins([], MetadataEntry(Metadata(iso, Some(project), Some(tables))).meta, h);
    assert SavedEntries(iso, project, tables, h) == [] + [MetadataEntry(Metadata(iso, Some(project), Some(tables)))] + h;
  }

  /**
   * Saving a loaded chat again puts the new metadata in front of the old one, so
   * loading the new file shows the configuration of the original save.
   */
  lemma ResavedShowsOriginalConfig(iso: string, project: string, tables: seq<TableRef>, m: Metadata, rest: seq<Entry>)
    requires m.projectId.Some? && m.tables.Some?
    requires forall k :: 0 <= k < |rest| ==> !rest[k].MetadataEntry?
    ensures LastProject(SavedEntries(iso, project, tables, [MetadataEntry(m)] + rest)) == m.projectId
    ensures LastTables(SavedEntries(iso, project, tables, [MetadataEntry(m)] + rest)) == m.tables.value
  {
    var front := [MetadataEntry(Metadata(iso, Some(project), Some(tables)))];
    LastMetadataWins(front, m, rest);
    assert SavedEntries(iso, project, tables, [MetadataEntry(m)] + rest) == front + [MetadataEntry(m)] + rest;
  }

  // ---------------------------------------------------------------------------
  // The main area
  // ---------------------------------------------------------------------------

  /** What the main area shows: the welcome note, or the chat with the input box or the view-mode note. */
  datatype MainArea = Welcome | ChatArea(input: bool, viewNote: bool)

  function Area(initialized: bool, viewMode: bool, history: seq<Entry>): MainArea
  {
    if initialized || (viewMode && history != []) then
      if initialized && !viewMode then ChatArea(true, false)
      else if viewMode then ChatArea(false, true)
      else ChatArea(false, false)
    else Welcome
  }

  /**
   * The chat is shown exactly when initialised or viewing a non-empty loaded
   * chat; the input box exactly when initialised and not viewing; the two notes
   * never together.
   */
  lemma AreaGating(initialized: bool, viewMode: bool, history: seq<Entry>)
    ensures Area(initialized, viewMode, history).ChatArea? <==> initialized || (viewMode && history != [])
    ensures Area(initialized, viewMode, history).ChatArea? ==>
      (Area(initialized, viewMode, history).input <==> initialized && !viewMode)
      && (Area(initialized, viewMode, history).viewNote <==> viewMode)
      && !(Area(initialized, viewMode, history).input && Area(initialized, viewMode, history).viewNote)
  {
  }

  /** After a chat is loaded while not initialised it can be read but not extended. */
  lemma LoadedChatIsReadOnly(loaded: seq<Entry>)
    requires loaded != []
    ensures Area(false, true, loaded) == ChatArea(false, true)
  {
  }

  /**
   * After Start New Chat the view mode is off and the history is empty, so the
   * input box is shown exactly when the session is initialised.
   */
  lemma AfterStart(initialized: bool)
    ensures Area(initialized, false, []) == if initialized then ChatArea(true, false) else Welcome
  {
  }
}
