/**
 * `verify_bq_access`: a fail-fast check that the project, then each listed
 * dataset and table, can be read through the client.
 */
module Access {
  import opened Wrappers
  import opened Text
  import opened Warehouse

  /** One lookup made through the client, in the order made. */
  datatype Probe = AccountProbe | DatasetProbe(path: string) | TableProbe(path: string)

  /** The `{success, error}` dictionary, with the lookups that produced it. */
  datatype Access = Access(success: bool, error: Option<string>, probes: seq<Probe>)

  function DatasetPath(project: string, d: string): string
  {
    project + "." + d
  }

  function TablePath(project: string, d: string, t: string): string
  {
    project + "." + d + "." + t
  }

  /** The message of the outer exception handler. */
  function Unexpected(message: string): string
  {
    "Error verifying access: " + message
  }

  /** Both lookups for the entry succeed. */
  predicate Passes(c: Client, project: string, item: TableRef)
  {
    c.getDataset(DatasetPath(project, item.dataset)).Found?
    && c.getTable(TablePath(project, item.dataset, item.table)).Found?
  }

  /**
   * The checks for one entry: the refusal message, if any, and the lookups made.
   * A lookup failing in some other way than not-found or permission-denied
   * escapes to the outer handler.
   */
  function EntryCheck(c: Client, project: string, item: TableRef): (r: (Option<string>, seq<Probe>))
    ensures r.0.None? <==> Passes(c, project, item)
    ensures |r.1| >= 1 && r.1[0] == DatasetProbe(DatasetPath(project, item.dataset))
    ensures |r.1| <= 2 && (|r.1| == 2 <==> c.getDataset(DatasetPath(project, item.dataset)).Found?)
    ensures |r.1| == 2 ==> r.1[1] == TableProbe(TablePath(project, item.dataset, item.table))
  {
    var dp := DatasetProbe(DatasetPath(project, item.dataset));
    match c.getDataset(DatasetPath(project, item.dataset))
    case NotFound(_) => (Some("Dataset " + item.dataset + " not found in project " + project + "."), [dp])
    case PermissionDenied(_) => (Some("Permission denied for dataset " + item.dataset + " in project " + project + "."), [dp])
    case Failed(m) => (Some(Unexpected(m)), [dp])
    case Found(_) =>
      var tp := TableProbe(TablePath(project, item.dataset, item.table));
      match c.getTable(TablePath(project, item.dataset, item.table))
      case NotFound(_) => (Some("Table " + item.table + " not found in dataset " + item.dataset + "."), [dp, tp])
      case PermissionDenied(_) => (Some("Permission denied for table " + item.table + " in dataset " + item.dataset + "."), [dp, tp])
      case Failed(m) => (Some(Unexpected(m)), [dp, tp])
      case Found(_) => (None, [dp, tp])
  }

  /**
   * The refusal messages: a dataset failure names the dataset and the project,
   * a table failure the table and the dataset; any other failure goes to the
   * outer handler.
   */
  lemma EntryMessages(c: Client, project: string, item: TableRef)
    ensures c.getDataset(DatasetPath(project, item.dataset)).NotFound? ==>
      EntryCheck(c, project, item).0 == Some("Dataset " + item.dataset + " not found in project " + project + ".")
    ensures c.getDataset(DatasetPath(project, item.dataset)).PermissionDenied? ==>
      EntryCheck(c, project, item).0 == Some("Permission denied for dataset " + item.dataset + " in project " + project + ".")
    ensures c.getDataset(DatasetPath(project, item.dataset)).Found? ==>
      (c.getTable(TablePath(project, item.dataset, item.table)).NotFound? ==>
        EntryCheck(c, project, item).0 == Some("Table " + item.table + " not found in dataset " + item.dataset + "."))
      && (c.getTable(TablePath(project, item.dataset, item.table)).PermissionDenied? ==>
        EntryCheck(c, project, item).0 == Some("Permission denied for table " + item.table + " in dataset " + item.dataset + "."))
    ensures c.getDataset(DatasetPath(project, item.dataset)).Failed? ==>
      EntryCheck(c, project, item).0 == Some(Unexpected(c.getDataset(DatasetPath(project, item.dataset)).message))
    ensures (c.getDataset(DatasetPath(project, item.dataset)).Found?
             && c.getTable(TablePath(project, item.dataset, item.table)).Failed?) ==>
      EntryCheck(c, project, item).0 == Some(Unexpected(c.getTable(TablePath(project, item.dataset, item.table)).message))
  {
  }

  /** The loop over the entries, stopping at the first refusal. */
  function CheckEntries(c: Client, project: string, tables: seq<TableRef>): (Option<string>, seq<Probe>)
  {
    if tables == [] then (None, [])
    else
      var first := EntryCheck(c, project, tables[0]);
      if first.0.Some? then first
      else
        var rest := CheckEntries(c, project, tables[1..]);
        (rest.0, first.1 + rest.1)
  }

  /** `verify_bq_access(client, project, tables)`: the project check first, then the entries. */
  function VerifyAccess(c: Client, project: string, tables: seq<TableRef>): Access
  {
    match c.serviceAccount
    case Found(_) =>
      var r := CheckEntries(c, project, tables);
      Access(r.0.None?, r.0, [AccountProbe] + r.1)
    case NotFound(m) => Access(false, Some(Unexpected(m)), [AccountProbe])
    case PermissionDenied(m) => Access(false, Some(Unexpected(m)), [AccountProbe])
    case Failed(m) => Access(false, Some(Unexpected(m)), [AccountProbe])
  }

  /** The lookups made for entries that all passed. */
  function PassedProbes(project: string, tables: seq<TableRef>): seq<Probe>
  {
    if tables == [] then []
    else [DatasetProbe(DatasetPath(project, tables[0].dataset)),
          TableProbe(TablePath(project, tables[0].dataset, tables[0].table))]
         + PassedProbes(project, tables[1..])
  }

  lemma {:induction false} CheckEntriesPassIff(c: Client, project: string, tables: seq<TableRef>)
    ensures CheckEntries(c, project, tables).0.None? <==> forall i :: 0 <= i < |tables| ==> Passes(c, project, tables[i])
    ensures CheckEntries(c, project, tables).0.None? ==>
      CheckEntries(c, project, tables).1 == PassedProbes(project, tables)
  {
    if tables != [] {
      CheckEntriesPassIff(c, project, tables[1..]);
      assert forall i :: 1 <= i < |tables| ==> tables[i] == tables[1..][i - 1];
    }
  }

  /** Entry `i` is the first refused, and the loop's outcome is its refusal after the earlier entries' lookups. */
  ghost predicate FirstFailureAt(c: Client, project: string, tables: seq<TableRef>, i: int)
  {
    0 <= i < |tables|
    && (forall j :: 0 <= j < i ==> Passes(c, project, tables[j]))
    && !Passes(c, project, tables[i])
    && CheckEntries(c, project, tables)
       == (EntryCheck(c, project, tables[i]).0, PassedProbes(project, tables[..i]) + EntryCheck(c, project, tables[i]).1)
  }

  lemma {:induction false} CheckEntriesFirstFailure(c: Client, project: string, tables: seq<TableRef>)
    requires CheckEntries(c, project, tables).0.Some?
    ensures exists i :: FirstFailureAt(c, project, tables, i)
  {
    var first := EntryCheck(c, project, tables[0]);
    if first.0.Some? {
      assert tables[..0] == [];
      assert PassedProbes(project, tables[..0]) + first.1 == first.1;
      assert FirstFailureAt(c, project, tables, 0);
    } else {
      var tail := tables[1..];
      CheckEntriesFirstFailure(c, project, tail);
      var k :| FirstFailureAt(c, project, tail, k);
      var i := k + 1;
      assert tables[i] == tail[k];
      assert tables[..i][1..] == tail[..k];
      assert PassedProbes(project, tables[..i]) == first.1 + PassedProbes(project, tail[..k]);
      forall j | 0 <= j < i ensures Passes(c, project, tables[j]) {
        if j > 0 { assert tables[j] == tail[j - 1]; }
      }
      AppendAssoc(first.1, PassedProbes(project, tail[..k]), EntryCheck(c, project, tail[k]).1);
      assert FirstFailureAt(c, project, tables, i);
    }
  }

  /** Success is reported exactly when the project and every dataset and table lookup succeed. */
  lemma GrantedIffAllFound(c: Client, project: string, tables: seq<TableRef>)
    ensures var r := VerifyAccess(c, project, tables);
      r.success <==> c.serviceAccount.Found? && forall i :: 0 <= i < |tables| ==> Passes(c, project, tables[i])
    ensures var r := VerifyAccess(c, project, tables);
      (r.success <==> r.error.None?)
      && (r.success ==> r.probes == [AccountProbe] + PassedProbes(project, tables))
  {
    CheckEntriesPassIff(c, project, tables);
  }

  /** The project check comes before any other lookup, and a failing one stops everything. */
  lemma ProjectCheckedFirst(c: Client, project: string, tables: seq<TableRef>)
    ensures var r := VerifyAccess(c, project, tables);
      |r.probes| >= 1 && r.probes[0] == AccountProbe
      && (!c.serviceAccount.Found? ==>
            r.probes == [AccountProbe] && !r.success && r.error == Some(Unexpected(c.serviceAccount.message)))
  {
  }

  /**
   * Entries are checked in list order and the first failing one decides the
   * refusal: all earlier entries passed and no later entry was looked up.
   */
  lemma FirstFailureWins(c: Client, project: string, tables: seq<TableRef>)
    requires c.serviceAccount.Found?
    ensures var r := VerifyAccess(c, project, tables);
      !r.success ==> exists i :: (0 <= i < |tables|
        && (forall j :: 0 <= j < i ==> Passes(c, project, tables[j]))
        && !Passes(c, project, tables[i])
        && r.error == EntryCheck(c, project, tables[i]).0
        && r.probes == [AccountProbe] + PassedProbes(project, tables[..i]) + EntryCheck(c, project, tables[i]).1)
  {
    if !VerifyAccess(c, project, tables).success {
      CheckEntriesFirstFailure(c, project, tables);
      var i :| FirstFailureAt(c, project, tables, i);
      AppendAssoc([AccountProbe], PassedProbes(project, tables[..i]), EntryCheck(c, project, tables[i]).1);
    }
  }
}
