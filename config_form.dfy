/**
 * The configuration form's edits of the dataset/table list: `add_table`,
 * `remove_table` and `update_table` on `st.session_state.tables`.
 */
module ConfigForm {
  import opened Warehouse
  import opened SessionState

  /** The entry `add_table` appends. */
  const EmptyEntry: TableRef := TableRef("", "")

  /** The list after `add_table`. */
  function Added(ts: seq<TableRef>): seq<TableRef>
  {
    ts + [EmptyEntry]
  }

  /** The list after `remove_table(index)`: entry `index` goes only when `0 < index < len`. */
  function Removed(ts: seq<TableRef>, index: int): seq<TableRef>
  {
    if index < |ts| && index > 0 then ts[..index] + ts[index + 1..] else ts
  }

  /**
   * The list after `update_table(index, field)` with the widget's current `value`.
   * An index past the end makes the assignment raise, so the list stays as it was.
   */
  function Updated(ts: seq<TableRef>, index: nat, field: string, value: string): seq<TableRef>
  {
    if index >= |ts| then ts
    else if field == "dataset" then ts[index := ts[index].(dataset := value)]
    else if field == "table" then ts[index := ts[index].(table := value)]
    else ts
  }

  /** Whether `update_table(index, field)` raises: a known field at an index past the end. */
  predicate UpdateRaises(ts: seq<TableRef>, index: nat, field: string)
  {
    (field == "dataset" || field == "table") && index >= |ts|
  }

  /** `add_table()`. */
  method AddTable(s: Session)
    modifies s`tables
    ensures s.tables == Added(old(s.tables))
  {
    s.tables := s.tables + [TableRef("", "")];
  }

  /** `remove_table(index)`. */
  method RemoveTable(s: Session, index: int)
    modifies s`tables
    ensures s.tables == Removed(old(s.tables), index)
  {
    if index < |s.tables| && index > 0 {
      s.tables := s.tables[..index] + s.tables[index + 1..];
    }
  }

  /**
   * `update_table(index, field)`; `value` is what the widget keyed by field and index
   * holds. `raised` reports the index error the assignment raises past the end.
   */
  method UpdateTable(s: Session, index: nat, field: string, value: string) returns (raised: bool)
    modifies s`tables
    ensures raised == UpdateRaises(old(s.tables), index, field)
    ensures s.tables == Updated(old(s.tables), index, field, value)
  {
    raised := false;
    if field == "dataset" {
      if index < |s.tables| {
        s.tables := s.tables[index := s.tables[index].(dataset := value)];
      } else {
        raised := true;
      }
    } else if field == "table" {
      if index < |s.tables| {
        s.tables := s.tables[index := s.tables[index].(table := value)];
      } else {
        raised := true;
      }
    }
  }

  /** Adding appends exactly one empty entry and leaves the others in place. */
  lemma AddAppendsOne(ts: seq<TableRef>)
    ensures |Added(ts)| == |ts| + 1 && Added(ts)[..|ts|] == ts && Added(ts)[|ts|] == TableRef("", "")
  {
    assert Added(ts)[..|ts|] == ts;
  }

  /**
   * Removal deletes entry `index` exactly when `0 < index < len`, shifting the later
   * entries down by one; otherwise nothing changes.
   */
  lemma RemoveDeletesOne(ts: seq<TableRef>, index: int)
    ensures Removed(ts, index) != ts <==> 0 < index < |ts|
    ensures 0 < index < |ts| ==>
      |Removed(ts, index)| == |ts| - 1
      && (forall j :: 0 <= j < index ==> Removed(ts, index)[j] == ts[j])
      && (forall j :: index <= j < |ts| - 1 ==> Removed(ts, index)[j] == ts[j + 1])
  {
    if 0 < index < |ts| {
      var r := ts[..index] + ts[index + 1..];
      assert Removed(ts, index) == r && |r| == |ts| - 1;
      forall j | 0 <= j < index ensures r[j] == ts[j] {
        assert r[j] == ts[..index][j];
      }
      forall j | index <= j < |ts| - 1 ensures r[j] == ts[j + 1] {
        assert r[j] == ts[index + 1..][j - index];
      }
    }
  }

  /** Removal never empties a non-empty list and never touches the first entry. */
  lemma RemoveKeepsFirst(ts: seq<TableRef>, index: int)
    requires |ts| >= 1
    ensures |Removed(ts, index)| >= 1 && Removed(ts, index)[0] == ts[0]
  {
  }

  /**
   * An update changes only the named field of the named entry; an unknown field
   * or an index past the end changes nothing, and only the latter raises.
   */
  lemma UpdateChangesOneField(ts: seq<TableRef>, index: nat, field: string, value: string)
    ensures var r := Updated(ts, index, field, value);
      |r| == |ts|
      && (forall j :: 0 <= j < |ts| && j != index ==> r[j] == ts[j])
      && (index < |ts| ==>
            r[index].dataset == (if field == "dataset" then value else ts[index].dataset)
            && r[index].table == (if field == "table" then value else ts[index].table))
    ensures index >= |ts| ==> Updated(ts, index, field, value) == ts
    ensures UpdateRaises(ts, index, field) ==> index >= |ts|
  {
  }

  /** The indices the form offers a remove button for: every entry but the first. */
  function RemoveButtons(ts: seq<TableRef>): (r: seq<int>)
    ensures |r| == if |ts| > 0 then |ts| - 1 else 0
  {
    seq(if |ts| > 0 then |ts| - 1 else 0, j => j + 1)
  }

  /** A remove button is offered for exactly the indices removal honours. */
  lemma RemoveButtonsAreRemovable(ts: seq<TableRef>, i: int)
    ensures i in RemoveButtons(ts) <==> 0 < i < |ts|
    ensures i in RemoveButtons(ts) ==> |Removed(ts, i)| == |ts| - 1
  {
    if 0 < i < |ts| {
      assert RemoveButtons(ts)[i - 1] == i;
    }
  }

  /** An edit made through the form. */
  datatype Edit = Add | Remove(index: int) | Update(position: nat, field: string, value: string)

  function Step(ts: seq<TableRef>, e: Edit): seq<TableRef>
  {
    match e
    case Add => Added(ts)
    case Remove(i) => Removed(ts, i)
    case Update(i, f, v) => Updated(ts, i, f, v)
  }

  function ApplyEdits(ts: seq<TableRef>, es: seq<Edit>): seq<TableRef>
    decreases |es|
  {
    if es == [] then ts else ApplyEdits(Step(ts, es[0]), es[1..])
  }

  /** Whether an edit rewrites the first entry. */
  predicate TouchesFirst(e: Edit)
  {
    e.Update? && e.position == 0 && (e.field == "dataset" || e.field == "table")
  }

  /**
   * From the initial one-entry list, any sequence of form edits leaves a non-empty
   * list, and the first entry stays in place: it changes only by updates to it.
   */
  lemma {:induction false} EditsKeepFirstEntry(ts: seq<TableRef>, es: seq<Edit>)
    requires |ts| >= 1
    ensures |ApplyEdits(ts, es)| >= 1
    ensures (forall k :: 0 <= k < |es| ==> !TouchesFirst(es[k])) ==> ApplyEdits(ts, es)[0] == ts[0]
    decreases |es|
  {
    if es != [] {
      var next := Step(ts, es[0]);
      match es[0] {
        case Add =>
        case Remove(i) => RemoveKeepsFirst(ts, i);
        case Update(i, f, v) => UpdateChangesOneField(ts, i, f, v);
      }
      EditsKeepFirstEntry(next, es[1..]);
      if forall k :: 0 <= k < |es| ==> !TouchesFirst(es[k]) {
        assert forall k :: 0 <= k < |es[1..]| ==> es[1..][k] == es[k + 1];
        assert !TouchesFirst(es[0]);
        assert next[0] == ts[0];
      }
    }
  }
}
