/**
 * `extract_schema` and `format_schema_for_prompt`: collecting table metadata
 * through the client and laying it out as the schema section of the prompt.
 */
module Schema {
  import opened Wrappers
  import opened Text
  import opened Dict
  import opened Warehouse

  /** One entry of a table's `columns` list (its `default` is always None and not kept). */
  datatype ColumnInfo = ColumnInfo(name: string, fieldType: string, nullable: bool, description: string)

  /** The `table_info` dictionary stored for one table. */
  datatype TableInfo = TableInfo(
    projectId: string,
    datasetId: string,
    tableId: string,
    fullName: string,
    numRows: Option<nat>,
    created: Option<string>,
    description: string,
    columns: seq<ColumnInfo>,
    sampleData: seq<SampleRow>)

  /** `schema_info`: table key to table info, in insertion order. */
  type SchemaInfo = Dict<string, TableInfo>

  // ---------------------------------------------------------------------------
  // extract_schema
  // ---------------------------------------------------------------------------

  /** The key of a table entry, `f"{dataset_id}.{table_id}"`; also the id passed to `get_table`. */
  function TableKey(item: TableRef): string
  {
    item.dataset + "." + item.table
  }

  /** The fully qualified name `f"{project}.{dataset_id}.{table_id}"`. */
  function FullName(project: string, item: TableRef): string
  {
    project + "." + item.dataset + "." + item.table
  }

  /** The column entry built from one schema field. */
  function ColumnOf(f: SchemaField): (c: ColumnInfo)
    ensures c.name == f.name && c.fieldType == f.fieldType
    ensures c.nullable <==> f.mode == "" || f.mode == "NULLABLE"
    ensures f.description.Some? && f.description.value != "" ==> c.description == f.description.value
    ensures f.description.None? ==> c.description == ""
  {
    ColumnInfo(f.name, f.fieldType, f.mode == "" || f.mode == "NULLABLE", f.description.GetOr(""))
  }

  function Columns(fields: seq<SchemaField>): (cs: seq<ColumnInfo>)
    ensures |cs| == |fields|
  {
    seq(|fields|, i requires 0 <= i < |fields| => ColumnOf(fields[i]))
  }

  /** The rows of the sample query; a failing sample query gives no rows. */
  function SampleOf(c: Client, item: TableRef): seq<SampleRow>
  {
    match c.sampleRows(FullName(c.project, item))
    case Found(rows) => rows
    case _ => []
  }

  /** The `table_info` built for `item` from its metadata. */
  function InfoOf(c: Client, item: TableRef, meta: TableMeta): (t: TableInfo)
    ensures t.fullName == FullName(c.project, item) && t.projectId == c.project
    ensures t.datasetId == item.dataset && t.tableId == item.table
    ensures !c.sampleRows(FullName(c.project, item)).Found? ==> t.sampleData == []
    ensures |t.columns| == |meta.schema|
    ensures forall i :: 0 <= i < |meta.schema| ==> t.columns[i] == ColumnOf(meta.schema[i])
  {
    TableInfo(c.project, item.dataset, item.table, FullName(c.project, item),
              meta.numRows, meta.created, meta.description.GetOr(""),
              Columns(meta.schema), SampleOf(c, item))
  }

  /**
   * The schema collected for `tables`, entry by entry: a table whose metadata
   * lookup fails is skipped; a later entry with the same key replaces the value
   * of the earlier one at its original position.
   */
  function Extracted(c: Client, tables: seq<TableRef>): SchemaInfo
  {
    if tables == [] then []
    else
      var item := tables[|tables| - 1];
      var prev := Extracted(c, tables[..|tables| - 1]);
      match c.getTable(TableKey(item))
      case Found(meta) => Put(prev, TableKey(item), InfoOf(c, item, meta))
      case _ => prev
  }

  /** `extract_schema(bq_client, tables)`. */
  method ExtractSchema(c: Client, tables: seq<TableRef>) returns (schema: SchemaInfo)
    ensures schema == Extracted(c, tables)
  {
    schema := [];
    var i := 0;
    while i < |tables|
      invariant 0 <= i <= |tables|
      invariant schema == Extracted(c, tables[..i])
    {
      var item := tables[i];
      assert tables[..i + 1][..i] == tables[..i];
      match c.getTable(TableKey(item)) {
        case Found(meta) =>
          var columns: seq<ColumnInfo> := [];
          var j := 0;
          while j < |meta.schema|
            invariant 0 <= j <= |meta.schema|
            invariant |columns| == j
            invariant forall k :: 0 <= k < j ==> columns[k] == ColumnOf(meta.schema[k])
          {
            columns := columns + [ColumnOf(meta.schema[j])];
            j := j + 1;
          }
          assert columns == Columns(meta.schema);
          var sample: seq<SampleRow>;
          match c.sampleRows(FullName(c.project, item)) {
            case Found(rows) => sample := rows;
            case _ => sample := [];
          }
          var info := TableInfo(c.project, item.dataset, item.table, FullName(c.project, item),
                                meta.numRows, meta.created, meta.description.GetOr(""), columns, sample);
          schema := Put(schema, TableKey(item), info);
        case _ =>
      }
      i := i + 1;
    }
    assert tables[..|tables|] == tables;
  }

  /** The collected schema has one entry per distinct key. */
  lemma {:induction false} ExtractedKeysDistinct(c: Client, tables: seq<TableRef>)
    ensures DistinctKeys(Extracted(c, tables))
  {
    if tables != [] {
      ExtractedKeysDistinct(c, tables[..|tables| - 1]);
    }
  }

  /** A key is present exactly when some entry has it and its metadata lookup succeeds. */
  lemma {:induction false} ExtractedHasKey(c: Client, tables: seq<TableRef>, k: string)
    ensures HasKey(Extracted(c, tables), k) <==>
      c.getTable(k).Found? && exists i :: 0 <= i < |tables| && TableKey(tables[i]) == k
  {
    if tables != [] {
      var init := tables[..|tables| - 1];
      var item := tables[|tables| - 1];
      ExtractedHasKey(c, init, k);
      var prev := Extracted(c, init);
      if c.getTable(TableKey(item)).Found? {
        var meta := c.getTable(TableKey(item)).value;
        GetPut(prev, TableKey(item), InfoOf(c, item, meta), k);
      }
      if exists i :: 0 <= i < |init| && TableKey(init[i]) == k {
        var i :| 0 <= i < |init| && TableKey(init[i]) == k;
        assert tables[i] == init[i];
      }
      if exists i :: 0 <= i < |tables| && TableKey(tables[i]) == k {
        var i :| 0 <= i < |tables| && TableKey(tables[i]) == k;
        if i < |init| { assert init[i] == tables[i]; }
      }
    }
  }

  /** The value stored under a key is the info built from the last entry with that key. */
  lemma {:induction false} ExtractedLastWins(c: Client, tables: seq<TableRef>, i: nat)
    requires i < |tables| && c.getTable(TableKey(tables[i])).Found?
    requires forall j :: i < j < |tables| ==> TableKey(tables[j]) != TableKey(tables[i])
    ensures Get(Extracted(c, tables), TableKey(tables[i]))
      == Some(InfoOf(c, tables[i], c.getTable(TableKey(tables[i])).value))
  {
    var init := tables[..|tables| - 1];
    var item := tables[|tables| - 1];
    var k := TableKey(tables[i]);
    if i == |tables| - 1 {
      GetPut(Extracted(c, init), k, InfoOf(c, item, c.getTable(k).value), k);
    } else {
      assert init[i] == tables[i];
      forall j | i < j < |init| ensures TableKey(init[j]) != k {
        assert init[j] == tables[j];
      }
      ExtractedLastWins(c, init, i);
      if c.getTable(TableKey(item)).Found? {
        GetPut(Extracted(c, init), TableKey(item), InfoOf(c, item, c.getTable(TableKey(item)).value), k);
      }
    }
  }

  /** A table whose metadata lookup fails leaves no trace: the result is as if it were not listed. */
  lemma {:induction false} FailedTableIsSkipped(c: Client, pre: seq<TableRef>, e: TableRef, post: seq<TableRef>)
    requires !c.getTable(TableKey(e)).Found?
    ensures Extracted(c, pre + [e] + post) == Extracted(c, pre + post)
  {
    if post == [] {
      assert pre + [e] + post == pre + [e];
      assert (pre + [e])[..|pre|] == pre;
      assert pre + post == pre;
    } else {
      var last := post[|post| - 1];
      var init := post[..|post| - 1];
      FailedTableIsSkipped(c, pre, e, init);
      assert (pre + [e] + post)[..|pre + [e] + post| - 1] == pre + [e] + init;
      assert (pre + post)[..|pre + post| - 1] == pre + init;
    }
  }

  // ---------------------------------------------------------------------------
  // format_schema_for_prompt
  // ---------------------------------------------------------------------------

  function Max(a: int, b: int): int
  {
    if a < b then b else a
  }

  /** A column's display width: its name's length, widened by every sample value it holds. */
  function Width(name: string, rows: seq<SampleRow>): nat
  {
    if rows == [] then |name|
    else
      var w := Width(name, rows[..|rows| - 1]);
      var row := rows[|rows| - 1];
      if name in row then Max(w, |row[name]|) else w
  }

  /** `col_widths`: each column name mapped to its width, in first-occurrence order. */
  function WidthTable(cols: seq<ColumnInfo>, rows: seq<SampleRow>): Dict<string, int>
  {
    if cols == [] then []
    else
      var name := cols[|cols| - 1].name;
      Put(WidthTable(cols[..|cols| - 1], rows), name, Width(name, rows))
  }

  /** `col_widths.get(name, 15)`. */
  function CellWidth(widths: Dict<string, int>, name: string): int
  {
    Get(widths, name).GetOr(15)
  }

  function HeaderCells(cols: seq<ColumnInfo>, widths: Dict<string, int>): string
  {
    if cols == [] then ""
    else
      var name := cols[|cols| - 1].name;
      HeaderCells(cols[..|cols| - 1], widths) + LeftJustify(name, CellWidth(widths, name) + 2)
  }

  /** Python's `"-" * n`, empty for n <= 0. */
  function Dashes(n: int): string
  {
    if n <= 0 then "" else Repeat('-', n)
  }

  function SeparatorLine(widths: Dict<string, int>): string
  {
    "  " + Dashes(SumValues(widths) + |widths| * 2) + "\n"
  }

  /** The cell of column `name` in `row`: its value, or "NULL" when the row lacks the column. */
  function Cell(row: SampleRow, name: string, widths: Dict<string, int>): string
  {
    if name in row then LeftJustify(row[name], CellWidth(widths, name) + 2)
    else LeftJustify("NULL", CellWidth(widths, name) + 2)
  }

  function RowCells(cols: seq<ColumnInfo>, widths: Dict<string, int>, row: SampleRow): string
  {
    if cols == [] then ""
    else RowCells(cols[..|cols| - 1], widths, row) + Cell(row, cols[|cols| - 1].name, widths)
  }

  function RowLine(cols: seq<ColumnInfo>, widths: Dict<string, int>, row: SampleRow): string
  {
    "  " + RowCells(cols, widths, row) + "\n"
  }

  function RowLines(cols: seq<ColumnInfo>, widths: Dict<string, int>, rows: seq<SampleRow>): string
  {
    if rows == [] then ""
    else RowLines(cols, widths, rows[..|rows| - 1]) + RowLine(cols, widths, rows[|rows| - 1])
  }

  const NoSampleLine: string := "  (No sample data available)\n"

  /** The sample-data part of a table block. */
  function SampleTable(cols: seq<ColumnInfo>, rows: seq<SampleRow>): string
  {
    if rows == [] then NoSampleLine
    else
      var widths := WidthTable(cols, rows);
      "  " + HeaderCells(cols, widths) + "\n" + SeparatorLine(widths) + RowLines(cols, widths, rows)
  }

  /** `str(num_rows)`: the decimal count, or "None" when the client reports none. */
  function RowCountText(n: Option<nat>): string
  {
    match n
    case Some(v) => Decimal(v)
    case None => "None"
  }

  /** A column's line; the description suffix is written only when the description is non-empty. */
  function ColumnLine(c: ColumnInfo): (r: string)
    ensures c.description == "" ==> r == "  - " + c.name + " (" + c.fieldType + ")" + "\n"
    ensures c.description != "" ==> r == "  - " + c.name + " (" + c.fieldType + ")" + ": " + c.description + "\n"
  {
    "  - " + c.name + " (" + c.fieldType + ")" + (if c.description != "" then ": " + c.description else "") + "\n"
  }

  function ColumnLines(cols: seq<ColumnInfo>): string
  {
    if cols == [] then "" else ColumnLines(cols[..|cols| - 1]) + ColumnLine(cols[|cols| - 1])
  }

  function TableTitle(t: TableInfo): string
  {
    "Table: " + t.fullName + "\n"
  }

  /** The lines naming the table, before its optional description. */
  function TableHeading(t: TableInfo): string
  {
    TableTitle(t) + TableFacts(t)
  }

  function TableFacts(t: TableInfo): string
  {
    "  - Project: " + t.projectId + "\n"
    + "  - Dataset: " + t.datasetId + "\n"
    + "  - Table: " + t.tableId + "\n"
    + "  - Row count: " + RowCountText(t.numRows) + "\n"
  }

  /** The description line, present exactly when the description is non-empty. */
  function DescriptionLine(t: TableInfo): (r: string)
    ensures r == "" <==> t.description == ""
  {
    if t.description != "" then "Description: " + t.description + "\n" else ""
  }

  const SampleHeading: string := "\nSample data (first 5 rows):\n"

  /** The block written for one table, ending with a blank-line pair. */
  function TableBlock(t: TableInfo): string
  {
    TableHeading(t) + DescriptionLine(t) + "Columns:\n" + ColumnLines(t.columns)
    + SampleHeading + SampleTable(t.columns, t.sampleData) + "\n\n"
  }

  function Blocks(schema: SchemaInfo): string
  {
    if schema == [] then "" else Blocks(schema[..|schema| - 1]) + TableBlock(schema[|schema| - 1].1)
  }

  lemma BlocksSnoc(schema: SchemaInfo, i: nat)
    requires i < |schema|
    ensures Blocks(schema[..i + 1]) == Blocks(schema[..i]) + TableBlock(schema[i].1)
  {
    assert schema[..i + 1][..i] == schema[..i];
  }

  function Intro(project: string): string
  {
    "Available tables and their schemas in project '" + project + "':\n\n"
  }

  /** The text `format_schema_for_prompt(schema_info, project_id)` returns. */
  function SchemaText(schema: SchemaInfo, project: string): string
  {
    Intro(project) + Blocks(schema)
  }

  /** The width loop of `format_schema_for_prompt`. */
  method ColumnWidths(cols: seq<ColumnInfo>, rows: seq<SampleRow>) returns (widths: Dict<string, int>)
    ensures widths == WidthTable(cols, rows)
  {
    widths := [];
    var i := 0;
    while i < |cols|
      invariant 0 <= i <= |cols|
      invariant widths == WidthTable(cols[..i], rows)
    {
      var name := cols[i].name;
      ghost var before := widths;
      assert cols[..i + 1][..i] == cols[..i];
      widths := Put(widths, name, |name|);
      var j := 0;
      while j < |rows|
        invariant 0 <= j <= |rows|
        invariant widths == Put(before, name, Width(name, rows[..j]))
      {
        assert rows[..j + 1][..j] == rows[..j];
        GetPut(before, name, Width(name, rows[..j]), name);
        if name in rows[j] {
          var current := Get(widths, name).value;
          PutPut(before, name, Width(name, rows[..j]), Max(current, |rows[j][name]|));
          widths := Put(widths, name, Max(current, |rows[j][name]|));
        }
        j := j + 1;
      }
      assert rows[..|rows|] == rows;
      i := i + 1;
    }
    assert cols[..|cols|] == cols;
  }

  /** The header line's cells. */
  method FormatHeader(cols: seq<ColumnInfo>, widths: Dict<string, int>) returns (header: string)
    ensures header == "  " + HeaderCells(cols, widths)
  {
    header := "  ";
    var i := 0;
    while i < |cols|
      invariant 0 <= i <= |cols|
      invariant header == "  " + HeaderCells(cols[..i], widths)
    {
      assert cols[..i + 1][..i] == cols[..i];
      var cell := LeftJustify(cols[i].name, CellWidth(widths, cols[i].name) + 2);
      AppendAssoc("  ", HeaderCells(cols[..i], widths), cell);
      header := header + cell;
      i := i + 1;
    }
    assert cols[..|cols|] == cols;
  }

  /** One sample row's line. */
  method FormatRow(cols: seq<ColumnInfo>, widths: Dict<string, int>, row: SampleRow) returns (line: string)
    ensures line == RowLine(cols, widths, row)
  {
    var rowText := "  ";
    var k := 0;
    while k < |cols|
      invariant 0 <= k <= |cols|
      invariant rowText == "  " + RowCells(cols[..k], widths, row)
    {
      assert cols[..k + 1][..k] == cols[..k];
      var name := cols[k].name;
      var cell;
      if name in row {
        cell := LeftJustify(row[name], CellWidth(widths, name) + 2);
      } else {
        cell := LeftJustify("NULL", CellWidth(widths, name) + 2);
      }
      AppendAssoc("  ", RowCells(cols[..k], widths, row), cell);
      rowText := rowText + cell;
      k := k + 1;
    }
    assert cols[..|cols|] == cols;
    line := rowText + "\n";
  }

  /** The sample-data part for one table: header, separator and one line per row. */
  method FormatSample(cols: seq<ColumnInfo>, rows: seq<SampleRow>) returns (text: string)
    ensures text == SampleTable(cols, rows)
  {
    if rows == [] {
      return NoSampleLine;
    }
    var widths := ColumnWidths(cols, rows);
    var header := FormatHeader(cols, widths);
    text := header + "\n" + SeparatorLine(widths);
    ghost var top := text;
    var r := 0;
    while r < |rows|
      invariant 0 <= r <= |rows|
      invariant text == top + RowLines(cols, widths, rows[..r])
    {
      assert rows[..r + 1][..r] == rows[..r];
      var line := FormatRow(cols, widths, rows[r]);
      AppendAssoc(top, RowLines(cols, widths, rows[..r]), line);
      text := text + line;
      r := r + 1;
    }
    assert rows[..|rows|] == rows;
  }

  /** The block for one table. */
  method FormatTable(t: TableInfo) returns (text: string)
    ensures text == TableBlock(t)
  {
    text := TableHeading(t);
    if t.description != "" {
      text := text + ("Description: " + t.description + "\n");
    }
    text := text + "Columns:\n";
    ghost var top := text;
    assert top == TableHeading(t) + DescriptionLine(t) + "Columns:\n";
    var i := 0;
    while i < |t.columns|
      invariant 0 <= i <= |t.columns|
      invariant text == top + ColumnLines(t.columns[..i])
    {
      assert t.columns[..i + 1][..i] == t.columns[..i];
      var c := t.columns[i];
      var line := "  - " + c.name + " (" + c.fieldType + ")";
      if c.description != "" {
        line := line + ": " + c.description;
      }
      line := line + "\n";
      AppendAssoc(top, ColumnLines(t.columns[..i]), line);
      text := text + line;
      i := i + 1;
    }
    assert t.columns[..|t.columns|] == t.columns;
    text := text + SampleHeading;
    var sample := FormatSample(t.columns, t.sampleData);
    text := text + sample + "\n\n";
  }

  /** `format_schema_for_prompt(schema_info, project_id)`. */
  method FormatSchema(schema: SchemaInfo, project: string) returns (text: string)
    ensures text == SchemaText(schema, project)
  {
    text := Intro(project);
    var i := 0;
    while i < |schema|
      invariant 0 <= i <= |schema|
      invariant text == Intro(project) + Blocks(schema[..i])
    {
      var block := FormatTable(schema[i].1);
      BlocksSnoc(schema, i);
      AppendAssoc(Intro(project), Blocks(schema[..i]), block);
      text := text + block;
      i := i + 1;
    }
    assert schema[..|schema|] == schema;
  }

  // ---------------------------------------------------------------------------
  // Properties of the layout
  // ---------------------------------------------------------------------------

  /** A width is at least the name's length and every present value's length, and is one of them. */
  lemma {:induction false} WidthBounds(name: string, rows: seq<SampleRow>)
    ensures Width(name, rows) >= |name|
    ensures forall i :: 0 <= i < |rows| && name in rows[i] ==> Width(name, rows) >= |rows[i][name]|
    ensures Width(name, rows) == |name|
      || exists i :: 0 <= i < |rows| && name in rows[i] && Width(name, rows) == |rows[i][name]|
  {
    if rows != [] {
      var init := rows[..|rows| - 1];
      WidthBounds(name, init);
      assert forall i :: 0 <= i < |init| ==> init[i] == rows[i];
      if Width(name, rows) != |name| && Width(name, rows) == Width(name, init) {
        var i :| 0 <= i < |init| && name in init[i] && Width(name, init) == |init[i][name]|;
        assert rows[i] == init[i];
      }
    }
  }

  /** The column names, in order. */
  function Names(cols: seq<ColumnInfo>): (ns: seq<string>)
    ensures |ns| == |cols| && forall i :: 0 <= i < |cols| ==> ns[i] == cols[i].name
  {
    seq(|cols|, i requires 0 <= i < |cols| => cols[i].name)
  }

  /** Every listed column has its width in the table; no other name does. */
  lemma {:induction false} WidthTableGet(cols: seq<ColumnInfo>, rows: seq<SampleRow>, name: string)
    ensures Get(WidthTable(cols, rows), name) == if name in Names(cols) then Some(Width(name, rows)) else None
  {
    if cols != [] {
      var init := cols[..|cols| - 1];
      WidthTableGet(init, rows, name);
      GetPut(WidthTable(init, rows), cols[|cols| - 1].name, Width(cols[|cols| - 1].name, rows), name);
      assert Names(cols) == Names(init) + [cols[|cols| - 1].name];
    }
  }

  /** The width looked up for a listed column is its computed width (the default 15 is never used). */
  lemma CellWidthOfColumn(cols: seq<ColumnInfo>, rows: seq<SampleRow>, i: nat)
    requires i < |cols|
    ensures CellWidth(WidthTable(cols, rows), cols[i].name) == Width(cols[i].name, rows)
  {
    WidthTableGet(cols, rows, cols[i].name);
    assert Names(cols)[i] == cols[i].name;
  }

  /** Sum of width + 2 over the first `n` columns. */
  function CellsLength(cols: seq<ColumnInfo>, rows: seq<SampleRow>): int
  {
    if cols == [] then 0
    else CellsLength(cols[..|cols| - 1], rows) + Width(cols[|cols| - 1].name, rows) + 2
  }

  /** Header cells: every header cell is exactly width + 2 long, since a name never exceeds its width. */
  lemma {:induction false} HeaderCellsLength(cols: seq<ColumnInfo>, all: seq<ColumnInfo>, rows: seq<SampleRow>)
    requires cols <= all
    ensures |HeaderCells(cols, WidthTable(all, rows))| == CellsLength(cols, rows)
  {
    if cols != [] {
      var init := cols[..|cols| - 1];
      var name := cols[|cols| - 1].name;
      HeaderCellsLength(init, all, rows);
      CellWidthOfColumn(all, rows, |cols| - 1);
      WidthBounds(name, rows);
    }
  }

  /** A row's cell for a column it holds is exactly width + 2 long; a "NULL" cell is max(4, width + 2) long. */
  lemma CellLength(cols: seq<ColumnInfo>, rows: seq<SampleRow>, i: nat, j: nat)
    requires i < |cols| && j < |rows|
    ensures var name := cols[i].name;
      |Cell(rows[j], name, WidthTable(cols, rows))|
        == if name in rows[j] then Width(name, rows) + 2 else Max(4, Width(name, rows) + 2)
  {
    var name := cols[i].name;
    CellWidthOfColumn(cols, rows, i);
    WidthBounds(name, rows);
  }

  /** Distinct column names: the width table has one entry per column, summing to the widths. */
  lemma {:induction false} DistinctWidthTable(cols: seq<ColumnInfo>, rows: seq<SampleRow>)
    requires forall i, j :: 0 <= i < j < |cols| ==> cols[i].name != cols[j].name
    ensures |WidthTable(cols, rows)| == |cols|
    ensures SumValues(WidthTable(cols, rows)) + 2 * |cols| == CellsLength(cols, rows)
  {
    if cols != [] {
      var init := cols[..|cols| - 1];
      var name := cols[|cols| - 1].name;
      DistinctWidthTable(init, rows);
      var prev := WidthTable(init, rows);
      WidthTableGet(init, rows, name);
      assert forall i :: 0 <= i < |init| ==> init[i].name != name;
      assert name !in Names(init);
      assert !HasKey(prev, name);
      assert Put(prev, name, Width(name, rows)) == prev + [(name, Width(name, rows))];
      assert (prev + [(name, Width(name, rows))])[..|prev|] == prev;
    }
  }

  /** With distinct column names the separator line (without its newline) is as long as the header line. */
  lemma SeparatorMatchesHeader(cols: seq<ColumnInfo>, rows: seq<SampleRow>)
    requires forall i, j :: 0 <= i < j < |cols| ==> cols[i].name != cols[j].name
    ensures var widths := WidthTable(cols, rows);
      |SeparatorLine(widths)| == |"  " + HeaderCells(cols, widths)| + 1
  {
    DistinctWidthTable(cols, rows);
    HeaderCellsLength(cols, cols, rows);
  }

  /** An empty sample gives the single "(No sample data available)" line. */
  lemma EmptySample(cols: seq<ColumnInfo>)
    ensures SampleTable(cols, []) == "  (No sample data available)\n"
  {
  }

  /**
   * A row line is as long as the header line when each column is present in the
   * row or has width at least 2 (a shorter column's "NULL" overflows its cell).
   */
  lemma {:induction false} RowCellsLength(cols: seq<ColumnInfo>, all: seq<ColumnInfo>, rows: seq<SampleRow>, j: nat)
    requires cols <= all && j < |rows|
    requires forall i :: 0 <= i < |cols| ==> cols[i].name in rows[j] || Width(cols[i].name, rows) >= 2
    ensures |RowCells(cols, WidthTable(all, rows), rows[j])| == CellsLength(cols, rows)
  {
    if cols != [] {
      var init := cols[..|cols| - 1];
      var k := |cols| - 1;
      assert init <= all && all[k] == cols[k];
      RowCellsLength(init, all, rows, j);
      CellLength(all, rows, k, j);
      var widths := WidthTable(all, rows);
      assert RowCells(cols, widths, rows[j]) == RowCells(init, widths, rows[j]) + Cell(rows[j], cols[k].name, widths);
      assert CellsLength(cols, rows) == CellsLength(init, rows) + Width(cols[k].name, rows) + 2;
    }
  }

  /** Earlier blocks are a prefix of the text built from more of the schema. */
  lemma {:induction false} BlocksPrefix(schema: SchemaInfo, i: nat)
    requires i <= |schema|
    ensures Blocks(schema[..i]) <= Blocks(schema)
    decreases |schema| - i
  {
    if i < |schema| {
      BlocksPrefix(schema, i + 1);
      BlocksSnoc(schema, i);
      PrefixOfAppend(Blocks(schema[..i]), TableBlock(schema[i].1));
      PrefixTrans(Blocks(schema[..i]), Blocks(schema[..i + 1]), Blocks(schema));
    } else {
      assert schema[..i] == schema;
    }
  }

  /**
   * The schema text opens with the project line and then holds the table blocks
   * in map order: the text up to and including block `i` is a prefix of the whole.
   */
  lemma SchemaTextInOrder(schema: SchemaInfo, project: string, i: nat)
    requires i < |schema|
    ensures Intro(project) + Blocks(schema[..i]) + TableBlock(schema[i].1) <= SchemaText(schema, project)
  {
    BlocksPrefix(schema, i + 1);
    BlocksSnoc(schema, i);
    AppendAssoc(Intro(project), Blocks(schema[..i]), TableBlock(schema[i].1));
    PrefixPrepend(Intro(project), Blocks(schema[..i + 1]), Blocks(schema));
  }

  /** Each table block opens with its "Table: <full name>" line and ends with a blank-line pair. */
  lemma TableBlockShape(t: TableInfo)
    ensures "Table: " + t.fullName + "\n" <= TableBlock(t)
    ensures |TableBlock(t)| >= 2 && TableBlock(t)[|TableBlock(t)| - 2..] == "\n\n"
  {
    var a := TableHeading(t);
    var b := a + DescriptionLine(t);
    var c := b + "Columns:\n";
    var d := c + ColumnLines(t.columns);
    var e := d + SampleHeading;
    var f := e + SampleTable(t.columns, t.sampleData);
    assert TableBlock(t) == f + "\n\n";
    PrefixOfAppend(TableTitle(t), TableFacts(t));
    PrefixOfAppend(a, DescriptionLine(t));
    PrefixOfAppend(b, "Columns:\n");
    PrefixOfAppend(c, ColumnLines(t.columns));
    PrefixOfAppend(d, SampleHeading);
    PrefixOfAppend(e, SampleTable(t.columns, t.sampleData));
    PrefixOfAppend(f, "\n\n");
    PrefixTrans(TableTitle(t), a, b);
    PrefixTrans(TableTitle(t), b, c);
    PrefixTrans(TableTitle(t), c, d);
    PrefixTrans(TableTitle(t), d, e);
    PrefixTrans(TableTitle(t), e, f);
    PrefixTrans(TableTitle(t), f, TableBlock(t));
    SuffixOfAppend(f, "\n\n");
  }
}
