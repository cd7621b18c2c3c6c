/**
 * Flattening of the BI tool's data-model schema into the two tables the chat
 * agents query: one row per measure ("Dax Name", "DAX") and one row per
 * column ("Table Name", "Column Name", "Data Type"). The schema starts here as
 * an already decoded list of table definitions; reading and decoding the file
 * is not part of this model.
 */
module SchemaFlattener {
  import opened Common

  /** A measure entry of a table: its `name` and DAX `expression`. */
  datatype Measure = Measure(name: string, expression: string)

  /** A column entry of a table: its `name` and declared `dataType`. */
  datatype Column = Column(name: string, dataType: string)

  /** A table definition; `measures` and `columns` are absent when the key is. */
  datatype TableDef = TableDef(name: string, measures: Option<seq<Measure>>, columns: Option<seq<Column>>)

  /** A row of the measure table after the rename to "Dax Name" and "DAX". */
  datatype MeasureRow = MeasureRow(daxName: string, dax: string)

  /** A row of the column table. */
  datatype ColumnRow = ColumnRow(tableName: string, columnName: string, dataType: string)

  /** Selecting columns that the frame does not have raises a key error. */
  datatype FlattenError = MissingColumns(names: seq<string>)

  const MeasureSelection: seq<string> := ["name", "expression"]
  const ColumnHeaderEmpty: seq<string> := ["Table Name", "Column Name"]
  const ColumnHeaderFull: seq<string> := ["Table Name", "Column Name", "Data Type"]

  // ---------------------------------------------------------------------
  // Concatenation of row blocks, in the order the accumulating loops append
  // ---------------------------------------------------------------------

  /** The blocks appended one after the other, as repeated `concat` builds them. */
  function Concat<T>(blocks: seq<seq<T>>): seq<T>
  {
    if blocks == [] then [] else Concat(blocks[..|blocks| - 1]) + blocks[|blocks| - 1]
  }

  /** The number of elements in all blocks together. */
  function TotalLength<T>(blocks: seq<seq<T>>): nat
  {
    if blocks == [] then 0 else TotalLength(blocks[..|blocks| - 1]) + |blocks[|blocks| - 1]|
  }

  /** Concatenation loses and invents nothing: its length is the sum of the block lengths. */
  lemma {:induction false} ConcatLength<T>(blocks: seq<seq<T>>)
    ensures |Concat(blocks)| == TotalLength(blocks)
  {
    if blocks != [] {
      ConcatLength(blocks[..|blocks| - 1]);
    }
  }

  /**
   * Element `k` of block `j` lands right after all elements of the earlier
   * blocks: blocks keep their order and each block keeps its inner order.
   */
  lemma {:induction false} ConcatAt<T>(blocks: seq<seq<T>>, j: nat, k: nat)
    requires j < |blocks| && k < |blocks[j]|
    ensures TotalLength(blocks[..j]) + k < |Concat(blocks)|
    ensures Concat(blocks)[TotalLength(blocks[..j]) + k] == blocks[j][k]
  {
    var n := |blocks| - 1;
    var init := blocks[..n];
    ConcatLength(init);
    if j == n {
      assert blocks[..j] == init;
    } else {
      assert init[..j] == blocks[..j];
      ConcatAt(init, j, k);
    }
  }

  /** Every element of the concatenation comes from some position of some block. */
  lemma {:induction false} ConcatOrigin<T>(blocks: seq<seq<T>>, p: nat) returns (j: nat, k: nat)
    requires p < |Concat(blocks)|
    ensures j < |blocks| && k < |blocks[j]|
    ensures p == TotalLength(blocks[..j]) + k
    ensures Concat(blocks)[p] == blocks[j][k]
  {
    var n := |blocks| - 1;
    var init := blocks[..n];
    ConcatLength(init);
    if p < |Concat(init)| {
      j, k := ConcatOrigin(init, p);
      assert init[..j] == blocks[..j];
    } else {
      j, k := n, p - |Concat(init)|;
      assert blocks[..j] == init;
    }
  }

  /** Concatenating two block lists is concatenating their results. */
  lemma {:induction false} ConcatAppend<T>(a: seq<seq<T>>, b: seq<seq<T>>)
    ensures Concat(a + b) == Concat(a) + Concat(b)
  {
    if b != [] {
      var n := |b| - 1;
      assert (a + b)[..|a + b| - 1] == a + b[..n];
      ConcatAppend(a, b[..n]);
    } else {
      assert a + b == a;
    }
  }

  // ---------------------------------------------------------------------
  // Measures (the first loop and the projection after it)
  // ---------------------------------------------------------------------

  /** The measures a table adds to the frame: its list, or nothing without the key. */
  function MeasuresOf(t: TableDef): seq<Measure>
  {
    t.measures.GetOr([])
  }

  /** One block of measures per table, in document order. */
  function MeasureBlocks(tables: seq<TableDef>): seq<seq<Measure>>
  {
    seq(|tables|, i requires 0 <= i < |tables| => MeasuresOf(tables[i]))
  }

  /** The number of measures over all tables; a table without the key counts zero. */
  function MeasureCount(tables: seq<TableDef>): nat
  {
    TotalLength(MeasureBlocks(tables))
  }

  /** The accumulated measure frame after the loop. */
  function RawMeasures(tables: seq<TableDef>): seq<Measure>
  {
    Concat(MeasureBlocks(tables))
  }

  /** A measure relabelled to the "Dax Name" / "DAX" columns. */
  function Relabel(m: Measure): MeasureRow
  {
    MeasureRow(m.name, m.expression)
  }

  /**
   * The selection of `name` and `expression` followed by the rename. An empty
   * frame has no columns at all, so the selection raises.
   */
  function ProjectMeasures(frame: seq<Measure>): Result<seq<MeasureRow>, FlattenError>
  {
    if |frame| == 0 then Err(MissingColumns(MeasureSelection))
    else Ok(seq(|frame|, k requires 0 <= k < |frame| => Relabel(frame[k])))
  }

  /** The measure table built from a schema. */
  function MeasureTable(tables: seq<TableDef>): Result<seq<MeasureRow>, FlattenError>
  {
    ProjectMeasures(RawMeasures(tables))
  }

  lemma MeasureBlocksPrefix(tables: seq<TableDef>, i: nat)
    requires i <= |tables|
    ensures MeasureBlocks(tables)[..i] == MeasureBlocks(tables[..i])
  {
  }

  lemma MeasureBlocksAppend(a: seq<TableDef>, b: seq<TableDef>)
    ensures MeasureBlocks(a + b) == MeasureBlocks(a) + MeasureBlocks(b)
  {
  }

  /** The loop of the source: append each table's measures, then select and rename. */
  method FlattenMeasures(tables: seq<TableDef>) returns (result: Result<seq<MeasureRow>, FlattenError>)
    ensures result == MeasureTable(tables)
  {
    var frame: seq<Measure> := [];
    var i := 0;
    while i < |tables|
      invariant 0 <= i <= |tables|
      invariant frame == Concat(MeasureBlocks(tables[..i]))
    {
      var table := tables[i];
      if table.measures.Some? {
        frame := frame + table.measures.value;
      }
      MeasuresStep(tables, i);
      i := i + 1;
    }
    assert tables[..i] == tables;
    result := ProjectMeasures(frame);
  }

  /** One more table appends that table's measures. */
  lemma MeasuresStep(tables: seq<TableDef>, i: nat)
    requires i < |tables|
    ensures Concat(MeasureBlocks(tables[..i + 1])) == Concat(MeasureBlocks(tables[..i])) + MeasuresOf(tables[i])
  {
    assert tables[..i + 1][..i] == tables[..i];
    MeasureBlocksPrefix(tables[..i + 1], i);
  }

  /**
   * The measure table exists exactly when some table contributes a measure,
   * and then holds one row per measure.
   */
  lemma MeasureTableCount(tables: seq<TableDef>)
    ensures MeasureTable(tables).Ok? <==> MeasureCount(tables) > 0
    ensures MeasureTable(tables).Ok? ==> |MeasureTable(tables).value| == MeasureCount(tables)
  {
    ConcatLength(MeasureBlocks(tables));
  }

  /** A schema in which no table has a measure yields the key error. */
  lemma MeasureTableFailsWithoutMeasures(tables: seq<TableDef>)
    requires forall i :: 0 <= i < |tables| ==> MeasuresOf(tables[i]) == []
    ensures MeasureTable(tables) == Err(MissingColumns(["name", "expression"]))
  {
    ConcatLength(MeasureBlocks(tables));
    MeasureCountZero(tables);
  }

  lemma {:induction false} MeasureCountZero(tables: seq<TableDef>)
    requires forall i :: 0 <= i < |tables| ==> MeasuresOf(tables[i]) == []
    ensures MeasureCount(tables) == 0
  {
    if tables != [] {
      var n := |tables| - 1;
      MeasureBlocksPrefix(tables, n);
      MeasureCountZero(tables[..n]);
    }
  }

  /**
   * Measure `k` of table `j` is the row after all measures of the earlier
   * tables, with its name and expression unchanged.
   */
  lemma MeasureRowAt(tables: seq<TableDef>, j: nat, k: nat)
    requires j < |tables| && tables[j].measures.Some? && k < |tables[j].measures.value|
    ensures MeasureTable(tables).Ok?
    ensures MeasureCount(tables[..j]) + k < |MeasureTable(tables).value|
    ensures MeasureTable(tables).value[MeasureCount(tables[..j]) + k]
            == MeasureRow(tables[j].measures.value[k].name, tables[j].measures.value[k].expression)
  {
    var blocks := MeasureBlocks(tables);
    MeasureBlocksPrefix(tables, j);
    ConcatAt(blocks, j, k);
  }

  /** Every measure row is some table's measure, relabelled. */
  lemma MeasureRowOrigin(tables: seq<TableDef>, p: nat) returns (j: nat, k: nat)
    requires MeasureTable(tables).Ok? && p < |MeasureTable(tables).value|
    ensures j < |tables| && tables[j].measures.Some? && k < |tables[j].measures.value|
    ensures p == MeasureCount(tables[..j]) + k
    ensures MeasureTable(tables).value[p]
            == MeasureRow(tables[j].measures.value[k].name, tables[j].measures.value[k].expression)
  {
    var blocks := MeasureBlocks(tables);
    j, k := ConcatOrigin(blocks, p);
    MeasureBlocksPrefix(tables, j);
  }

  /** The measures of earlier tables all come before those of later tables. */
  lemma RawMeasuresAppend(a: seq<TableDef>, b: seq<TableDef>)
    ensures RawMeasures(a + b) == RawMeasures(a) + RawMeasures(b)
  {
    MeasureBlocksAppend(a, b);
    ConcatAppend(MeasureBlocks(a), MeasureBlocks(b));
  }

  /** A table without measures, wherever it stands, changes nothing. */
  lemma MeasurelessTableIgnored(a: seq<TableDef>, t: TableDef, b: seq<TableDef>)
    requires MeasuresOf(t) == []
    ensures MeasureTable(a + [t] + b) == MeasureTable(a + b)
  {
    RawMeasuresAppend(a + [t], b);
    RawMeasuresAppend(a, [t]);
    RawMeasuresAppend(a, b);
    assert RawMeasures([t]) == [] by {
      var blocks := MeasureBlocks([t]);
      assert blocks[..0] == [] && blocks[0] == [];
      assert Concat(blocks) == Concat(blocks[..0]) + blocks[0];
    }
    assert RawMeasures(a + [t]) == RawMeasures(a);
    assert RawMeasures(a + [t] + b) == RawMeasures(a + b);
  }

  // ---------------------------------------------------------------------
  // Columns (the second, nested loop)
  // ---------------------------------------------------------------------

  /** The rows a table adds: one per column, carrying the table's name. */
  function ColumnRowsOf(t: TableDef): seq<ColumnRow>
  {
    var cols := t.columns.GetOr([]);
    seq(|cols|, k requires 0 <= k < |cols| => ColumnRow(t.name, cols[k].name, cols[k].dataType))
  }

  /** One block of column rows per table, in document order. */
  function ColumnBlocks(tables: seq<TableDef>): seq<seq<ColumnRow>>
  {
    seq(|tables|, i requires 0 <= i < |tables| => ColumnRowsOf(tables[i]))
  }

  /** The number of columns over all tables; a table without the key counts zero. */
  function ColumnCount(tables: seq<TableDef>): nat
  {
    if tables == [] then 0
    else ColumnCount(tables[..|tables| - 1]) + |tables[|tables| - 1].columns.GetOr([])|
  }

  /** The column table built from a schema. */
  function ColumnTable(tables: seq<TableDef>): seq<ColumnRow>
  {
    Concat(ColumnBlocks(tables))
  }

  lemma ColumnBlocksPrefix(tables: seq<TableDef>, i: nat)
    requires i <= |tables|
    ensures ColumnBlocks(tables)[..i] == ColumnBlocks(tables[..i])
  {
  }

  /** The row blocks hold as many rows as the tables hold columns. */
  lemma {:induction false} ColumnCountBlocks(tables: seq<TableDef>)
    ensures TotalLength(ColumnBlocks(tables)) == ColumnCount(tables)
  {
    if tables != [] {
      var n := |tables| - 1;
      ColumnBlocksPrefix(tables, n);
      ColumnCountBlocks(tables[..n]);
    }
  }

  lemma ColumnBlocksAppend(a: seq<TableDef>, b: seq<TableDef>)
    ensures ColumnBlocks(a + b) == ColumnBlocks(a) + ColumnBlocks(b)
  {
  }

  /**
   * The nested loop of the source: one appended row per column. The frame
   * starts with only the "Table Name" and "Column Name" headers and gains
   * "Data Type" with the first appended row.
   */
  method FlattenColumns(tables: seq<TableDef>) returns (rows: seq<ColumnRow>, header: seq<string>)
    ensures rows == ColumnTable(tables)
    ensures header == if rows == [] then ColumnHeaderEmpty else ColumnHeaderFull
  {
    rows, header := [], ColumnHeaderEmpty;
    var i := 0;
    while i < |tables|
      invariant 0 <= i <= |tables|
      invariant rows == Concat(ColumnBlocks(tables[..i]))
      invariant header == if |rows| == 0 then ColumnHeaderEmpty else ColumnHeaderFull
    {
      var table := tables[i];
      ghost var before := rows;
      if table.columns.Some? {
        var cols := table.columns.value;
        ghost var block := ColumnRowsOf(table);
        var k := 0;
        while k < |cols|
          invariant 0 <= k <= |cols| == |block|
          invariant rows == before + block[..k]
          invariant header == if |rows| == 0 then ColumnHeaderEmpty else ColumnHeaderFull
        {
          assert block[k] == ColumnRow(table.name, cols[k].name, cols[k].dataType);
          assert block[..k + 1] == block[..k] + [block[k]];
          rows := rows + [ColumnRow(table.name, cols[k].name, cols[k].dataType)];
          header := ColumnHeaderFull;
          k := k + 1;
        }
        assert block[..k] == block;
      }
      ColumnsStep(tables, i);
      i := i + 1;
    }
    assert tables[..i] == tables;
  }

  /** One more table appends that table's column rows. */
  lemma ColumnsStep(tables: seq<TableDef>, i: nat)
    requires i < |tables|
    ensures Concat(ColumnBlocks(tables[..i + 1])) == Concat(ColumnBlocks(tables[..i])) + ColumnRowsOf(tables[i])
  {
    assert tables[..i + 1][..i] == tables[..i];
    ColumnBlocksPrefix(tables[..i + 1], i);
  }

  /** One column row per column of every table that has the key. */
  lemma ColumnTableCount(tables: seq<TableDef>)
    ensures |ColumnTable(tables)| == ColumnCount(tables)
  {
    ConcatLength(ColumnBlocks(tables));
    ColumnCountBlocks(tables);
  }

  /**
   * Column `k` of table `j` is the row after all columns of the earlier
   * tables, and carries the table's name, the column's name and its type.
   */
  lemma ColumnRowAt(tables: seq<TableDef>, j: nat, k: nat)
    requires j < |tables| && tables[j].columns.Some? && k < |tables[j].columns.value|
    ensures ColumnCount(tables[..j]) + k < |ColumnTable(tables)|
    ensures ColumnTable(tables)[ColumnCount(tables[..j]) + k]
            == ColumnRow(tables[j].name, tables[j].columns.value[k].name, tables[j].columns.value[k].dataType)
  {
    ColumnBlocksPrefix(tables, j);
    ColumnCountBlocks(tables[..j]);
    ConcatAt(ColumnBlocks(tables), j, k);
  }

  /** Every column row is some table's column, with that table's name. */
  lemma ColumnRowOrigin(tables: seq<TableDef>, p: nat) returns (j: nat, k: nat)
    requires p < |ColumnTable(tables)|
    ensures j < |tables| && tables[j].columns.Some? && k < |tables[j].columns.value|
    ensures p == ColumnCount(tables[..j]) + k
    ensures ColumnTable(tables)[p]
            == ColumnRow(tables[j].name, tables[j].columns.value[k].name, tables[j].columns.value[k].dataType)
  {
    j, k := ConcatOrigin(ColumnBlocks(tables), p);
    ColumnBlocksPrefix(tables, j);
    ColumnCountBlocks(tables[..j]);
  }

  /** The columns of earlier tables all come before those of later tables. */
  lemma ColumnTableAppend(a: seq<TableDef>, b: seq<TableDef>)
    ensures ColumnTable(a + b) == ColumnTable(a) + ColumnTable(b)
  {
    ColumnBlocksAppend(a, b);
    ConcatAppend(ColumnBlocks(a), ColumnBlocks(b));
  }
}
