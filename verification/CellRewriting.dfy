// Rewriting chosen columns of a database cell by cell, and what that leaves alone. The upgrade
// and the downgrade of the secret migration are both rewritings of this kind.
module CellRewriting {
  import opened Results
  import opened JsonValues

  // A stored value; a NULL column is simply absent from its row.
  datatype Cell = Doc(json: Json) | Text(text: string)

  datatype Row = Row(id: string, tenant: string, workspace: string, cells: map<string, Cell>)

  datatype Target = Target(table: string, column: string)

  type Tables = map<string, seq<Row>>

  // How a cell of a row of the given tenant and workspace is rewritten, or why it cannot be.
  type Rewrite<!E> = (string, string, Cell) -> Result<Cell, E>

  function CellResult<E>(row: Row, column: string, f: Rewrite<E>): Result<Cell, E>
    requires column in row.cells
  {
    f(row.tenant, row.workspace, row.cells[column])
  }

  function RewriteRow<E>(table: string, row: Row, targets: seq<Target>, f: Rewrite<E>): Row {
    row.(cells := map c | c in row.cells ::
      if Target(table, c) in targets && CellResult(row, c, f).Ok? then CellResult(row, c, f).value else row.cells[c])
  }

  function RewriteRows<E>(table: string, rows: seq<Row>, targets: seq<Target>, f: Rewrite<E>): (r: seq<Row>)
    ensures |r| == |rows|
  {
    seq(|rows|, i requires 0 <= i < |rows| => RewriteRow(table, rows[i], targets, f))
  }

  function RewriteTables<E>(tables: Tables, targets: seq<Target>, f: Rewrite<E>): (r: Tables)
    ensures r.Keys == tables.Keys
  {
    map t | t in tables :: RewriteRows(t, tables[t], targets, f)
  }

  // Every targeted cell can be rewritten.
  ghost predicate RowAccepts<E>(table: string, row: Row, targets: seq<Target>, f: Rewrite<E>) {
    forall c :: c in row.cells && Target(table, c) in targets ==> CellResult(row, c, f).Ok?
  }

  ghost predicate Accepts<E>(tables: Tables, targets: seq<Target>, f: Rewrite<E>) {
    forall t, i :: t in tables && 0 <= i < |tables[t]| ==> RowAccepts(t, tables[t][i], targets, f)
  }

  ghost predicate UniqueIds(rows: seq<Row>) {
    forall i, j :: 0 <= i < j < |rows| ==> rows[i].id != rows[j].id
  }

  // -- One column, row by row --

  // The table after the first `n` rows of the column have been dealt with.
  function Progress<E>(table: string, rows: seq<Row>, column: string, n: nat, f: Rewrite<E>): (r: seq<Row>)
    requires n <= |rows|
    ensures |r| == |rows|
  {
    RewriteRows(table, rows[..n], [Target(table, column)], f) + rows[n..]
  }

  // `UPDATE table SET column = cell WHERE id = id`
  function SetCell(rows: seq<Row>, id: string, column: string, cell: Cell): (r: seq<Row>)
    ensures |r| == |rows|
  {
    seq(|rows|, i requires 0 <= i < |rows| =>
      if rows[i].id == id then rows[i].(cells := rows[i].cells[column := cell]) else rows[i])
  }

  lemma RewriteOneColumn<E>(table: string, row: Row, column: string, f: Rewrite<E>)
    ensures column !in row.cells ==> RewriteRow(table, row, [Target(table, column)], f) == row
    ensures column in row.cells && CellResult(row, column, f).Ok? ==>
      RewriteRow(table, row, [Target(table, column)], f) == row.(cells := row.cells[column := CellResult(row, column, f).value])
  {
    var cells := RewriteRow(table, row, [Target(table, column)], f).cells;
    if column !in row.cells {
      assert cells == row.cells;
    } else if CellResult(row, column, f).Ok? {
      assert cells == row.cells[column := CellResult(row, column, f).value];
    }
  }

  lemma ProgressAt<E>(table: string, rows: seq<Row>, column: string, n: nat, f: Rewrite<E>, i: nat)
    requires n <= |rows| && i < |rows|
    ensures Progress(table, rows, column, n, f)[i] ==
      if i < n then RewriteRow(table, rows[i], [Target(table, column)], f) else rows[i]
  {
  }

  lemma ProgressWritten<E>(table: string, rows: seq<Row>, column: string, n: nat, f: Rewrite<E>)
    requires n < |rows| && UniqueIds(rows) && column in rows[n].cells && CellResult(rows[n], column, f).Ok?
    ensures SetCell(Progress(table, rows, column, n, f), rows[n].id, column, CellResult(rows[n], column, f).value)
      == Progress(table, rows, column, n + 1, f)
  {
    var now, next := Progress(table, rows, column, n, f), Progress(table, rows, column, n + 1, f);
    var written := SetCell(now, rows[n].id, column, CellResult(rows[n], column, f).value);
    forall i | 0 <= i < |rows| ensures written[i] == next[i] {
      ProgressAt(table, rows, column, n, f, i);
      ProgressAt(table, rows, column, n + 1, f, i);
      RewriteOneColumn(table, rows[n], column, f);
    }
  }

  lemma ProgressSkipped<E>(table: string, rows: seq<Row>, column: string, n: nat, f: Rewrite<E>)
    requires n < |rows|
    requires column in rows[n].cells ==> CellResult(rows[n], column, f) == Ok(rows[n].cells[column])
    ensures Progress(table, rows, column, n, f) == Progress(table, rows, column, n + 1, f)
  {
    var now, next := Progress(table, rows, column, n, f), Progress(table, rows, column, n + 1, f);
    forall i | 0 <= i < |rows| ensures now[i] == next[i] {
      ProgressAt(table, rows, column, n, f, i);
      ProgressAt(table, rows, column, n + 1, f, i);
      RewriteOneColumn(table, rows[n], column, f);
      if column in rows[n].cells {
        assert rows[n].cells[column := rows[n].cells[column]] == rows[n].cells;
      }
    }
  }

  lemma RewriteElsewhere<E>(table: string, row: Row, target: Target, f: Rewrite<E>)
    requires table != target.table
    ensures RewriteRow(table, row, [target], f) == row
  {
    assert RewriteRow(table, row, [target], f).cells == row.cells;
  }

  // Finishing a column is rewriting that one target.
  lemma ProgressDone<E>(tables: Tables, target: Target, f: Rewrite<E>)
    requires target.table in tables
    ensures var rows := tables[target.table];
      tables[target.table := Progress(target.table, rows, target.column, |rows|, f)] == RewriteTables(tables, [target], f)
  {
    var rows := tables[target.table];
    var done, r := tables[target.table := Progress(target.table, rows, target.column, |rows|, f)], RewriteTables(tables, [target], f);
    assert done.Keys == r.Keys;
    forall t | t in tables ensures done[t] == r[t] {
      forall i | 0 <= i < |tables[t]| ensures done[t][i] == r[t][i] {
        if t == target.table {
          ProgressAt(t, rows, target.column, |rows|, f, i);
        } else {
          RewriteElsewhere(t, tables[t][i], target, f);
        }
      }
      assert done[t] == r[t];
    }
  }

  // -- One target after another --

  lemma RowThenTarget<E>(table: string, row: Row, targets: seq<Target>, target: Target, f: Rewrite<E>)
    requires target !in targets
    ensures RewriteRow(table, RewriteRow(table, row, targets, f), [target], f) == RewriteRow(table, row, targets + [target], f)
    ensures RowAccepts(table, RewriteRow(table, row, targets, f), [target], f) <==> RowAccepts(table, row, [target], f)
  {
    var first := RewriteRow(table, row, targets, f);
    forall c | c in row.cells && Target(table, c) == target ensures first.cells[c] == row.cells[c] {
    }
    assert RewriteRow(table, first, [target], f).cells == RewriteRow(table, row, targets + [target], f).cells;
  }

  lemma ThenTarget<E>(tables: Tables, targets: seq<Target>, target: Target, f: Rewrite<E>)
    requires target !in targets
    ensures RewriteTables(RewriteTables(tables, targets, f), [target], f) == RewriteTables(tables, targets + [target], f)
    ensures Accepts(RewriteTables(tables, targets, f), [target], f) <==> Accepts(tables, [target], f)
  {
    var first := RewriteTables(tables, targets, f);
    var one, both := RewriteTables(first, [target], f), RewriteTables(tables, targets + [target], f);
    forall t | t in tables ensures one[t] == both[t] {
      forall i | 0 <= i < |tables[t]| ensures one[t][i] == both[t][i] {
        RowThenTarget(t, tables[t][i], targets, target, f);
      }
    }
    forall t, i | t in tables && 0 <= i < |tables[t]|
      ensures RowAccepts(t, first[t][i], [target], f) <==> RowAccepts(t, tables[t][i], [target], f) {
      RowThenTarget(t, tables[t][i], targets, target, f);
    }
  }

  lemma AcceptsAlso<E>(tables: Tables, targets: seq<Target>, target: Target, f: Rewrite<E>)
    ensures Accepts(tables, targets + [target], f) <==> Accepts(tables, targets, f) && Accepts(tables, [target], f)
  {
    forall t, i | t in tables && 0 <= i < |tables[t]|
      ensures RowAccepts(t, tables[t][i], targets + [target], f) <==>
        RowAccepts(t, tables[t][i], targets, f) && RowAccepts(t, tables[t][i], [target], f) {
    }
  }

  // -- What a rewriting does to each single cell --

  // The cell of a rewritten database at a place: the rewritten original when the column is
  // targeted, the original itself in every other column, row and table.
  lemma CellwiseEffect<E>(tables: Tables, targets: seq<Target>, f: Rewrite<E>, t: string, i: nat, c: string)
    requires t in tables && i < |tables[t]| && Accepts(tables, targets, f)
    ensures var row, now := tables[t][i], RewriteTables(tables, targets, f)[t][i];
      && now.id == row.id && now.tenant == row.tenant && now.workspace == row.workspace
      && now.cells.Keys == row.cells.Keys
      && (c in row.cells ==> if Target(t, c) in targets then Ok(now.cells[c]) == CellResult(row, c, f) else now.cells[c] == row.cells[c])
  {
    assert RowAccepts(t, tables[t][i], targets, f);
  }

  // Two databases with the same rows and equal cells everywhere are equal.
  lemma SameCells(a: Tables, b: Tables)
    requires a.Keys == b.Keys
    requires forall t :: t in a ==> |a[t]| == |b[t]|
    requires forall t, i :: t in a && 0 <= i < |a[t]| ==> a[t][i].(cells := map[]) == b[t][i].(cells := map[]) && a[t][i].cells == b[t][i].cells
    ensures a == b
  {
    forall t | t in a ensures a[t] == b[t] {
      forall i | 0 <= i < |a[t]| ensures a[t][i] == b[t][i] {
      }
    }
  }

  // A rewriting that fixes every targeted cell fixes the database.
  lemma FixedCells<E>(tables: Tables, targets: seq<Target>, f: Rewrite<E>)
    requires forall t, i, c :: t in tables && 0 <= i < |tables[t]| && c in tables[t][i].cells && Target(t, c) in targets ==>
      CellResult(tables[t][i], c, f) == Ok(tables[t][i].cells[c])
    ensures Accepts(tables, targets, f) && RewriteTables(tables, targets, f) == tables
  {
    SameCells(RewriteTables(tables, targets, f), tables);
  }

  ghost predicate GoesBack<E>(row: Row, column: string, f: Rewrite<E>, g: Rewrite<E>)
    requires column in row.cells
  {
    CellResult(row, column, f).Ok? && g(row.tenant, row.workspace, CellResult(row, column, f).value) == Ok(row.cells[column])
  }

  // Rewriting with `f` and then with its inverse on the cells at hand changes nothing.
  lemma ThereAndBack<E>(tables: Tables, targets: seq<Target>, f: Rewrite<E>, g: Rewrite<E>)
    requires forall t, i, c :: t in tables && 0 <= i < |tables[t]| && c in tables[t][i].cells && Target(t, c) in targets ==>
      GoesBack(tables[t][i], c, f, g)
    ensures Accepts(tables, targets, f) && Accepts(RewriteTables(tables, targets, f), targets, g)
    ensures RewriteTables(RewriteTables(tables, targets, f), targets, g) == tables
  {
    var there := RewriteTables(tables, targets, f);
    forall t, i | t in tables && 0 <= i < |tables[t]|
      ensures RowAccepts(t, tables[t][i], targets, f) && RowAccepts(t, there[t][i], targets, g)
      ensures RewriteRow(t, there[t][i], targets, g) == tables[t][i] {
      forall c | c in tables[t][i].cells && Target(t, c) in targets
        ensures CellResult(tables[t][i], c, f) == Ok(there[t][i].cells[c])
        ensures CellResult(there[t][i], c, g) == Ok(tables[t][i].cells[c]) {
        assert GoesBack(tables[t][i], c, f, g);
      }
      assert RewriteRow(t, there[t][i], targets, g).cells == tables[t][i].cells;
    }
    SameCells(RewriteTables(there, targets, g), tables);
  }
}
