/**
 * The text layout of a table description: a header naming the table, one
 * line per column with its type and description, a heading, and one line per
 * example row. Built from data that has already been fetched.
 */
module SchemaLayout {
  import opened JsonValues
  import Text

  /** One row of the `describe_table` call. */
  datatype Column = Column(name: string, dataType: string)

  /** One row of the `column_descriptions` table. */
  datatype DescriptionRow = DescriptionRow(column: string, description: Json)

  /** A data row: its columns and values in the order the data source returns them. */
  type Row = seq<(string, Json)>

  /** What the three queries of one table description return. */
  datatype TableData = TableData(columns: seq<Column>, descriptions: seq<DescriptionRow>, examples: seq<Row>)

  /** The description dictionary: a column named in several rows keeps the last one's text. */
  function Descriptions(rows: seq<DescriptionRow>): (m: map<string, Json>)
    ensures forall name :: name in m <==> exists k :: 0 <= k < |rows| && rows[k].column == name
  {
    if rows == [] then map[]
    else
      var last := rows[|rows| - 1];
      var m := Descriptions(rows[..|rows| - 1]);
      assert forall k :: 0 <= k < |rows| - 1 ==> rows[..|rows| - 1][k] == rows[k];
      m[last.column := last.description]
  }

  /** The description of a named column is the one in the last row that names it. */
  lemma {:induction false} DescriptionLastWins(rows: seq<DescriptionRow>, k: nat)
    requires k < |rows|
    requires forall j :: k < j < |rows| ==> rows[j].column != rows[k].column
    ensures rows[k].column in Descriptions(rows)
    ensures Descriptions(rows)[rows[k].column] == rows[k].description
  {
    if k < |rows| - 1 {
      var init := rows[..|rows| - 1];
      assert forall j :: k < j < |init| ==> init[j] == rows[j];
      DescriptionLastWins(init, k);
    }
  }

  const NoDescription := "No description available"

  function Header(table: string): string {
    "Table: " + table + "\nColumns:\n"
  }

  const ExamplesHeading := "\nExample rows:\n"

  /** The description text of one column. */
  function DescriptionOf(c: Column, descriptions: map<string, Json>): Json {
    if c.name in descriptions then descriptions[c.name] else JStr(NoDescription)
  }

  function ColumnLine(c: Column, descriptions: map<string, Json>): string {
    "- " + c.name + " (" + c.dataType + "): " + Display(DescriptionOf(c, descriptions)) + "\n"
  }

  function ColumnLines(cols: seq<Column>, descriptions: map<string, Json>): string {
    if cols == [] then ""
    else ColumnLines(cols[..|cols| - 1], descriptions) + ColumnLine(cols[|cols| - 1], descriptions)
  }

  /** `", ".join(f"{k}: {v}" for k, v in row.items())`. */
  function RowText(row: Row): string {
    Text.Join(seq(|row|, k requires 0 <= k < |row| => row[k].0 + ": " + Display(row[k].1)), ", ")
  }

  function RowLines(rows: seq<Row>): string {
    if rows == [] then ""
    else RowLines(rows[..|rows| - 1]) + RowLine(rows[|rows| - 1])
  }

  function RowLine(row: Row): string {
    "- " + RowText(row) + "\n"
  }

  /** The description of one table, as the LLM prompt receives it. */
  function SchemaText(table: string, data: TableData): string {
    Header(table) + ColumnLines(data.columns, Descriptions(data.descriptions))
    + ExamplesHeading + RowLines(data.examples)
  }

  /** The column lines of a concatenation are the column lines of each part, in order. */
  lemma {:induction false} ColumnLinesAppend(a: seq<Column>, b: seq<Column>, d: map<string, Json>)
    ensures ColumnLines(a + b, d) == ColumnLines(a, d) + ColumnLines(b, d)
    decreases |b|
  {
    if b != [] {
      var b' := b[..|b| - 1];
      assert (a + b)[..|a + b| - 1] == a + b';
      assert (a + b)[|a + b| - 1] == b[|b| - 1];
      ColumnLinesAppend(a, b', d);
    } else {
      assert a + b == a;
    }
  }

  lemma ColumnLinesSnoc(cols: seq<Column>, i: nat, d: map<string, Json>)
    requires i < |cols|
    ensures ColumnLines(cols[..i + 1], d) == ColumnLines(cols[..i], d) + ColumnLine(cols[i], d)
  {
    assert cols[..i + 1][..i] == cols[..i];
  }

  lemma RowLinesSnoc(rows: seq<Row>, j: nat)
    requires j < |rows|
    ensures RowLines(rows[..j + 1]) == RowLines(rows[..j]) + RowLine(rows[j])
  {
    assert rows[..j + 1][..j] == rows[..j];
  }
}
