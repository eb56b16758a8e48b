/**
 * Schema retrieval: the list of known tables, the text description of one
 * table built from its already-fetched columns, column descriptions and
 * example rows, the concatenation of all such descriptions, and the check of
 * the two known foreign-key relationships against the live column lists.
 * Every database call is a parameter that either returns rows or raises.
 */
module SchemaRetrieval {
  import opened Outcomes
  import opened JsonValues
  import opened SchemaLayout
  import Text

  /** The value `DB_TABLES` falls back to when it is not set. */
  const DefaultTables := "products,users,transactions"

  /** The table list: the environment value of `DB_TABLES`, or its default, split at commas. */
  function AvailableTables(env: Option<string>): (tables: seq<string>)
    ensures |tables| >= 1
    ensures forall k :: 0 <= k < |tables| ==> ',' !in tables[k]
    ensures Text.Join(tables, ",") == env.GetOr(DefaultTables)
    ensures env.None? ==> tables == ["products", "users", "transactions"]
  {
    Text.JoinSplit(env.GetOr(DefaultTables), ',');
    if env.None? then DefaultTablesSplit(); Text.Split(DefaultTables, ',')
    else Text.Split(env.value, ',')
  }

  /** The default splits into the three tables of the shop. */
  lemma DefaultTablesSplit()
    ensures Text.Split(DefaultTables, ',') == ["products", "users", "transactions"]
  {
    var expected := ["products", "users", "transactions"];
    assert Text.Join(expected[2..], ",") == "transactions";
    assert Text.Join(expected[1..], ",") == "users" + "," + "transactions";
    assert Text.Join(expected, ",") == "products" + "," + "users" + "," + "transactions";
    assert "products" + "," + "users" + "," + "transactions" == DefaultTables;
    Text.SplitJoin(expected, ',');
  }

  /** A column that no description row names is described in the fixed words. */
  lemma ColumnWithoutDescription(c: Column, rows: seq<DescriptionRow>)
    requires forall k :: 0 <= k < |rows| ==> rows[k].column != c.name
    ensures Display(DescriptionOf(c, Descriptions(rows))) == "No description available"
  {
  }

  /** `get_table_schema`: the same text, accumulated line by line as the source does. */
  method GetTableSchema(table: string, data: TableData) returns (schema: string)
    ensures schema == SchemaText(table, data)
  {
    var descriptions := Descriptions(data.descriptions);
    schema := Header(table);
    schema := AppendColumnLines(schema, data.columns, descriptions);
    schema := schema + ExamplesHeading;
    schema := AppendRowLines(schema, data.examples);
  }

  /** The column loop of `get_table_schema`: one line per column appended to `schema`. */
  method AppendColumnLines(start: string, cols: seq<Column>, descriptions: map<string, Json>) returns (schema: string)
    ensures schema == start + ColumnLines(cols, descriptions)
  {
    schema := start;
    var i := 0;
    while i < |cols|
      invariant 0 <= i <= |cols|
      invariant schema == start + ColumnLines(cols[..i], descriptions)
    {
      ColumnLinesSnoc(cols, i, descriptions);
      Text.Assoc(start, ColumnLines(cols[..i], descriptions), ColumnLine(cols[i], descriptions));
      schema := schema + ColumnLine(cols[i], descriptions);
      i := i + 1;
    }
    assert cols[..i] == cols;
  }

  /** The example-row loop of `get_table_schema`: one line per row appended to `schema`. */
  method AppendRowLines(start: string, rows: seq<Row>) returns (schema: string)
    ensures schema == start + RowLines(rows)
  {
    schema := start;
    var j := 0;
    while j < |rows|
      invariant 0 <= j <= |rows|
      invariant schema == start + RowLines(rows[..j])
    {
      RowLinesSnoc(rows, j);
      Text.Assoc(start, RowLines(rows[..j]), RowLine(rows[j]));
      schema := schema + RowLine(rows[j]);
      j := j + 1;
    }
    assert rows[..j] == rows;
  }

  /** Rows fetched per table when all descriptions are gathered. */
  const AllSchemasSampleRows := 3

  /** The descriptions of `tables`, each after a blank line, stopping at the first fetch that raises. */
  function AllSchemas(tables: seq<string>, fetch: (string, nat) -> Result<TableData>): Result<string> {
    if tables == [] then Ok("")
    else
      match AllSchemas(tables[..|tables| - 1], fetch)
      case Raised(m) => Raised(m)
      case Ok(text) =>
        var t := tables[|tables| - 1];
        match fetch(t, AllSchemasSampleRows)
        case Raised(m) => Raised(m)
        case Ok(data) => Ok(text + Block(t, data))
  }

  /** One table's part of the combined text. */
  function Block(table: string, data: TableData): string {
    "\n\n" + SchemaText(table, data)
  }

  /** The blocks of a table list whose fetches all succeed, in list order. */
  function BlockList(tables: seq<string>, fetch: (string, nat) -> Result<TableData>): (blocks: seq<string>)
    requires forall k :: 0 <= k < |tables| ==> fetch(tables[k], AllSchemasSampleRows).Ok?
    ensures |blocks| == |tables|
  {
    seq(|tables|, k requires 0 <= k < |tables| => Block(tables[k], fetch(tables[k], AllSchemasSampleRows).value))
  }

  /**
   * When every table's data can be fetched, the result is "\n\n" followed by
   * that table's description, for each table in list order.
   */
  lemma {:induction false} AllSchemasConcatenates(tables: seq<string>, fetch: (string, nat) -> Result<TableData>)
    requires forall k :: 0 <= k < |tables| ==> fetch(tables[k], AllSchemasSampleRows).Ok?
    ensures AllSchemas(tables, fetch) == Ok(Text.Concat(BlockList(tables, fetch)))
  {
    if tables != [] {
      var init := tables[..|tables| - 1];
      assert forall k :: 0 <= k < |init| ==> init[k] == tables[k];
      AllSchemasConcatenates(init, fetch);
      var blocks := BlockList(tables, fetch);
      assert blocks[..|blocks| - 1] == BlockList(init, fetch);
      Text.ConcatSnoc(blocks);
    }
  }

  /** `get_all_schemas`: the same text, accumulated table by table. */
  method GetAllSchemas(tables: seq<string>, fetch: (string, nat) -> Result<TableData>) returns (r: Result<string>)
    ensures r == AllSchemas(tables, fetch)
  {
    var all := "";
    var i := 0;
    while i < |tables|
      invariant 0 <= i <= |tables|
      invariant AllSchemas(tables[..i], fetch) == Ok(all)
    {
      assert tables[..i + 1][..i] == tables[..i];
      var fetched := fetch(tables[i], AllSchemasSampleRows);
      if fetched.Raised? {
        RaisedPersists(tables, fetch, i + 1);
        return Raised(fetched.message);
      }
      var schema := GetTableSchema(tables[i], fetched.value);
      all := all + ("\n\n" + schema);
      i := i + 1;
    }
    assert tables[..i] == tables;
    r := Ok(all);
  }

  /** Once a prefix of the table list raises, every longer prefix raises the same. */
  lemma {:induction false} RaisedPersists(tables: seq<string>, fetch: (string, nat) -> Result<TableData>, i: nat)
    requires i <= |tables|
    requires AllSchemas(tables[..i], fetch).Raised?
    ensures AllSchemas(tables, fetch) == AllSchemas(tables[..i], fetch)
    decreases |tables| - i
  {
    if i < |tables| {
      assert tables[..i + 1][..i] == tables[..i];
      RaisedPersists(tables, fetch, i + 1);
    } else {
      assert tables[..i] == tables;
    }
  }

  /** A foreign-key relationship between two tables. */
  datatype Relationship = Relationship(fromTable: string, fromColumn: string, toTable: string, toColumn: string)

  /** The relationships the source knows of, by column name. */
  const Candidates := [
    Relationship("transactions", "user_id", "users", "user_id"),
    Relationship("transactions", "product_id", "products", "product_id")
  ]

  /** Both tables are listed. */
  predicate Listed(rel: Relationship, tables: seq<string>) {
    rel.fromTable in tables && rel.toTable in tables
  }

  /** Both tables are listed and the column lists confirm both columns. */
  predicate Confirmed(rel: Relationship, tables: seq<string>, describe: string -> Result<seq<string>>) {
    && Listed(rel, tables)
    && describe(rel.fromTable).Ok? && describe(rel.toTable).Ok?
    && rel.fromColumn in describe(rel.fromTable).value
    && rel.toColumn in describe(rel.toTable).value
  }

  /** The candidates that survive the checks, in candidate order. */
  function KeepConfirmed(cands: seq<Relationship>, tables: seq<string>, describe: string -> Result<seq<string>>): Result<seq<Relationship>> {
    if cands == [] then Ok([])
    else
      match KeepConfirmed(cands[..|cands| - 1], tables, describe)
      case Raised(m) => Raised(m)
      case Ok(kept) =>
        var rel := cands[|cands| - 1];
        if !Listed(rel, tables) then Ok(kept)
        else
          match describe(rel.fromTable)
          case Raised(m) => Raised(m)
          case Ok(cols1) =>
            match describe(rel.toTable)
            case Raised(m) => Raised(m)
            case Ok(cols2) =>
              if rel.fromColumn in cols1 && rel.toColumn in cols2 then Ok(kept + [rel]) else Ok(kept)
  }

  /** `xs` is `ys` with some elements removed, the rest in their order. */
  predicate IsSubsequence<T(==)>(xs: seq<T>, ys: seq<T>)
    decreases |ys|
  {
    if xs == [] then true
    else if ys == [] then false
    else if xs[|xs| - 1] == ys[|ys| - 1] then IsSubsequence(xs[..|xs| - 1], ys[..|ys| - 1])
    else IsSubsequence(xs, ys[..|ys| - 1])
  }

  lemma {:induction false} SubsequenceExtend<T>(xs: seq<T>, ys: seq<T>, y: T)
    requires IsSubsequence(xs, ys)
    ensures IsSubsequence(xs, ys + [y])
    decreases |ys|
  {
    if xs != [] {
      assert (ys + [y])[..|ys|] == ys;
      if xs[|xs| - 1] == y {
        assert IsSubsequence(xs[..|xs| - 1], ys) by {
          SubsequenceDropLast(xs, ys);
        }
      }
    }
  }

  lemma {:induction false} SubsequenceDropLast<T>(xs: seq<T>, ys: seq<T>)
    requires xs != [] && IsSubsequence(xs, ys)
    ensures IsSubsequence(xs[..|xs| - 1], ys)
    decreases |ys|
  {
    var init := xs[..|xs| - 1];
    if init != [] {
      assert ys != [];
      var ys' := ys[..|ys| - 1];
      if xs[|xs| - 1] == ys[|ys| - 1] {
        if init[|init| - 1] == ys[|ys| - 1] {
          assert init[..|init| - 1] == xs[..|xs| - 2];
          SubsequenceDropLast(init, ys');
        } else {
          assert IsSubsequence(init, ys');
        }
      } else {
        SubsequenceDropLast(xs, ys');
        if init[|init| - 1] == ys[|ys| - 1] {
          SubsequenceDropLast(init, ys');
          assert IsSubsequence(init[..|init| - 1], ys');
        }
      }
    }
  }

  /**
   * The relationships returned are those candidates, in candidate order, whose
   * two tables are listed and whose two columns the column lists confirm.
   */
  lemma {:induction false} KeepConfirmedSpec(cands: seq<Relationship>, tables: seq<string>, describe: string -> Result<seq<string>>)
    requires KeepConfirmed(cands, tables, describe).Ok?
    ensures IsSubsequence(KeepConfirmed(cands, tables, describe).value, cands)
    ensures forall rel :: rel in KeepConfirmed(cands, tables, describe).value <==> rel in cands && Confirmed(rel, tables, describe)
  {
    if cands != [] {
      var init := cands[..|cands| - 1];
      var rel := cands[|cands| - 1];
      KeepConfirmedSpec(init, tables, describe);
      var kept := KeepConfirmed(init, tables, describe).value;
      assert cands == init + [rel];
      var r := KeepConfirmed(cands, tables, describe).value;
      if r == kept + [rel] {
        assert IsSubsequence(r, cands);
      } else {
        SubsequenceExtend(kept, init, rel);
      }
    }
  }

  /** `get_table_relationships`, with `tables` the table list and `describe` the column-list call. */
  method GetTableRelationships(tables: seq<string>, describe: string -> Result<seq<string>>) returns (r: Result<seq<Relationship>>)
    ensures r == KeepConfirmed(Candidates, tables, describe)
  {
    var relationships := [];
    var i := 0;
    while i < |Candidates|
      invariant 0 <= i <= |Candidates|
      invariant KeepConfirmed(Candidates[..i], tables, describe) == Ok(relationships)
    {
      var rel := Candidates[i];
      assert Candidates[..i + 1][..i] == Candidates[..i];
      if rel.fromTable !in tables || rel.toTable !in tables {
        i := i + 1;
        continue;
      }
      var cols1 := describe(rel.fromTable);
      var cols2 := describe(rel.toTable);
      if cols1.Raised? || cols2.Raised? {
        var m := if cols1.Raised? then cols1.message else cols2.message;
        assert KeepConfirmed(Candidates[..i + 1], tables, describe) == Raised(m);
        RelationshipsRaisedPersist(Candidates, tables, describe, i + 1);
        return Raised(m);
      }
      if rel.fromColumn in cols1.value && rel.toColumn in cols2.value {
        relationships := relationships + [rel];
      }
      i := i + 1;
    }
    assert Candidates[..i] == Candidates;
    r := Ok(relationships);
  }

  lemma {:induction false} RelationshipsRaisedPersist(cands: seq<Relationship>, tables: seq<string>, describe: string -> Result<seq<string>>, i: nat)
    requires i <= |cands|
    requires KeepConfirmed(cands[..i], tables, describe).Raised?
    ensures KeepConfirmed(cands, tables, describe) == KeepConfirmed(cands[..i], tables, describe)
    decreases |cands| - i
  {
    if i < |cands| {
      assert cands[..i + 1][..i] == cands[..i];
      RelationshipsRaisedPersist(cands, tables, describe, i + 1);
    } else {
      assert cands[..i] == cands;
    }
  }
}
