/** The SQL-script dump engine of `LaravelMaskedDump`: session settings, per-table DROP and
    schema text, and for tables flagged for data export a LOCK/DISABLE KEYS header, one INSERT
    per row with masked and encoded values, and an ENABLE KEYS/UNLOCK footer.

    The database connection, Doctrine's DDL rendering and the masking rules are parameters:
    `Connection.quote`, `Connection.toSql`, `Connection.get` and `TableDefinition.findColumn`. */
module MaskedDump {
  import opened Wrappers
  import opened Strings
  import opened Console

  /** A cell as the query builder returns it: SQL NULL, a string, or another scalar
      (integer, float, boolean), the last kept in its PHP string form. */
  datatype Value = Null | Str(s: string) | Other(repr: string)

  /** A retrieved row: column names with their raw values, in the order the query returned them. */
  type Row = seq<(string, Value)>

  /** A row after masking and encoding: column names with SQL literals. */
  type EncodedRow = seq<(string, string)>

  /** A masking rule bound to one column. */
  datatype ColumnDefinition = ColumnDefinition(modifyValue: Value -> Value)

  /** Doctrine's table object: only its name is read by the engine; `id` stands for the rest. */
  datatype DoctrineTable = DoctrineTable(name: string, id: nat)

  /** One table's export policy: its Doctrine table, whether its rows are dumped, and the
      masking rule of each column that has one. */
  datatype TableDefinition = TableDefinition(
    table: DoctrineTable,
    dumpData: bool,
    findColumn: string -> Option<ColumnDefinition>)

  /** The database collaborators: value quoting, `Schema([table])->toSql(platform)`, and the
      rows that the table's query (after the definition's `modifyQuery` hook) returns. */
  datatype Connection = Connection(
    quote: Value -> string,
    toSql: DoctrineTable -> seq<string>,
    get: TableDefinition -> seq<Row>)

  /** The whole dump definition: the connection and `getDumpTables()`, the tables keyed by name
      in the order in which they are dumped. */
  datatype DumpSchema = DumpSchema(connection: Connection, dumpTables: seq<(string, TableDefinition)>)

  /** PHP_EOL. */
  const Eol: string := "\n"

  /** The session settings saved and changed before any table: seven lines, the last ended by
      PHP_EOL. */
  const Preamble: string :=
    "/*!40101 SET @OLD_CHARACTER_SET_CLIENT=@@CHARACTER_SET_CLIENT */;\n" +
    "/*!40101 SET @OLD_CHARACTER_SET_RESULTS=@@CHARACTER_SET_RESULTS */;\n" +
    "/*!40101 SET @OLD_COLLATION_CONNECTION=@@COLLATION_CONNECTION */;\n" +
    "/*!40101 SET NAMES utf8 */;\n" +
    "/*!40014 SET @OLD_FOREIGN_KEY_CHECKS=@@FOREIGN_KEY_CHECKS, FOREIGN_KEY_CHECKS=0 */;\n" +
    "/*!40101 SET @OLD_SQL_MODE=@@SQL_MODE, SQL_MODE='NO_AUTO_VALUE_ON_ZERO' */;\n" +
    "/*!40111 SET @OLD_SQL_NOTES=@@SQL_NOTES, SQL_NOTES=0 */;" + Eol

  /** The session settings restored after the last table: PHP_EOL, an empty line, then six
      lines, each ended by a newline. */
  const Postamble: string :=
    Eol + "\n" +
    "/*!40111 SET SQL_NOTES=@OLD_SQL_NOTES */;\n" +
    "/*!40101 SET SQL_MODE=@OLD_SQL_MODE */;\n" +
    "/*!40014 SET FOREIGN_KEY_CHECKS=@OLD_FOREIGN_KEY_CHECKS */;\n" +
    "/*!40101 SET CHARACTER_SET_CLIENT=@OLD_CHARACTER_SET_CLIENT */;\n" +
    "/*!40101 SET CHARACTER_SET_RESULTS=@OLD_CHARACTER_SET_RESULTS */;\n" +
    "/*!40101 SET COLLATION_CONNECTION=@OLD_COLLATION_CONNECTION */;\n"

  // ---------------------------------------------------------------------------------------
  // Value encoding (transformResultForInsert)

  /** The value after the column's masking rule, if the column has one. */
  function MaskValue(table: TableDefinition, column: string, value: Value): Value
  {
    match table.findColumn(column)
    case Some(definition) => definition.modifyValue(value)
    case None => value
  }

  /** The SQL literal of a (masked) value: unquoted NULL, an empty quoted string, or the
      connection's quoting. */
  function EncodeValue(quote: Value -> string, value: Value): string
  {
    if value.Null? then "NULL"
    else if value.Str? && value.s == "" then "\"\""
    else quote(value)
  }

  /** One cell: mask, then encode. */
  function TransformCell(table: TableDefinition, quote: Value -> string, column: string, value: Value): string
  {
    EncodeValue(quote, MaskValue(table, column, value))
  }

  /** The row's cells transformed one by one, keeping every column name and the column order. */
  function TransformResultForInsert(row: Row, table: TableDefinition, quote: Value -> string): (r: EncodedRow)
    ensures |r| == |row|
    ensures forall i :: 0 <= i < |row| ==> r[i] == (row[i].0, TransformCell(table, quote, row[i].0, row[i].1))
  {
    if row == [] then []
    else [(row[0].0, TransformCell(table, quote, row[0].0, row[0].1))]
         + TransformResultForInsert(row[1..], table, quote)
  }

  /** The column names of an encoded row, in order (`array_keys`). */
  function Keys(row: EncodedRow): seq<string>
  {
    seq(|row|, i requires 0 <= i < |row| => row[i].0)
  }

  /** The literals of an encoded row, in order. */
  function Values(row: EncodedRow): seq<string>
  {
    seq(|row|, i requires 0 <= i < |row| => row[i].1)
  }

  /** The values that encoding hands to the connection's quoting: neither NULL nor "". */
  predicate Quoted(value: Value)
  {
    !value.Null? && !(value.Str? && value.s == "")
  }

  /** Quoting the value yields neither of the two fixed literals. */
  predicate QuoteIsDistinct(quote: Value -> string, value: Value)
  {
    quote(value) != "NULL" && quote(value) != "\"\""
  }

  /** Encoding loses nothing: when the connection's quoting is one-to-one on the values it is
      given and never yields the two fixed literals, two values are written as the same literal
      exactly when they are equal. */
  lemma EncodeValueInjective(quote: Value -> string, a: Value, b: Value)
    requires Quoted(a) ==> QuoteIsDistinct(quote, a)
    requires Quoted(b) ==> QuoteIsDistinct(quote, b)
    requires Quoted(a) && Quoted(b) && quote(a) == quote(b) ==> a == b
    ensures EncodeValue(quote, a) == EncodeValue(quote, b) <==> a == b
  {
  }

  /** Reading a literal back: NULL, the empty quoted string, or whatever `unquote` makes of it. */
  function DecodeLiteral(unquote: string -> Value, literal: string): Value
  {
    if literal == "NULL" then Null
    else if literal == "\"\"" then Str("")
    else unquote(literal)
  }

  /** Encoding can be undone: when `unquote` inverts the connection's quoting and quoting never
      yields the two fixed literals, reading the literal of a value gives the value back. */
  lemma EncodeDecodeRoundTrip(quote: Value -> string, unquote: string -> Value, value: Value)
    requires Quoted(value) ==> QuoteIsDistinct(quote, value) && unquote(quote(value)) == value
    ensures DecodeLiteral(unquote, EncodeValue(quote, value)) == value
  {
  }

  /** A column without a rule is encoded from its raw value; a column with a rule from the rule's
      result on the raw value, applied once. NULL and "" in the output therefore describe the
      masked value, not the raw one. */
  lemma MaskThenEncode(table: TableDefinition, quote: Value -> string, column: string, value: Value)
    ensures table.findColumn(column).None? ==> TransformCell(table, quote, column, value) == EncodeValue(quote, value)
    ensures table.findColumn(column).Some? ==>
      TransformCell(table, quote, column, value) == EncodeValue(quote, table.findColumn(column).value.modifyValue(value))
    ensures table.findColumn(column).None? && value.Null? ==> TransformCell(table, quote, column, value) == "NULL"
    ensures table.findColumn(column).None? && value == Str("") ==> TransformCell(table, quote, column, value) == "\"\""
  {
  }

  // ---------------------------------------------------------------------------------------
  // Schema, lock and unlock text

  /** `DROP TABLE IF EXISTS` for the table's key. */
  function DropTable(tableName: string): string
  {
    "DROP TABLE IF EXISTS `" + tableName + "`;" + Eol
  }

  /** The platform's statements for the table, joined by ";", then ";" and PHP_EOL. */
  function SchemaText(table: TableDefinition, connection: Connection): string
  {
    Join(connection.toSql(table.table), ";") + ";" + Eol
  }

  /** The schema text is every statement followed by its own ";", then PHP_EOL; a platform that
      renders no statement still leaves a lone ";". */
  lemma SchemaTextTerminated(table: TableDefinition, connection: Connection)
    ensures connection.toSql(table.table) != [] ==>
      SchemaText(table, connection) == Concat(Enclose(connection.toSql(table.table), "", ";")) + Eol
    ensures connection.toSql(table.table) == [] ==> SchemaText(table, connection) == ";" + Eol
  {
    if connection.toSql(table.table) != [] {
      JoinTerminated(connection.toSql(table.table), ";");
    }
  }

  /** The schema text begins with the platform's first statement, if there is one, and always
      ends with ";" and PHP_EOL. */
  lemma SchemaTextShape(table: TableDefinition, connection: Connection)
    ensures var text := SchemaText(table, connection);
      |text| >= 2 && text[|text| - 2..] == ";" + Eol &&
      (connection.toSql(table.table) != [] ==> connection.toSql(table.table)[0] <= text)
  {
    var statements := connection.toSql(table.table);
    var joined := Join(statements, ";");
    assert SchemaText(table, connection) == joined + (";" + Eol);
    if statements != [] && |statements| > 1 {
      assert joined == statements[0] + (";" + Join(statements[1..], ";"));
    }
  }

  /** Write-lock the table, then disable its keys. */
  function LockTable(tableName: string): string
  {
    "LOCK TABLES `" + tableName + "` WRITE;" + Eol +
    "ALTER TABLE `" + tableName + "` DISABLE KEYS;" + Eol
  }

  /** Re-enable the table's keys, then release the locks. */
  function UnlockTable(tableName: string): string
  {
    "ALTER TABLE `" + tableName + "` ENABLE KEYS;" + Eol +
    "UNLOCK TABLES;" + Eol
  }

  /** The lock text is the write lock followed by the key disabling, and the unlock text the
      key re-enabling followed by the lock release, each a statement on its own line naming the
      table. */
  lemma LockUnlockText(tableName: string)
    ensures LockTable(tableName) ==
      "LOCK TABLES `" + tableName + "` WRITE;\n" + "ALTER TABLE `" + tableName + "` DISABLE KEYS;\n"
    ensures UnlockTable(tableName) ==
      "ALTER TABLE `" + tableName + "` ENABLE KEYS;\n" + "UNLOCK TABLES;\n"
  {
  }

  // ---------------------------------------------------------------------------------------
  // Table data (dumpTableData)

  /** One INSERT statement for an encoded row. */
  function InsertStatement(tableName: string, row: EncodedRow): string
  {
    "INSERT INTO `" + tableName + "` (`" + Join(Keys(row), "`, `") + "`) VALUES " +
    "(" + Join(Values(row), ", ") + ");" + Eol
  }

  /** Every INSERT statement begins with `INSERT INTO` and the backticked table name and ends
      with ");" and PHP_EOL. */
  lemma InsertStatementShape(tableName: string, row: EncodedRow)
    ensures var text := InsertStatement(tableName, row);
      ("INSERT INTO `" + tableName + "` (`") <= text &&
      |text| >= 3 && text[|text| - 3..] == ");" + Eol
  {
    var head := "INSERT INTO `" + tableName + "` (`";
    var rest := Join(Keys(row), "`, `") + "`) VALUES " + "(" + Join(Values(row), ", ");
    assert InsertStatement(tableName, row) == head + rest + (");" + Eol);
  }

  /** The INSERT statement of a non-empty row names its columns each in backticks, separated by
      ", ", and its values in the same order; an empty row gives the column list "``". */
  lemma InsertStatementColumns(tableName: string, row: EncodedRow)
    ensures row != [] ==>
      InsertStatement(tableName, row) ==
      "INSERT INTO `" + tableName + "` (" + Join(Enclose(Keys(row), "`", "`"), ", ") + ") VALUES (" +
      Join(Values(row), ", ") + ");" + Eol
    ensures row == [] ==> InsertStatement(tableName, row) == "INSERT INTO `" + tableName + "` (``) VALUES ();" + Eol
  {
    if row != [] {
      JoinEnclosed(Keys(row), "`", ", ");
      assert "`, `" == "`" + ", " + "`";
    } else {
      assert Keys(row) == [] && Values(row) == [];
    }
  }

  /** One INSERT statement per retrieved row, in row order, each into the Doctrine table's name. */
  function InsertStatements(table: TableDefinition, quote: Value -> string, rows: seq<Row>): (r: seq<string>)
    ensures |r| == |rows|
    ensures forall i :: 0 <= i < |rows| ==>
      r[i] == InsertStatement(table.table.name, TransformResultForInsert(rows[i], table, quote))
  {
    if rows == [] then []
    else InsertStatements(table, quote, rows[..|rows| - 1])
         + [InsertStatement(table.table.name, TransformResultForInsert(rows[|rows| - 1], table, quote))]
  }

  /** The data block of a table: its INSERT statements one after the other. */
  function TableData(table: TableDefinition, connection: Connection): string
  {
    Concat(InsertStatements(table, connection.quote, connection.get(table)))
  }

  /** The body of the per-row callback: transform the row, then append its INSERT statement to
      the query, writing the values with a first-column flag. */
  method AppendInsert(query: string, table: TableDefinition, quote: Value -> string, raw: Row)
    returns (result: string)
    ensures result == query + InsertStatement(table.table.name, TransformResultForInsert(raw, table, quote))
  {
    var row := TransformResultForInsert(raw, table, quote);
    var tableName := table.table.name;
    var head := "INSERT INTO `" + tableName + "` (`" + Join(Keys(row), "`, `") + "`) VALUES " + "(";
    result := query + head;
    ghost var prefix := result;
    var firstColumn := true;
    for column := 0 to |row|
      invariant firstColumn <==> column == 0
      invariant result == prefix + Join(Values(row)[..column], ", ")
    {
      ghost var done := Join(Values(row)[..column], ", ");
      assert Values(row)[..column + 1] == Values(row)[..column] + [row[column].1];
      JoinSnoc(Values(row)[..column], row[column].1, ", ");
      if !firstColumn {
        result := result + ", ";
        AppendAssociative(prefix, done, ", ");
        AppendAssociative(prefix, done + ", ", row[column].1);
      } else {
        AppendAssociative(prefix, done, row[column].1);
      }
      result := result + row[column].1;
      firstColumn := false;
    }
    assert Values(row)[..|row|] == Values(row);
    ghost var values := Join(Values(row), ", ");
    result := result + ");" + Eol;
    AppendAssociative(query, head, values);
    AppendAssociative(query, head + values, ");");
    AppendAssociative(query, head + values + ");", Eol);
  }

  /** The data block of a table, built by appending one INSERT statement per retrieved row. */
  method DumpTableData(table: TableDefinition, connection: Connection) returns (query: string)
    ensures query == TableData(table, connection)
  {
    query := "";
    var rows := connection.get(table);
    for index := 0 to |rows|
      invariant query == Concat(InsertStatements(table, connection.quote, rows[..index]))
    {
      query := AppendInsert(query, table, connection.quote, rows[index]);
      assert rows[..index + 1][..index] == rows[..index];
    }
    assert rows[..|rows|] == rows;
  }

  /** Every retrieved row, in order, gives exactly one INSERT statement. */
  lemma {:induction false} InsertStatementsAppend(table: TableDefinition, quote: Value -> string, a: seq<Row>, b: seq<Row>)
    ensures InsertStatements(table, quote, a + b) == InsertStatements(table, quote, a) + InsertStatements(table, quote, b)
    decreases |b|
  {
    if b == [] {
      assert a + b == a;
    } else {
      var c := a + b;
      assert c[..|c| - 1] == a + b[..|b| - 1];
      InsertStatementsAppend(table, quote, a, b[..|b| - 1]);
    }
  }

  // ---------------------------------------------------------------------------------------
  // The whole dump

  /** A table's section: DROP, schema text, and when its data is dumped, lock, data, unlock. */
  function TableSection(connection: Connection, tableName: string, table: TableDefinition): string
  {
    DropTable(tableName) + SchemaText(table, connection) +
    if table.dumpData then LockTable(tableName) + TableData(table, connection) + UnlockTable(tableName)
    else ""
  }

  /** The section of every table, in the given order. */
  function SectionList(connection: Connection, tables: seq<(string, TableDefinition)>): seq<string>
  {
    seq(|tables|, i requires 0 <= i < |tables| => TableSection(connection, tables[i].0, tables[i].1))
  }

  /** The sections of the tables, one after the other. */
  function Sections(connection: Connection, tables: seq<(string, TableDefinition)>): string
  {
    Concat(SectionList(connection, tables))
  }

  /** The script `dump()` returns. */
  function DumpText(schema: DumpSchema): string
  {
    Preamble + Sections(schema.connection, schema.dumpTables) + Postamble
  }

  /** The body of the loop over tables: appends the table's DROP line and schema text and, when
      its data is dumped, the lock, its data block and the unlock. */
  method AppendTable(query: string, connection: Connection, tableName: string, table: TableDefinition)
    returns (result: string)
    ensures result == query + TableSection(connection, tableName, table)
  {
    result := query + DropTable(tableName);
    result := result + SchemaText(table, connection);
    ghost var head := DropTable(tableName) + SchemaText(table, connection);
    assert result == query + head;
    if table.dumpData {
      result := result + LockTable(tableName);
      var data := DumpTableData(table, connection);
      result := result + data;
      result := result + UnlockTable(tableName);
      ghost var body := LockTable(tableName) + data + UnlockTable(tableName);
      assert result == query + head + body;
      assert TableSection(connection, tableName, table) == head + body;
    } else {
      assert TableSection(connection, tableName, table) == head + "";
    }
  }

  /** Builds the script; the progress bar is created for the number of tables and advanced once
      per table. */
  method Dump(schema: DumpSchema) returns (query: string, progress: ProgressBar)
    ensures query == DumpText(schema)
    ensures fresh(progress) && progress.max == |schema.dumpTables| && progress.progress == |schema.dumpTables|
  {
    var tables := schema.dumpTables;
    var connection := schema.connection;
    query := Preamble;
    progress := new ProgressBar(|tables|);
    for index := 0 to |tables|
      invariant query == Preamble + Sections(connection, tables[..index])
      invariant progress.max == |tables| && progress.progress == index
    {
      var (tableName, table) := tables[index];
      query := AppendTable(query, connection, tableName, table);
      AppendAssociative(Preamble, Sections(connection, tables[..index]), TableSection(connection, tableName, table));
      assert tables[..index + 1] == tables[..index] + [tables[index]];
      SectionsSnoc(connection, tables[..index], tables[index]);
      progress.Advance();
    }
    assert tables[..|tables|] == tables;
    query := query + Postamble;
  }

  /** One more table adds its section at the end. */
  lemma SectionsSnoc(connection: Connection, tables: seq<(string, TableDefinition)>, t: (string, TableDefinition))
    ensures Sections(connection, tables + [t]) == Sections(connection, tables) + TableSection(connection, t.0, t.1)
  {
    var list := SectionList(connection, tables + [t]);
    assert list[..|list| - 1] == SectionList(connection, tables);
  }

  /** Sections of consecutive table lists are consecutive. */
  lemma SectionsAppend(connection: Connection, a: seq<(string, TableDefinition)>, b: seq<(string, TableDefinition)>)
    ensures Sections(connection, a + b) == Sections(connection, a) + Sections(connection, b)
  {
    assert SectionList(connection, a + b) == SectionList(connection, a) + SectionList(connection, b);
    ConcatAppend(SectionList(connection, a), SectionList(connection, b));
  }

  /** The script starts with the fixed preamble and ends with the fixed postamble, whatever the
      tables are. */
  lemma DumpFramed(schema: DumpSchema)
    ensures Preamble <= DumpText(schema)
    ensures |Preamble| + |Postamble| <= |DumpText(schema)|
    ensures DumpText(schema)[|DumpText(schema)| - |Postamble|..] == Postamble
  {
    var middle := Sections(schema.connection, schema.dumpTables);
    assert DumpText(schema) == Preamble + middle + Postamble;
    assert (Preamble + middle + Postamble)[..|Preamble|] == Preamble;
  }

  /** The k-th table's section sits between the preamble with the sections of the tables before
      it and the sections of the tables after it and the postamble: tables are written in the
      order of the dump definition, each exactly once. */
  lemma TableAt(schema: DumpSchema, k: nat)
    requires k < |schema.dumpTables|
    ensures DumpText(schema) ==
      Preamble
      + (Sections(schema.connection, schema.dumpTables[..k])
         + TableSection(schema.connection, schema.dumpTables[k].0, schema.dumpTables[k].1)
         + Sections(schema.connection, schema.dumpTables[k + 1..]))
      + Postamble
  {
    var ts := schema.dumpTables;
    var c := schema.connection;
    assert ts == ts[..k] + [ts[k]] + ts[k + 1..];
    SectionsAppend(c, ts[..k] + [ts[k]], ts[k + 1..]);
    SectionsSnoc(c, ts[..k], ts[k]);
  }

  /** A table whose data is not dumped contributes its DROP line and its schema text and nothing
      else. */
  lemma SchemaOnlySection(connection: Connection, tableName: string, table: TableDefinition)
    requires !table.dumpData
    ensures TableSection(connection, tableName, table) ==
      "DROP TABLE IF EXISTS `" + tableName + "`;\n" + SchemaText(table, connection)
  {
  }

  /** A table whose data is dumped is DROP, schema text, LOCK TABLES ... WRITE, DISABLE KEYS,
      the INSERT of each retrieved row in order, ENABLE KEYS and UNLOCK TABLES, in that order.
      DROP, the lock and the unlock name the table's key; the INSERTs name its Doctrine table. */
  lemma DataSectionOrder(connection: Connection, tableName: string, table: TableDefinition)
    requires table.dumpData
    ensures var rows := connection.get(table);
      TableSection(connection, tableName, table) ==
      DropTable(tableName) + SchemaText(table, connection) +
      ("LOCK TABLES `" + tableName + "` WRITE;\n" + "ALTER TABLE `" + tableName + "` DISABLE KEYS;\n") +
      Concat(seq(|rows|, i requires 0 <= i < |rows| =>
        InsertStatement(table.table.name, TransformResultForInsert(rows[i], table, connection.quote)))) +
      ("ALTER TABLE `" + tableName + "` ENABLE KEYS;\n" + "UNLOCK TABLES;\n")
  {
    var rows := connection.get(table);
    var inserts := InsertStatements(table, connection.quote, rows);
    assert inserts == seq(|rows|, i requires 0 <= i < |rows| =>
      InsertStatement(table.table.name, TransformResultForInsert(rows[i], table, connection.quote)));
    LockUnlockText(tableName);
    AppendAssociative(LockTable(tableName), TableData(table, connection), UnlockTable(tableName));
  }

  /** When the table's key is its Doctrine name, every statement of a data section, the lock,
      each INSERT and the unlock, names that one table. */
  lemma DataSection(connection: Connection, tableName: string, table: TableDefinition)
    requires table.dumpData && table.table.name == tableName
    ensures var rows := connection.get(table);
      TableSection(connection, tableName, table) ==
      DropTable(tableName) + SchemaText(table, connection) +
      ("LOCK TABLES `" + tableName + "` WRITE;\n" + "ALTER TABLE `" + tableName + "` DISABLE KEYS;\n") +
      Concat(seq(|rows|, i requires 0 <= i < |rows| =>
        InsertStatement(tableName, TransformResultForInsert(rows[i], table, connection.quote)))) +
      ("ALTER TABLE `" + tableName + "` ENABLE KEYS;\n" + "UNLOCK TABLES;\n")
  {
    DataSectionOrder(connection, tableName, table);
  }

  /** The worked example's table `users`: data dumped, a rule replacing every `email`. */
  function UsersDefinition(): TableDefinition
  {
    TableDefinition(DoctrineTable("users", 0), true,
      column => if column == "email" then Some(ColumnDefinition(_ => Str("redacted@example.com"))) else None)
  }

  /** The worked example's one row (1, "real@x.com"). */
  function UsersRow(): Row
  {
    [("id", Other("1")), ("email", Str("real@x.com"))]
  }

  lemma UsersExampleLists(quote: Value -> string)
    ensures var row := TransformResultForInsert(UsersRow(), UsersDefinition(), quote);
      Join(Keys(row), "`, `") == "id`, `email" &&
      Join(Values(row), ", ") == quote(Other("1")) + ", " + quote(Str("redacted@example.com"))
  {
    var row := TransformResultForInsert(UsersRow(), UsersDefinition(), quote);
    var id, email := quote(Other("1")), quote(Str("redacted@example.com"));
    assert row == [("id", id), ("email", email)];
    assert Keys(row) == ["id", "email"];
    assert Values(row) == [id, email];
    assert Join(["id", "email"], "`, `") == "id" + "`, `" + Join(["email"], "`, `");
    assert Join([id, email], ", ") == id + ", " + Join([email], ", ");
  }

  /** In the worked example the email cell does not depend on the raw email: whatever the row
      holds, the cell is the replacement, quoted. */
  lemma UsersEmailMasked(quote: Value -> string)
    ensures forall raw :: TransformCell(UsersDefinition(), quote, "email", raw) == quote(Str("redacted@example.com"))
  {
  }

  /** The worked example: `users` with columns `id` and `email`, a rule replacing every email,
      and one row (1, "real@x.com"), gives one INSERT with the replacement in the email cell
      (see `UsersEmailMasked`). */
  lemma UsersExample(quote: Value -> string)
    ensures InsertStatement("users", TransformResultForInsert(UsersRow(), UsersDefinition(), quote))
      == "INSERT INTO `users` (`id`, `email`) VALUES (" + quote(Other("1")) + ", " +
         quote(Str("redacted@example.com")) + ");\n"
  {
    var row := TransformResultForInsert(UsersRow(), UsersDefinition(), quote);
    var id, email := quote(Other("1")), quote(Str("redacted@example.com"));
    var columns, values := Join(Keys(row), "`, `"), Join(Values(row), ", ");
    UsersExampleLists(quote);
    calc {
      InsertStatement("users", row);
      "INSERT INTO `" + "users" + "` (`" + columns + "`) VALUES " + "(" + values + ");" + Eol;
      ("INSERT INTO `users` (`id`, `email`) VALUES (" + values) + ");\n";
      "INSERT INTO `users` (`id`, `email`) VALUES (" + id + ", " + email + ");\n";
    }
  }

  /** A raw NULL in a masked column is written as whatever the rule makes of it: when the
      column's rule replaces NULL by a non-empty string, the literal is that string quoted, and,
      when that quoting is neither of the two fixed literals, it is not NULL. */
  lemma MaskedNullIsQuoted(table: TableDefinition, quote: Value -> string, column: string, s: string)
    requires table.findColumn(column).Some?
    requires table.findColumn(column).value.modifyValue(Null) == Str(s) && s != ""
    ensures TransformCell(table, quote, column, Null) == quote(Str(s))
    ensures QuoteIsDistinct(quote, Str(s)) ==> TransformCell(table, quote, column, Null) != "NULL"
  {
  }
}
