# Masked database dump engine, modelled in Dafny

This project models the SQL-script builder of `LaravelMaskedDump` (laravel-masked-db-dump). The
builder turns a dump definition into one MySQL script with this layout:

- a fixed preamble of seven `/*!4xxxx ... */` session-setting lines that save and change the
  character sets, foreign-key checks, SQL mode and SQL notes;
- one section per table, in the order of the definition's tables. Each section holds
  ``DROP TABLE IF EXISTS `name`;`` and then the platform's DDL, joined by `;`;
- for a table flagged for data export, a further block after the DDL:
  ``LOCK TABLES `t` WRITE;`` and ``ALTER TABLE `t` DISABLE KEYS;``, then one `INSERT` per
  retrieved row, then ``ALTER TABLE `t` ENABLE KEYS;`` and `UNLOCK TABLES;`;
- a fixed postamble of six lines that restore the settings.

Before a cell is written, the column's masking rule is applied to it, if the column has one. The
result is then encoded: `NULL` for null, `""` for the empty string, and the connection's quoting
for anything else.

The files:

- `wrappers.dfy`: `Option`.
- `strings.dfy`: PHP's `implode` (`Join`), repeated appending (`Concat`), and lemmas about them.
- `console.dfy`: the progress bar (`ProgressBar`), reduced to its two counters.
- `masked_dump.dfy`: the entities of the engine (`Value`, `Row`, `ColumnDefinition`,
  `TableDefinition`, `Connection`, `DumpSchema`). It also holds the pure text functions
  (`EncodeValue`, `TransformResultForInsert`, `SchemaText`, `LockTable`, `UnlockTable`,
  `InsertStatement`, `TableSection`, `DumpText`) and the methods that build the script by
  appending inside loops, as the code does (`AppendInsert`, `DumpTableData`, `AppendTable`,
  `Dump`). Each method is proved equal to the text function that specifies it.

The outside world is passed in as parameters:

- `Connection.quote` is the Doctrine connection's `quote`.
- `Connection.toSql` is `Schema([table])->toSql(platform)`.
- `Connection.get` gives the rows the table's query returns after `modifyQuery`.
- `TableDefinition.findColumn` gives the column's masking rule, if it has one; a rule is a total
  function `Value -> Value`.

`PHP_EOL` is `"\n"`. The line breaks inside the preamble and postamble literals are `"\n"` too.

## Model

| member | source | states |
|---|---|---|
| `MaskedDump.TransformResultForInsert` | src/LaravelMaskedDump.php:63-82 | The encoded row has the same columns as the raw row, with the same names in the same order. Each cell is the column's rule (if any) applied to the raw value, then encoded. |
| `MaskedDump.MaskThenEncode` | src/LaravelMaskedDump.php:69-80 | A column without a rule is encoded from its raw value. A column with a rule is encoded from `modifyValue(raw)`, so the rule is applied exactly once. An unmasked null becomes `NULL` and an unmasked empty string becomes `""`. |
| `MaskedDump.EncodeValueInjective` | src/LaravelMaskedDump.php:73-80 | Assume quoting is one-to-one on the values it receives and never produces `NULL` or `""`. Then two values get the same literal exactly when they are equal, so null, the empty string and quoted values never collide. |
| `MaskedDump.MaskedNullIsQuoted` | src/LaravelMaskedDump.php:69-75 | Masking comes before the null test. For any table and column whose rule maps a raw null to a non-empty string s, the cell is `quote(s)`. When that quoting is neither `NULL` nor `""`, the cell is not `NULL`. |
| `MaskedDump.SchemaTextTerminated` | src/LaravelMaskedDump.php:84-91 | If the platform renders statements, the schema text is each statement followed by its own `;`, then PHP_EOL. If it renders none, the text is a lone `;` and PHP_EOL. |
| `MaskedDump.InsertStatementColumns` | src/LaravelMaskedDump.php:119-131 | For a non-empty row, the INSERT lists every column in backticks, separated by `, `, and then the values in the same order, separated by `, `. An empty row gives ``(``) VALUES ()``. |
| `MaskedDump.EncodeDecodeRoundTrip` | src/LaravelMaskedDump.php:73-80 | `EncodeValue` can be undone. If `unquote` inverts quoting and quoting never yields `NULL` or `""`, reading back the literal gives the value. This covers the null, empty-string and quoted cases. |
| `MaskedDump.SchemaTextShape` | src/LaravelMaskedDump.php:84-91 | `SchemaText` (the model of `dumpSchema`) starts with the platform's first statement, when there is one, and always ends with `;` and PHP_EOL. |
| `MaskedDump.InsertStatementShape` | src/LaravelMaskedDump.php:119-131 | Every INSERT that `InsertStatement` builds begins with ``INSERT INTO `t` (` `` and ends with `);` and PHP_EOL. |
| `MaskedDump.InsertStatements` | src/LaravelMaskedDump.php:114-132 | There is exactly one INSERT per retrieved row. Statement i is the statement for row i after transformation, addressed to the Doctrine table's name. |
| `MaskedDump.InsertStatementsAppend` | src/LaravelMaskedDump.php:114-132 | The statements for rows a followed by rows b are the statements for a followed by those for b, so row order is kept. |
| `MaskedDump.AppendInsert` | src/LaravelMaskedDump.php:115-131 | The callback body, which has the `$firstColumn` flag loop, appends exactly `InsertStatement` of the transformed row. So the flag loop writes the values joined by `", "`, with no leading or trailing separator. |
| `MaskedDump.DumpTableData` | src/LaravelMaskedDump.php:105-135 | The data block is the INSERT statements of all retrieved rows, one after another, in row order. |
| `MaskedDump.AppendTable` | src/LaravelMaskedDump.php:38-48 | One pass of the table loop appends exactly the table's section: the DROP line and the schema text, followed by lock, data block and unlock when the table is flagged for data. |
| `MaskedDump.Dump` | src/LaravelMaskedDump.php:24-61 | The result is the preamble, then the sections of all tables in the definition's order, then the postamble. The progress bar is created for the number of tables and advanced once per table. |
| `MaskedDump.SectionsSnoc` | src/LaravelMaskedDump.php:38-51 | Adding one more table to the list adds its section at the end of the table part. |
| `MaskedDump.SectionsAppend` | src/LaravelMaskedDump.php:38-51 | The sections of table list a followed by table list b are the sections of a followed by those of b. |
| `MaskedDump.TableAt` | src/LaravelMaskedDump.php:38-51 | For every table index k, the script is: the preamble, the sections of the tables before k, the section of table k, the sections of the tables after k, then the postamble. So every table appears once, in iteration order. |
| `MaskedDump.DumpFramed` | src/LaravelMaskedDump.php:28-59 | Whatever the tables are, the script begins with the fixed `Preamble` and ends with the fixed `Postamble`. `Preamble` is the seven setting lines of lines 28-34 followed by PHP_EOL. `Postamble` is PHP_EOL, an empty line, and the six restoring lines of lines 53-58. |
| `MaskedDump.SchemaOnlySection` | src/LaravelMaskedDump.php:39-48 | A table not flagged for data contributes only its DROP line and its schema text: no lock, no INSERT, no unlock. |
| `MaskedDump.DataSectionOrder` | src/LaravelMaskedDump.php:39-47 | Take any table flagged for data. Its section is, in order: DROP, schema text, ``LOCK TABLES `k` WRITE;``, ``ALTER TABLE `k` DISABLE KEYS;``, the INSERT of every row in row order, ``ALTER TABLE `k` ENABLE KEYS;``, `UNLOCK TABLES;`, each statement on its own line. Here k is the table's key, and the INSERTs name the Doctrine table. The two texts around the INSERTs are those `lockTable` and `unlockTable` return (lines 93-103), so the lock comes before every INSERT and the unlock after them all. |
| `MaskedDump.DataSection` | src/LaravelMaskedDump.php:39-47 | When the table's key is its Doctrine name t, every one of those statements names t. |
| `MaskedDump.UsersExampleLists` | src/LaravelMaskedDump.php:116-129 | For the example row of `users` (see the next row), the column list is ``id`, `email`` and the value list is `quote(1), quote("redacted@example.com")`. |
| `MaskedDump.UsersExample` | src/LaravelMaskedDump.php:114-131 | Table `users` has columns `id` and `email`, and a rule replaces every email. The row (1, "real@x.com") gives ``INSERT INTO `users` (`id`, `email`) VALUES (quote(1), quote("redacted@example.com"));``. |
| `MaskedDump.UsersEmailMasked` | src/LaravelMaskedDump.php:69-80 | In that example the email cell is `quote("redacted@example.com")` for every raw value, so it does not depend on the raw email. |
| `Strings.JoinSnoc` | src/LaravelMaskedDump.php:122-129 | Appending one more value adds one separator before it, and none when it is the first value. This is the step of the `$firstColumn` loop. |
| `Strings.JoinLength` | src/LaravelMaskedDump.php:119-131 | The length of a join of n parts is the parts' total length plus n - 1 separators, and plus no separator when n is 0 or 1. |
| `Strings.JoinEnclosed` | src/LaravelMaskedDump.php:119 | Wrapping `implode('`, `', keys)` in backticks gives each key in backticks, joined by `, `, for a non-empty key list. |
| `Strings.JoinTerminated` | src/LaravelMaskedDump.php:90 | `implode(";", s) . ";"` is each statement followed by its own `;`, for a non-empty list. |
| `Console.ProgressBar.constructor` | src/LaravelMaskedDump.php:36 | The bar starts at 0 steps, and its maximum is the count it was created with. |
| `Console.ProgressBar.Advance` | src/LaravelMaskedDump.php:50 | One advance within the maximum adds exactly one step and leaves the maximum unchanged. |

## Left out

- Doctrine DDL generation (`getDatabasePlatform`, `Schema::toSql`) is a foreign library. It is the parameter `Connection.toSql`, which returns a list of statements.
- `Connection::quote` has dialect-specific escaping rules that are not part of this model. It is an arbitrary function. The model says only which values reach it.
- The query builder, the `modifyQuery` hook and `get()` are database I/O. They are the parameter `Connection.get`, which gives the retrieved rows as a list.
- The masking functions (`modifyValue`) and the `findColumn` lookup live in table- and column-definition classes that are not part of this model. Each rule is a total, pure function for the length of one dump. A random or stateful rule, and a rule that throws, are not modelled.
- Exceptions from any collaborator (connection failures, rendering errors, masking errors) end the PHP dump. The model has no error path, because its collaborators are total functions.
- Progress-bar rendering and `OutputStyle` are console UI. Only the bar's maximum and step count are modelled.
- Table and column names are interpolated without escaping (lines 39, 95, 101 and 119). No escaping property is claimed.
- PHP's dynamic typing of cell values is reduced to three cases: null, string, and "other scalar", which is kept by its string form.
- `SchemaOnlySection`: the schema text comes from the opaque `toSql`. The model therefore cannot rule out that the platform's own DDL contains text such as `LOCK`. The lemma states the exact makeup of the section instead.
- `DataSection`: `dump()` writes DROP, LOCK and UNLOCK with the key of `getDumpTables()`. The INSERT statements use `getDoctrineTable()->getName()` (line 117). `DataSectionOrder` proves the order for every data table. That all the statements name one table is proved only when the two names agree. `DumpSchema`, which builds that map, is not part of this model.
- Duplicate names: `Row` and `DumpSchema.dumpTables` are sequences, so they can repeat a column name or a table key. The PHP arrays behind them (`(array)$row` at line 116, `getDumpTables()` at line 26) cannot, so such inputs never arise; on the inputs PHP can produce the model behaves the same.
- `Console.ProgressBar.Advance`: Symfony's bar raises its maximum when a step goes past it. That case is not modelled, because `dump()` never advances past the number of tables.

## Notes on behaviour

- The masking rule runs before the null test (lines 69-75), so a rule can turn a raw null into a quoted value. `MaskedNullIsQuoted` shows it.
- `get()` (line 114) loads the whole result before the loop. The model takes the rows as a list.
