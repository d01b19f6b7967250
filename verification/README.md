# Verification of pdo_duckdb

This project models the parts of the pdo_duckdb extension whose correctness is
hardest to see from the code, and proves what they promise:

- **SQL placeholders** (`pdo_duckdb_sql.c`): the scanner, the numbering of `?`, `:name`
  and DuckDB's own `$` parameters, the merge that writes the parse probe, the expanded
  and the native form of a statement, and what a second scan makes of each of them.
- **Transactions** (`duckdb_driver.c`): the second scanner, which finds the statements of
  a batch and their effects on the transaction, and the two ways a batch is executed.
- **Shared databases** (`duckdb_driver.c`): which instance a connection shares, and the
  sandbox that is put on an instance under `open_basedir`.
- **Result cursors, appenders** (`duckdb_statement.c`, `duckdb_appender.c`): fetching with
  a thread-wide vector cache over reused chunk addresses; linked appenders, whole rows,
  and their release in any order.
- **Values** (`duckdb_statement.c`, `duckdb_value.c`, the bridge): 128-bit integers and
  DECIMAL, text of nested values, JSON text, collations inside a type, and the order of
  a VARIANT's keys.
- **File identities** (`pdo_duckdb_bridge_filesystem.cpp`): who holds which file, with a
  filesystem that changes and fails at any point.
- **The test runner** (`run-tests.php`): parallel dispatch with conflict keys, and the
  line differ.

Code that works step by step is imperative here too: classes with the same fields,
loops with invariants, arrays where the original writes in place. Each such method is
tied to a recursive specification, and the promises are proved of that. Bytes are
integers from 0 to 255. Whatever answers from outside (DuckDB, the filesystem, the order
of messages) is a parameter, so each theorem holds for every answer.

`dafny verify dfyconfig.toml` checks everything.

| files | subject |
|---|---|
| Text, Digits, Options, Sequences | bytes, decimal digits, sequences |
| Lexemes, Writing | writing SQL down and scanning it, with both scanners |
| SqlLexer, SqlScan, Numbering, Plan | scanner and plan |
| Render, Rewriting, Statements | the merge and the probe |
| Spelling, BoundValues | what is written for a value, and where |
| Rescan, Replace, Inertness, Expansion | scanning the expanded statement |
| Inlining, NativeForm | scanning the prepared statement |
| Transactions, TransactionScan, Batches, LexersAgree | batches and the second scanner |
| Instances | shared databases and their sandbox |
| ChunkCache, Appenders | cursors and appenders |
| Wide, Decimals, NestedText, NestedRoundTrip, NestedCells, WrittenColumns | numbers and nested values as text |
| JsonText, JsonGrammar, JsonComplete, JsonSound, JsonReader | JSON |
| Annotations, ObjectOrder | collations, VARIANT keys |
| Filesystem, FilesystemRegistry | file identities |
| Schedule, Dispatch, StartOrder, Subsequences, Differ | test runner |

## Model

| member | source | states |
|---|---|---|
| `SqlLexer.ItemsConcat` | pdo_duckdb_sql.c:271-408 | Cutting a statement into items loses, doubles and moves no byte, for every byte sequence. |
| `SqlScan.SpaceLength` | pdo_duckdb_sql.c:25-43 | The byte test finds exactly the Unicode spaces of the specification, at every position. |
| `SqlScan.SkipString` | pdo_duckdb_sql.c:45-63 | The loop ends where the recursive grammar of a quoted text ends it; EscapeLiteralScans and QuotationScans say where that is. |
| `SqlScan.SkipTrivia` | pdo_duckdb_sql.c:65-98 | The loop passes the whole run of space, line comments and nested block comments, and nothing else. |
| `SqlScan.SkipDollarString` | pdo_duckdb_sql.c:100-123 | The search for the closing tag ends at the first one, or reports that there is no dollar-quoted text. |
| `SqlScan.ScanDollar` | pdo_duckdb_sql.c:317-369 | A `$` is cut as the specification says: dollar-quoted text, native parameter with its name, or a `$` alone; it always advances. |
| `SqlScan.ScanToken` | pdo_duckdb_sql.c:271-408 | One turn of the scanning loop cuts exactly the item of the recursive specification, from the byte before it and what was seen. |
| `Writing.WritingScans` | pdo_duckdb_sql.c:271-408 | A statement written from any list of parts, with a break after each (words, literals, E-literals, quoted names, comments, dollar-quoted text, `?`, `:name`, `$` in all forms, runs of `?` and `:`, marks): its tokens are those of the parts, in order, each whole. |
| `Writing.OnlyAskedCount` | pdo_duckdb_sql.c:251-408 | Of such a statement exactly the `?` and `:name` parts are placeholders, whatever stands in its literals, comments and quoted names. |
| `Writing.PlannedUnlessMixed` | pdo_duckdb_sql.c:251-428 | Planning it fails if and only if the parts hold both styles. |
| `Lexemes.EscapeLiteralScans` | pdo_duckdb_sql.c:45-63 | Any data with a backslash before each of its quotes and backslashes, between E and a closing quote: one literal that ends at its own quote before whatever follows but a quote, and an independent reader gives the data back. |
| `Lexemes.QuotationScans` | pdo_duckdb_sql.c:45-63 | Any data with its quotes doubled, between two quotes, is one item that ends at its own quote, for each kind of quote. |
| `Lexemes.Unclosed` | pdo_duckdb_sql.c:45-63 | A literal whose quote never comes again takes the rest of the statement. |
| `Lexemes.CommentLength` | pdo_duckdb_sql.c:65-98 | Comments nested in comments, to any depth and in any order, are passed exactly to the end of the outermost. |
| `Lexemes.LineCommentStep` | pdo_duckdb_sql.c:65-98 | A line comment is passed up to its line break. |
| `Lexemes.DollarTextLength` | pdo_duckdb_sql.c:100-123 | Text between two equal tags is passed whole, for every tag and every text in which the tag does not occur before its end. |
| `Lexemes.UnicodeSpaceIs` | pdo_duckdb_sql.c:25-43 | For every code point, encoded as UTF-8 (section 3 of RFC 3629): it is passed, as a whole, if and only if it is one of the spaces listed. |
| `Plan.SqlPlan.AddPlaceholder` | pdo_duckdb_sql.c:125-164 | Refuses a second style and then changes nothing; otherwise the new plan is the specification's, whose numbering laws are below. |
| `Plan.SqlPlan.AddNativePlaceholder` | pdo_duckdb_sql.c:166-249 | The plan's lists and positions after a `$` parameter are the specification's, for names, numbers, the legacy `$0` and numbers past ZEND_LONG_MAX. |
| `Plan.SqlPlan.AssignSlots` | pdo_duckdb_sql.c:409-426 | The positions become the slots whose bijection is proved below, and their number is the count of bindings. |
| `Plan.PlanCreate` | pdo_duckdb_sql.c:251-428 | A plan is made exactly when the numbering of the statement's items accepts them, and it holds that numbering. |
| `Numbering.SlotsAreABijection` | pdo_duckdb_sql.c:409-426 | In every accepted statement the slots number the parameters without a gap or a clash, PDO parameters keep their own positions, and each placeholder has a slot. |
| `Numbering.NamesRankByFirstOccurrence` | pdo_duckdb_sql.c:125-164 | Two named placeholders have one index exactly when they have one name; index k belongs to the k-th name to occur. |
| `Numbering.RefusedExactlyWhenMixed` | pdo_duckdb_sql.c:125-164 | A statement is refused if and only if it holds placeholders of both styles. |
| `Numbering.LegacyZeroIsFresh` | pdo_duckdb_sql.c:166-249 | The legacy `$0` gets a position that no placeholder before it has. |
| `Spelling.NumberDenotes` | pdo_duckdb_sql.c:166-249 | The position a `$` number asks for is the number its digits denote, underscores not counted, and none past ZEND_ULONG_MAX; the legacy parser stops at an underscore. |
| `Spelling.LowerMeans` | pdo_duckdb_sql.c:166-249 | Two `$` names are one parameter exactly when they differ at most in the case of ASCII letters. |
| `Lexemes.UndoubleTwice` | pdo_duckdb_sql.c:166-249 | A quoted `$"name"` stands for the name whose quotes were doubled. |
| `Render.AppendBytes` | pdo_duckdb_sql.c:457-478 | The byte loop appends the quoted form of a value, about which QuotedInert and LiteralScans speak. |
| `Spelling.QuotedDenotes` | pdo_duckdb_sql.c:457-478 | Reading what is written for a value, hexadecimal digits by pairs and doubled quotes, gives its bytes and whether it is a blob. |
| `Render.RenderSql` | pdo_duckdb_sql.c:480-521 | The merge of the two placeholder lists yields the statement with each edit spliced in at its place. |
| `Rewriting.NumberAligned` | pdo_duckdb_sql.c:251-428 | The two lists of a plan are the placeholders of the items, in order, at their byte offsets, none left out. |
| `Rewriting.MergeWeaves` | pdo_duckdb_sql.c:480-521 | The merge equals an item-by-item replacement: whatever is not replaced is kept byte for byte, whatever is replaced is replaced once. |
| `Statements.PlanMerges` | pdo_duckdb_sql.c:480-521 | For every accepted statement the edits are in order, disjoint and inside it, and splicing them gives the woven statement. |
| `Statements.PlanFits` | pdo_duckdb_sql.c:448-455 | Every slot a plan can ask for has a value, and no undefined PDO value is read. |
| `Statements.ParseProbe` | pdo_duckdb_sql.c:528-531 | The method returns the probe that the theorems on the probe are about. |
| `Statements.Expand` | pdo_duckdb_sql.c:533-549 | The method returns the expanded statement, or the error for a missing value, as ExpandedValues and the theorems on its tokens take it; no index leaves its bounds. |
| `BoundValues.ExpandedValues` | pdo_duckdb_sql.c:480-549 | The expanded statement item by item, for every accepted statement: for a `?` or `:name` the bound text, between blanks, of the value it asks for; for a `$` parameter the value at the place of its own number or name, or nothing changed; every other item as it was. One name has one place, a number the one it denotes. |
| `BoundValues.ExpandsWhen` | pdo_duckdb_sql.c:533-549 | The errors of expansion, exactly: there are not as many values as slots, or there are and some placeholder asks for a value that is not set. |
| `BoundValues.AsksForOne` | pdo_duckdb_sql.c:125-164 | What an item asks for is unique: for the k-th `?` value k, for a `:name` the rank of its name by first occurrence. |
| `BoundValues.PreparedNumbers` | pdo_duckdb_sql.c:523-526 | The prepared statement item by item: `$n` for a placeholder that asks for the n-th value, every other item as it was. |
| `Statements.ProbeKeepsTokens` | pdo_duckdb_sql.c:480-531 | Scanning the probe again gives the statement's tokens with an empty literal for each placeholder, if and only if no :name is directly followed by a colon and a parameter character. |
| `Statements.ProbeHasNoPlaceholder` | pdo_duckdb_sql.c:528-531 | Planning the probe, with either parser, finds no PDO placeholder, if and only if no :name shields another. |
| `Statements.PositionalNeverShields` | pdo_duckdb_sql.c:251-428 | A statement in the `?` style, or without placeholders, never shields. |
| `Statements.PlaceholdersAreTokens` | pdo_duckdb_sql.c:251-428 | A statement has no placeholders exactly when none of its tokens is one. |
| `Statements.ShieldedExample` | pdo_duckdb_sql.c:383-393 | The input `:a:b`: one placeholder, and its probe still holds another. |
| `Replace.Rescanned` | pdo_duckdb_sql.c:480-521 | Replacing placeholders by inert texts between blanks changes no other token, through any context. |
| `Replace.Uncovered` | pdo_duckdb_sql.c:480-521 | A replaced placeholder that shielded a :name brings that name to light as a placeholder. |
| `Replace.Changed` | pdo_duckdb_sql.c:480-521 | Where the condition of Rescanned fails, the token stream does change. |
| `Inertness.LiteralScans` | pdo_duckdb_sql.c:457-478 | Quoting round trip: any value, quoted, is scanned as one literal that ends at its own quote, and reading it gives the value. |
| `Inertness.QuotedInert` | pdo_duckdb_sql.c:457-478 | Every quoted value, text or blob with any bytes, is scanned as itself whatever follows the next blank. |
| `Inertness.CastInert` | pdo_duckdb_sql.c:480-521 | The same for every integer that is written unquoted. |
| `Inertness.DriverValueInert` | pdo_duckdb_sql.c:480-521 | The same for everything the driver binds. |
| `Expansion.ExpandedKeepsTokens` | pdo_duckdb_sql.c:533-549 | No bound value reaches outside its place: the expanded statement's tokens are the statement's with the values' tokens in the parameters' places, if and only if no placeholder shields a :name and no unquoted value stands behind a nameless `$`. |
| `Expansion.ExpandedUncovers` | pdo_duckdb_sql.c:533-549 | Where a placeholder did shield a :name, the expanded statement holds a placeholder token. |
| `Expansion.NamelessExample` | pdo_duckdb_sql.c:480-521 | The input `$ ?` with an unquoted NULL: it plans and expands, only the second condition fails, and the tokens differ. |
| `NativeForm.RenderNative` | pdo_duckdb_sql.c:523-526 | The method returns the native form the next theorem is about. |
| `NativeForm.NativeKeepsTokens` | pdo_duckdb_sql.c:480-526 | The prepared statement has the original's tokens with `$n` for each PDO parameter, if and only if no placeholder stands right behind a word, a lone `$` or a `$name`, and none is followed by a digit or by `_` and a digit. |
| `NativeForm.FollowedExample` | pdo_duckdb_sql.c:523-526 | The input `?1` is prepared as `$11`. |
| `NativeForm.PrecededExample` | pdo_duckdb_sql.c:523-526 | The input `a?` is prepared as the word `a$1`. |
| `LexersAgree.RegionsAgree` | duckdb_driver.c:804-909 | On ASCII without `$`, `:` and backtick the two scanners put every byte in the same region: code, comment, literal, quoted name. |
| `LexersAgree.PlaceholdersAreCode` | pdo_duckdb_sql.c:251-428 | On such SQL no placeholder is counted inside what the other scanner takes for a comment, literal or quoted name. |
| `Transactions.FirstEffectIsFirst` | duckdb_driver.c:1002-1026 | The quick look at the first effect agrees with cutting the whole batch into statements. |
| `Transactions.ManyAreNoticed` | duckdb_driver.c:471-494 | A batch in which scanning finds two statements is never taken for one. |
| `Transactions.LastEffectSuffices` | pdo_duckdb_bridge_query.cpp:317-336 | Keeping only the last effect of a batch leaves the same transaction state as applying each. |
| `Transactions.ExecuteEach` | duckdb_driver.c:1074-1118 | The transaction state after a failure at any statement is that of the statements completed, which are those before the first that fails. |
| `Transactions.ExecuteBatch` | duckdb_driver.c:1135-1156 | The bridge's path leaves the same state as ExecuteEach for the same outcomes. |
| `Batches.EffectMeans` | duckdb_driver.c:911-933 | A word opens a transaction if and only if it spells begin or start, and ends one if and only if it spells commit, end, rollback or abort, in any mix of cases and unquoted. |
| `Batches.AppliedMeans` | duckdb_driver.c:671-684 | Afterwards the connection is in a transaction after an opening word, is not after an ending one, and is as before after any other. |
| `Batches.ExplainRead` | duckdb_driver.c:935-980 | EXPLAIN, an ANALYZE or none, and an option list or none, written from its parts: the statement explained is found, and it is run exactly when ANALYZE stands before the list or as an option's name in it, also quoted. |
| `Batches.BatchRead` | duckdb_driver.c:1028-1072 | A batch written from statements with any balanced parentheses, semicolons inside them included: cutting it gives those statements, in order, each with its effect. |
| `Batches.BatchReadToEnd` | duckdb_driver.c:1028-1072 | The same when no semicolon stands behind the last. |
| `TransactionScan.Scanner.ReadNext` | duckdb_driver.c:804-909 | Token and remaining text are the specification's, over comments, quotes, dollar quotes, escapes and Unicode space. |
| `Writing.WritingRead` | duckdb_driver.c:804-909 | The second scanner on a statement written from parts: words, quoted names and marks as they were written, one opaque token for each literal, E-literal and dollar-quoted text, nothing for a comment. |
| `TransactionScan.Tokenizer.ScanExplain` | duckdb_driver.c:935-980 | What stands behind EXPLAIN, with ANALYZE and its option list, is found as specified. |
| `TransactionScan.Tokenizer.SkipStatement` | duckdb_driver.c:982-1000 | Skips to the semicolon at depth zero, from any depth, or to the end. |
| `TransactionScan.Tokenizer.NextStatement` | duckdb_driver.c:1028-1072 | Takes exactly the first statement of what is left and leaves exactly the others; it advances. |
| `TransactionScan.FirstTransactionEffect` | duckdb_driver.c:1002-1026 | Returns the effect that FirstEffectIsFirst identifies. |
| `TransactionScan.TransactionFlags` | duckdb_driver.c:1028-1072 | Counts all statements, keeps the first effects the caller has room for, and returns the flags FlagsMean explains. |
| `TransactionScan.FlagsMean` | duckdb_driver.c:1028-1072 | Each flag is set if and only if there is a statement of its kind. |
| `TransactionScan.MayHaveMultipleStatements` | duckdb_driver.c:471-494 | The byte loop decides the predicate that ManyAreNoticed is about. |
| `Instances.LookupMeans` | duckdb_driver.c:203-298 | Nothing is found exactly when no open database clashes with the path or the file; what is found has that path and no other file. |
| `Instances.FirstClashDecides` | duckdb_driver.c:203-298 | The first database that clashes decides: it is shared if it has the path and recorded no other file, or else the open fails for a hard link, another case or a changed file, as it is the case. |
| `Instances.Registry.Find` | duckdb_driver.c:203-298 | The walk over the list returns what LookupMeans and FirstClashDecides explain. |
| `Instances.Registry.Open` | duckdb_driver.c:203-298 | Succeeds if and only if DuckDB opens, verifies and connects, and the first clashing database can be shared, or none clashes and the file opened is identified and the one seen before. A failure changes nothing; a success shares the first clashing database, or a new one, and lists the connection at it alone. Files open under different paths stay different, unless the file could not be identified before it was opened and then is one already open: exactly then they do not. |
| `Instances.Registry.OutcomeMeans` | duckdb_driver.c:203-298 | When an attempt succeeds, said of the files and the path alone. |
| `Instances.Registry.SameFirst` | duckdb_driver.c:203-298 | While no file is open twice, the database open at the path with the file seen is the first to clash, and can be shared. |
| `Instances.Registry.Close` | duckdb_driver.c:380-435 | Takes the connection off its database and off no other; the last one closes the database. |
| `Instances.Instance.EnforceSandbox` | duckdb_driver.c:1949-1963 | A refusal, a lockdown and its directory are never taken back; under a lockdown only its directory is let in. |
| `Instances.Registry.Enter` | duckdb_driver.c:1965-1982 | SQL enters under an open_basedir exactly when the sandbox is on for that directory or can be put on, and without one unless the database was refused; other databases' sandboxes are untouched. |
| `Instances.Run` | duckdb_driver.c:203-298 | Over every sequence of calls: no path is open twice, each connection is listed at most once, a used database is open, a refused one stays refused, all that enter one database under an open_basedir enter under the same, and there are as many connections as the calls say. |
| `Instances.LinkedMeanwhile` | duckdb_driver.c:203-298 | A run of two opens that ends with one file open under two paths: it could not be identified before the second open. |
| `ChunkCache.AllRowsAre` | duckdb_statement.c:2773-2846 | The reference list of a result's rows has each row of each chunk once, in order. |
| `ChunkCache.Thread.Invalidate` | duckdb_statement.c:117-122 | Afterwards the cache does not speak for the destroyed chunk. |
| `ChunkCache.Thread.Load` | duckdb_statement.c:124-163 | Succeeds exactly for a chunk whose columns fit the cache or for which there is memory; the cache then speaks for that chunk with its own vectors, and otherwise for none. |
| `ChunkCache.Thread.GetCol` | duckdb_statement.c:2931-2985 | A column read through the cache is what a direct read of the live chunk gives, whatever the cache held, and bounds decide exactly when there is one. |
| `ChunkCache.Thread.Fetch` | duckdb_statement.c:2773-2846 | Serves the next row if the chunk has one, or else the first row of the next chunk that is not empty, unless the caller is turned away or DuckDB fails before it: exactly then, or at the end of the result, there is none. The end of a result means every row was served once, in order. |
| `ChunkCache.Thread.CloseCursor` | duckdb_statement.c:3554-3558 | Closes from every reachable state, keeps the cache sound, and serves nothing more. |
| `ChunkCache.Run` | duckdb_statement.c:117-163 | Many results on one thread with chunk addresses used again, in any order: each executes and serves a prefix of its rows, all of them at the end, and every column ever read is DuckDB's for a row that was served. |
| `Appenders.Appender.AppendRow` | duckdb_appender.c:1451-1593 | A row is refused exactly when the appender is not in use, the count is wrong, the caller may not or a value is unfit, and leaves no trace; otherwise it is appended if and only if DuckDB takes each value and the end of the row, and is poison if not, of which nothing stays. |
| `Appenders.Appender.Flush` | duckdb_appender.c:1640-1661 | Writes all buffered rows in order, or poisons the appender and writes none. |
| `Appenders.Appender.Close` | duckdb_appender.c:1663-1684 | The same for close, after which the appender takes no more rows. |
| `Appenders.Appender.DestroyClearing` | duckdb_appender.c:401-461 | Destroys once; writes the buffered rows only of an open appender that may and can close. |
| `Appenders.Link` | duckdb_appender.c:367-376 | The new appender becomes the head of a list whose links still run both ways. |
| `Appenders.Unlink` | duckdb_appender.c:378-394 | Takes out the one appender, wherever it stands, keeps the others in order and both ways linked. |
| `Appenders.ReleaseNative` | duckdb_appender.c:401-461 | Releases once: a second release does nothing, and rows of a poisoned or closed appender are not written. |
| `Appenders.AppendersRelease` | duckdb_appender.c:463-468 | Taking heads until none is left releases every appender of the connection, each once. |
| `Appenders.CloseHandle` | duckdb_driver.c:380-435 | The connection is closed with no appender linked. |
| `Appenders.ShutDown` | duckdb_appender.c:491-539 | Freeing objects before, after or on both sides of closing the connection: each native appender is destroyed once. |
| `Appenders.DiscardForRollback` | duckdb_appender.c:475-489 | Following the links visits every appender; exactly the open, abandoned ones lose their rows. |
| `Appenders.Run` | duckdb_appender.c:1451-1593 | Any appenders used, freed, rolled back and closed in any order: each call on each appender ends exactly as what happened before and DuckDB's answers say, and the rows accepted are written, buffered or discarded, as multisets; after a failure nothing more is written; a closed connection has destroyed each once. |
| `Appenders.AcceptedStays` | duckdb_appender.c:1451-1593 | A row that was accepted is among the accepted rows after any further events. |
| `Decimals.DivideByTen` | duckdb_statement.c:907-954 | The bitwise long division of two 64-bit words gives quotient and remainder by ten of the joint 128-bit number. |
| `Decimals.FormatU64` | duckdb_statement.c:893-905 | The digits are those of the number, at most 20. |
| `Decimals.FormatU128` | duckdb_statement.c:907-954 | With and without native 128-bit integers the digits are those of the number, at most 39. |
| `Decimals.HugeintToString` | duckdb_statement.c:963-981 | Two's complement is undone for every value, the least one too. |
| `Decimals.DecimalDigitsToString` | duckdb_statement.c:1158-1195 | Sign, zeros and point are placed for every width and scale, within the 43 bytes of the buffer. |
| `Decimals.DecimalToString` | duckdb_statement.c:1197-1213 | The 128-bit path writes the rendering that RenderedShape and RenderedDenotes characterise. |
| `Decimals.DecimalToStringI64` | duckdb_statement.c:1292-1299 | The 64-bit path writes the same rendering, INT64_MIN included. |
| `Decimals.CachedDecimal` | duckdb_statement.c:1302-1345 | Whatever integer a DECIMAL is stored in, the text is the same. |
| `Decimals.RenderedShape` | duckdb_statement.c:1158-1195 | The text is a sign, whole digits and exactly scale digits behind the point; the whole part is empty only where the type has no room for one. |
| `Decimals.RenderedDenotes` | duckdb_statement.c:1158-1195 | Reading the text back gives the value, for every width and scale. |
| `NestedRoundTrip.ReadBack` | duckdb_statement.c:2019-2158 | The text of every nested value, with the quoting rules, is read back to that value and stops at its end. |
| `NestedRoundTrip.TextDeterminesValue` | duckdb_statement.c:1635-1681 | Two values of one type with one text are equal. |
| `NestedRoundTrip.NullStandsApart` | duckdb_statement.c:1635-1659 | Only NULL is written as NULL; the string NULL is quoted. |
| `NestedCells.CellTyped` | duckdb_statement.c:2019-2158 | A cell whose list entries fit their child vectors is a value of its type. |
| `NestedCells.Output.AppendEscaped` | duckdb_statement.c:1661-1681 | The loop over runs writes the escaped form that is read back above. |
| `NestedCells.Output.AppendInteger` | duckdb_statement.c:1707-1786 | Each integer width, to UHUGEINT, is written with the digits and sign of its number. |
| `NestedCells.RenderCell` | duckdb_statement.c:2019-2158 | Succeeds exactly when every list and array inside lies within its child, also where the index would overflow, and then appends the cell's text. |
| `NestedCells.RenderList` | duckdb_statement.c:2019-2158 | The same for the items of a list or array. |
| `NestedCells.RenderStruct` | duckdb_statement.c:2019-2158 | The same for the fields of a structure. |
| `NestedCells.RenderMap` | duckdb_statement.c:2019-2158 | The same for the pairs of a map. |
| `NestedCells.ColumnToString` | duckdb_statement.c:2160-2184 | What the fast renderer returns from the vectors is read back to the cell's value, and it fails exactly on a broken cell or a type it is not for; RowReadsBack says which value that is. |
| `WrittenColumns.ColumnGives` | duckdb_statement.c:2019-2158 | Any values of one type, written down as a column with children appended, offsets counted, NULLs masked, structures and maps split by fields, give back in each row the value written there. |
| `WrittenColumns.RowReadsBack` | duckdb_statement.c:2160-2184 | Rendering row i of such a column and reading the text gives value i, for every nested type, every column and every row. |
| `WrittenColumns.BeyondRefused` | duckdb_statement.c:2019-2158 | A list or map that reaches beyond its child is never rendered. |
| `WrittenColumns.PlainWord` | duckdb_statement.c:1635-1659 | A text of letters, digits and underscores is written unquoted if and only if it does not spell NULL, in any case. |
| `JsonText.NumberIs` | duckdb_value.c:308-349 | Every JSON number is read to its end and no further. |
| `JsonText.NumberRead` | duckdb_value.c:308-349 | Whatever is read as a number is one. |
| `JsonComplete.CompleteNode` | duckdb_value.c:354-437 | Every text of every value, at any place in a document, is read whole and as that value, unless it is too deep or too long. |
| `JsonSound.NodeSound` | duckdb_value.c:354-437 | Whatever is accepted is a text of the grammar that denotes the value returned. |
| `JsonSound.DocumentComplete` | duckdb_value.c:527-536 | A text of a value is accepted if and only if the value fits the depth and PHP's arrays, and as that value. |
| `JsonSound.DocumentSound` | duckdb_value.c:527-536 | Only texts of fitting values are accepted. |
| `JsonSound.Unambiguous` | duckdb_value.c:354-437 | No fitting text denotes two values. |
| `JsonReader.JsonInput.ReadString` | duckdb_value.c:266-292 | The scan for the closing quote and the position afterwards are the grammar's. |
| `JsonReader.JsonInput.ReadNumber` | duckdb_value.c:308-349 | The position after a number is the grammar's, and failure is exact. |
| `JsonReader.JsonInput.ReadNode` | duckdb_value.c:354-437 | The recursive reader with its position and depth computes the parse that soundness and completeness are about. |
| `JsonReader.JsonInput.ReadMembers` | duckdb_value.c:354-428 | The same for the loop over members and items. |
| `JsonReader.ReadDocument` | duckdb_value.c:527-536 | The same for a whole column value from any depth. |
| `Annotations.AnnotatedMeans` | pdo_duckdb_bridge_types.cpp:327-390 | The list has a path exactly for each collated VARCHAR inside the type, with its collation. |
| `Annotations.AnnotatedInOrder` | pdo_duckdb_bridge_types.cpp:327-390 | Paths rise from entry to entry. |
| `Annotations.PathsAreDistinct` | pdo_duckdb_bridge_types.cpp:327-390 | No two entries share a path. |
| `Annotations.ChildAt` | pdo_duckdb_bridge_types.cpp:327-390 | The child of an ordinal is found for each kind of type exactly while there is one. |
| `Annotations.TypeAnnotations` | pdo_duckdb_bridge_types.cpp:327-390 | The walk with an explicit stack and one shared path computes the recursive list. |
| `ObjectOrder.Rearrange` | pdo_duckdb_bridge_variant.cpp:216-258 | One container is put in the original's order, each key with its own child, and no other container is touched. |
| `ObjectOrder.Expand` | pdo_duckdb_bridge_variant.cpp:220-257 | One turn settles a slot not settled before, queues its children, and keeps the invariant that Finished concludes from. |
| `ObjectOrder.Finished` | pdo_duckdb_bridge_variant.cpp:216-258 | Once the work list is empty, the whole tree is the reordered one. |
| `ObjectOrder.ReorderedInOrder` | pdo_duckdb_bridge_variant.cpp:216-258 | The tree that is computed has each object's keys in the original's order, each with its own subtree, reordered in turn; arrays keep their order. |
| `ObjectOrder.RestoreObjectOrder` | pdo_duckdb_bridge_variant.cpp:216-258 | The work list over flat storage leaves every object's keys in the original's order, each with what stood under it before, and arrays as they were, at any depth. |
| `Filesystem.Capture` | pdo_duckdb_bridge_filesystem.cpp:104-136 | Capturing a file turns every pending reference into an owner, once each. |
| `Filesystem.AddReference` | pdo_duckdb_bridge_filesystem.cpp:104-136 | A reference is added for the owner and no one else, pending exactly for a missing file. |
| `FilesystemRegistry.Registry.Validate` | pdo_duckdb_bridge_filesystem.cpp:140-147 | Success means each entry of the path was seen as recorded during the call; failure means one was seen otherwise. |
| `FilesystemRegistry.Registry.CapturePending` | pdo_duckdb_bridge_filesystem.cpp:219-230 | With a filesystem failing anywhere, entries change only to files that were seen, nobody's references change, and it fails only if a file waited for could not be looked at. |
| `FilesystemRegistry.Registry.Canonicalize` | pdo_duckdb_bridge_filesystem.cpp:149-168 | Returns the path of the first entry for the path or for the file seen there, still at its place, so that one file has one path; the owner holds it, others as before. It fails only if a file could not be looked at or is not the one recorded any more, and then adds no reference. |
| `FilesystemRegistry.Registry.Refresh` | pdo_duckdb_bridge_filesystem.cpp:170-173 | Only captures happen, also on failure; it fails only if a file the owner waits for could not be looked at. |
| `FilesystemRegistry.Registry.Remove` | pdo_duckdb_bridge_filesystem.cpp:175-185 | Exactly the dead owner's references go. |
| `FilesystemRegistry.Registry.Complete` | pdo_duckdb_bridge_filesystem.cpp:187-209 | Every file the query waited for was looked at: a file found is held, one seen missing is given up if the query failed, one that could not be looked at is waited for. A reference goes only so; other queries' stay. |
| `FilesystemRegistry.CapturesKeep` | pdo_duckdb_bridge_filesystem.cpp:219-230 | Captures keep the registry sound and everyone's references. |
| `FilesystemRegistry.CompletesKeep` | pdo_duckdb_bridge_filesystem.cpp:187-209 | So does completing, but for the failed query's references to missing files. |
| `FilesystemRegistry.CompletesKeepOthers` | pdo_duckdb_bridge_filesystem.cpp:187-209 | Pending references of other queries, also of the same owner, are kept. |
| `FilesystemRegistry.CompletesSettle` | pdo_duckdb_bridge_filesystem.cpp:187-209 | Each path a query waited for is settled by what was seen there during the call. |
| `FilesystemRegistry.ServeAll` | pdo_duckdb_bridge_filesystem.cpp:138-238 | Over every sequence of calls and filesystem answers: the registry stays sound, an owner keeps what it holds until its own query fails or it dies, nobody gains a reference without asking, and the dead hold none. |
| `FilesystemRegistry.QuerySpan.ActiveQuery` | pdo_duckdb_bridge_filesystem.cpp:272-310 | One token for all files of a query, a new one for each query, none outside. |
| `FilesystemRegistry.QuerySpan.QueryEnd` | pdo_duckdb_bridge_filesystem.cpp:272-310 | The end of a query settles what its live owner waited for, and costs only that owner, only on failure, and only missing files. |
| `Dispatch.Prepare` | run-tests.php:1352-1394 | The split into parallel and sequential files loses no test and establishes the invariants of the loop. |
| `Dispatch.Dispatcher.Release` | run-tests.php:1522-1535 | The worker's keys and no other's are given back, and what waited for them is queued again. |
| `Dispatch.Dispatcher.TakeBatch` | run-tests.php:1537-1579 | The batch holds no file whose keys are held; what conflicts waits for a key of its own; it is full or the queue is empty. |
| `Dispatch.Dispatcher.Schedule` | run-tests.php:1537-1579 | A free worker gets a batch or is ended, and every invariant holds again. |
| `Dispatch.Dispatcher.Ready` | run-tests.php:1537-1579 | The same from a worker's first message. |
| `Dispatch.Dispatcher.TestsFinished` | run-tests.php:1522-1535 | The batch moves to the finished tests, its keys are free, and every invariant holds again. |
| `Dispatch.Dispatcher.Run` | run-tests.php:1488-1640 | For every order of messages the loop ends, with every test run exactly once and nothing waiting. |
| `Dispatch.RunningFilesShareNoKey` | run-tests.php:1537-1579 | In every reachable state two workers never run files that share a conflict key. |
| `Dispatch.SomeWorkerReports` | run-tests.php:1488-1640 | No deadlock: while anything is left, some worker will send a message. |
| `Dispatch.AllRunsAlone` | run-tests.php:1537-1579 | A test that conflicts with all runs while no other worker does. |
| `Dispatch.DoneAtExit` | run-tests.php:1488-1640 | The loop's exit condition implies that all tests have finished. |
| `Dispatch.ParallelKeepsOrder` | run-tests.php:1352-1394 | The split keeps the order of the files with a common only key. |
| `Dispatch.OrderOfTests` | run-tests.php:1382-1386 | The order in which files can be popped: as given for every only key, but reversed for those that conflict with all. |
| `StartOrder.AllKeepOrder` | run-tests.php:1382-1386 | Tests that conflict with all keep the order given if and only if there is one of them at most. |
| `StartOrder.TwoAlone` | run-tests.php:1352-1394 | Any two tests that conflict with all: they start in the opposite order. |
| `Dispatch.RunAllTestsParallel` | run-tests.php:1335-1640 | Every run finishes every test once; tests with one common key start in the given order, those that conflict with all in the opposite one. |
| `Subsequences.LongestBounds` | run-tests.php:4042-4085 | The reference length bounds every common subsequence. |
| `Subsequences.LongestReached` | run-tests.php:4042-4085 | And some common subsequence has that length. |
| `Differ.CommonSubsequenceLength` | run-tests.php:4087-4106 | The rolling row holds the longest length for every prefix. |
| `Differ.BestCut` | run-tests.php:4042-4085 | Cutting the second sequence there loses nothing: the two halves reach the length of the whole. |
| `Differ.CalculateCommonSubsequence` | run-tests.php:4042-4085 | Hirschberg's division returns a common subsequence that no other exceeds. |
| `Differ.GetArrayDiffParted` | run-tests.php:4002-4040 | Cuts off all of the common start and end; they put both inputs together again and cost no length. |
| `Differ.DiffToArray` | run-tests.php:3951-4000 | Both inputs can be read from the diff, line numbers are right, and it keeps as many lines as possible. |
| `Differ.NoDiffKeepsMore` | run-tests.php:3951-4000 | No diff of the two inputs keeps more lines. |

## Findings

Properties that the code does not have on all inputs, each with an input that shows it
and the exact condition under which it does.

| property | input | holds exactly when | members |
|---|---|---|---|
| The parse probe has no placeholder of its own | `:a:b`: `:b` is shielded by the name before it until that is replaced | no `:name` is directly followed by a colon and a parameter character; never an issue with `?` | `Statements.ShieldedExample`, `Statements.ProbeHasNoPlaceholder`, `Statements.ProbeKeepsTokens`, `Statements.PositionalNeverShields` |
| A bound value is read as itself in the expanded statement | `$ ?` with NULL: the `$` skips the blank and takes NULL for its name | no placeholder shields a `:name`, and behind a nameless `$` stands no unquoted value | `Expansion.NamelessExample`, `Expansion.ExpandedKeepsTokens` |
| The prepared statement has the tokens of the original | `?1` becomes `$11`, `a?` becomes the word `a$1` | no placeholder stands right behind a word, a lone `$` or a `$name`, and none is followed by a digit or by `_` and a digit | `NativeForm.FollowedExample`, `NativeForm.PrecededExample`, `NativeForm.NativeKeepsTokens` |
| No file is open under two paths | a path that names no file when it is looked up, and a hard link to an open database once it is opened | the file can be identified before the open, or is not that of an open database after it | `Instances.LinkedMeanwhile`, `Instances.Registry.Open` |
| Tests with a common conflict key start in the order given, as the comment at run-tests.php:1382-1386 says | two tests that conflict with everything: those are merged without being reversed, and start in the opposite order | for tests with a single key: the key is not the one that conflicts with all, or at most one test has it | `StartOrder.TwoAlone`, `StartOrder.AllKeepOrder`, `Dispatch.OrderOfTests`, `Dispatch.RunAllTestsParallel` |

## Left out

- SQL plans: the flags for `$` parameters and ATTACH, the refusal past LONG_MAX parameters, and the growth of the arrays.
- DuckDB's own parser: what DuckDB makes of a statement is not modelled; the second scan is this repository's. Branches that depend on DuckDB's version are taken as for version 2.
- LexersAgree.RegionsAgree: does not compare the two scanners on SQL with `$`, `:`, backticks or bytes above 127, where their rules differ; Writing.WritingScans and Writing.WritingRead describe both on dollar-quoted text.
- Transactions.ExecuteBatch: a failure of the bridge after a statement has completed is taken as one of the statement.
- Dispatch.RunAllTestsParallel: does not state the order of tests with several conflict keys, nor model workers that die, error messages, and file names that PHP takes for false.
- Differ.DiffToArray: lines are compared for identity, not by the callback that matches expectations with placeholders.
- Filesystem paths as DuckDB canonicalizes them before the registry sees them, and the Windows branch of the identification.
- Instances.Registry.Open: one caller at a time; the locks around the registry, the intrusive links (sequences here) and how deep an instance is locked are not modelled. The sandbox is taken to be applied wholly or not, without its SQL text and extension checks.
- Instances.Registry.Close: the empty query that ends a running one is not modelled.
- ChunkCache.Thread.Fetch: the conversion of values and its errors, and liveness checks of other extensions, are not modelled.
- Appenders.Appender.AppendRow: which values a column refuses is a parameter, so the table of conversions is not modelled.
- Appenders.Appender.Flush: a flush or close that fails is taken to have written nothing.
- NestedCells.ColumnToString: leaves are BOOLEAN, integers, DECIMAL and VARCHAR; the other scalars, UNION, and the way DuckDB 1.5 writes an ARRAY are left out, as they only add cases.
- JsonReader.JsonInput.ReadString: the decoding of escapes inside a string is PHP's scanner, here a parameter that any decoder may fill.
- JSON numbers are kept as their text: the conversion to PHP's integers and floats is not modelled.
- VARIANT values: the offsets inside the serialized form; containers are nodes in flat storage.
- Allocation failures, input and output, and all code that only passes values on to DuckDB.
