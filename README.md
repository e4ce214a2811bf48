# SQLiteMapper, modelled in Dafny

SQLiteMapper is an iOS library that keeps SQL statements outside the code. A configuration
property list names each database, its file and its sql maps. Each sql map is a property list
that maps a statement id to one statement or to a list of statements. The mapper does three things:

- `setUp` registers a `DBModel` for each configured database.
- `makeQuery` fills a statement template from a parameter dictionary.
- `update` runs every statement of an id in one transaction. The two `select` overloads run the
  first statement of an id. One returns every row as a record, the other only the first row.

The model covers `SQLiteMapper.swift`, `DBModel.swift` and `SQLiteMapperError.swift`. Each file
keeps the form the Swift code has:

- `text.dfy`: the Foundation and ICU pieces the mapper relies on, as pure functions. These are
  trimming, the `\s` and `\w` classes, line terminators, case folding and `String(Int)`.
- `templater.dfy`: `makeQuery`. The three regular expressions become the left-to-right scans
  they perform. `MakeQuery` keeps the source's loop over the parameters.
- `templater_properties.dfy`: a reference meaning for templates. A template is literal text
  and `{key}` holes, and `Fill` gives it a meaning. The lemmas tie `makeQuery` to that
  meaning, and a separate group covers the greedy raw form `@…{key}`.
- `plists.dfy`: property-list trees, and a bundle as a map from resource name to tree.
- `models.dfy`: the `DBModel` class. Its fields are updated in place by `SetProperties`, and
  `Queries` looks up statements.
- `mapper_errors.dfy`: the error codes, the thrown error cases and the error value that the
  completion handlers receive.
- `database.dfy`: an abstract FMDB connection and result cursor, as classes. The connection is
  given what the engine accepts, what a query answers, whether a transaction can begin, whether a
  commit goes through and how the last row id moves. Each `Open` is a new handle on the same
  file: the committed statements stay, while the transaction state and the row id start afresh.
  The connection logs every call made on it, except the row-id query, which changes nothing.
- `mapper.dfy`: the `SQLiteMapper` class. Its registry is a `map` field that `SetUp`
  reassigns. `Update`, `Select`, `SelectList` and `SelectOne` are methods, and each is proved
  against a specification predicate: `Transacted`, `Delivered`, `ListDelivered` or
  `OneDelivered`.

A completion handler is modelled by the value the flow returns. That value is one of three
things: what the handler receives, `NoCompletion` when the handler is never called, or a trap
when a forced unwrap or cast fails.

Where the code and its documented behaviour disagree, the model follows the code:

- **Update filter.** The update filter's pattern `^(delete|DELETE|insert|INSERT||update|UPDATE)(.*)`
  has an empty alternative, so every statement passes it (`UpdatePatternMatchesEverything`). An
  update therefore runs every statement of its id, selects included.
- **Failed select query.** When the select query itself throws, the connection that was just
  opened is not closed. `Delivered` and `ListDelivered` keep it open.
- **Empty parameter dictionary.** A nil dictionary only trims the template. An empty dictionary
  also runs the `NULL` sweep (`NilParamsKeepPlaceholders`, `EmptyParamsNullEveryPlaceholder`).
- **Number values.** A number is inserted bare by the quoted form, because `value is String` is
  false for a number (`InsertScenario`). `Example/Tests/SQLiteMapperTest.swift:41-42` expects
  `"21"` in quotes. The code, as written, produces `21`.
- **Update error path.** In `update`, the `catch` branch calls `rollback` and `close` on a
  variable that is never assigned (`SQLiteMapper.swift:170`). So an error raised while seeding
  the database file leaves the connection untouched. The domain is reported with a trailing
  `!` under the `Unknown` code.
- **Commit result.** `update` does not look at the result of `commit` (`SQLiteMapper.swift:214`).
  It reports success with the row id even when the commit fails, and then the close drops the
  statements (`CommittedTransaction`).
- **Begin result.** `update` does not look at the result of `beginTransaction`
  (`SQLiteMapper.swift:198`). When the transaction cannot begin, the handle stays in autocommit
  mode. Each accepted statement is then permanent at once, and the rollback after a rejected
  statement undoes none of those before it (`Transacted`).
- **Row id per handle.** `getCurrentDB` makes a new `FMDatabase` on every call
  (`SQLiteMapper.swift:241-243`), so the row id an update reports starts from 0. A statement that
  inserts nothing leaves it there, so an update made only of updates and deletes reports 0 even
  after an earlier insert (`RowIdStaysWithoutInserts`).
- **Single-pass sweep.** The final `NULL` sweep scans the text once, so a placeholder that
  the sweep itself creates stays: `{{x}}` becomes `{NULL}` (`SweepCanLeaveAPlaceholder`). The
  same happens when a parameter value holds braces, such as the string `{{a}}`. No placeholder is
  left (`ExpandLeavesNoPlaceholder`) only under two conditions. The template must be made of literal
  text without `{` or `@` and of `{key}` placeholders. The keys must be words and the rendered
  values must hold no `{` or `@`.
- **Private select.** The private `select` never throws `InvalidSqlQuery`, because
  `makeQuery` always returns a value. Its list of statements must not be empty: `queries.first`
  is force-unwrapped, so an empty list traps (`SelectTrap`).

## Model

| member | source | states |
|---|---|---|
| Text.Trim | SQLiteMapper/Classes/SQLiteMapper.swift:40-41 | the trimmed template is no longer than the original and neither starts nor ends with whitespace or a newline |
| Text.TrimCutsOnlyOuterSpace | SQLiteMapper/Classes/SQLiteMapper.swift:40-41 | the trimmed template is a contiguous part of the original, and everything cut off on either side is whitespace or newline |
| Text.TrimKeepsTrimmed | SQLiteMapper/Classes/SQLiteMapper.swift:40-41 | a template without whitespace at its ends is kept as it is, so trimming twice changes nothing |
| Text.Lower | SQLiteMapper/Classes/SQLiteMapper.swift:51 | case folding for the case-insensitive patterns keeps word characters word characters and leaves the braces alone |
| Text.DecimalDigits | SQLiteMapper/Classes/SQLiteMapper.swift:54 | `String(n)` of a non-negative integer is a non-empty run of decimal digits with no leading zero |
| Text.DigitsRoundTrip | SQLiteMapper/Classes/SQLiteMapper.swift:54 | the digits of a non-negative integer read back as that integer |
| Text.NegativeRoundTrip | SQLiteMapper/Classes/SQLiteMapper.swift:59 | a negative integer renders as a minus sign followed by the digits of its magnitude, and reads back as itself |
| Text.IntToStringRoundTrip | SQLiteMapper/Classes/SQLiteMapper.swift:59 | every integer renders as an optional minus sign and digits, with no quote, and the text reads back as the integer |
| Templater.LineEnd | SQLiteMapper/Classes/SQLiteMapper.swift:51 | `.` of the raw pattern stops at the first line terminator: none before the position found, one at it unless it is the end |
| Templater.LastQuoted | SQLiteMapper/Classes/SQLiteMapper.swift:51 | the greedy `(.*)` ends at the last position of the range where `{key}` begins; there is none after it, and none at all when the result is empty |
| Templater.RawMatchAt | SQLiteMapper/Classes/SQLiteMapper.swift:51 | a raw match starting at `@` ends on a real occurrence of `{key}` after the `@` |
| Templater.WordRun | SQLiteMapper/Classes/SQLiteMapper.swift:67 | the length of the longest run of `\w` characters at the front |
| Templater.MakeQuery | SQLiteMapper/Classes/SQLiteMapper.swift:39-74 | trimming, one substitution per parameter in dictionary order and the final sweep give exactly `Expand(raw, param)` |
| TemplaterProperties.ExpandFillsTemplate | SQLiteMapper/Classes/SQLiteMapper.swift:39-74 | for a trimmed template of literal text and `{key}` placeholders, with values whose text holds no `{` or `@`, each placeholder becomes the quoted value of the first parameter whose key matches it ignoring case, and `NULL` when none does |
| TemplaterProperties.FillHasNoOpenBrace | SQLiteMapper/Classes/SQLiteMapper.swift:56-71 | filling a template of literal text without `{` with safe values and `NULL` writes no `{` |
| TemplaterProperties.ExpandLeavesNoPlaceholder | SQLiteMapper/Classes/SQLiteMapper.swift:39-74 | with a parameter dictionary whose keys are words and whose rendered values hold no `{` or `@`, a trimmed template of literal text without `{` or `@` and of `{key}` placeholders comes out with no `{word}` placeholder left |
| TemplaterProperties.FillIsRenderedApply | SQLiteMapper/Classes/SQLiteMapper.swift:49-71 | substituting the parameters piece by piece and then nulling the remaining holes gives the reference meaning `Fill` |
| TemplaterProperties.SubstituteAllRender | SQLiteMapper/Classes/SQLiteMapper.swift:49-64 | the parameter loop acts on a template piece by piece, one parameter after another in order |
| TemplaterProperties.SubstituteParamRender | SQLiteMapper/Classes/SQLiteMapper.swift:56-61 | one parameter replaces exactly the placeholders equal to its key ignoring case, with its quoted value, and leaves a template of the same shape |
| TemplaterProperties.ReplaceQuotedRender | SQLiteMapper/Classes/SQLiteMapper.swift:61 | replacing the quoted form changes only the holes named by the key |
| TemplaterProperties.QuotedHole | SQLiteMapper/Classes/SQLiteMapper.swift:56 | `{h}` matches `\{key\}` if and only if `h` equals the key ignoring case |
| TemplaterProperties.ReplaceQuotedHole | SQLiteMapper/Classes/SQLiteMapper.swift:56-61 | `{h}` is replaced by the value exactly when `h` equals the key ignoring case, and the scan goes on after it |
| TemplaterProperties.ReplaceQuotedSkipsPlain | SQLiteMapper/Classes/SQLiteMapper.swift:61 | text without `{` passes through the quoted replacement unchanged |
| TemplaterProperties.ReplaceRawSkipsPlain | SQLiteMapper/Classes/SQLiteMapper.swift:54 | text without `@` passes through the raw replacement unchanged |
| TemplaterProperties.SweepSkipsPlain | SQLiteMapper/Classes/SQLiteMapper.swift:70 | text without `{` passes through the `NULL` sweep unchanged |
| TemplaterProperties.SweepHole | SQLiteMapper/Classes/SQLiteMapper.swift:67-70 | a `{word}` placeholder becomes `NULL` |
| TemplaterProperties.SweepRender | SQLiteMapper/Classes/SQLiteMapper.swift:66-71 | the sweep turns every placeholder of a template into `NULL` and keeps the literal text |
| TemplaterProperties.ReplaceQuotedIdentity | SQLiteMapper/Classes/SQLiteMapper.swift:58-62 | with no match of `{key}` the text is left unchanged |
| TemplaterProperties.SweepIdentity | SQLiteMapper/Classes/SQLiteMapper.swift:69-71 | with no `{word}` the text is left unchanged |
| TemplaterProperties.NoRawMatchWithoutAt | SQLiteMapper/Classes/SQLiteMapper.swift:51-53 | text without `@` never matches the raw form, so the quoted form is the one tried |
| TemplaterProperties.NilParamsKeepPlaceholders | SQLiteMapper/Classes/SQLiteMapper.swift:43-45 | without a parameter dictionary a trimmed template comes back unchanged, placeholders included |
| TemplaterProperties.EmptyParamsNullEveryPlaceholder | SQLiteMapper/Classes/SQLiteMapper.swift:66-71 | with an empty dictionary every placeholder becomes `NULL` |
| TemplaterProperties.QuotedRendering | SQLiteMapper/Classes/SQLiteMapper.swift:59 | a string is inserted between double quotes, a number bare, without quotes, and reading it back gives the number |
| TemplaterProperties.QuotedIsPlain | SQLiteMapper/Classes/SQLiteMapper.swift:59 | a value whose text has no `{` or `@` keeps none once quoted |
| TemplaterProperties.RawMatchIsLastOnLine | SQLiteMapper/Classes/SQLiteMapper.swift:51 | the raw match from `@` ends at the last `{key}` that begins on the `@`'s line |
| TemplaterProperties.RawMatchOfLine | SQLiteMapper/Classes/SQLiteMapper.swift:51 | for `@`, text with no line end, `{k}` with `k` the key ignoring case, text with no `{`, then a line end, the raw match ends at that `{k}` |
| TemplaterProperties.ReplaceRawAtMatch | SQLiteMapper/Classes/SQLiteMapper.swift:54 | a raw match at the front is replaced by the value, and the scan resumes after its `{key}` |
| TemplaterProperties.RawLineReplaced | SQLiteMapper/Classes/SQLiteMapper.swift:51-54 | the raw match of such a line is replaced by the value and the rest of the text is kept |
| TemplaterProperties.RawFormSpansToLastOnLine | SQLiteMapper/Classes/SQLiteMapper.swift:51-54 | when the first `@` is followed on its line by `{key}`, everything from the `@` to the last `{key}` of the line becomes the bare value, and the quoted form is not tried |
| TemplaterProperties.RawFormAtLineEnd | SQLiteMapper/Classes/SQLiteMapper.swift:51-54 | `@…{key}` that ends its line becomes the bare value and the next lines are kept |
| TemplaterProperties.GreedyRawMatchSwallowsText | SQLiteMapper/Classes/SQLiteMapper.swift:51-54 | `SELECT @{c} FROM t ORDER BY @{c}` with `c = name` gives `SELECT name`: the greedy match swallows the text between the two |
| TemplaterProperties.RawFormTakesPrecedence | SQLiteMapper/Classes/SQLiteMapper.swift:51-63 | when a key appears raw on one line and quoted on the next, only the raw form is substituted and the quoted `{v}` is left for the sweep |
| TemplaterProperties.SweepLeavesNoPlaceholder | SQLiteMapper/Classes/SQLiteMapper.swift:66-71 | when every `{` opens a placeholder, the sweep leaves no `{` and no placeholder |
| TemplaterProperties.SweepCanLeaveAPlaceholder | SQLiteMapper/Classes/SQLiteMapper.swift:66-71 | the sweep is a single pass: `{{x}}` becomes `{NULL}`, which is itself a placeholder |
| TemplaterProperties.InsertScenario | SQLiteMapper/Classes/SQLiteMapper.swift:56-61 | `…{name}…{age}…` with a string name and an integer age gives the name in double quotes and the age bare, whatever the surrounding plain text |
| Plists.PropertyList | SQLiteMapper/Classes/NSBundle+SQLiteMapper.swift:13-27 | a property list is found exactly when there is a bundle holding that resource, and it is the tree stored there |
| Plists.TextAt | SQLiteMapper/Classes/DBModel.swift:21-22 | `dict[key] as? String` gives a string exactly when the key holds one |
| Models.LoadMaps | SQLiteMapper/Classes/DBModel.swift:25-31 | the loop over the sql map refs binds each ref whose resource loads to its tree and leaves the others out |
| Models.LoadedMapsExact | SQLiteMapper/Classes/DBModel.swift:24-32 | the sql maps read from a record with a `sqlmaps` dictionary have as keys exactly the refs whose resource loads, each bound to its tree |
| Models.DBModel.SetProperties | SQLiteMapper/Classes/DBModel.swift:19-34 | a record that is not a dictionary changes nothing; otherwise name and path are read as strings (none when absent), and the sql maps are replaced only when the record has a `sqlmaps` dictionary |
| Models.DBModel.constructor | SQLiteMapper/Classes/DBModel.swift:19-34 | a new description holds what `SetProperties` reads from the record |
| Models.Strings | SQLiteMapper/Classes/DBModel.swift:42 | `as? Array<String>` gives the strings in order when every element is a string, and nothing otherwise |
| Models.DBModel.Queries | SQLiteMapper/Classes/DBModel.swift:36-46 | a found list comes from a string entry (as one statement) or from a list of strings (in order) stored under the map name and id |
| Models.QueriesFindStoredEntry | SQLiteMapper/Classes/DBModel.swift:36-46 | a statement stored in a loaded sql map is found again: a string as a one-element list, a list of strings as itself |
| Models.QueriesMissing | SQLiteMapper/Classes/DBModel.swift:36-46 | a missing map, a map that is not a dictionary, a missing id, a number or dictionary entry, or a list holding anything but strings gives nothing: with `QueriesFindStoredEntry`, every kind of entry is covered |
| MapperErrors.RawValue | SQLiteMapper/Classes/SQLiteMapperError.swift:11-16 | the codes are 1 to 4 |
| MapperErrors.FromRawValue | SQLiteMapper/Classes/SQLiteMapperError.swift:11-16 | an integer names a code exactly when it is 1 to 4, and then it is that code's raw value |
| MapperErrors.RawValueRoundTrip | SQLiteMapper/Classes/SQLiteMapperError.swift:11-16 | reading a raw value back gives its code, so distinct codes have distinct raw values |
| MapperErrors.KindOf | SQLiteMapper/Classes/SQLiteMapperError.swift:18-23 | each error case corresponds to the code of the same name |
| MapperErrors.Payload | SQLiteMapper/Classes/SQLiteMapperError.swift:18-23 | every case but `Unknown` carries its sqlId, dbName or query |
| MapperErrors.ErrorTypeDeterminedByKindAndPayload | SQLiteMapper/Classes/SQLiteMapperError.swift:18-23 | two error cases are equal exactly when their kinds and payloads are |
| MapperErrors.MakeError | SQLiteMapper/Classes/SQLiteMapper.swift:249-261 | the reported error carries the given domain and the raw value of the given code |
| MapperErrors.DomainOf | SQLiteMapper/Classes/SQLiteMapper.swift:141-142 | an engine error keeps its own domain; a mapper error case has the domain of its bridged type |
| Database.Executions | SQLiteMapper/Classes/SQLiteMapper.swift:200-212 | one successful execution event per statement, in order |
| Database.ResultSet.Next | SQLiteMapper/Classes/SQLiteMapper.swift:125 | the cursor moves one row and tells whether it is on a row |
| Database.ResultSet.ResultDictionary | SQLiteMapper/Classes/SQLiteMapper.swift:126 | the row under the cursor |
| Database.Connection.Open | SQLiteMapper/Classes/SQLiteMapper.swift:241-243 | a new handle on the file is open, with no transaction, nothing pending and a last inserted row id of 0; what was committed to the file stays |
| Database.Connection.BeginTransaction | SQLiteMapper/Classes/SQLiteMapper.swift:198 | a transaction begins exactly when there is none yet and the engine lets it; otherwise the handle stays in the mode it was in; nothing is committed or dropped |
| Database.Connection.ExecuteUpdate | SQLiteMapper/Classes/SQLiteMapper.swift:205 | a statement succeeds exactly when the engine accepts it given the statements already in effect (committed, then pending); inside a transaction it waits for the commit; the row id moves only on success |
| Database.Connection.Rollback | SQLiteMapper/Classes/SQLiteMapper.swift:206 | the pending statements are dropped and the committed ones are kept |
| Database.Connection.Commit | SQLiteMapper/Classes/SQLiteMapper.swift:214 | the commit goes through exactly when there is a transaction and the engine lets it, given the statements in effect; if it does, the pending statements join the committed ones and the transaction ends; if not, the handle stays as it was |
| Database.Connection.Close | SQLiteMapper/Classes/SQLiteMapper.swift:218 | the connection is closed and an open transaction is dropped |
| Database.Connection.LastInsertRowId | SQLiteMapper/Classes/SQLiteMapper.swift:216 | the last inserted row id |
| Database.Connection.ExecuteQuery | SQLiteMapper/Classes/SQLiteMapper.swift:280 | a new cursor before the first row of the answer, or the engine's error |
| Mapper.UpdatePatternMatchesEverything | SQLiteMapper/Classes/SQLiteMapper.swift:202-204 | the empty alternative of the update pattern lets every statement through |
| Mapper.SelectPatternIsSelectThenSpace | SQLiteMapper/Classes/SQLiteMapper.swift:276-278 | a statement is run as a select if and only if it begins with `select` in any case followed by a `\s` character |
| Mapper.Expanded | SQLiteMapper/Classes/SQLiteMapper.swift:200-201 | as many expanded statements as templates |
| Mapper.ExpandedAt | SQLiteMapper/Classes/SQLiteMapper.swift:200-201 | the i-th statement run is the i-th template passed through `makeQuery` |
| Mapper.FirstRejected | SQLiteMapper/Classes/SQLiteMapper.swift:200-211 | each statement is judged after the committed ones and the statements of the transaction before it; the engine accepts every statement before the position found and rejects the one at it, unless it is the end, so a second identical insert against a unique key can be the one rejected |
| Mapper.RowIdStaysWithoutInserts | SQLiteMapper/Classes/SQLiteMapper.swift:205-216 | statements that insert no row leave the last inserted row id where they found it, so on a new handle their update reports 0 |
| Mapper.RunningStep | SQLiteMapper/Classes/SQLiteMapper.swift:205 | a successful statement joins the transaction, or the permanent statements when the transaction did not begin, and the log, and moves the row id; nothing else changes, and the statements in effect are always the committed ones followed by those run so far |
| Mapper.RejectedTransaction | SQLiteMapper/Classes/SQLiteMapper.swift:205-209 | after the first rejected statement, rolling back and closing reports `InvalidSqlQuery` with that statement; it leaves nothing of the update committed when the transaction began, and the statements before the rejected one when it did not |
| Mapper.CommitLog | SQLiteMapper/Classes/SQLiteMapper.swift:214-218 | after all statements succeed the log reads open, begin, each statement, commit, close |
| Mapper.CommittedTransaction | SQLiteMapper/Classes/SQLiteMapper.swift:214-221 | when every statement succeeds inside a transaction, committing and closing makes all of them permanent if the commit goes through, or drops them at the close if it does not; without a transaction they are already permanent; success is reported with the row id after the last one either way, since the source ignores the commit's result |
| Mapper.CurrentDbOf | SQLiteMapper/Classes/SQLiteMapper.swift:234-247 | a database is ready exactly when the description has a file path and a connection is made; a missing path traps |
| Mapper.ListErrorCodes | SQLiteMapper/Classes/SQLiteMapper.swift:135-143 | the list select reports a mapper error under the code of its kind and any other error as `Unknown` with its domain |
| Mapper.OneErrorIsAlwaysUnknown | SQLiteMapper/Classes/SQLiteMapper.swift:97-100 | the single select reports every error with code 1 (`Unknown`), an engine error with its own domain |
| Mapper.Records | SQLiteMapper/Classes/SQLiteMapper.swift:125-127 | one record per row, in row order |
| Mapper.Configured | SQLiteMapper/Classes/SQLiteMapper.swift:153 | the records read from the configuration are all dictionaries; a configuration that is missing or is not an array of dictionaries gives no records |
| Mapper.RegisterNames | SQLiteMapper/Classes/SQLiteMapper.swift:155-158 | registering never removes a name: afterwards the names are the old ones plus those of the records |
| Mapper.RegisterKeepsOthers | SQLiteMapper/Classes/SQLiteMapper.swift:155-158 | a name that no record carries keeps its old description |
| Mapper.RegisterLastWins | SQLiteMapper/Classes/SQLiteMapper.swift:155-158 | the last record with a given name decides its description |
| Mapper.SQLiteMapper.constructor | SQLiteMapper/Classes/SQLiteMapper.swift:15-20 | a new mapper has no descriptions and no bundle |
| Mapper.SQLiteMapper.DbModel | SQLiteMapper/Classes/SQLiteMapper.swift:35-37 | the description registered under the name, if there is one |
| Mapper.SQLiteMapper.SetUp | SQLiteMapper/Classes/SQLiteMapper.swift:147-161 | without a bundle nothing changes; otherwise the bundle is kept and the registry becomes the old one with a new description of each configured record stored under its name, in order |
| Mapper.SQLiteMapper.AddModel | SQLiteMapper/Classes/SQLiteMapper.swift:156-157 | a new description of the record is stored under its name and no other entry changes |
| Mapper.SQLiteMapper.Resolve | SQLiteMapper/Classes/SQLiteMapper.swift:186-194 | the statements of the id, or `DoeseNotExistDbName` for an unknown database, or `DoeseNotExistSqlId` for an unknown id |
| Mapper.SQLiteMapper.GetCurrentDB | SQLiteMapper/Classes/SQLiteMapper.swift:234-247 | the database as reached; when it is ready, a new open handle with no transaction and a row id of 0, with the committed statements kept; otherwise the connection is untouched |
| Mapper.SQLiteMapper.ExpandStatement | SQLiteMapper/Classes/SQLiteMapper.swift:201 | the i-th statement expanded by `makeQuery` |
| Mapper.SQLiteMapper.RunStatement | SQLiteMapper/Classes/SQLiteMapper.swift:201-211 | a statement fails exactly when it is the first one the engine rejects; otherwise it joins the transaction, or the permanent statements when the transaction did not begin |
| Mapper.SQLiteMapper.RunTransaction | SQLiteMapper/Classes/SQLiteMapper.swift:197-222 | on a new handle the statements run in declared order whether or not the transaction began, and the result is what `Transacted` says: the first rejected statement is reported, and the rollback undoes the statements before it only inside a transaction; otherwise the commit is requested and success is reported with the row id reached from 0, whether or not the commit goes through; the connection ends closed |
| Mapper.SQLiteMapper.Update | SQLiteMapper/Classes/SQLiteMapper.swift:163-230 | an unknown database or id is reported with its code and leaves the connection untouched; a missing file path or seed file traps; no connection means no completion; a failed seed is reported as `Unknown`; otherwise the transaction runs on a new handle as `Transacted` says, with the row id starting from 0 |
| Mapper.SQLiteMapper.RunSelect | SQLiteMapper/Classes/SQLiteMapper.swift:276-284 | only a select statement is run; the result is a fresh cursor at the start of the answer on the opened connection, nothing, or the error, as `Delivered` says |
| Mapper.SQLiteMapper.Select | SQLiteMapper/Classes/SQLiteMapper.swift:263-285 | the first statement of the id, expanded and run as a select, gives what `Delivered` says: unknown names are thrown, an empty statement list traps, and a failed query leaves the connection open |
| Mapper.SQLiteMapper.Drain | SQLiteMapper/Classes/SQLiteMapper.swift:124-128 | reading the cursor to its end gives one record per row, in order |
| Mapper.SQLiteMapper.FinishList | SQLiteMapper/Classes/SQLiteMapper.swift:121-143 | the list handler receives every row as a record and the connection is closed, an empty list when nothing was selected, or the mapped error |
| Mapper.SQLiteMapper.SelectList | SQLiteMapper/Classes/SQLiteMapper.swift:105-145 | what the list select's handler receives and the connection afterwards, as `ListDelivered` says |
| Mapper.SQLiteMapper.FinishOne | SQLiteMapper/Classes/SQLiteMapper.swift:85-100 | the single handler receives the first row as a record, if any, and the connection is closed, or an `Unknown` error |
| Mapper.SQLiteMapper.SelectOne | SQLiteMapper/Classes/SQLiteMapper.swift:76-103 | what the single select's handler receives and the connection afterwards, as `OneDelivered` says |

## Left out

- The shared instance (`sharedMapper`) and the serial dispatch queue are left out. The model is
  one mapper object used by one caller at a time.
- Delivery of completions on the main queue is left out. The model returns what the handler
  would receive.
- `makeError`'s debug print and the `userInfo` dictionary of errors are left out. They do not
  change what is reported.
- `matchesPattern` is not a separate member. The two patterns it is used with are the predicates
  `MatchesUpdatePattern` and `MatchesSelectPattern`.
- The general regular-expression engine is left out. Only the three fixed patterns of
  `makeQuery` are modelled, with keys taken literally. A key that holds regex metacharacters,
  and `$` or `\` in a value, which the replacement template would interpret, are not
  modelled.
- Text.IsWordChar: only the ASCII part of ICU's `\w`. Letters and digits outside ASCII are not
  word characters in the model.
- Text.Lower: ASCII case folding only. ICU's full Unicode case-insensitive matching is not
  modelled.
- The search range of the patterns is left out. The source builds it from the grapheme count;
  the model scans the whole text, as if the grapheme count and the UTF-16 length agreed.
- The document-directory path, the check that the file exists, and copying the seed file from
  the bundle are left out. They become the parameter `Acquisition`, which says how the database
  is reached.
- FMDB itself is left out. It becomes the abstract `Connection`. The connection has an engine
  decision per update statement, which depends on the statements already in effect, an answer
  per query, a decision whether a transaction can begin and whether a commit goes through, and a
  row-id function. A query's answer and the row id after a statement depend only on the statement
  text and the previous row id, not on the database contents.
- Database.Connection.Open: always succeeds. The source ignores the result of `open`
  (`SQLiteMapper.swift:242`). A handle that fails to open rejects every statement and cannot
  begin a transaction; the engine decisions given to the connection can express that, but are not
  tied to it.
- Reading and parsing plist files (`NSBundle+SQLiteMapper.swift`) is left out. It becomes a
  lookup of parsed trees in `Bundle`. When the bundle has no such resource, the source falls back
  to `<name>.plist` relative to the working directory (`NSBundle+SQLiteMapper.swift:16-18`). The
  model counts such a file as part of the bundle's resources.
- Building records (`T(object:)` and `AbstractJSONModel`) is left out. It becomes the function
  parameter `fromRow`.
- Models.DBModel.SetProperties: takes the bundle as a parameter. The source reads it from the
  shared mapper.
- Models.DBModel.SetProperties requires every sql map ref of the record to be a string. The
  source's forced cast would trap otherwise, and that trap is not modelled.
- Mapper.SQLiteMapper.SetUp requires every configured record to have a string `dbName` and
  string sql map refs. The source's forced unwrap and forced cast would trap otherwise, and
  those traps are not modelled.
- Templater.MakeQuery: the enumeration order of the parameter dictionary is not modelled.
  The parameters come as a sequence in the order the dictionary yields them.
- Templater.MakeQuery: parameter keys are strings. The source force-casts each key with
  `key as! String` (`SQLiteMapper.swift:51`, `56`), which traps on a non-string key, and that
  trap is not modelled.
- Templater.Value: only strings and integers. Other NSNumber contents, such as floating-point
  numbers and booleans, and other value types are not modelled.
- TemplaterProperties.ExpandFillsTemplate: the closed form is stated for templates made only of
  literal text and `{key}` placeholders, and for values whose text holds no `{` or `@`. The raw
  form, stray braces and values that create new placeholders are covered only by the separate
  lemmas above.
- TemplaterProperties.ExpandLeavesNoPlaceholder: holds only for templates of literal text without
  `{` or `@` and of `{key}` placeholders, with word keys and values whose rendering holds no `{` or
  `@`. A value that creates a placeholder is covered only by `SweepCanLeaveAPlaceholder`. For
  example, the string `{{a}}` for `{p}` gives `{NULL}`.
- Database.ResultSet.Next: calling it again after the end has been reached is not modelled.
