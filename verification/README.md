# dictapi engine, modelled in Dafny

dictapi exposes every table of a PostgreSQL database as a REST-style
resource. Each table gets its own resource. Each resource has one handler
per verb:

- GET: by primary key, by keyword filter, or by a key followed by a
  reference path;
- GET_RANGE: a page of rows chosen by a range string such as `"21-40"`;
- HEAD: GET's status with no body;
- PUT: insert or update;
- DELETE.

Every handler returns a `(status, payload)` pair. It commits or rolls back
the shared connection. A handler can be wrapped in modifiers:

- NoRead hides a column from replies;
- NoWrite refuses calls that write a column;
- LastModified stamps a column with the current time.

The last modifier added is the outermost, and each layer rolls the
connection back after it answers.

The model has one file per layer:

- `values.dfy`: the values that cross the engine, the reply envelope, and
  the error body `{'error': True, 'message': …}`.
- `numerals.dfy`: decimal literals read two ways: Python's `int()`
  (Unicode whitespace, sign, underscore grouping and ASCII digits), which
  the range parser uses, and PostgreSQL's reading of an `integer` literal
  (ASCII blanks, sign, digits, 32 bits), which the store uses.
- `ranges.dfy`: GET_RANGE's range parser, as a pure function with its
  round-trip and worked examples.
- `store.dfy`: the row store the engine drives (DictORM over PostgreSQL),
  reduced to what the verbs observe. It covers typed columns and the
  `DataError`/`ProgrammingError` they raise, `get_one`, insert, update and
  delete with key and foreign-key checks, relations and reference paths,
  and a transaction made of the committed state, the state inside the open
  transaction, and the log of commits and rollbacks.
- `verbs.dfy`: each verb and the modifier chain as functions from
  (arguments, transaction) to (reply, transaction).
- `store_laws.dfy`: what the store's writes preserve: primary keys that
  are present, non-NULL and distinct; the removal of a deleted key; the
  refusal of integers a column cannot hold; and what commit and rollback
  do to the open writes.
- `verb_laws.dfy`: what those functions promise across calls.
- `scenarios.dfy`: the test suite's PUT scenarios on its person table,
  worked through the verbs: Jake inserted under id 1, then renamed Phil.
- `handlers.dfy`: the engine's objects as classes:
  - the connection;
  - a handler whose list of modifiers grows with `modify`;
  - the resource table;
  - the registry that builds one resource table per table.

  Each handler method is proved to return, and to leave the connection in,
  exactly what the functions of `verbs.dfy` say.

An exception that escapes a Python handler is the reply `Raised(e)`. Such an
exception skips the rollback of every modifier layer it passes through.
The wall clock is a parameter `now`. The database is a value held by the
connection.

## Model

| member | source | states |
|---|---|---|
| Numerals.ParseInt | dictapi/dictapi.py:139-145 | `int()` of a string without a minus sign never yields a negative number |
| Numerals.DigitsParse | dictapi/dictapi.py:139-145 | a run of ASCII digits reads as the number it spells |
| Numerals.DecimalRoundTrip | dictapi/dictapi.py:139-145 | reading back the decimal spelling of n gives n, and that spelling has no '-' |
| Numerals.IntSkipsSpace | dictapi/dictapi.py:139-145 | `int()` ignores a leading Unicode whitespace character, the no-break space included |
| Numerals.PgInt | dictapi/test_dictapi.py:29-35 | an `integer`/`SERIAL` column reads text only to a value within 32 bits, never negative without a '-' |
| Numerals.PgIntDecimal | dictapi/test_dictapi.py:29-35 | the decimal spelling of every n up to 2^31 - 1 reads back as n |
| Numerals.PgIntOverflow | dictapi/test_dictapi.py:29-35 | the decimal spelling of every n above 2^31 - 1 is rejected |
| Numerals.PgRejectsUnicodeSpace | dictapi/test_dictapi.py:29-35 | a digit led by a blank that is not ASCII is rejected, where `int()` accepts it |
| Ranges.CountAbsent | dictapi/dictapi.py:135 | '-' is absent exactly when it occurs zero times, so the first half of the 400 test is subsumed by the count test |
| Ranges.IndexOf | dictapi/dictapi.py:144 | the split point is the first '-' in the string |
| Ranges.Bounds | dictapi/dictapi.py:147-153 | the 1-indexed start becomes an offset; a window exists exactly when offset < end; then offset + limit == end and limit >= 1 |
| Ranges.EndOnly | dictapi/dictapi.py:137-139 | "-B" gives a non-empty window or a rejection |
| Ranges.StartOnly | dictapi/dictapi.py:140-142 | "A-" gives a non-empty window or a rejection |
| Ranges.StartAndEnd | dictapi/dictapi.py:143-145 | "A-B" gives a non-empty window or a rejection |
| Ranges.ParseRange | dictapi/dictapi.py:133-153 | every window is non-empty; a window comes only from "" or a string with exactly one '-'; any other non-empty string is a 400 |
| Ranges.JoinedSides | dictapi/dictapi.py:143-145 | two dash-free sides joined by '-' are read as start and end |
| Ranges.FromTo | dictapi/dictapi.py:143-153 | "A-B" in decimals means the window from A to B inclusive |
| Ranges.UpTo | dictapi/dictapi.py:137-153 | "-B" means the first B rows |
| Ranges.From | dictapi/dictapi.py:140-153 | "A-" runs from A to COLLECTION_SIZE |
| Ranges.DefaultWindow | dictapi/dictapi.py:133-153 | no range, and "1-", both mean offset 0, limit 20 |
| Ranges.SecondPage | dictapi/dictapi.py:143-153 | "21-40" means offset 20, limit 20 |
| Ranges.FirstTen | dictapi/dictapi.py:137-153 | "-10" means offset 0, limit 10 |
| Ranges.FromFifth | dictapi/dictapi.py:140-153 | "5-" means offset 4, limit 16 |
| Ranges.RejectedRanges | dictapi/dictapi.py:135-151 | "50-40" and "1-2-3" are 400s |
| Ranges.LoneDash | dictapi/dictapi.py:137-139 | "-" makes `int('')` raise |
| Ranges.LetterSide | dictapi/dictapi.py:139-145 | a side that is a single non-digit makes `int()` raise |
| Ranges.LetterStart | dictapi/dictapi.py:143-145 | a start that is not a number makes `int()` raise |
| Store.Cast | dictapi/dictapi.py:110-116 | None passes any column type; text for an integer column is what PostgreSQL reads from it, a DataError where it reads nothing, and always within 32 bits |
| Store.Stored | dictapi/dictapi.py:184-190 | a write accepts exactly the coerced values that fit their columns; an integer outside 32 bits is a DataError; coercion errors pass through |
| Store.Coerce | dictapi/dictapi.py:110-116 | keyword values are accepted exactly when every key is a column and every value fits its type; the coerced row has the same keys and the cast values; otherwise ProgrammingError or DataError |
| Store.FirstMatch | dictapi/dictapi.py:94 | the index found is the first matching row; None means no row matches |
| Store.GetOne | dictapi/dictapi.py:110 | errs exactly when coercion errs; a found row is stored and matches; None means no stored row matches |
| Store.KeyOf | dictapi/dictapi.py:184-185 | the key a flushed entry is located by is part of the entry and agrees with it |
| Store.InsertRow | dictapi/dictapi.py:190 | succeeds exactly when the store admits the row built from the arguments (omitted serial columns from the sequence, other omitted columns NULL), which is then appended as the only change; otherwise IntegrityError; given values are stored cast and fit 32 bits; the new row has a non-NULL key no other row has and valid foreign keys; a coercion or range error is passed on |
| Store.UpdateRow | dictapi/dictapi.py:184-185 | an updated entry without every key column raises KeyError; a coercion or range error is passed on; otherwise the entry is cast to its columns' types and its cast key locates the stored row: the update succeeds exactly when that row, updated, is admitted (else IntegrityError), replacing that row and keeping the row count; the arguments are stored cast and fit 32 bits; columns not written keep their values; when no row carries the cast key it succeeds and writes nothing |
| Store.DeleteRow | dictapi/dictapi.py:209-213 | an entry without every key column raises KeyError; otherwise the row its key locates is removed, or IntegrityError exactly when another row references it; other tables are unchanged |
| Store.Follow | dictapi/dictapi.py:100-105 | `seg in current`, then `current[seg]`: a row contains its columns and relations and a column leads to its value; a many-relation's rows contain nothing; a dict contains its keys and never fails; a string contains its substrings but is never indexed; a list contains its members and is indexed only by them; the only failures are TypeError and IndexError |
| Store.Where | dictapi/dictapi.py:105 | a relation yields exactly the rows whose column equals the value, never for None |
| StoreLaws.InsertedKeyFresh | dictapi/dictapi.py:190 | an inserted row has every key column set, to a key no stored row had |
| StoreLaws.InsertKeepsKeysUnique | dictapi/dictapi.py:190 | an insert keeps every table's keys present, non-NULL and distinct |
| StoreLaws.UpdateKeepsKeysUnique | dictapi/dictapi.py:184-185 | an update keeps every table's keys present, non-NULL and distinct |
| StoreLaws.DeleteKeepsKeysUnique | dictapi/dictapi.py:209 | a delete keeps every table's keys present, non-NULL and distinct |
| StoreLaws.DropKeepsKeys | dictapi/dictapi.py:209 | removing one row keeps a table's keys present and distinct |
| StoreLaws.KeyLocates | dictapi/dictapi.py:209 | with unique keys, an entry's full key locates exactly the stored row that carries it |
| StoreLaws.DeleteRemovesKey | dictapi/dictapi.py:209 | a delete that succeeds had an entry with every key column, and afterwards no row carries the deleted row's key, nor the entry's |
| StoreLaws.OversizeInteger | dictapi/dictapi.py:108-113 | an integer outside 32 bits is a DataError on insert and finds no row as a filter; its decimal text is a DataError as a filter |
| Verbs.Zip | dictapi/dictapi.py:87 | `dict(zip(pks, a))` has the keys as domain and maps each distinct key to its argument |
| Verbs.GetByPath | dictapi/dictapi.py:88-107 | a reference GET rolls back unless an exception escapes, which leaves the transaction untouched |
| Verbs.GetByFilter | dictapi/dictapi.py:108-121 | never raises and always rolls back; 200 exactly when a non-empty filter finds a non-empty row, which is the payload; DataError→400 invalid key; ProgrammingError→400 invalid name; 404 names the filter |
| Verbs.GetCore | dictapi/dictapi.py:81-121 | GET leaves the transaction as it was or rolls it back, nothing else |
| Verbs.RangeOf | dictapi/dictapi.py:133-153 | a window read from GET_RANGE's argument always asks for at least one row |
| Verbs.Page | dictapi/dictapi.py:154 | offset/limit yields min(limit, rows past offset) rows, each the row at offset + i |
| Verbs.RangesArgument | dictapi/dictapi.py:132 | `ranges` is bound from the first positional argument or the keyword, exactly when one of them is given; otherwise TypeError |
| Verbs.RangeCore | dictapi/dictapi.py:132-158 | GET_RANGE leaves the transaction as it was or rolls it back, nothing else |
| Verbs.PutAfter | dictapi/dictapi.py:181-195 | exceptions pass through; the transaction is GET's, or GET's plus a commit that settles it; a 201 is an insert |
| Verbs.DeleteAfter | dictapi/dictapi.py:205-218 | exceptions pass through; the transaction is GET's, rolled back, or committed and settled; a found entry the store deletes commits 200; an IntegrityError answers 400 and rolls back; any other store exception escapes with the transaction untouched |
| Verbs.Core | dictapi/dictapi.py:81-218 | a verb body only appends to the connection's log |
| Verbs.Chain | dictapi/dictapi.py:64-75 | the connection's log only grows, and a call that returns rather than raises ends with one rollback per modifier layer it passed through |
| Verbs.Hide | dictapi/dictapi.py:36-40 | a dict payload keeps its status and every other key and value and loses the column; a list raises TypeError, any other payload AttributeError; an exception passes through |
| VerbLaws.ReadsOnlyRollBack | dictapi/dictapi.py:64-165 | GET, GET_RANGE and HEAD with any modifiers never commit: only rollbacks are logged |
| VerbLaws.GetStatuses | dictapi/dictapi.py:81-121 | GET through any modifiers replies only 200, 400 or 404 |
| VerbLaws.ChainSettles | dictapi/dictapi.py:64-218 | from a settled transaction, every invocation of every verb ends settled |
| VerbLaws.ChainKeepsKeys | dictapi/dictapi.py:64-218 | from a settled transaction with unique keys, every invocation of every verb commits only unique keys |
| VerbLaws.PutAfterKeepsKeys | dictapi/dictapi.py:181-192 | PUT's write keeps the keys unique |
| VerbLaws.DeleteAfterKeepsKeys | dictapi/dictapi.py:205-215 | DELETE's write keeps the keys unique |
| VerbLaws.NoReadHides | dictapi/dictapi.py:36-40 | a NoRead column never appears in a dict reply, whatever modifiers wrap it |
| VerbLaws.ModifyWraps | dictapi/dictapi.py:64-71 | `modify` puts the new modifier around everything added before |
| VerbLaws.LastModifiedStamps | dictapi/dictapi.py:51-53 | with LastModified outermost, the verb sees the column set to now, then one rollback |
| VerbLaws.NoReadRemoves | dictapi/dictapi.py:36-40 | with NoRead outermost, a dict reply keeps its status and loses exactly that column |
| VerbLaws.NoWriteRefuses | dictapi/dictapi.py:43-48 | with NoWrite outermost, naming its column gives 400 'Cannot write to' before the verb runs |
| VerbLaws.StampThenRefuse | dictapi/dictapi.py:43-53 | LastModified added after NoWrite on one column makes every call a 400 |
| VerbLaws.RefuseThenStamp | dictapi/dictapi.py:43-53 | NoWrite added after LastModified lets calls without the column reach the verb, stamped |
| VerbLaws.HeadMirrorsGet | dictapi/dictapi.py:164-165 | HEAD, through GET's own modifiers, answers GET's status with no payload and leaves GET's transaction |
| VerbLaws.GetByKeyIsGetByName | dictapi/dictapi.py:83-87 | positional key arguments mean the same as the keys by name, in key order |
| VerbLaws.GetShortKey | dictapi/dictapi.py:117-119 | fewer positional arguments than keys give 404 with an empty filter |
| VerbLaws.GetFindsStoredRow | dictapi/dictapi.py:108-121 | a 200 from GET by key or filter carries a stored row |
| VerbLaws.GetPathNoBase | dictapi/dictapi.py:92-98 | a reference path whose key finds no row answers 404 naming the key |
| VerbLaws.GetPathFollows | dictapi/dictapi.py:99-107 | once the key finds a row, the path alone decides the reply |
| VerbLaws.MissingFirstSegment | dictapi/dictapi.py:100-107 | from a row, a first segment that is neither a column nor a relation answers 400 and rolls back, whatever follows |
| VerbLaws.GetPathMissingSegment | dictapi/dictapi.py:100-104 | a first segment that is neither a column nor a relation answers 400, whatever follows |
| VerbLaws.WalkStops | dictapi/dictapi.py:100-104 | a path stops at its first missing or failing segment |
| VerbLaws.WalkContinues | dictapi/dictapi.py:100-105 | a path that arrives continues from where it arrived |
| VerbLaws.MalformedRangeKeepsTransaction | dictapi/dictapi.py:134-136 | a rejected range answers 400 and leaves the transaction untouched |
| VerbLaws.RangeByKeyword | dictapi/dictapi.py:132 | `ranges=` by keyword means the same as by position; both at once, or neither, raise TypeError |
| VerbLaws.WindowReply | dictapi/dictapi.py:153-158 | a window answers its page, or 404 when the page is empty, and rolls back |
| VerbLaws.WindowSelects | dictapi/dictapi.py:153-158 | a window starting inside the table answers 200 with min(limit, rows past offset) entries, entry i being the row at offset + i, and rolls back |
| VerbLaws.FirstPageScenario | dictapi/test_cpapi.py:218-233 | with 24 rows, "1-" answers the first 20 |
| VerbLaws.SecondPageScenario | dictapi/test_cpapi.py:236-242 | with 24 rows, "21-40" answers the last 4 |
| VerbLaws.PutWithoutKeyInserts | dictapi/dictapi.py:173-192 | PUT without key arguments inserts and commits (201) a row whose key is complete and new, keeping keys unique, or passes on the store's exception |
| VerbLaws.PutCallsGet | dictapi/dictapi.py:177-180 | PUT with key arguments runs GET, with GET's own modifiers, on those arguments alone, then acts on its outcome |
| VerbLaws.PutInsertsOnMiss | dictapi/dictapi.py:188-192 | when GET answers 404, PUT inserts a row from all its arguments, with a complete and new key, and commits it as 201, or passes on the store's exception |
| VerbLaws.PutUpdatesOnHit | dictapi/dictapi.py:181-187 | when GET finds an entry, PUT answers with what the store's update gives for that entry and PUT's arguments: on success 200 with the updated row, committed, the row count kept and every argument stored cast; on failure the store's exception with GET's transaction |
| VerbLaws.PutFoundRow | dictapi/dictapi.py:181-187 | when GET's entry, updated with PUT's arguments and cast, carries the full key of stored row j and keys are unique, PUT either answers 200 with row j updated and commits exactly that row replaced, other tables kept, or raises IntegrityError with GET's transaction; the 200 happens exactly when the updated row is admitted |
| VerbLaws.PutPassesGetError | dictapi/dictapi.py:193-195 | any other GET outcome is PUT's reply, unchanged |
| VerbLaws.PutRowCount | dictapi/dictapi.py:181-192 | through any modifiers, a 201 commits one more row and a 200 the same number; other tables are untouched |
| VerbLaws.DeleteTooManyKeys | dictapi/dictapi.py:202-203 | too many positional arguments give 400 and leave the transaction untouched |
| VerbLaws.DeletePassesGetReply | dictapi/dictapi.py:216-218 | a GET that did not answer 200 is DELETE's reply, unchanged |
| VerbLaws.DeleteCallsGet | dictapi/dictapi.py:201-205 | DELETE within the key count runs GET, through GET's own modifiers, on its own arguments, then acts on its outcome |
| VerbLaws.DeleteFoundRow | dictapi/dictapi.py:206-215 | deleting an entry that carries the full key of stored row j never raises; a 200 commits one row fewer, other tables kept, and with unique keys exactly row j removed and no committed row with the entry's key; a referenced row answers 400 and rolls back |
| VerbLaws.DeleteBehindHiddenKey | dictapi/dictapi.py:205-209 | DELETE behind a GET whose NoRead hides a key column raises KeyError after GET's rollbacks and deletes and commits nothing |
| VerbLaws.HiddenKeyReply | dictapi/dictapi.py:36-40 | a GET that found a row, behind NoRead, answers the row without that column, after two rollbacks |
| VerbLaws.KeylessEntryRaises | dictapi/dictapi.py:205-209 | an entry lacking a key column makes DELETE raise KeyError and keep GET's transaction |
| VerbLaws.DeleteRemovesOne | dictapi/dictapi.py:205-215 | DELETE through GET commits one row fewer after GET's rollback, and with unique keys the row GET found is gone; refused, it changes nothing committed |
| Scenarios.InsertJake | dictapi/test_dictapi.py:29-35 | inserting name 'Jake' into the empty person table stores {id: 1, name: 'Jake', manager_id: None} and moves the sequence to 2 |
| Scenarios.UpdatePhil | dictapi/test_dictapi.py:128-138 | updating Jake with the form the test sends, id as the text '1' and name 'Phil', replaces the one row with {id: 1, name: 'Phil', manager_id: None} |
| Scenarios.UpdateAsPhil | dictapi/test_dictapi.py:128-138 | the same for any text the integer id column reads as 1 |
| Scenarios.PutJakeScenario | dictapi/test_dictapi.py:111-117 | PUT(name='Jake') on the empty table answers 201 with id 1 and commits that one row |
| Scenarios.GetJake | dictapi/test_dictapi.py:119-121 | GET with the filter id=key, key any text the integer id column reads as 1 (such as the '1' the path /person/1 gives), once Jake is stored answers 200 with Jake and rolls back |
| Scenarios.PutPhilScenario | dictapi/test_cpapi.py:80-94 | PUT(id='1', name='Phil'), the key sent as text as the test's form data sends it, once Jake is stored answers 200 with {id: 1, name: 'Phil', manager_id: None} and commits a table of one row |
| Scenarios.PutAsPhil | dictapi/test_cpapi.py:80-94 | the same for any text the integer id column reads as 1 |
| Handlers.Connection.constructor | dictapi/dictapi.py:238-241 | a new connection starts with committed and open state equal and an empty log |
| Handlers.Connection.Commit | dictapi/dictapi.py:186 | the connection's state becomes `Store.Commit` of the old state |
| Handlers.Connection.Rollback | dictapi/dictapi.py:69 | the connection's state becomes `Store.Rollback` of the old state |
| Handlers.Connection.Write | dictapi/dictapi.py:185 | the connection's state becomes `Store.Write` of the old state |
| Handlers.Traverse | dictapi/dictapi.py:100-105 | the loop over the path returns what `Walk` specifies |
| Handlers.Handler.constructor | dictapi/dictapi.py:58-61 | a new handler is valid and has no modifiers |
| Handlers.Handler.Modify | dictapi/dictapi.py:64-71 | the modifier is appended as the outermost layer |
| Handlers.Handler.Invoke | dictapi/dictapi.py:74-75 | calling a handler replies and leaves the connection exactly as `Chain` says |
| Handlers.Handler.RunLayers | dictapi/dictapi.py:64-71 | the k innermost layers behave as `Chain` over the first k modifiers |
| Handlers.Handler.RunCore | dictapi/dictapi.py:81-218 | the verb body behaves as `Core` |
| Handlers.Handler.GetCall | dictapi/dictapi.py:81-121 | GET.call behaves as `GetCore` |
| Handlers.Handler.GetPath | dictapi/dictapi.py:88-107 | the reference branch behaves as `GetByPath` |
| Handlers.Handler.GetFiltered | dictapi/dictapi.py:108-121 | the filter branch behaves as `GetByFilter` |
| Handlers.Handler.GetRangeCall | dictapi/dictapi.py:132-158 | GET_RANGE.call behaves as `RangeCore` |
| Handlers.Handler.PutCall | dictapi/dictapi.py:171-195 | PUT.call behaves as `Core(Put, …)` |
| Handlers.Handler.DeleteCall | dictapi/dictapi.py:201-218 | DELETE.call behaves as `Core(Delete, …)` |
| Handlers.ApiTable.constructor | dictapi/dictapi.py:224-232 | a resource table has five fresh handlers without modifiers; HEAD, PUT and DELETE call its own GET |
| Handlers.ApiTable.HandlersValid | dictapi/dictapi.py:224-232 | every handler of a valid resource table can be invoked |
| Handlers.Api.constructor | dictapi/dictapi.py:238-241 | the registry serves exactly the schema's tables, each with a fresh resource table |
| Handlers.Api.InitTables | dictapi/dictapi.py:244-252 | every table name gets a fresh, valid resource table over that table; other names keep theirs |

The model follows the code where it departs from the rule that every
verb ends by committing or rolling back, and where the tests expect
otherwise:

- A range GET_RANGE rejects (lines 134-136 and 150-151) returns before any
  rollback.
- DELETE with too many positional arguments (lines 202-203) returns before
  any rollback.
- A store error raised while GET locates a row for a reference path
  (line 94) escapes without a rollback.
- A range may be given by keyword (`ranges=…`), since GET_RANGE.call
  names its first parameter (line 132).
- PUT on a key that does not exist inserts the row and answers 201
  (lines 188-192). dictapi/test_dictapi.py:141-147 expects an error there.

The reference-path lemmas (`GetPathNoBase`, `GetPathFollows`,
`GetPathMissingSegment`) take the key values and the path as two sequences,
GET's arguments being `keys + path`. Stated over one sequence `a` with
`|a| > n` and its suffix `a[n..]` fed to the recursive `Walk`, Dafny 4.11 can
derive `false` in that context for some tables, so that form is avoided.

## Left out

- The HTTP front end (dictapi/cpapi.py) is not part of this model. It
  includes the request routing that never reaches GET_RANGE.
- JSON and datetime encoding of payloads are left out.
- The Python `str()` of the filter inside "No entry matching" messages is
  kept as the filter value, not as text.
- Store.Cast: text for a timestamp column is stored as written.
  PostgreSQL's date parsing is not modelled.
- Store.Cast: any type conversion other than the ones listed is a
  DataError.
- Store.Cast: a Python int of any size passes an integer column in a
  filter, as PostgreSQL compares it as a wider integer; only writes
  (Store.Stored) refuse one outside 32 bits.
- Store.InsertRow: a SERIAL sequence that runs past 2^31 - 1 is not
  modelled; the next serial value is unbounded.
- Numerals.ParseInt: only ASCII digits are read. Python also accepts other
  Unicode decimal digits.
- Handlers.Handler.Invoke: `datetime.now()` is a single parameter `now` per
  invocation. Nested calls, for example HEAD's call to GET, see the same
  time.
- Store.Follow: a relation's result is a list of rows (many) or one row.
  DictORM's lazy result set and its substratum relations are not modelled.
- After a store error inside an open transaction, PostgreSQL aborts the
  transaction until a rollback. The model keeps the open state usable.
- Store.UpdateRow and Store.DeleteRow: DictORM is not part of this model.
  Both locate the stored row by the primary-key values the entry carries,
  the entry updated with PUT's arguments for an update and then read as
  its columns' types read it, so a key sent as text such as '1' locates
  the row whose key is 1. An entry that lacks
  a key column (one a NoRead on GET removed) raises KeyError; the row GET
  originally found is not remembered. Renaming a key through PUT is not
  modelled. A table without a primary key has its first row located.
- Store.InsertRow: the table's sequence is part of the database state, so
  a rollback rewinds it, and an insert that fails does not consume a value.
  PostgreSQL's `nextval` is neither rolled back nor returned. So after
  `PUT(id=1, …)`, every later keyless PUT on that table draws 1 again and
  fails with IntegrityError, where PostgreSQL would draw 2 on the next
  attempt.
- Store.InsertRow: column DEFAULT expressions other than a serial's
  sequence are not modelled; an omitted column is NULL.
  dictapi/test_cpapi.py:145-147 expects `last_modified` to be set after a
  PUT that does not name it, which only a column default can do.
- Store.Rollback: follows the model's transactional sequence, so it also
  rewinds a drawn serial value, which PostgreSQL would not.
- Verbs.DeleteAfter: the 200 payload is None. The source returns the value
  `entry.delete()` returns, which comes from DictORM and is not part of
  this model.
- Verbs.Passed: Python raises TypeError when modify's keyword arguments
  repeat a call keyword. Modifiers here take only the column, so that
  collision cannot arise.
- Handlers.ApiTable.constructor builds GET before the verbs that call it.
  The source builds DELETE first, which makes no observable difference.
- Connection-level concurrency and psycopg2 itself are left out.
