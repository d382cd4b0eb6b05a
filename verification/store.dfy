/**
  The row store the engine drives (a DictORM table over PostgreSQL), reduced
  to what the verbs observe: typed columns, primary keys, foreign keys and
  declared relations; rows kept in the store's natural order; and a
  transaction that holds the committed state, the state visible inside the
  open transaction, and the log of commits and rollbacks issued on the
  connection.
*/
module Store {

  import opened Wrappers
  import opened Numerals
  import opened Values

  datatype SqlType = Integer | Varchar | Timestamp | Boolean

  datatype ForeignKey = ForeignKey(table: string, column: string)

  /** A column: its type, whether a sequence fills it when omitted, and what it references. */
  datatype Column = Column(kind: SqlType, serial: bool, foreignKey: Option<ForeignKey>)

  /**
    A named relation of a row: the rows of target whose targetColumn equals
    the row's column; a many-relation yields all of them, a one-relation the
    first.
  */
  datatype Relation = Relation(column: string, target: string, targetColumn: string, many: bool)

  datatype TableSchema = TableSchema(
    columns: map<string, Column>,
    pks: seq<string>,
    relations: map<string, Relation>)

  type Schema = map<string, TableSchema>

  type Row = map<string, Value>

  datatype TableState = TableState(rows: seq<Row>, nextSerial: int)

  type Db = map<string, TableState>

  function Rows(db: Db, t: string): seq<Row>
  {
    if t in db then db[t].rows else []
  }

  function NextSerial(db: Db, t: string): int
  {
    if t in db then db[t].nextSerial else 1
  }

  /**
    The value a column of the given type stores for an argument, or None
    where the store raises DataError.  Text for an integer column is read as
    the server reads an integer literal (ASCII blanks, a sign, digits, 32
    bits); a Python int is passed through, since a filter compares it
    whatever its size; text for a timestamp column is kept as written.
  */
  function Cast(v: Value, kind: SqlType): (r: Option<Value>)
    ensures v == Null ==> r == Some(Null)
    ensures kind == Integer && v.Text? ==> r == (if PgInt(v.s).Some? then Some(Int(PgInt(v.s).value)) else None)
    ensures r.Some? && r.value.Int? && v.Text? ==> INT4_MIN <= r.value.i <= INT4_MAX
  {
    match (v, kind)
    case (Null, _) => Some(Null)
    case (Int(_), Integer) => Some(v)
    case (Text(s), Integer) =>
      (match PgInt(s)
       case Some(i) => Some(Int(i))
       case None => None)
    case (Text(_), Varchar) => Some(v)
    case (Stamp(_), Timestamp) => Some(v)
    case (Text(_), Timestamp) => Some(v)
    case (Bool(_), Boolean) => Some(v)
    case _ => None
  }

  /**
    Keyword arguments as column values: an unknown column is a
    ProgrammingError, a value the column's type rejects a DataError.
  */
  function Coerce(ts: TableSchema, kw: map<string, Value>): (r: Result<Row, Exception>)
    ensures r.Ok? <==> kw.Keys <= ts.columns.Keys && forall k :: k in kw ==> Cast(kw[k], ts.columns[k].kind).Some?
    ensures r.Ok? ==> r.value.Keys == kw.Keys
    ensures r.Ok? ==> forall k :: k in kw ==> Cast(kw[k], ts.columns[k].kind) == Some(r.value[k])
    ensures r.Err? ==> r.error == ProgrammingError || r.error == DataError
  {
    if exists k :: k in kw && k !in ts.columns then Err(ProgrammingError)
    else if exists k :: k in kw && Cast(kw[k], ts.columns[k].kind).None? then Err(DataError)
    else Ok(map k | k in kw :: Cast(kw[k], ts.columns[k].kind).value)
  }

  /** A value a column can hold: an integer within 32 bits. */
  predicate Fits(v: Value)
  {
    v.Int? ==> INT4_MIN <= v.i <= INT4_MAX
  }

  /**
    Keyword arguments as the column values a write stores: as Coerce, and a
    DataError for an integer the column cannot hold.
  */
  function Stored(ts: TableSchema, kw: map<string, Value>): (r: Result<Row, Exception>)
    ensures r.Ok? <==> Coerce(ts, kw).Ok? && forall k :: k in kw ==> Fits(Coerce(ts, kw).value[k])
    ensures r.Ok? ==> r.value == Coerce(ts, kw).value
    ensures r.Err? && Coerce(ts, kw).Ok? ==> r.error == DataError
    ensures Coerce(ts, kw).Err? ==> r == Err(Coerce(ts, kw).error)
  {
    match Coerce(ts, kw)
    case Err(e) => Err(e)
    case Ok(row) =>
      if exists k :: k in row && !Fits(row[k]) then Err(DataError) else Ok(row)
  }

  /** The row agrees with every column of the filter. */
  predicate Matches(row: Row, filter: Row)
  {
    forall k :: k in filter ==> k in row && row[k] == filter[k]
  }

  /** The position of the first row that matches the filter. */
  function FirstMatch(rows: seq<Row>, filter: Row): (r: Option<nat>)
    ensures r.Some? ==> r.value < |rows| && Matches(rows[r.value], filter)
    ensures r.Some? ==> forall j :: 0 <= j < r.value ==> !Matches(rows[j], filter)
    ensures r.None? ==> forall j :: 0 <= j < |rows| ==> !Matches(rows[j], filter)
  {
    if rows == [] then None
    else if Matches(rows[0], filter) then Some(0)
    else
      match FirstMatch(rows[1..], filter)
      case None => None
      case Some(i) => Some(i + 1)
  }

  /**
    get_one(**filter): the first row of t whose columns equal the filter's
    values, None when there is none, or the error the store raises.
  */
  function GetOne(schema: Schema, db: Db, t: string, filter: map<string, Value>): (r: Result<Option<Row>, Exception>)
    requires t in schema
    ensures r.Err? <==> Coerce(schema[t], filter).Err?
    ensures r.Err? ==> r.error == ProgrammingError || r.error == DataError
    ensures r.Ok? && r.value.Some? ==>
      r.value.value in Rows(db, t) && Matches(r.value.value, Coerce(schema[t], filter).value)
    ensures r.Ok? && r.value.None? ==>
      forall j :: 0 <= j < |Rows(db, t)| ==> !Matches(Rows(db, t)[j], Coerce(schema[t], filter).value)
  {
    match Coerce(schema[t], filter)
    case Err(e) => Err(e)
    case Ok(f) =>
      match FirstMatch(Rows(db, t), f)
      case None => Ok(None)
      case Some(i) => Ok(Some(Rows(db, t)[i]))
  }

  /** The primary-key columns a row carries: the filter that locates its stored row. */
  function KeyOf(ts: TableSchema, row: Row): (key: Row)
    ensures key.Keys <= row.Keys && Matches(row, key)
  {
    map p | p in ts.pks && p in row :: row[p]
  }

  /** The row carries every primary-key column (subscripting it by one cannot fail). */
  predicate HasKey(ts: TableSchema, row: Row)
  {
    forall p :: p in ts.pks ==> p in row
  }

  predicate SameKey(ts: TableSchema, a: Row, b: Row)
  {
    forall p :: p in ts.pks ==> p in a && p in b && a[p] == b[p]
  }

  /** Some rows hold v in column col (a foreign key's target exists). */
  predicate Holds(rows: seq<Row>, col: string, v: Value)
  {
    exists j :: 0 <= j < |rows| && col in rows[j] && rows[j][col] == v
  }

  /**
    The constraints the store checks when a row is written at position skip
    (-1 for a new row): no NULL key, no other row with the same key, and
    every non-NULL foreign key naming an existing row.
  */
  predicate Admissible(schema: Schema, db: Db, t: string, row: Row, skip: int)
    requires t in schema
  {
    var ts := schema[t];
    var rows := Rows(db, t);
    (forall p :: p in ts.pks ==> p in row && row[p] != Null) &&
    (|ts.pks| > 0 ==> forall j :: 0 <= j < |rows| && j != skip ==> !SameKey(ts, rows[j], row)) &&
    (forall c :: c in ts.columns && c in row && row[c] != Null && ts.columns[c].foreignKey.Some? ==>
       Holds(Rows(db, ts.columns[c].foreignKey.value.table), ts.columns[c].foreignKey.value.column, row[c]))
  }

  /**
    The row table(**kw).flush() asks the store to insert: every column of the
    table, the given value where there is one, the next value of the table's
    sequence for an omitted serial column, NULL for any other omitted column.
  */
  function NewRow(ts: TableSchema, given: Row, next: int): (row: Row)
    ensures row.Keys == ts.columns.Keys
    ensures forall c :: c in given && c in ts.columns ==> row[c] == given[c]
    ensures forall c :: c in ts.columns && c !in given && ts.columns[c].serial ==> row[c] == Int(next)
    ensures forall c :: c in ts.columns && c !in given && !ts.columns[c].serial ==> row[c] == Null
  {
    map c | c in ts.columns :: if c in given then given[c] else if ts.columns[c].serial then Int(next) else Null
  }

  /**
    table(**kw).flush(): NewRow from the keyword arguments appended to the
    table, when the store admits it.
  */
  function InsertRow(schema: Schema, db: Db, t: string, kw: map<string, Value>): (r: Result<(Row, Db), Exception>)
    requires t in schema
    ensures r.Ok? ==> Rows(r.value.1, t) == Rows(db, t) + [r.value.0]
    ensures r.Ok? ==> forall u :: u != t ==> Rows(r.value.1, u) == Rows(db, u)
    ensures r.Ok? ==> r.value.0.Keys == schema[t].columns.Keys
    ensures r.Ok? ==> forall k :: k in kw ==>
      k in schema[t].columns && k in r.value.0 && Cast(kw[k], schema[t].columns[k].kind) == Some(r.value.0[k])
    ensures r.Ok? ==> forall k :: k in kw ==> Fits(r.value.0[k])
    ensures r.Ok? ==> Admissible(schema, db, t, r.value.0, -1)
    ensures Stored(schema[t], kw).Err? ==> r == Err(Stored(schema[t], kw).error)
    ensures Stored(schema[t], kw).Ok? ==>
      var row := NewRow(schema[t], Stored(schema[t], kw).value, NextSerial(db, t));
      (r.Ok? <==> Admissible(schema, db, t, row, -1)) &&
      (r.Ok? ==> r.value.0 == row) &&
      (r.Err? ==> r.error == IntegrityError)
  {
    var ts := schema[t];
    match Stored(ts, kw)
    case Err(e) => Err(e)
    case Ok(given) =>
      var next := NextSerial(db, t);
      var row := NewRow(ts, given, next);
      var drawsSerial := exists c :: c in ts.columns && c !in given && ts.columns[c].serial;
      if !Admissible(schema, db, t, row, -1) then Err(IntegrityError)
      else Ok((row, db[t := TableState(Rows(db, t) + [row], if drawsSerial then next + 1 else next)]))
  }

  /**
    entry.update(kw); entry.flush(): the stored row that carries the updated
    entry's key, read as the key column's type reads it, takes every column
    of the entry and the keyword arguments, the arguments winning.  An entry
    without every key column cannot name its row (KeyError); when no stored
    row carries the key nothing is written.
  */
  function UpdateRow(schema: Schema, db: Db, t: string, entry: Row, kw: map<string, Value>): (r: Result<(Row, Db), Exception>)
    requires t in schema
    ensures !HasKey(schema[t], entry + kw) ==> r == Err(KeyError)
    ensures HasKey(schema[t], entry + kw) && Stored(schema[t], entry + kw).Err? ==>
      r == Err(Stored(schema[t], entry + kw).error)
    ensures r.Ok? ==> |Rows(r.value.1, t)| == |Rows(db, t)|
    ensures r.Ok? ==> forall u :: u != t ==> Rows(r.value.1, u) == Rows(db, u)
    ensures r.Ok? ==> forall k :: k in kw ==>
      k in schema[t].columns && k in r.value.0 && Cast(kw[k], schema[t].columns[k].kind) == Some(r.value.0[k])
    ensures r.Ok? ==> forall k :: k in kw ==> Fits(r.value.0[k])
    ensures HasKey(schema[t], entry + kw) && Stored(schema[t], entry + kw).Ok? ==>
      var given := Stored(schema[t], entry + kw).value;
      match FirstMatch(Rows(db, t), KeyOf(schema[t], given))
      case None => r == Ok((given, db))
      case Some(i) =>
        (r.Ok? <==> Admissible(schema, db, t, Rows(db, t)[i] + given, i)) &&
        (r.Ok? ==> r.value.0 == Rows(db, t)[i] + given && Rows(r.value.1, t) == Rows(db, t)[i := r.value.0]) &&
        (r.Ok? ==> forall k :: k in Rows(db, t)[i] && k !in entry && k !in kw ==>
                     k in r.value.0 && r.value.0[k] == Rows(db, t)[i][k]) &&
        (r.Err? ==> r.error == IntegrityError)
  {
    var ts := schema[t];
    var rows := Rows(db, t);
    if !HasKey(ts, entry + kw) then Err(KeyError)
    else
      match Stored(ts, entry + kw)
      case Err(e) => Err(e)
      case Ok(given) =>
        match FirstMatch(rows, KeyOf(ts, given))
        case None => Ok((given, db))
        case Some(i) =>
          var updated := rows[i] + given;
          if !Admissible(schema, db, t, updated, i) then Err(IntegrityError)
          else Ok((updated, db[t := TableState(rows[i := updated], NextSerial(db, t))]))
  }

  /**
    What the store's primary-key constraint guarantees of a table: every row
    carries its key columns, none of them NULL, and no two rows share a key.
  */
  predicate TableKeysUnique(ts: TableSchema, rows: seq<Row>)
  {
    (forall j, p :: 0 <= j < |rows| && p in ts.pks ==> p in rows[j] && rows[j][p] != Null) &&
    (|ts.pks| > 0 ==> forall i, j :: 0 <= i < j < |rows| ==> !SameKey(ts, rows[i], rows[j]))
  }

  predicate KeysUnique(schema: Schema, db: Db)
  {
    forall t :: t in schema ==> TableKeysUnique(schema[t], Rows(db, t))
  }

  /** Some row other than the one at (t, i) holds a foreign key to that row. */
  predicate Referenced(schema: Schema, db: Db, t: string, i: nat)
    requires i < |Rows(db, t)|
  {
    var row := Rows(db, t)[i];
    exists u, c :: u in schema && c in schema[u].columns && schema[u].columns[c].foreignKey.Some? &&
      schema[u].columns[c].foreignKey.value.table == t &&
      ReferencesRow(Rows(db, u), c, row, schema[u].columns[c].foreignKey.value.column, if u == t then i else -1)
  }

  /** A row of rows, other than the one at skip, holds row's targetColumn value in column c. */
  predicate ReferencesRow(rows: seq<Row>, c: string, row: Row, targetColumn: string, skip: int)
  {
    targetColumn in row && row[targetColumn] != Null &&
    exists j :: 0 <= j < |rows| && j != skip && c in rows[j] && rows[j][c] == row[targetColumn]
  }

  /**
    entry.delete(): the stored row that carries the entry's key is removed,
    unless a foreign key still references it (IntegrityError).  An entry
    without every key column cannot name its row (KeyError).
  */
  function DeleteRow(schema: Schema, db: Db, t: string, entry: Row): (r: Result<Db, Exception>)
    requires t in schema
    ensures !HasKey(schema[t], entry) ==> r == Err(KeyError)
    ensures HasKey(schema[t], entry) && FirstMatch(Rows(db, t), KeyOf(schema[t], entry)).None? ==> r == Ok(db)
    ensures HasKey(schema[t], entry) && FirstMatch(Rows(db, t), KeyOf(schema[t], entry)).Some? ==>
      var i := FirstMatch(Rows(db, t), KeyOf(schema[t], entry)).value;
      (r.Err? <==> Referenced(schema, db, t, i)) &&
      (r.Err? ==> r.error == IntegrityError) &&
      (r.Ok? ==> Rows(r.value, t) == Rows(db, t)[..i] + Rows(db, t)[i + 1..] &&
                 forall u :: u != t ==> Rows(r.value, u) == Rows(db, u))
  {
    var rows := Rows(db, t);
    if !HasKey(schema[t], entry) then Err(KeyError)
    else
      match FirstMatch(rows, KeyOf(schema[t], entry))
      case None => Ok(db)
      case Some(i) =>
        if Referenced(schema, db, t, i) then Err(IntegrityError)
        else Ok(db[t := TableState(rows[..i] + rows[i + 1..], NextSerial(db, t))])
  }

  /** The rows whose column col holds v; NULL matches nothing, as in SQL. */
  function Where(rows: seq<Row>, col: string, v: Value): (r: seq<Row>)
    ensures |r| <= |rows|
    ensures forall x :: x in r ==> x in rows && col in x && x[col] == v && v != Null
    ensures v != Null ==> forall x :: x in rows && col in x && x[col] == v ==> x in r
  {
    if rows == [] || v == Null then []
    else
      var rest := Where(rows[1..], col, v);
      assert forall x :: x in rows ==> x == rows[0] || x in rows[1..];
      if col in rows[0] && rows[0][col] == v then [rows[0]] + rest else rest
  }

  /**
    Where a reference path currently stands: on a row of a table, on the
    rows a many-relation produced, or on a plain value.
  */
  datatype Cursor = AtRow(table: string, row: Row) | AtRows(table: string, rows: seq<Row>) | AtValue(value: Value)

  /** What a cursor is as a payload. */
  function Show(c: Cursor): Value
  {
    match c
    case AtRow(_, row) => Record(row)
    case AtRows(_, rows) => List(Records(rows))
    case AtValue(v) => v
  }

  function Records(rows: seq<Row>): (r: seq<Value>)
    ensures |r| == |rows| && forall i :: 0 <= i < |rows| ==> r[i] == Record(rows[i])
  {
    seq(|rows|, i requires 0 <= i < |rows| => Record(rows[i]))
  }

  /** The rows a relation of a row resolves to. */
  function Resolve(db: Db, rel: Relation, row: Row): Cursor
  {
    var hits := Where(Rows(db, rel.target), rel.targetColumn, if rel.column in row then row[rel.column] else Null);
    if rel.many then AtRows(rel.target, hits)
    else if hits == [] then AtValue(Null)
    else AtRow(rel.target, hits[0])
  }

  /** One step of a reference path: Python's `seg in current` and then `current[seg]`. */
  datatype Step = Moved(to: Cursor) | Missing | Broken(error: Exception)

  /** x occurs in s as a contiguous substring. */
  predicate Occurs(x: string, s: string)
  {
    exists i :: 0 <= i <= |s| && x <= s[i..]
  }

  /**
    Following the segment seg from the cursor.  A row contains its columns
    and its table's relations; the rows of a many-relation contain no
    segment; a string contains its substrings but cannot be indexed by one;
    a list contains its members and is indexed by integers; a number, date
    or None supports neither (TypeError).
  */
  function Follow(schema: Schema, db: Db, c: Cursor, seg: Value): (r: Step)
    ensures c.AtRows? ==> r == Missing
    ensures c.AtRow? ==>
      (r.Missing? <==> !(seg.Text? && (seg.s in c.row || (c.table in schema && seg.s in schema[c.table].relations))))
    ensures c.AtRow? && seg.Text? && seg.s in c.row ==> r == Moved(AtValue(c.row[seg.s]))
    ensures c.AtValue? && c.value.Record? ==> !r.Broken? && (r.Missing? <==> !(seg.Text? && seg.s in c.value.fields))
    ensures c.AtValue? && c.value.Text? ==> !r.Moved? && (r.Missing? <==> seg.Text? && !Occurs(seg.s, c.value.s))
    ensures c.AtValue? && c.value.List? ==> (r.Missing? <==> seg !in c.value.items)
    ensures c.AtValue? && c.value.List? && r.Moved? ==> r.to.AtValue? && r.to.value in c.value.items
    ensures r.Broken? ==> c.AtValue? && r.error in {TypeError, IndexError}
  {
    match c
    case AtRow(t, row) =>
      if seg.Text? && seg.s in row then Moved(AtValue(row[seg.s]))
      else if seg.Text? && t in schema && seg.s in schema[t].relations then Moved(Resolve(db, schema[t].relations[seg.s], row))
      else Missing
    case AtRows(_, _) => Missing
    case AtValue(v) =>
      match v
      case Record(fields) =>
        if seg.Text? && seg.s in fields then Moved(AtValue(fields[seg.s])) else Missing
      case Text(s) =>
        if seg.Text? && !Occurs(seg.s, s) then Missing else Broken(TypeError)
      case List(items) =>
        if seg !in items then Missing
        else if !seg.Int? then Broken(TypeError)
        else if 0 <= seg.i < |items| then Moved(AtValue(items[seg.i]))
        else if -|items| <= seg.i < 0 then Moved(AtValue(items[|items| + seg.i]))
        else Broken(IndexError)
      case _ => Broken(TypeError)
  }

  /** Events the engine issues on the connection. */
  datatype TxEvent = Committed | RolledBack

  /**
    The connection's transaction: the committed database, the database as
    seen inside the open transaction, and every commit and rollback so far.
  */
  datatype Tx = Tx(committed: Db, pending: Db, log: seq<TxEvent>)

  function Commit(tx: Tx): (r: Tx)
    ensures Settled(r) && r.committed == tx.pending && r.log == tx.log + [Committed]
  {
    Tx(tx.pending, tx.pending, tx.log + [Committed])
  }

  function Rollback(tx: Tx): (r: Tx)
    ensures Settled(r) && r.committed == tx.committed && r.log == tx.log + [RolledBack]
  {
    Tx(tx.committed, tx.committed, tx.log + [RolledBack])
  }

  /** A write inside the open transaction (flush or delete). */
  function Write(tx: Tx, db: Db): (r: Tx)
    ensures r.pending == db && r.committed == tx.committed && r.log == tx.log
  {
    tx.(pending := db)
  }

  /** No write is waiting for a commit or rollback. */
  predicate Settled(tx: Tx)
  {
    tx.pending == tx.committed
  }
}
