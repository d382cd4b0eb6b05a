/**
  What the store's writes preserve: every write keeps the primary keys of
  every table present, non-NULL and distinct, and a delete leaves no row
  with the deleted key; integers the columns cannot hold are refused on
  write and simply found nowhere by a filter; and the transaction's
  commit and rollback publish or discard the open writes.
*/
module StoreLaws {

  import opened Wrappers
  import opened Numerals
  import opened Values
  import opened Store

  /** A row whose key columns are all set, to a key no row of rows carries. */
  predicate FreshKey(ts: TableSchema, rows: seq<Row>, row: Row)
  {
    (forall p :: p in ts.pks ==> p in row && row[p] != Null) &&
    (|ts.pks| > 0 ==> forall x :: x in rows ==> !SameKey(ts, x, row))
  }

  /** The row an insert adds carries a complete key that no stored row had. */
  lemma InsertedKeyFresh(schema: Schema, db: Db, t: string, kw: map<string, Value>)
    requires t in schema && InsertRow(schema, db, t, kw).Ok?
    ensures FreshKey(schema[t], Rows(db, t), InsertRow(schema, db, t, kw).value.0)
  {
    var row := InsertRow(schema, db, t, kw).value.0;
    assert Admissible(schema, db, t, row, -1);
    forall x | x in Rows(db, t) && |schema[t].pks| > 0
      ensures !SameKey(schema[t], x, row)
    {
      var j :| 0 <= j < |Rows(db, t)| && Rows(db, t)[j] == x;
    }
  }

  lemma InsertKeepsKeysUnique(schema: Schema, db: Db, t: string, kw: map<string, Value>)
    requires t in schema && KeysUnique(schema, db)
    requires InsertRow(schema, db, t, kw).Ok?
    ensures KeysUnique(schema, InsertRow(schema, db, t, kw).value.1)
  {
    var (row, after) := InsertRow(schema, db, t, kw).value;
    InsertedKeyFresh(schema, db, t, kw);
    AppendKeepsKeys(schema[t], Rows(db, t), row);
    OnlyTableChanged(schema, db, after, t);
  }

  lemma UpdateKeepsKeysUnique(schema: Schema, db: Db, t: string, entry: Row, kw: map<string, Value>)
    requires t in schema && KeysUnique(schema, db)
    requires UpdateRow(schema, db, t, entry, kw).Ok?
    ensures KeysUnique(schema, UpdateRow(schema, db, t, entry, kw).value.1)
  {
    var (row, after) := UpdateRow(schema, db, t, entry, kw).value;
    match FirstMatch(Rows(db, t), KeyOf(schema[t], Stored(schema[t], entry + kw).value))
    case None =>
    case Some(k) =>
      assert Admissible(schema, db, t, row, k);
      ReplaceKeepsKeys(schema[t], Rows(db, t), k, row);
      OnlyTableChanged(schema, db, after, t);
  }

  lemma DeleteKeepsKeysUnique(schema: Schema, db: Db, t: string, entry: Row)
    requires t in schema && KeysUnique(schema, db)
    requires DeleteRow(schema, db, t, entry).Ok?
    ensures KeysUnique(schema, DeleteRow(schema, db, t, entry).value)
  {
    var after := DeleteRow(schema, db, t, entry).value;
    match FirstMatch(Rows(db, t), KeyOf(schema[t], entry))
    case None =>
    case Some(k) =>
      DropKeepsKeys(schema[t], Rows(db, t), k);
      OnlyTableChanged(schema, db, after, t);
  }

  /** A write to table t that keeps its keys unique keeps the whole database's. */
  lemma OnlyTableChanged(schema: Schema, db: Db, after: Db, t: string)
    requires t in schema && KeysUnique(schema, db) && TableKeysUnique(schema[t], Rows(after, t))
    requires forall u :: u != t ==> Rows(after, u) == Rows(db, u)
    ensures KeysUnique(schema, after)
  {
    forall u | u in schema
      ensures TableKeysUnique(schema[u], Rows(after, u))
    {
      if u != t {
        assert Rows(after, u) == Rows(db, u);
      }
    }
  }

  /** Appending a row with a fresh key keeps a table's keys present and distinct. */
  lemma AppendKeepsKeys(ts: TableSchema, rows: seq<Row>, row: Row)
    requires TableKeysUnique(ts, rows) && FreshKey(ts, rows, row)
    ensures TableKeysUnique(ts, rows + [row])
  {
    var more := rows + [row];
    forall i, j | 0 <= i < j < |more| && |ts.pks| > 0
      ensures !SameKey(ts, more[i], more[j])
    {
      assert more[i] == rows[i] && more[i] in rows;
      if j < |rows| {
        assert more[j] == rows[j];
      }
    }
  }

  /**
    Replacing row k by a row with a complete key that no other row has keeps
    a table's keys present and distinct.
  */
  lemma ReplaceKeepsKeys(ts: TableSchema, rows: seq<Row>, k: nat, row: Row)
    requires TableKeysUnique(ts, rows) && k < |rows|
    requires forall p :: p in ts.pks ==> p in row && row[p] != Null
    requires |ts.pks| > 0 ==> forall j :: 0 <= j < |rows| && j != k ==> !SameKey(ts, rows[j], row)
    ensures TableKeysUnique(ts, rows[k := row])
  {
    var next := rows[k := row];
    forall i, j | 0 <= i < j < |next| && |ts.pks| > 0
      ensures !SameKey(ts, next[i], next[j])
    {
      if i == k {
        assert !SameKey(ts, rows[j], row);
      } else if j == k {
        assert !SameKey(ts, rows[i], row);
      }
    }
  }

  /** Removing one row of a table keeps its keys present and distinct. */
  lemma DropKeepsKeys(ts: TableSchema, rows: seq<Row>, k: nat)
    requires TableKeysUnique(ts, rows) && k < |rows|
    ensures TableKeysUnique(ts, rows[..k] + rows[k + 1..])
  {
    var rest := rows[..k] + rows[k + 1..];
    assert forall i :: 0 <= i < |rest| ==> rest[i] == rows[if i < k then i else i + 1];
  }

  /** With unique keys, no row but the removed one carries its key. */
  lemma DropRemovesKey(ts: TableSchema, rows: seq<Row>, k: nat)
    requires TableKeysUnique(ts, rows) && |ts.pks| > 0 && k < |rows|
    ensures forall x :: x in rows[..k] + rows[k + 1..] ==> !SameKey(ts, x, rows[k])
  {
    var rest := rows[..k] + rows[k + 1..];
    forall x | x in rest
      ensures !SameKey(ts, x, rows[k])
    {
      var i :| 0 <= i < |rest| && rest[i] == x;
      if i < k {
        assert x == rows[i];
      } else {
        assert x == rows[i + 1];
      }
    }
  }

  /** In a table whose keys are unique, an entry's full key locates the one stored row carrying it. */
  lemma KeyLocates(ts: TableSchema, rows: seq<Row>, entry: Row, j: nat)
    requires TableKeysUnique(ts, rows) && |ts.pks| > 0 && HasKey(ts, entry)
    requires j < |rows| && Matches(rows[j], KeyOf(ts, entry))
    ensures FirstMatch(rows, KeyOf(ts, entry)) == Some(j)
  {
    var i := FirstMatch(rows, KeyOf(ts, entry)).value;
    if i != j {
      assert i < j;
      forall p | p in ts.pks
        ensures p in rows[i] && p in rows[j] && rows[i][p] == rows[j][p]
      {
        assert p in KeyOf(ts, entry);
      }
      assert SameKey(ts, rows[i], rows[j]);
    }
  }

  /**
    After a delete, no row of the table carries the deleted row's key, nor
    the entry's: a delete that succeeds had an entry naming every key column.
  */
  lemma DeleteRemovesKey(schema: Schema, db: Db, t: string, entry: Row)
    requires t in schema && KeysUnique(schema, db) && |schema[t].pks| > 0
    requires FirstMatch(Rows(db, t), KeyOf(schema[t], entry)).Some?
    requires DeleteRow(schema, db, t, entry).Ok?
    ensures HasKey(schema[t], entry)
    ensures forall x :: x in Rows(DeleteRow(schema, db, t, entry).value, t) ==>
      !SameKey(schema[t], x, Rows(db, t)[FirstMatch(Rows(db, t), KeyOf(schema[t], entry)).value])
    ensures forall x :: x in Rows(DeleteRow(schema, db, t, entry).value, t) ==> !SameKey(schema[t], x, entry)
  {
    var ts := schema[t];
    var k := FirstMatch(Rows(db, t), KeyOf(ts, entry)).value;
    var stored := Rows(db, t)[k];
    var rows := Rows(DeleteRow(schema, db, t, entry).value, t);
    assert rows == Rows(db, t)[..k] + Rows(db, t)[k + 1..];
    DropRemovesKey(ts, Rows(db, t), k);
    assert Matches(stored, KeyOf(ts, entry));
    forall x | x in rows
      ensures !SameKey(ts, x, entry)
    {
      if SameKey(ts, x, entry) {
        assert SameKey(ts, x, stored);
      }
    }
  }

  /**
    An integer a column cannot hold: writing it is a DataError, while a
    filter compares it as a wider integer and finds no stored value equal
    to it; its decimal spelling, which the server must read as a 32-bit
    literal, is a DataError even in a filter.
  */
  lemma OversizeInteger(schema: Schema, db: Db, t: string, c: string, n: int)
    requires t in schema && c in schema[t].columns && schema[t].columns[c].kind == Integer
    requires !(INT4_MIN <= n <= INT4_MAX)
    ensures InsertRow(schema, db, t, map[c := Int(n)]) == Err(DataError)
    ensures GetOne(schema, db, t, map[c := Int(n)]).Ok?
    ensures (forall j :: 0 <= j < |Rows(db, t)| && c in Rows(db, t)[j] ==> Fits(Rows(db, t)[j][c])) ==>
      GetOne(schema, db, t, map[c := Int(n)]) == Ok(None)
    ensures n > INT4_MAX ==> GetOne(schema, db, t, map[c := Text(Decimal(n))]) == Err(DataError)
  {
    var kw := map[c := Int(n)];
    assert Coerce(schema[t], kw).Ok? && Coerce(schema[t], kw).value[c] == Int(n);
    assert Stored(schema[t], kw) == Err(DataError) by {
      assert !Fits(Coerce(schema[t], kw).value[c]);
    }
    if n > INT4_MAX {
      OversizeText(schema[t], c, n);
    }
  }

  /** The decimal text of an integer above 32 bits is a DataError for an integer column. */
  lemma OversizeText(ts: TableSchema, c: string, n: nat)
    requires c in ts.columns && ts.columns[c].kind == Integer && n > INT4_MAX
    ensures Coerce(ts, map[c := Text(Decimal(n))]) == Err(DataError)
  {
    PgIntOverflow(n);
    assert Cast(Text(Decimal(n)), Integer) == None;
  }

  /** A rollback discards the writes of the open transaction. */
  lemma RollbackDiscardsWrite(tx: Tx, db: Db)
    ensures Rollback(Write(tx, db)) == Rollback(tx)
  {
  }

  /** A commit makes the written state the committed one. */
  lemma CommitPublishesWrite(tx: Tx, db: Db)
    ensures Commit(Write(tx, db)).committed == db
    ensures Rollback(Commit(Write(tx, db))).committed == db
  {
  }

  /** A second rollback changes nothing but the log. */
  lemma RollbackTwice(tx: Tx)
    ensures Rollback(Rollback(tx)).committed == Rollback(tx).committed
    ensures Rollback(Rollback(tx)).pending == Rollback(tx).pending
    ensures Rollback(Rollback(tx)).log == tx.log + [RolledBack, RolledBack]
  {
  }
}
