/**
  The PUT scenarios of the test suite on its person table: a PUT without a
  key inserts Jake under the first value of the table's sequence and answers
  201, and a PUT that names Jake's key renames him and answers 200 with the
  table still holding one row.
*/
module Scenarios {

  import opened Wrappers
  import opened Numerals
  import opened Values
  import opened Store
  import opened Verbs
  import VerbLaws

  /** person: id SERIAL PRIMARY KEY, name TEXT, manager_id INTEGER REFERENCES person(id). */
  function PersonSchema(): Schema
  {
    map["person" := TableSchema(
      map["id" := Column(Integer, true, None),
          "name" := Column(Varchar, false, None),
          "manager_id" := Column(Integer, false, Some(ForeignKey("person", "id")))],
      ["id"], map[])]
  }

  /** The empty person table, its sequence not yet drawn. */
  function Empty(): Db
  {
    map["person" := TableState([], 1)]
  }

  function Jake(): Row
  {
    map["id" := Int(1), "name" := Text("Jake"), "manager_id" := Null]
  }

  function Phil(): Row
  {
    map["id" := Int(1), "name" := Text("Phil"), "manager_id" := Null]
  }

  /**
    The second PUT's arguments as the test client sends them: form data,
    so the key arrives as text ('1' in the tests).
  */
  function PhilForm(key: string): map<string, Value>
  {
    map["id" := Text(key), "name" := Text("Phil")]
  }

  /** The table once Jake is inserted: the sequence has moved on to 2. */
  function WithJake(): Db
  {
    map["person" := TableState([Jake()], 2)]
  }

  /** Arguments whose every value its column's type reads as the one in out, which fits, are stored as out. */
  lemma StoredAs(ts: TableSchema, kw: map<string, Value>, out: Row)
    requires kw.Keys <= ts.columns.Keys && out.Keys == kw.Keys
    requires forall k :: k in kw ==> Cast(kw[k], ts.columns[k].kind) == Some(out[k]) && Fits(out[k])
    ensures Coerce(ts, kw) == Ok(out) && Stored(ts, kw) == Ok(out)
  {
    var c := Coerce(ts, kw);
    assert c.Ok?;
    assert c.value.Keys == kw.Keys;
    assert forall k :: k in kw ==> c.value[k] == out[k];
    assert c.value == out;
    assert forall k :: k in kw ==> Fits(c.value[k]);
  }

  /** Arguments every column of which already holds a value of its type are stored as given. */
  lemma StoredAsGiven(ts: TableSchema, kw: map<string, Value>)
    requires kw.Keys <= ts.columns.Keys
    requires forall k :: k in kw ==> Cast(kw[k], ts.columns[k].kind) == Some(kw[k]) && Fits(kw[k])
    ensures Coerce(ts, kw) == Ok(kw) && Stored(ts, kw) == Ok(kw)
  {
    StoredAs(ts, kw, kw);
  }

  /** An integer column reads the text '1' as 1. */
  lemma OneReads()
    ensures PgInt("1") == Some(1)
  {
    assert DigitChar(1) == '1';
    assert Decimal(1) == "1";
    PgIntDecimal(1);
  }

  lemma InsertJake()
    ensures InsertRow(PersonSchema(), Empty(), "person", map["name" := Text("Jake")]) == Ok((Jake(), WithJake()))
  {
    var ts := PersonSchema()["person"];
    var kw := map["name" := Text("Jake")];
    StoredAsGiven(ts, kw);
    var row := NewRow(ts, kw, 1);
    assert row.Keys == Jake().Keys;
    assert row["id"] == Int(1) && row["name"] == Text("Jake") && row["manager_id"] == Null;
    assert row == Jake();
    assert Admissible(PersonSchema(), Empty(), "person", row, -1);
    assert "id" in ts.columns && "id" !in kw && ts.columns["id"].serial;
    assert Rows(Empty(), "person") + [row] == [Jake()];
    assert Empty()["person" := TableState([Jake()], 2)] == WithJake();
  }

  /**
    update(id='1', name='Phil') on Jake's entry: Jake's row becomes Phil,
    the sequence is left alone.
  */
  lemma UpdatePhil()
    ensures UpdateRow(PersonSchema(), WithJake(), "person", Jake(), PhilForm("1")) ==
      Ok((Phil(), map["person" := TableState([Phil()], 2)]))
  {
    OneReads();
    UpdateAsPhil("1");
  }

  /** The same for any spelling of the key that the id column reads as 1. */
  lemma UpdateAsPhil(key: string)
    requires PgInt(key) == Some(1)
    ensures UpdateRow(PersonSchema(), WithJake(), "person", Jake(), PhilForm(key)) ==
      Ok((Phil(), map["person" := TableState([Phil()], 2)]))
  {
    var ts := PersonSchema()["person"];
    JakeRenamed(key);
    assert HasKey(ts, Jake() + PhilForm(key));
    PhilStored(key);
    PhilLocated();
    PhilAdmissible();
    PhilWritten();
  }

  /** Phil's key locates Jake's row. */
  lemma PhilLocated()
    ensures FirstMatch(Rows(WithJake(), "person"), KeyOf(PersonSchema()["person"], Phil())) == Some(0)
  {
    assert KeyOf(PersonSchema()["person"], Phil()) == map["id" := Int(1)];
    assert Rows(WithJake(), "person") == [Jake()];
  }

  lemma PhilWritten()
    ensures WithJake()["person" := TableState(Rows(WithJake(), "person")[0 := Phil()], NextSerial(WithJake(), "person"))] ==
      map["person" := TableState([Phil()], 2)]
  {
    assert Rows(WithJake(), "person")[0 := Phil()] == [Phil()];
  }

  /** Jake updated with the second PUT's form, as Python's dict.update does it; Phil overwrites all of Jake. */
  lemma JakeRenamed(key: string)
    ensures Jake() + PhilForm(key) == map["id" := Text(key), "name" := Text("Phil"), "manager_id" := Null]
    ensures Jake() + Phil() == Phil()
  {
  }

  /** The updated entry, read as its columns' types read it, is Phil. */
  lemma PhilStored(key: string)
    requires PgInt(key) == Some(1)
    ensures Stored(PersonSchema()["person"], Jake() + PhilForm(key)) == Ok(Phil())
  {
    JakeRenamed(key);
    PhilColumns(key);
    PhilCasts(key);
    StoredAs(PersonSchema()["person"], map["id" := Text(key), "name" := Text("Phil"), "manager_id" := Null], Phil());
  }

  /** The updated entry names the person table's columns, the same ones as Phil. */
  lemma PhilColumns(key: string)
    ensures var form := map["id" := Text(key), "name" := Text("Phil"), "manager_id" := Null];
      form.Keys <= PersonSchema()["person"].columns.Keys && Phil().Keys == form.Keys
  {
  }

  /** Column by column, the updated entry reads as Phil. */
  lemma PhilCasts(key: string)
    requires PgInt(key) == Some(1)
    ensures var ts := PersonSchema()["person"];
      var form := map["id" := Text(key), "name" := Text("Phil"), "manager_id" := Null];
      forall k :: k in form ==> k in ts.columns && k in Phil() && Cast(form[k], ts.columns[k].kind) == Some(Phil()[k]) && Fits(Phil()[k])
  {
    var ts := PersonSchema()["person"];
    var form := map["id" := Text(key), "name" := Text("Phil"), "manager_id" := Null];
    forall k | k in form
      ensures k in ts.columns && k in Phil() && Cast(form[k], ts.columns[k].kind) == Some(Phil()[k]) && Fits(Phil()[k])
    {
      if k == "id" {
        assert Cast(Text(key), Integer) == Some(Int(1));
      } else if k == "name" {
        assert Cast(Text("Phil"), Varchar) == Some(Text("Phil"));
      } else {
        assert k == "manager_id";
      }
    }
  }

  lemma PhilAdmissible()
    ensures Admissible(PersonSchema(), WithJake(), "person", Phil(), 0)
  {
  }

  /** PUT(name='Jake') on the empty table: 201 with {id: 1, name: 'Jake', manager_id: None}, committed. */
  lemma PutJakeScenario(now: int, tx: Tx)
    requires tx.pending == Empty()
    ensures Core(Put, [], PersonSchema(), "person", Args([], map["name" := Text("Jake")]), now, tx) ==
      Outcome(Reply(CREATED, Record(Jake())), Commit(Write(tx, WithJake())))
    ensures Commit(Write(tx, WithJake())).committed == WithJake()
  {
    assert KeyArguments(["id"], map["name" := Text("Jake")]) == map[];
    InsertJake();
  }

  /** GET(id=key) once Jake is stored, for a key the id column reads as 1: 200 with Jake, rolled back. */
  lemma GetJake(key: string, now: int, tx: Tx)
    requires PgInt(key) == Some(1)
    requires tx.pending == WithJake()
    ensures Chain(Get, [], [], PersonSchema(), "person", Args([], map["id" := Text(key)]), now, tx) ==
      Outcome(Reply(OK, Record(Jake())), Rollback(tx))
  {
    var filter := map["id" := Text(key)];
    JakeFound(key, tx);
    assert GetCore(PersonSchema(), "person", Args([], filter), tx) == GetByFilter(PersonSchema(), "person", filter, tx);
    assert Core(Get, [], PersonSchema(), "person", Args([], filter), now, tx) ==
      GetCore(PersonSchema(), "person", Args([], filter), tx);
  }

  /** The filter id=key finds Jake, and GET's lookup answers 200 with him. */
  lemma JakeFound(key: string, tx: Tx)
    requires PgInt(key) == Some(1)
    requires tx.pending == WithJake()
    ensures GetByFilter(PersonSchema(), "person", map["id" := Text(key)], tx) == Outcome(Reply(OK, Record(Jake())), Rollback(tx))
  {
    JakeSelected(key);
    assert "id" in Jake();
    assert Truthy(Record(Jake()));
  }

  /** The store's lookup by id=key selects Jake's row. */
  lemma JakeSelected(key: string)
    requires PgInt(key) == Some(1)
    ensures GetOne(PersonSchema(), WithJake(), "person", map["id" := Text(key)]) == Ok(Some(Jake()))
  {
    assert Cast(Text(key), Integer) == Some(Int(1));
    StoredAs(PersonSchema()["person"], map["id" := Text(key)], map["id" := Int(1)]);
    assert Rows(WithJake(), "person") == [Jake()];
    assert FirstMatch([Jake()], map["id" := Int(1)]) == Some(0);
  }

  /**
    PUT(id='1', name='Phil') once Jake is stored: 200 with {id: 1, name:
    'Phil', manager_id: None}, committed, and the table still holds one row.
  */
  lemma PutPhilScenario(now: int, tx: Tx)
    requires tx.pending == WithJake() && Settled(tx)
    ensures Core(Put, [], PersonSchema(), "person", Args([], PhilForm("1")), now, tx) ==
      Outcome(Reply(OK, Record(Phil())), Commit(Write(Rollback(tx), map["person" := TableState([Phil()], 2)])))
    ensures Rows(Commit(Write(Rollback(tx), map["person" := TableState([Phil()], 2)])).committed, "person") == [Phil()]
  {
    OneReads();
    PutAsPhil("1", now, tx);
  }

  /** The same for any spelling of the key that the id column reads as 1. */
  lemma PutAsPhil(key: string, now: int, tx: Tx)
    requires PgInt(key) == Some(1)
    requires tx.pending == WithJake() && Settled(tx)
    ensures Core(Put, [], PersonSchema(), "person", Args([], PhilForm(key)), now, tx) ==
      Outcome(Reply(OK, Record(Phil())), Commit(Write(Rollback(tx), map["person" := TableState([Phil()], 2)])))
  {
    PhilKey(key);
    assert "id" in KeyArguments(PersonSchema()["person"].pks, PhilForm(key));
    VerbLaws.PutCallsGet([], PersonSchema(), "person", Args([], PhilForm(key)), now, tx);
    GetJake(key, now, tx);
    PutAfterPhil(key, Outcome(Reply(OK, Record(Jake())), Rollback(tx)));
  }

  /** The key PUT hands to GET is the form's id. */
  lemma PhilKey(key: string)
    ensures KeyArguments(PersonSchema()["person"].pks, PhilForm(key)) == map["id" := Text(key)]
  {
    assert PersonSchema()["person"].pks == ["id"];
  }

  /** PUT's step once GET(id=key) found Jake. */
  lemma PutAfterPhil(key: string, g: Outcome)
    requires PgInt(key) == Some(1)
    requires g.reply == Reply(OK, Record(Jake())) && g.tx.pending == WithJake()
    ensures PutAfter(PersonSchema(), "person", PhilForm(key), g) ==
      Outcome(Reply(OK, Record(Phil())), Commit(Write(g.tx, map["person" := TableState([Phil()], 2)])))
  {
    UpdateAsPhil(key);
  }
}
