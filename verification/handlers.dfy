/**
  The engine's objects: the connection whose transaction every handler
  commits or rolls back, the per-verb handler whose list of modifiers grows
  with modify(), the resource table that owns one handler per verb, and the
  registry that builds a resource table for every table of the schema.
  Each handler invocation is proved to reply and leave the transaction
  exactly as the functions of module Verbs say.
*/
module Handlers {

  import opened Wrappers
  import opened Values
  import opened Store
  import opened Verbs

  /** The database connection: the schema it serves and its transaction. */
  class Connection {
    const schema: Schema
    var committed: Db
    var pending: Db
    var log: seq<TxEvent>

    function State(): Tx
      reads this
    {
      Tx(committed, pending, log)
    }

    constructor(schema: Schema, db: Db)
      ensures this.schema == schema && State() == Tx(db, db, [])
    {
      this.schema := schema;
      committed := db;
      pending := db;
      log := [];
    }

    method Commit()
      modifies this
      ensures State() == Store.Commit(old(State()))
    {
      committed := pending;
      log := log + [Committed];
    }

    method Rollback()
      modifies this
      ensures State() == Store.Rollback(old(State()))
    {
      pending := committed;
      log := log + [RolledBack];
    }

    /** A flush or delete inside the open transaction. */
    method Write(db: Db)
      modifies this
      ensures State() == Store.Write(old(State()), db)
    {
      pending := db;
    }
  }

  /**
    Following a reference path from a cursor (dictapi.py lines 100-105): one
    segment at a time, stopping at the first the current value does not
    contain or cannot be indexed by.
  */
  method Traverse(schema: Schema, db: Db, start: Cursor, path: seq<Value>) returns (s: Step)
    ensures s == Walk(schema, db, start, path)
  {
    var current := start;
    var i := 0;
    while i < |path|
      invariant 0 <= i <= |path|
      invariant Walk(schema, db, start, path) == Walk(schema, db, current, path[i..])
    {
      assert path[i..][0] == path[i] && path[i..][1..] == path[i + 1..];
      match Follow(schema, db, current, path[i])
      case Moved(next) =>
        current := next;
        i := i + 1;
      case Missing =>
        return Missing;
      case Broken(e) =>
        return Broken(e);
    }
    s := Moved(current);
  }

  /** One verb of one table (HTTPMethod and its subclasses, dictapi.py lines 56-218). */
  class Handler {
    const verb: Verb
    const table: string
    const conn: Connection
    /** The table's GET, which HEAD, PUT and DELETE call; null for GET and GET_RANGE. */
    const getter: Handler?
    /** The modifiers in the order modify() added them; the last is the outermost. */
    var modifiers: seq<Modifier>

    predicate Valid()
    {
      table in conn.schema &&
      if Rank(verb) == 1 then
        getter != null && getter.verb == Get && getter.table == table && getter.conn == conn && getter.getter == null
      else
        getter == null
    }

    /** The modifiers of the GET this handler calls. */
    function GetMods(): seq<Modifier>
      reads this, getter
    {
      if getter == null then [] else getter.modifiers
    }

    constructor(verb: Verb, table: string, conn: Connection, getter: Handler?)
      requires table in conn.schema
      requires Rank(verb) == 1 ==> getter != null && getter.verb == Get && getter.table == table && getter.conn == conn && getter.getter == null
      requires Rank(verb) == 0 ==> getter == null
      ensures Valid() && this.verb == verb && this.table == table && this.conn == conn && this.getter == getter
      ensures modifiers == []
    {
      this.verb := verb;
      this.table := table;
      this.conn := conn;
      this.getter := getter;
      modifiers := [];
    }

    /** modify(modifier, column): the modifier becomes the new outermost layer. */
    method Modify(m: Modifier)
      modifies this
      ensures modifiers == old(modifiers) + [m]
    {
      modifiers := modifiers + [m];
    }

    /** __call__: the outermost layer runs (dictapi.py lines 74-75). */
    method Invoke(args: Args, now: int) returns (r: Reply)
      requires Valid()
      modifies conn
      ensures Outcome(r, conn.State()) == Chain(verb, modifiers, GetMods(), conn.schema, table, args, now, old(conn.State()))
      decreases Rank(verb), |modifiers|, 3
    {
      r := RunLayers(|modifiers|, args, now);
      assert modifiers[..|modifiers|] == modifiers;
    }

    /**
      The k innermost layers (dictapi.py lines 36-53 and 64-71): the
      modifier runs around the layers inside it and the connection is
      rolled back afterwards, unless an exception escapes.
    */
    method RunLayers(k: nat, args: Args, now: int) returns (r: Reply)
      requires Valid() && k <= |modifiers|
      modifies conn
      ensures Outcome(r, conn.State()) == Chain(verb, modifiers[..k], GetMods(), conn.schema, table, args, now, old(conn.State()))
      decreases Rank(verb), k, 2
    {
      if k == 0 {
        r := RunCore(args, now);
        return;
      }
      var m := modifiers[k - 1];
      assert modifiers[..k][..k - 1] == modifiers[..k - 1];
      ghost var before := conn.State();
      ghost var inner := Chain(verb, modifiers[..k - 1], GetMods(), conn.schema, table, Passed(m, args, now), now, before);
      assert Chain(verb, modifiers[..k], GetMods(), conn.schema, table, args, now, before) == Wrap(m, args, before, inner);
      if Refuses(m, args) {
        r := Reply(BAD_REQUEST, ErrorBody(CannotWrite(m.column)));
      } else {
        var passed := args;
        if m.kind == LastModified {
          passed := args.(keywords := args.keywords[m.column := Stamp(now)]);
        }
        assert passed == Passed(m, args, now);
        r := RunLayers(k - 1, passed, now);
        if m.kind == NoRead {
          r := Hide(r, m.column);
        }
        if r.Raised? {
          return;
        }
      }
      conn.Rollback();
    }

    /** The verb's own call, once every modifier has run. */
    method RunCore(args: Args, now: int) returns (r: Reply)
      requires Valid()
      modifies conn
      ensures Outcome(r, conn.State()) == Core(verb, GetMods(), conn.schema, table, args, now, old(conn.State()))
      decreases Rank(verb), 0, 1
    {
      match verb
      case Get =>
        r := GetCall(args);
      case GetRange =>
        r := GetRangeCall(args);
      case Head =>
        var g := getter.Invoke(args, now);
        r := if g.Raised? then g else Reply(g.status, Null);
      case Put =>
        r := PutCall(args, now);
      case Delete =>
        r := DeleteCall(args, now);
    }

    /** GET.call (dictapi.py lines 81-121): the call shape picks a reference path or a filter. */
    method GetCall(args: Args) returns (r: Reply)
      requires table in conn.schema
      modifies conn
      ensures Outcome(r, conn.State()) == GetCore(conn.schema, table, args, old(conn.State()))
    {
      var a := args.positional;
      var pks := conn.schema[table].pks;
      var filter := args.keywords;
      if filter == map[] && |a| > |pks| {
        r := GetPath(a);
      } else {
        if filter == map[] && |a| == |pks| {
          filter := Zip(pks, a);
        }
        r := GetFiltered(filter);
      }
    }

    /** A primary key followed by a reference path (dictapi.py lines 88-107). */
    method GetPath(a: seq<Value>) returns (r: Reply)
      requires table in conn.schema && |a| > |conn.schema[table].pks|
      modifies conn
      ensures Outcome(r, conn.State()) == GetByPath(conn.schema, table, a, old(conn.State()))
    {
      var n := |conn.schema[table].pks|;
      var wheres := Zip(conn.schema[table].pks, a[..n]);
      var referenced := GetOne(conn.schema, conn.pending, table, wheres);
      if referenced.Err? {
        return Raised(referenced.error);
      }
      if referenced.value.None? || !Truthy(Record(referenced.value.value)) {
        conn.Rollback();
        return Reply(NOT_FOUND, ErrorBody(NoEntryMatching(wheres)));
      }
      var step := Traverse(conn.schema, conn.pending, AtRow(table, referenced.value.value), a[n..]);
      match step
      case Moved(c) =>
        conn.Rollback();
        r := Reply(OK, Show(c));
      case Missing =>
        conn.Rollback();
        r := Reply(BAD_REQUEST, ErrorBody(NoReference));
      case Broken(e) =>
        r := Raised(e);
    }

    /** A keyword filter (dictapi.py lines 108-121). */
    method GetFiltered(filter: map<string, Value>) returns (r: Reply)
      requires table in conn.schema
      modifies conn
      ensures Outcome(r, conn.State()) == GetByFilter(conn.schema, table, filter, old(conn.State()))
    {
      var entry: Option<Row> := None;
      if filter != map[] {
        var found := GetOne(conn.schema, conn.pending, table, filter);
        if found.Err? {
          conn.Rollback();
          if found.error == DataError {
            return Reply(BAD_REQUEST, ErrorBody(InvalidPrimaryKey));
          }
          return Reply(BAD_REQUEST, ErrorBody(InvalidName));
        }
        entry := found.value;
      }
      conn.Rollback();
      if entry.None? || !Truthy(Record(entry.value)) {
        return Reply(NOT_FOUND, ErrorBody(NoEntryMatching(filter)));
      }
      r := Reply(OK, Record(entry.value));
    }

    /** GET_RANGE.call (dictapi.py lines 132-158). */
    method GetRangeCall(args: Args) returns (r: Reply)
      requires table in conn.schema
      modifies conn
      ensures Outcome(r, conn.State()) == RangeCore(conn.schema, table, args, old(conn.State()))
    {
      var ranges := RangesArgument(args);
      if ranges.Err? {
        return Raised(ranges.error);
      }
      var parsed := RangeOf(ranges.value);
      if parsed.Err? {
        return Raised(parsed.error);
      }
      match parsed.value
      case Unparsable =>
        r := Raised(ValueError);
      case Malformed =>
        r := Reply(BAD_REQUEST, ErrorBody(InvalidRange));
      case Window(offset, limit) =>
        var entries := Page(Rows(conn.pending, table), offset, limit);
        conn.Rollback();
        if entries == [] {
          r := Reply(NOT_FOUND, ErrorBody(NoEntriesInRange));
        } else {
          r := Reply(OK, List(Records(entries)));
        }
    }

    /** PUT.call (dictapi.py lines 171-195). */
    method PutCall(args: Args, now: int) returns (r: Reply)
      requires Valid() && verb == Put
      modifies conn
      ensures Outcome(r, conn.State()) == Core(Put, GetMods(), conn.schema, table, args, now, old(conn.State()))
      decreases Rank(verb), 0, 0
    {
      var kw := args.keywords;
      var wheres := KeyArguments(conn.schema[table].pks, kw);
      var g := Reply(NOT_FOUND, Null);
      if wheres != map[] {
        g := getter.Invoke(Args([], wheres), now);
      }
      ghost var afterGet := conn.State();
      assert PutAfter(conn.schema, table, kw, Outcome(g, afterGet)) ==
        Core(Put, GetMods(), conn.schema, table, args, now, old(conn.State()));
      if g.Raised? {
        return g;
      }
      if g.status == OK && !g.payload.List? {
        if !g.payload.Record? {
          return Raised(AttributeError);
        }
        var updated := UpdateRow(conn.schema, conn.pending, table, g.payload.fields, kw);
        if updated.Err? {
          return Raised(updated.error);
        }
        conn.Write(updated.value.1);
        conn.Commit();
        r := Reply(OK, Record(updated.value.0));
      } else if g.status == NOT_FOUND {
        var inserted := InsertRow(conn.schema, conn.pending, table, kw);
        if inserted.Err? {
          return Raised(inserted.error);
        }
        conn.Write(inserted.value.1);
        conn.Commit();
        r := Reply(CREATED, Record(inserted.value.0));
      } else {
        r := g;
      }
    }

    /** DELETE.call (dictapi.py lines 201-218). */
    method DeleteCall(args: Args, now: int) returns (r: Reply)
      requires Valid() && verb == Delete
      modifies conn
      ensures Outcome(r, conn.State()) == Core(Delete, GetMods(), conn.schema, table, args, now, old(conn.State()))
      decreases Rank(verb), 0, 0
    {
      if |args.positional| > |conn.schema[table].pks| {
        return Reply(BAD_REQUEST, ErrorBody(TooManyKeys));
      }
      var g := getter.Invoke(args, now);
      ghost var afterGet := conn.State();
      assert DeleteAfter(conn.schema, table, Outcome(g, afterGet)) ==
        Core(Delete, GetMods(), conn.schema, table, args, now, old(conn.State()));
      if g.Raised? || g.status != OK {
        return g;
      }
      if !g.payload.Record? {
        return Raised(AttributeError);
      }
      var deleted := DeleteRow(conn.schema, conn.pending, table, g.payload.fields);
      if deleted.Err? && deleted.error != IntegrityError {
        return Raised(deleted.error);
      }
      if deleted.Err? {
        conn.Rollback();
        return Reply(BAD_REQUEST, ErrorBody(ReferencedEntry));
      }
      conn.Write(deleted.value);
      conn.Commit();
      r := Reply(OK, Null);
    }
  }

  /** A table of the schema exposed as a resource: one handler per verb (dictapi.py lines 222-232). */
  class ApiTable {
    const conn: Connection
    const table: string
    const get: Handler
    const getRange: Handler
    const head: Handler
    const put: Handler
    const delete: Handler

    predicate Valid()
    {
      table in conn.schema &&
      get.verb == Get && getRange.verb == GetRange && head.verb == Head && put.verb == Put && delete.verb == Delete &&
      get.getter == null && getRange.getter == null && head.getter == get && put.getter == get && delete.getter == get &&
      get.table == getRange.table == head.table == put.table == delete.table == table &&
      get.conn == getRange.conn == head.conn == put.conn == delete.conn == conn
    }

    /** Every handler of a valid resource table can be invoked. */
    lemma HandlersValid()
      requires Valid()
      ensures get.Valid() && getRange.Valid() && head.Valid() && put.Valid() && delete.Valid()
    {
    }

    constructor(conn: Connection, table: string)
      requires table in conn.schema
      ensures Valid() && this.conn == conn && this.table == table
      ensures fresh(get) && fresh(getRange) && fresh(head) && fresh(put) && fresh(delete)
      ensures get.modifiers == getRange.modifiers == head.modifiers == put.modifiers == delete.modifiers == []
    {
      this.conn := conn;
      this.table := table;
      var g := new Handler(Get, table, conn, null);
      get := g;
      getRange := new Handler(GetRange, table, conn, null);
      head := new Handler(Head, table, conn, g);
      put := new Handler(Put, table, conn, g);
      delete := new Handler(Delete, table, conn, g);
    }
  }

  /** The registry: a resource table for every table the connection's schema holds (dictapi.py lines 236-252). */
  class Api {
    const conn: Connection
    var tables: map<string, ApiTable>

    /** Every name of names has a valid resource table over this connection and that table. */
    ghost predicate Serves(names: set<string>)
      reads this
    {
      forall n :: n in names ==> n in tables && tables[n].Valid() && tables[n].conn == conn && tables[n].table == n
    }

    constructor(conn: Connection)
      ensures this.conn == conn && tables.Keys == conn.schema.Keys && Serves(conn.schema.Keys)
      ensures forall n :: n in tables ==> fresh(tables[n])
    {
      this.conn := conn;
      tables := map[];
      new;
      InitTables();
    }

    /**
      init_tables with table_factory's APITable: a fresh resource table for
      every table name, replacing any earlier one of that name.
    */
    method InitTables()
      modifies this
      ensures tables.Keys == old(tables.Keys) + conn.schema.Keys && Serves(conn.schema.Keys)
      ensures forall n :: n in conn.schema ==> n in tables && fresh(tables[n])
      ensures forall n :: n in tables && n !in conn.schema ==> n in old(tables) && tables[n] == old(tables[n])
    {
      var remaining := conn.schema.Keys;
      ghost var done: set<string> := {};
      while remaining != {}
        invariant remaining + done == conn.schema.Keys && remaining !! done
        invariant tables.Keys == old(tables.Keys) + done && Serves(done)
        invariant forall n :: n in done ==> fresh(tables[n])
        invariant forall n :: n in tables && n !in done ==> n in old(tables) && tables[n] == old(tables[n])
        decreases remaining
      {
        var name :| name in remaining;
        var resource := new ApiTable(conn, name);
        tables := tables[name := resource];
        remaining := remaining - {name};
        done := done + {name};
      }
    }
  }
}
