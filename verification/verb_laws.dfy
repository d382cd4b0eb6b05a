/**
  What the verbs and their modifiers promise: reads never commit, every
  invocation leaves no uncommitted write behind, each modifier layer ends in
  a rollback, NoRead hides its column whatever wraps it, PUT inserts or
  updates exactly one row, DELETE removes exactly one, and the ranges of the
  pagination scenario select the expected rows.
*/
module VerbLaws {

  import opened Wrappers
  import opened Values
  import opened Ranges
  import opened Store
  import opened StoreLaws
  import opened Verbs

  /**
    after differs from before only by rollbacks: nothing is committed, the
    log grows by rollbacks alone, and once one happened the open
    transaction shows the committed state.
  */
  predicate OnlyRollsBack(before: Tx, after: Tx)
  {
    after.committed == before.committed &&
    before.log <= after.log &&
    (forall i :: |before.log| <= i < |after.log| ==> after.log[i] == RolledBack) &&
    after.pending == (if |after.log| == |before.log| then before.pending else before.committed)
  }

  /** GET, GET_RANGE and HEAD, with any modifiers, never commit. */
  lemma {:induction false} ReadsOnlyRollBack(v: Verb, mods: seq<Modifier>, getMods: seq<Modifier>,
                                             schema: Schema, t: string, args: Args, now: int, tx: Tx)
    requires t in schema && (v == Get || v == GetRange || v == Head)
    ensures OnlyRollsBack(tx, Chain(v, mods, getMods, schema, t, args, now, tx).tx)
    decreases Rank(v), |mods|
  {
    if mods == [] {
      if v == Head {
        ReadsOnlyRollBack(Get, getMods, [], schema, t, args, now, tx);
      }
    } else {
      var m := mods[|mods| - 1];
      if !Refuses(m, args) {
        var passed := Passed(m, args, now);
        ReadsOnlyRollBack(v, mods[..|mods| - 1], getMods, schema, t, passed, now, tx);
      }
    }
  }

  /** Every status GET can reply with, through any modifiers. */
  lemma {:induction false} GetStatuses(mods: seq<Modifier>, getMods: seq<Modifier>,
                                       schema: Schema, t: string, args: Args, now: int, tx: Tx)
    requires t in schema
    ensures var r := Chain(Get, mods, getMods, schema, t, args, now, tx).reply;
      r.Reply? ==> r.status in {OK, BAD_REQUEST, NOT_FOUND}
    decreases |mods|
  {
    if mods != [] {
      var m := mods[|mods| - 1];
      if !Refuses(m, args) {
        var passed := Passed(m, args, now);
        GetStatuses(mods[..|mods| - 1], getMods, schema, t, passed, now, tx);
      }
    }
  }

  /**
    No verb leaves a write uncommitted: from a settled transaction every
    invocation, whatever it replies, ends settled again.
  */
  lemma {:induction false} ChainSettles(v: Verb, mods: seq<Modifier>, getMods: seq<Modifier>,
                                        schema: Schema, t: string, args: Args, now: int, tx: Tx)
    requires t in schema && Settled(tx)
    ensures Settled(Chain(v, mods, getMods, schema, t, args, now, tx).tx)
    decreases Rank(v), |mods|
  {
    if mods == [] {
      match v
      case Get =>
      case GetRange =>
      case Head =>
        ChainSettles(Get, getMods, [], schema, t, args, now, tx);
      case Put =>
        var wheres := KeyArguments(schema[t].pks, args.keywords);
        if wheres != map[] {
          ChainSettles(Get, getMods, [], schema, t, Args([], wheres), now, tx);
        }
      case Delete =>
        if |args.positional| <= |schema[t].pks| {
          ChainSettles(Get, getMods, [], schema, t, args, now, tx);
        }
    } else {
      var m := mods[|mods| - 1];
      if !Refuses(m, args) {
        var passed := Passed(m, args, now);
        ChainSettles(v, mods[..|mods| - 1], getMods, schema, t, passed, now, tx);
      }
    }
  }

  /**
    No verb breaks the primary-key constraint: from a settled transaction
    whose tables have present, distinct keys, every invocation commits only
    tables whose keys are still present and distinct.
  */
  lemma {:induction false} ChainKeepsKeys(v: Verb, mods: seq<Modifier>, getMods: seq<Modifier>,
                                          schema: Schema, t: string, args: Args, now: int, tx: Tx)
    requires t in schema && Settled(tx) && KeysUnique(schema, tx.committed)
    ensures KeysUnique(schema, Chain(v, mods, getMods, schema, t, args, now, tx).tx.committed)
    decreases Rank(v), |mods|
  {
    if mods == [] {
      match v
      case Get =>
      case GetRange =>
      case Head =>
        ChainKeepsKeys(Get, getMods, [], schema, t, args, now, tx);
      case Put =>
        var wheres := KeyArguments(schema[t].pks, args.keywords);
        var g :=
          if wheres == map[] then Outcome(Reply(NOT_FOUND, Null), tx)
          else Chain(Get, getMods, [], schema, t, Args([], wheres), now, tx);
        if wheres != map[] {
          ChainSettles(Get, getMods, [], schema, t, Args([], wheres), now, tx);
          ChainKeepsKeys(Get, getMods, [], schema, t, Args([], wheres), now, tx);
        }
        PutAfterKeepsKeys(schema, t, args.keywords, g);
      case Delete =>
        if |args.positional| <= |schema[t].pks| {
          var g := Chain(Get, getMods, [], schema, t, args, now, tx);
          ChainSettles(Get, getMods, [], schema, t, args, now, tx);
          ChainKeepsKeys(Get, getMods, [], schema, t, args, now, tx);
          DeleteAfterKeepsKeys(schema, t, g);
        }
    } else {
      var m := mods[|mods| - 1];
      if !Refuses(m, args) {
        var passed := Passed(m, args, now);
        ChainKeepsKeys(v, mods[..|mods| - 1], getMods, schema, t, passed, now, tx);
      }
    }
  }

  /** PUT's write, after a GET that left the transaction settled, keeps the keys unique. */
  lemma PutAfterKeepsKeys(schema: Schema, t: string, kw: map<string, Value>, g: Outcome)
    requires t in schema && Settled(g.tx) && KeysUnique(schema, g.tx.committed)
    ensures KeysUnique(schema, PutAfter(schema, t, kw, g).tx.committed)
  {
    match g.reply
    case Raised(_) =>
    case Reply(code, entry) =>
      if code == OK && entry.Record? {
        if UpdateRow(schema, g.tx.pending, t, entry.fields, kw).Ok? {
          UpdateKeepsKeysUnique(schema, g.tx.pending, t, entry.fields, kw);
        }
      } else if code == NOT_FOUND {
        if InsertRow(schema, g.tx.pending, t, kw).Ok? {
          InsertKeepsKeysUnique(schema, g.tx.pending, t, kw);
        }
      }
  }

  /** DELETE's write, after a GET that left the transaction settled, keeps the keys unique. */
  lemma DeleteAfterKeepsKeys(schema: Schema, t: string, g: Outcome)
    requires t in schema && Settled(g.tx) && KeysUnique(schema, g.tx.committed)
    ensures KeysUnique(schema, DeleteAfter(schema, t, g).tx.committed)
  {
    if g.reply.Reply? && g.reply.payload.Record? && DeleteRow(schema, g.tx.pending, t, g.reply.payload.fields).Ok? {
      DeleteKeepsKeysUnique(schema, g.tx.pending, t, g.reply.payload.fields);
    }
  }

  /**
    NoRead hides its column from every row reply, however many modifiers
    wrap it: the column's name is not one of the error body's two keys, so
    an outer NoWrite's refusal cannot show it either.
  */
  lemma {:induction false} NoReadHides(v: Verb, mods: seq<Modifier>, getMods: seq<Modifier>,
                                       schema: Schema, t: string, args: Args, now: int, tx: Tx, column: string)
    requires t in schema && Modifier(NoRead, column) in mods
    requires column != "error" && column != "message"
    ensures var r := Chain(v, mods, getMods, schema, t, args, now, tx).reply;
      r.Reply? && r.payload.Record? ==> column !in r.payload.fields
    decreases |mods|
  {
    var m := mods[|mods| - 1];
    var inner := mods[..|mods| - 1];
    assert mods == inner + [m];
    if m != Modifier(NoRead, column) && !Refuses(m, args) {
      var passed := Passed(m, args, now);
      NoReadHides(v, inner, getMods, schema, t, passed, now, tx, column);
    }
  }

  /**
    modify(m, column): invoking afterwards runs m's layer around whatever
    the handler ran before, so the last modifier added is the outermost.
  */
  lemma ModifyWraps(v: Verb, mods: seq<Modifier>, m: Modifier, getMods: seq<Modifier>,
                    schema: Schema, t: string, args: Args, now: int, tx: Tx)
    requires t in schema
    ensures Chain(v, mods + [m], getMods, schema, t, args, now, tx) ==
      Wrap(m, args, tx, Chain(v, mods, getMods, schema, t, Passed(m, args, now), now, tx))
  {
    assert (mods + [m])[..|mods|] == mods;
  }

  /** LastModified hands the verb its arguments with the column set to the given time. */
  lemma LastModifiedStamps(v: Verb, mods: seq<Modifier>, getMods: seq<Modifier>,
                           schema: Schema, t: string, args: Args, now: int, tx: Tx, column: string)
    requires t in schema
    ensures var o := Chain(v, mods, getMods, schema, t, args.(keywords := args.keywords[column := Stamp(now)]), now, tx);
      Chain(v, mods + [Modifier(LastModified, column)], getMods, schema, t, args, now, tx) ==
        if o.reply.Raised? then o else Outcome(o.reply, Rollback(o.tx))
  {
    ModifyWraps(v, mods, Modifier(LastModified, column), getMods, schema, t, args, now, tx);
  }

  /** NoRead answers the inner status with the column removed and nothing else changed. */
  lemma NoReadRemoves(v: Verb, mods: seq<Modifier>, getMods: seq<Modifier>,
                      schema: Schema, t: string, args: Args, now: int, tx: Tx, column: string)
    requires t in schema
    requires var o := Chain(v, mods, getMods, schema, t, args, now, tx);
      o.reply.Reply? && o.reply.payload.Record?
    ensures var o := Chain(v, mods, getMods, schema, t, args, now, tx);
      Chain(v, mods + [Modifier(NoRead, column)], getMods, schema, t, args, now, tx) ==
        Outcome(Reply(o.reply.status, Record(o.reply.payload.fields - {column})), Rollback(o.tx))
  {
    ModifyWraps(v, mods, Modifier(NoRead, column), getMods, schema, t, args, now, tx);
  }

  /** NoWrite refuses any call that names its column, before the verb runs. */
  lemma NoWriteRefuses(v: Verb, inner: seq<Modifier>, getMods: seq<Modifier>,
                       schema: Schema, t: string, args: Args, now: int, tx: Tx, column: string)
    requires t in schema && column in args.keywords
    ensures Chain(v, inner + [Modifier(NoWrite, column)], getMods, schema, t, args, now, tx) ==
      Outcome(Reply(BAD_REQUEST, ErrorBody(CannotWrite(column))), Rollback(tx))
  {
    assert (inner + [Modifier(NoWrite, column)])[..|inner|] == inner;
  }

  /**
    Order matters: a LastModified added after a NoWrite on the same column
    writes the column first, so the NoWrite inside refuses every call.
  */
  lemma StampThenRefuse(v: Verb, getMods: seq<Modifier>, schema: Schema, t: string, args: Args, now: int, tx: Tx, column: string)
    requires t in schema
    ensures Chain(v, [Modifier(NoWrite, column), Modifier(LastModified, column)], getMods, schema, t, args, now, tx) ==
      Outcome(Reply(BAD_REQUEST, ErrorBody(CannotWrite(column))), Rollback(Rollback(tx)))
  {
    var stamp := Modifier(LastModified, column);
    var refuse := Modifier(NoWrite, column);
    var passed := Passed(stamp, args, now);
    assert [refuse, stamp][..1] == [refuse];
    assert Refuses(refuse, passed);
    var inner := Chain(v, [refuse], getMods, schema, t, passed, now, tx);
    assert inner == Outcome(Reply(BAD_REQUEST, ErrorBody(CannotWrite(column))), Rollback(tx));
  }

  /**
    ...while a NoWrite added after the LastModified lets calls that do not
    name the column through, and the verb sees the column stamped.
  */
  lemma RefuseThenStamp(v: Verb, getMods: seq<Modifier>, schema: Schema, t: string, args: Args, now: int, tx: Tx, column: string)
    requires t in schema && column !in args.keywords
    ensures var o := Core(v, getMods, schema, t, args.(keywords := args.keywords[column := Stamp(now)]), now, tx);
      Chain(v, [Modifier(LastModified, column), Modifier(NoWrite, column)], getMods, schema, t, args, now, tx) ==
      if o.reply.Raised? then o else Outcome(o.reply, Rollback(Rollback(o.tx)))
  {
    var stamp := Modifier(LastModified, column);
    var refuse := Modifier(NoWrite, column);
    var o := Core(v, getMods, schema, t, Passed(stamp, args, now), now, tx);
    assert [stamp, refuse][..1] == [stamp];
    assert [stamp][..0] == [];
    assert Chain(v, [], getMods, schema, t, Passed(stamp, args, now), now, tx) == o;
    var inner := Chain(v, [stamp], getMods, schema, t, args, now, tx);
    assert inner == Wrap(stamp, args, tx, o);
  }

  /** HEAD answers with GET's status and no payload, and leaves what GET left. */
  lemma HeadMirrorsGet(getMods: seq<Modifier>, schema: Schema, t: string, args: Args, now: int, tx: Tx)
    requires t in schema
    ensures var h := Chain(Head, [], getMods, schema, t, args, now, tx);
      var g := Chain(Get, getMods, [], schema, t, args, now, tx);
      h.tx == g.tx &&
      (g.reply.Raised? ==> h.reply == g.reply) &&
      (g.reply.Reply? ==> h.reply == Reply(g.reply.status, Null))
  {
  }

  /**
    As many positional arguments as primary keys mean the same as the keys
    given by name, in key order.
  */
  lemma GetByKeyIsGetByName(schema: Schema, t: string, a: seq<Value>, tx: Tx)
    requires t in schema && |a| == |schema[t].pks| > 0 && Distinct(schema[t].pks)
    ensures var kw := Zip(schema[t].pks, a);
      (forall i :: 0 <= i < |a| ==> kw[schema[t].pks[i]] == a[i]) &&
      GetCore(schema, t, Args(a, map[]), tx) == GetCore(schema, t, Args([], kw), tx)
  {
    assert schema[t].pks[0] in Zip(schema[t].pks, a);
  }

  /** Fewer positional arguments than primary keys match nothing. */
  lemma GetShortKey(schema: Schema, t: string, a: seq<Value>, tx: Tx)
    requires t in schema && |a| < |schema[t].pks|
    ensures GetCore(schema, t, Args(a, map[]), tx) ==
      Outcome(Reply(NOT_FOUND, ErrorBody(NoEntryMatching(map[]))), Rollback(tx))
  {
  }

  /** A 200 from the plain GET by key or filter carries a stored row that matches it. */
  lemma GetFindsStoredRow(schema: Schema, t: string, args: Args, tx: Tx)
    requires t in schema && (args.keywords != map[] || |args.positional| <= |schema[t].pks|)
    ensures var o := GetCore(schema, t, args, tx);
      o.reply.Reply? && o.reply.status == OK ==>
        o.reply.payload.Record? && o.reply.payload.fields in Rows(tx.pending, t)
  {
  }

  /**
    The positional arguments split into the key values and a non-empty
    reference path: the split GET makes.
  */
  lemma SplitArguments(keys: seq<Value>, path: seq<Value>)
    ensures (keys + path)[..|keys|] == keys && (keys + path)[|keys|..] == path
  {
  }

  /** A reference path whose key matches no row answers 404. */
  lemma GetPathNoBase(schema: Schema, t: string, keys: seq<Value>, path: seq<Value>, tx: Tx)
    requires t in schema && |keys| == |schema[t].pks| && path != []
    requires GetOne(schema, tx.pending, t, Zip(schema[t].pks, keys)) == Ok(None)
    ensures GetCore(schema, t, Args(keys + path, map[]), tx) ==
      Outcome(Reply(NOT_FOUND, ErrorBody(NoEntryMatching(Zip(schema[t].pks, keys)))), Rollback(tx))
  {
    SplitArguments(keys, path);
  }

  /** Once the key has found a row, the reference path alone decides GET's answer. */
  lemma GetPathFollows(schema: Schema, t: string, keys: seq<Value>, path: seq<Value>, tx: Tx, row: Row)
    requires t in schema && |keys| == |schema[t].pks| && path != []
    requires GetOne(schema, tx.pending, t, Zip(schema[t].pks, keys)) == Ok(Some(row)) && row != map[]
    ensures GetCore(schema, t, Args(keys + path, map[]), tx) == FollowPath(schema, AtRow(t, row), path, tx)
  {
    SplitArguments(keys, path);
    assert Truthy(Record(row));
  }

  /**
    A first segment that is neither a column nor a relation of the row
    answers 400, whatever follows it.
  */
  lemma GetPathMissingSegment(schema: Schema, t: string, keys: seq<Value>, path: seq<Value>, tx: Tx, row: Row)
    requires t in schema && |keys| == |schema[t].pks| && path != []
    requires GetOne(schema, tx.pending, t, Zip(schema[t].pks, keys)) == Ok(Some(row)) && row != map[]
    requires path[0].Text? && path[0].s !in row && path[0].s !in schema[t].relations
    ensures GetCore(schema, t, Args(keys + path, map[]), tx) ==
      Outcome(Reply(BAD_REQUEST, ErrorBody(NoReference)), Rollback(tx))
  {
    GetPathFollows(schema, t, keys, path, tx, row);
    MissingFirstSegment(schema, t, row, path, tx);
  }

  /** A path from a row whose first segment the row and its table lack answers 400. */
  lemma MissingFirstSegment(schema: Schema, t: string, row: Row, path: seq<Value>, tx: Tx)
    requires t in schema && path != []
    requires path[0].Text? && path[0].s !in row && path[0].s !in schema[t].relations
    ensures FollowPath(schema, AtRow(t, row), path, tx) ==
      Outcome(Reply(BAD_REQUEST, ErrorBody(NoReference)), Rollback(tx))
  {
    var start := AtRow(t, row);
    assert Walk(schema, tx.pending, start, [path[0]]) == Missing by {
      assert Follow(schema, tx.pending, start, path[0]) == Missing;
    }
    WalkStops(schema, tx.pending, start, [path[0]], path[1..]);
    assert [path[0]] + path[1..] == path;
  }

  /** A reference path stops at its first missing or failing segment. */
  lemma {:induction false} WalkStops(schema: Schema, db: Db, c: Cursor, path: seq<Value>, rest: seq<Value>)
    requires !Walk(schema, db, c, path).Moved?
    ensures Walk(schema, db, c, path + rest) == Walk(schema, db, c, path)
    decreases |path|
  {
    assert path != [];
    assert (path + rest)[0] == path[0];
    assert (path + rest)[1..] == path[1..] + rest;
    match Follow(schema, db, c, path[0])
    case Moved(next) => WalkStops(schema, db, next, path[1..], rest);
    case _ =>
  }

  /** A path that arrives somewhere continues from there. */
  lemma {:induction false} WalkContinues(schema: Schema, db: Db, c: Cursor, path: seq<Value>, rest: seq<Value>)
    requires Walk(schema, db, c, path).Moved?
    ensures Walk(schema, db, c, path + rest) == Walk(schema, db, Walk(schema, db, c, path).to, rest)
    decreases |path|
  {
    if path != [] {
      assert (path + rest)[0] == path[0];
      assert (path + rest)[1..] == path[1..] + rest;
      WalkContinues(schema, db, Follow(schema, db, c, path[0]).to, path[1..], rest);
    } else {
      assert path + rest == rest;
    }
  }

  /** A range GET_RANGE rejects answers 400 and leaves the transaction as it was. */
  lemma MalformedRangeKeepsTransaction(schema: Schema, t: string, s: string, rest: seq<Value>, tx: Tx)
    requires t in schema && ParseRange(s) == Malformed && s != ""
    ensures RangeCore(schema, t, Args([Text(s)] + rest, map[]), tx) ==
      Outcome(Reply(BAD_REQUEST, ErrorBody(InvalidRange)), tx)
  {
  }

  /**
    The range may be passed by keyword as well as by position; passing it
    both ways, or not at all, raises TypeError before anything is read.
  */
  lemma RangeByKeyword(schema: Schema, t: string, v: Value, tx: Tx)
    requires t in schema
    ensures RangeCore(schema, t, Args([], map["ranges" := v]), tx) == RangeCore(schema, t, Args([v], map[]), tx)
    ensures RangeCore(schema, t, Args([v], map["ranges" := v]), tx) == Outcome(Raised(TypeError), tx)
    ensures RangeCore(schema, t, Args([], map[]), tx) == Outcome(Raised(TypeError), tx)
  {
    assert RangesArgument(Args([], map["ranges" := v])) == Ok(v);
    assert RangesArgument(Args([v], map[])) == Ok(v);
  }

  /**
    A window answers with the page of rows it selects, or 404 when that page
    is empty, and rolls back either way.
  */
  lemma WindowReply(schema: Schema, t: string, ranges: Value, tx: Tx, offset: nat, limit: nat)
    requires t in schema && RangeOf(ranges) == Ok(Window(offset, limit))
    ensures var page := Page(Rows(tx.pending, t), offset, limit);
      RangeCore(schema, t, Args([ranges], map[]), tx) ==
        if page == [] then Outcome(Reply(NOT_FOUND, ErrorBody(NoEntriesInRange)), Rollback(tx))
        else Outcome(Reply(OK, List(Records(page))), Rollback(tx))
  {
  }

  /** A window that starts inside the table answers exactly the rows at its positions, in the store's order. */
  lemma WindowSelects(schema: Schema, t: string, ranges: Value, tx: Tx, offset: nat, limit: nat)
    requires t in schema && RangeOf(ranges) == Ok(Window(offset, limit))
    requires offset < |Rows(tx.pending, t)|
    ensures var o := RangeCore(schema, t, Args([ranges], map[]), tx);
      var rows := Rows(tx.pending, t);
      o.tx == Rollback(tx) && o.reply.Reply? && o.reply.status == OK && o.reply.payload.List? &&
      |o.reply.payload.items| == Min(limit, |rows| - offset) &&
      forall i :: 0 <= i < |o.reply.payload.items| ==> o.reply.payload.items[i] == Record(rows[offset + i])
  {
    WindowReply(schema, t, ranges, tx, offset, limit);
    assert |Page(Rows(tx.pending, t), offset, limit)| > 0;
  }

  /** A non-empty string argument is read by the range parser. */
  lemma TextRange(s: string)
    requires s != ""
    ensures RangeOf(Text(s)) == Ok(ParseRange(s))
  {
  }

  /** With 24 rows stored, "1-" answers the first COLLECTION_SIZE of them... */
  lemma FirstPageScenario(schema: Schema, t: string, tx: Tx)
    requires t in schema && |Rows(tx.pending, t)| == 24
    ensures RangeCore(schema, t, Args([Text("1-")], map[]), tx) ==
      Outcome(Reply(OK, List(Records(Rows(tx.pending, t)[..20]))), Rollback(tx))
  {
    DefaultWindow();
    assert Page(Rows(tx.pending, t), 0, 20) == Rows(tx.pending, t)[..20];
    TextRange("1-");
    WindowReply(schema, t, Text("1-"), tx, 0, 20);
  }

  /** ...and "21-40" the last four. */
  lemma SecondPageScenario(schema: Schema, t: string, tx: Tx)
    requires t in schema && |Rows(tx.pending, t)| == 24
    ensures RangeCore(schema, t, Args([Text("21-40")], map[]), tx) ==
      Outcome(Reply(OK, List(Records(Rows(tx.pending, t)[20..]))), Rollback(tx))
  {
    SecondPage();
    assert Page(Rows(tx.pending, t), 20, 20) == Rows(tx.pending, t)[20..];
    TextRange("21-40");
    WindowReply(schema, t, Text("21-40"), tx, 20, 20);
  }

  /** PUT without any primary key among its arguments inserts a row and commits it. */
  lemma PutWithoutKeyInserts(getMods: seq<Modifier>, schema: Schema, t: string, args: Args, now: int, tx: Tx)
    requires t in schema && KeyArguments(schema[t].pks, args.keywords) == map[]
    ensures var o := Core(Put, getMods, schema, t, args, now, tx);
      match InsertRow(schema, tx.pending, t, args.keywords)
      case Ok((row, db)) =>
        o == Outcome(Reply(CREATED, Record(row)), Commit(Write(tx, db))) &&
        FreshKey(schema[t], Rows(tx.pending, t), row) &&
        (KeysUnique(schema, tx.pending) ==> KeysUnique(schema, db))
      case Err(e) => o == Outcome(Raised(e), tx)
  {
    if InsertRow(schema, tx.pending, t, args.keywords).Ok? {
      InsertedKeyFresh(schema, tx.pending, t, args.keywords);
      if KeysUnique(schema, tx.pending) {
        InsertKeepsKeysUnique(schema, tx.pending, t, args.keywords);
      }
    }
  }

  /** PUT with a key runs GET through GET's own modifiers on the key arguments alone. */
  lemma PutCallsGet(getMods: seq<Modifier>, schema: Schema, t: string, args: Args, now: int, tx: Tx)
    requires t in schema && KeyArguments(schema[t].pks, args.keywords) != map[]
    ensures Core(Put, getMods, schema, t, args, now, tx) ==
      PutAfter(schema, t, args.keywords,
        Chain(Get, getMods, [], schema, t, Args([], KeyArguments(schema[t].pks, args.keywords)), now, tx))
  {
  }

  /** When GET misses, PUT inserts a row from all its arguments and commits it as 201. */
  lemma PutInsertsOnMiss(schema: Schema, t: string, kw: map<string, Value>, g: Outcome)
    requires t in schema && g.reply.Reply? && g.reply.status == NOT_FOUND
    ensures var o := PutAfter(schema, t, kw, g);
      match InsertRow(schema, g.tx.pending, t, kw)
      case Ok((row, db)) =>
        o == Outcome(Reply(CREATED, Record(row)), Commit(Write(g.tx, db))) &&
        FreshKey(schema[t], Rows(g.tx.pending, t), row) &&
        (KeysUnique(schema, g.tx.pending) ==> KeysUnique(schema, db))
      case Err(e) => o == Outcome(Raised(e), g.tx)
  {
    if InsertRow(schema, g.tx.pending, t, kw).Ok? {
      InsertedKeyFresh(schema, g.tx.pending, t, kw);
      if KeysUnique(schema, g.tx.pending) {
        InsertKeepsKeysUnique(schema, g.tx.pending, t, kw);
      }
    }
  }

  /**
    When GET finds an entry, PUT updates it with all its arguments and
    commits it as 200; the table keeps its number of rows and every argument
    is stored as its column's type reads it.
  */
  lemma PutUpdatesOnHit(schema: Schema, t: string, kw: map<string, Value>, g: Outcome)
    requires t in schema && g.reply.Reply? && g.reply.status == OK && g.reply.payload.Record?
    ensures var o := PutAfter(schema, t, kw, g);
      match UpdateRow(schema, g.tx.pending, t, g.reply.payload.fields, kw)
      case Ok((row, db)) =>
        o == Outcome(Reply(OK, Record(row)), Commit(Write(g.tx, db))) &&
        |Rows(o.tx.committed, t)| == |Rows(g.tx.pending, t)| &&
        forall k :: k in kw ==> k in schema[t].columns && k in row && Cast(kw[k], schema[t].columns[k].kind) == Some(row[k])
      case Err(e) => o == Outcome(Raised(e), g.tx)
  {
  }

  /**
    Updating the entry GET found, once the updated entry's key, read as the
    key columns' types read it, is the key of stored row j: with unique
    keys, PUT either commits 200 with exactly row j merged with the stored
    arguments, other rows and tables untouched, or raises IntegrityError
    and keeps GET's transaction.
  */
  lemma PutFoundRow(schema: Schema, t: string, kw: map<string, Value>, g: Outcome, j: nat)
    requires t in schema && |schema[t].pks| > 0 && KeysUnique(schema, g.tx.pending)
    requires g.reply.Reply? && g.reply.status == OK && g.reply.payload.Record?
    requires HasKey(schema[t], g.reply.payload.fields + kw)
    requires Stored(schema[t], g.reply.payload.fields + kw).Ok?
    requires j < |Rows(g.tx.pending, t)|
    requires Matches(Rows(g.tx.pending, t)[j], KeyOf(schema[t], Stored(schema[t], g.reply.payload.fields + kw).value))
    ensures var o := PutAfter(schema, t, kw, g);
      var rows := Rows(g.tx.pending, t);
      var updated := rows[j] + Stored(schema[t], g.reply.payload.fields + kw).value;
      (o.reply == Reply(OK, Record(updated)) || o.reply == Raised(IntegrityError)) &&
      (o.reply.Reply? <==> Admissible(schema, g.tx.pending, t, updated, j)) &&
      (o.reply.Reply? ==>
         Rows(o.tx.committed, t) == rows[j := updated] &&
         OthersKept(g.tx.pending, o.tx.committed, t) &&
         o.tx.log == g.tx.log + [Committed] && Settled(o.tx)) &&
      (o.reply.Raised? ==> o.tx == g.tx)
  {
    var ts := schema[t];
    var given := Stored(ts, g.reply.payload.fields + kw).value;
    assert TableKeysUnique(ts, Rows(g.tx.pending, t));
    assert given.Keys == (g.reply.payload.fields + kw).Keys;
    assert HasKey(ts, given);
    KeyLocates(ts, Rows(g.tx.pending, t), given, j);
  }

  /** PUT returns GET's reply unchanged, and commits nothing, when GET neither found nor missed the entry. */
  lemma PutPassesGetError(getMods: seq<Modifier>, schema: Schema, t: string, args: Args, now: int, tx: Tx)
    requires t in schema
    requires var wheres := KeyArguments(schema[t].pks, args.keywords);
      var g := Chain(Get, getMods, [], schema, t, Args([], wheres), now, tx);
      wheres != map[] && (g.reply.Raised? || g.reply.status !in {OK, NOT_FOUND})
    ensures Core(Put, getMods, schema, t, args, now, tx) ==
      Chain(Get, getMods, [], schema, t, Args([], KeyArguments(schema[t].pks, args.keywords)), now, tx)
  {
  }

  /** Rows of every table but t are the same in both databases. */
  ghost predicate OthersKept(before: Db, after: Db, t: string)
  {
    forall u :: u != t ==> Rows(after, u) == Rows(before, u)
  }

  /**
    PUT, behind any modifiers, commits one new row when it answers 201 and
    keeps the number of committed rows when it answers 200; other tables
    are untouched either way.
  */
  lemma {:induction false} PutRowCount(mods: seq<Modifier>, getMods: seq<Modifier>,
                                       schema: Schema, t: string, args: Args, now: int, tx: Tx)
    requires t in schema && Settled(tx)
    ensures var o := Chain(Put, mods, getMods, schema, t, args, now, tx);
      o.reply.Reply? && o.reply.status in {OK, CREATED} ==>
        OthersKept(tx.committed, o.tx.committed, t) &&
        |Rows(o.tx.committed, t)| == |Rows(tx.committed, t)| + (if o.reply.status == CREATED then 1 else 0)
    decreases |mods|
  {
    if mods == [] {
      var wheres := KeyArguments(schema[t].pks, args.keywords);
      if wheres != map[] {
        ReadsOnlyRollBack(Get, getMods, [], schema, t, Args([], wheres), now, tx);
        GetStatuses(getMods, [], schema, t, Args([], wheres), now, tx);
      }
    } else {
      var m := mods[|mods| - 1];
      if !Refuses(m, args) {
        var passed := Passed(m, args, now);
        PutRowCount(mods[..|mods| - 1], getMods, schema, t, passed, now, tx);
      }
    }
  }

  /** DELETE with more positional arguments than primary keys answers 400 and touches nothing. */
  lemma DeleteTooManyKeys(getMods: seq<Modifier>, schema: Schema, t: string, args: Args, now: int, tx: Tx)
    requires t in schema && |args.positional| > |schema[t].pks|
    ensures Core(Delete, getMods, schema, t, args, now, tx) ==
      Outcome(Reply(BAD_REQUEST, ErrorBody(TooManyKeys)), tx)
  {
  }

  /** DELETE within the key count runs GET, through GET's own modifiers, on its own arguments. */
  lemma DeleteCallsGet(getMods: seq<Modifier>, schema: Schema, t: string, args: Args, now: int, tx: Tx)
    requires t in schema && |args.positional| <= |schema[t].pks|
    ensures Core(Delete, getMods, schema, t, args, now, tx) ==
      DeleteAfter(schema, t, Chain(Get, getMods, [], schema, t, args, now, tx))
  {
  }

  /** DELETE returns GET's reply unchanged, and commits nothing, when GET did not answer 200. */
  lemma DeletePassesGetReply(getMods: seq<Modifier>, schema: Schema, t: string, args: Args, now: int, tx: Tx)
    requires t in schema && |args.positional| <= |schema[t].pks|
    requires var g := Chain(Get, getMods, [], schema, t, args, now, tx);
      g.reply.Raised? || g.reply.status != OK
    ensures Core(Delete, getMods, schema, t, args, now, tx) == Chain(Get, getMods, [], schema, t, args, now, tx)
  {
  }

  /**
    Deleting an entry that carries the full key of the stored row j: the
    call never raises; a 200 commits the table with exactly one row fewer,
    and with unique keys exactly row j removed; a refusal because of a
    reference rolls back.
  */
  lemma DeleteFoundRow(schema: Schema, t: string, g: Outcome, j: nat)
    requires t in schema && Settled(g.tx)
    requires g.reply.Reply? && g.reply.status == OK && g.reply.payload.Record?
    requires HasKey(schema[t], g.reply.payload.fields)
    requires j < |Rows(g.tx.pending, t)| && Matches(Rows(g.tx.pending, t)[j], KeyOf(schema[t], g.reply.payload.fields))
    ensures var o := DeleteAfter(schema, t, g);
      (o.reply.Reply? && (o.reply.status == OK || o.reply == Reply(BAD_REQUEST, ErrorBody(ReferencedEntry)))) &&
      (o.reply.Reply? && o.reply.status == OK ==>
         OthersKept(g.tx.committed, o.tx.committed, t) &&
         |Rows(o.tx.committed, t)| == |Rows(g.tx.committed, t)| - 1 &&
         o.tx.log == g.tx.log + [Committed]) &&
      (o.reply == Reply(BAD_REQUEST, ErrorBody(ReferencedEntry)) ==> o.tx == Rollback(g.tx)) &&
      (o.reply.Reply? && o.reply.status == OK && KeysUnique(schema, g.tx.pending) ==>
         KeysUnique(schema, o.tx.committed) &&
         (|schema[t].pks| > 0 ==>
            Rows(o.tx.committed, t) == Rows(g.tx.pending, t)[..j] + Rows(g.tx.pending, t)[j + 1..] &&
            forall x :: x in Rows(o.tx.committed, t) ==> !SameKey(schema[t], x, g.reply.payload.fields)))
  {
    var row := g.reply.payload.fields;
    var rows := Rows(g.tx.pending, t);
    assert FirstMatch(rows, KeyOf(schema[t], row)).Some?;
    if DeleteRow(schema, g.tx.pending, t, row).Ok? && KeysUnique(schema, g.tx.pending) {
      DeleteKeepsKeysUnique(schema, g.tx.pending, t, row);
      if |schema[t].pks| > 0 {
        assert TableKeysUnique(schema[t], rows);
        KeyLocates(schema[t], rows, row, j);
        DeleteRemovesKey(schema, g.tx.pending, t, row);
      }
    }
  }

  /**
    DELETE behind a GET whose NoRead hides a key column: the entry GET
    answers with cannot name its row, so the call raises KeyError and
    deletes and commits nothing.
  */
  lemma DeleteBehindHiddenKey(schema: Schema, t: string, p: string, args: Args, now: int, tx: Tx)
    requires t in schema && p in schema[t].pks && |args.positional| <= |schema[t].pks|
    requires var g := GetCore(schema, t, args, tx); g.reply.Reply? && g.reply.status == OK && g.reply.payload.Record?
    ensures var o := Core(Delete, [Modifier(NoRead, p)], schema, t, args, now, tx);
      o.reply == Raised(KeyError) && o.tx == Rollback(Rollback(tx)) && o.tx.committed == tx.committed
  {
    var h := Chain(Get, [Modifier(NoRead, p)], [], schema, t, args, now, tx);
    HiddenKeyReply(schema, t, p, args, now, tx);
    KeylessEntryRaises(schema, t, p, h);
    DeleteCallsGet([Modifier(NoRead, p)], schema, t, args, now, tx);
  }

  /** DeleteBehindHiddenKey's first step: GET behind NoRead answers the row without the key column, after two rollbacks. */
  lemma HiddenKeyReply(schema: Schema, t: string, p: string, args: Args, now: int, tx: Tx)
    requires t in schema
    requires var g := GetCore(schema, t, args, tx); g.reply.Reply? && g.reply.status == OK && g.reply.payload.Record?
    ensures var h := Chain(Get, [Modifier(NoRead, p)], [], schema, t, args, now, tx);
      h.reply == Reply(OK, Record(GetCore(schema, t, args, tx).reply.payload.fields - {p})) &&
      h.tx == Rollback(Rollback(tx))
  {
    var m := Modifier(NoRead, p);
    assert Passed(m, args, now) == args;
    assert Chain(Get, [], [], schema, t, args, now, tx) == GetCore(schema, t, args, tx);
  }

  /** DeleteBehindHiddenKey's last step: an entry lacking a key column raises KeyError and keeps the transaction. */
  lemma KeylessEntryRaises(schema: Schema, t: string, p: string, g: Outcome)
    requires t in schema && p in schema[t].pks
    requires g.reply.Reply? && g.reply.status == OK && g.reply.payload.Record? && p !in g.reply.payload.fields
    ensures DeleteAfter(schema, t, g) == Outcome(Raised(KeyError), g.tx)
  {
    assert !HasKey(schema[t], g.reply.payload.fields);
  }

  /**
    DELETE through the plain GET: a 200 commits the table with exactly one
    row fewer, after GET's rollback; a refusal because of a reference
    changes nothing committed.
  */
  lemma DeleteRemovesOne(schema: Schema, t: string, args: Args, now: int, tx: Tx)
    requires t in schema && Settled(tx)
    ensures var o := Core(Delete, [], schema, t, args, now, tx);
      (o.reply.Reply? && o.reply.status == OK ==>
         OthersKept(tx.committed, o.tx.committed, t) &&
         |Rows(o.tx.committed, t)| == |Rows(tx.committed, t)| - 1 &&
         o.tx.log == tx.log + [RolledBack, Committed]) &&
      (o.reply == Reply(BAD_REQUEST, ErrorBody(ReferencedEntry)) ==> o.tx.committed == tx.committed) &&
      (o.reply.Reply? && o.reply.status == OK && KeysUnique(schema, tx.committed) ==>
         var g := GetCore(schema, t, args, tx);
         KeysUnique(schema, o.tx.committed) && g.reply.Reply? && g.reply.payload.Record? &&
         (|schema[t].pks| > 0 ==> forall x :: x in Rows(o.tx.committed, t) ==> !SameKey(schema[t], x, g.reply.payload.fields)))
  {
    var o := Core(Delete, [], schema, t, args, now, tx);
    if |args.positional| <= |schema[t].pks| {
      var g := GetCore(schema, t, args, tx);
      assert Chain(Get, [], [], schema, t, args, now, tx) == g;
      assert o == DeleteAfter(schema, t, g);
      GetFindsStoredRow(schema, t, args, tx);
      DeleteAfterGet(schema, t, g, tx);
    } else {
      assert o.tx == tx;
    }
  }

  /** DeleteRemovesOne's step from GET's outcome on a settled transaction. */
  lemma DeleteAfterGet(schema: Schema, t: string, g: Outcome, tx: Tx)
    requires t in schema && Settled(tx)
    requires g.tx == if g.reply.Raised? then tx else Rollback(tx)
    requires g.reply.Reply? && g.reply.status == OK ==>
      g.reply.payload.Record? && g.reply.payload.fields in Rows(tx.pending, t)
    ensures var o := DeleteAfter(schema, t, g);
      (o.reply.Reply? && o.reply.status == OK ==>
         OthersKept(tx.committed, o.tx.committed, t) &&
         |Rows(o.tx.committed, t)| == |Rows(tx.committed, t)| - 1 &&
         o.tx.log == tx.log + [RolledBack, Committed]) &&
      (o.reply == Reply(BAD_REQUEST, ErrorBody(ReferencedEntry)) ==> o.tx.committed == tx.committed) &&
      (o.reply.Reply? && o.reply.status == OK && KeysUnique(schema, tx.committed) ==>
         KeysUnique(schema, o.tx.committed) && g.reply.Reply? && g.reply.payload.Record? &&
         (|schema[t].pks| > 0 ==> forall x :: x in Rows(o.tx.committed, t) ==> !SameKey(schema[t], x, g.reply.payload.fields)))
  {
    if g.reply.Reply? && g.reply.status == OK && HasKey(schema[t], g.reply.payload.fields) {
      var rows := Rows(g.tx.pending, t);
      var j :| 0 <= j < |rows| && rows[j] == g.reply.payload.fields;
      DeleteFoundRow(schema, t, g, j);
    }
  }
}
