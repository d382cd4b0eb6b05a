/**
  The verbs of a resource table and the modifier chain that wraps them, as
  functions from (arguments, transaction) to (reply, transaction).  These are
  the specifications the handler objects are proved against.
*/
module Verbs {

  import opened Wrappers
  import opened Values
  import opened Ranges
  import opened Store

  datatype Verb = Get | GetRange | Head | Put | Delete

  datatype ModifierKind = NoRead | NoWrite | LastModified

  /** A modifier and the column it was given by modify(modifier, column). */
  datatype Modifier = Modifier(kind: ModifierKind, column: string)

  /** A reply together with the transaction it leaves behind. */
  datatype Outcome = Outcome(reply: Reply, tx: Tx)

  /** HEAD, PUT and DELETE call the table's GET; GET and GET_RANGE call no verb. */
  function Rank(v: Verb): nat
  {
    if v == Head || v == Put || v == Delete then 1 else 0
  }

  /** dict(zip(keys, vals)): a later key wins over an earlier equal one. */
  function Zip(keys: seq<string>, vals: seq<Value>): (kw: map<string, Value>)
    requires |keys| == |vals|
    ensures kw.Keys == set k | k in keys
    ensures Distinct(keys) ==> forall i :: 0 <= i < |keys| ==> kw[keys[i]] == vals[i]
  {
    if keys == [] then map[]
    else
      var n := |keys| - 1;
      var front := Zip(keys[..n], vals[..n]);
      assert keys == keys[..n] + [keys[n]];
      assert Distinct(keys) ==> Distinct(keys[..n]) && forall i :: 0 <= i < n ==> keys[..n][i] != keys[n];
      front[keys[n] := vals[n]]
  }

  predicate Distinct(keys: seq<string>)
  {
    forall i, j :: 0 <= i < j < |keys| ==> keys[i] != keys[j]
  }

  /** The reference path from a cursor: every segment followed left to right. */
  function Walk(schema: Schema, db: Db, c: Cursor, path: seq<Value>): (r: Step)
    ensures path == [] ==> r == Moved(c)
    decreases |path|
  {
    if path == [] then Moved(c)
    else
      var s := Follow(schema, db, c, path[0]);
      if s.Moved? then Walk(schema, db, s.to, path[1..]) else s
  }

  /**
    GET with more positional arguments than primary keys (dictapi.py lines
    88-107): the first arguments locate a row, the rest are a reference path.
    A store error while locating the row escapes.
  */
  function GetByPath(schema: Schema, t: string, a: seq<Value>, tx: Tx): (o: Outcome)
    requires t in schema && |a| > |schema[t].pks|
    ensures o.reply.Raised? ==> o.tx == tx
    ensures !o.reply.Raised? ==> o.tx == Rollback(tx)
  {
    var n := |schema[t].pks|;
    var wheres := Zip(schema[t].pks, a[..n]);
    match GetOne(schema, tx.pending, t, wheres)
    case Err(e) => Outcome(Raised(e), tx)
    case Ok(found) =>
      if found.None? || !Truthy(Record(found.value)) then
        Outcome(Reply(NOT_FOUND, ErrorBody(NoEntryMatching(wheres))), Rollback(tx))
      else
        FollowPath(schema, AtRow(t, found.value), a[n..], tx)
  }

  /**
    The answer once the row is found (dictapi.py lines 98-107): the value the
    path reaches, a 400 when a segment is missing, or the exception indexing
    raised.
  */
  function FollowPath(schema: Schema, start: Cursor, path: seq<Value>, tx: Tx): (o: Outcome)
    ensures o.reply.Raised? <==> Walk(schema, tx.pending, start, path).Broken?
    ensures o.reply.Raised? ==> o == Outcome(Raised(Walk(schema, tx.pending, start, path).error), tx)
    ensures Walk(schema, tx.pending, start, path).Moved? ==>
      o == Outcome(Reply(OK, Show(Walk(schema, tx.pending, start, path).to)), Rollback(tx))
    ensures Walk(schema, tx.pending, start, path).Missing? ==>
      o == Outcome(Reply(BAD_REQUEST, ErrorBody(NoReference)), Rollback(tx))
  {
    var w := Walk(schema, tx.pending, start, path);
    if w.Moved? then Outcome(Reply(OK, Show(w.to)), Rollback(tx))
    else if w.Missing? then Outcome(Reply(BAD_REQUEST, ErrorBody(NoReference)), Rollback(tx))
    else Outcome(Raised(w.error), tx)
  }

  /**
    GET by a keyword filter (dictapi.py lines 108-121): a store error for a
    bad value or an unknown column becomes a 400, no matching row a 404.
  */
  function GetByFilter(schema: Schema, t: string, filter: map<string, Value>, tx: Tx): (o: Outcome)
    requires t in schema
    ensures !o.reply.Raised? && o.tx == Rollback(tx)
    ensures o.reply.status == OK <==>
      filter != map[] && GetOne(schema, tx.pending, t, filter).Ok? &&
      GetOne(schema, tx.pending, t, filter).value.Some? &&
      GetOne(schema, tx.pending, t, filter).value.value != map[]
    ensures o.reply.status == OK ==>
      o.reply.payload == Record(GetOne(schema, tx.pending, t, filter).value.value)
    ensures filter != map[] && GetOne(schema, tx.pending, t, filter) == Err(DataError) ==>
      o.reply == Reply(BAD_REQUEST, ErrorBody(InvalidPrimaryKey))
    ensures filter != map[] && GetOne(schema, tx.pending, t, filter) == Err(ProgrammingError) ==>
      o.reply == Reply(BAD_REQUEST, ErrorBody(InvalidName))
    ensures o.reply.status == NOT_FOUND ==> o.reply.payload == ErrorBody(NoEntryMatching(filter))
  {
    if filter == map[] then
      Outcome(Reply(NOT_FOUND, ErrorBody(NoEntryMatching(filter))), Rollback(tx))
    else
      match GetOne(schema, tx.pending, t, filter)
      case Err(e) =>
        if e == DataError then Outcome(Reply(BAD_REQUEST, ErrorBody(InvalidPrimaryKey)), Rollback(tx))
        else Outcome(Reply(BAD_REQUEST, ErrorBody(InvalidName)), Rollback(tx))
      case Ok(found) =>
        if found.None? || !Truthy(Record(found.value)) then
          Outcome(Reply(NOT_FOUND, ErrorBody(NoEntryMatching(filter))), Rollback(tx))
        else Outcome(Reply(OK, Record(found.value)), Rollback(tx))
  }

  /**
    GET.call (dictapi.py lines 81-121): as many positional arguments as
    primary keys are the key itself; more are a key and a reference path;
    otherwise the keyword arguments are the filter.
  */
  function GetCore(schema: Schema, t: string, args: Args, tx: Tx): (o: Outcome)
    requires t in schema
    ensures o.tx == if o.reply.Raised? then tx else Rollback(tx)
  {
    var a := args.positional;
    var pks := schema[t].pks;
    if args.keywords == map[] && |a| > |pks| then GetByPath(schema, t, a, tx)
    else if args.keywords == map[] && |a| == |pks| then GetByFilter(schema, t, Zip(pks, a), tx)
    else GetByFilter(schema, t, args.keywords, tx)
  }

  /**
    The meaning of GET_RANGE's argument (dictapi.py lines 133-145): a false
    value asks for the default window, a string is parsed; a list or a dict
    answers the '-' membership test and then lacks the string methods; other
    values do not support `in`.
  */
  function RangeOf(v: Value): (r: Result<RangeParse, Exception>)
    ensures r.Ok? && r.value.Window? ==> r.value.limit >= 1
  {
    if !Truthy(v) then Ok(ParseRange(""))
    else
      match v
      case Text(s) => Ok(ParseRange(s))
      case List(items) => if multiset(items)[Text("-")] != 1 then Ok(Malformed) else Err(AttributeError)
      case Record(fields) => if "-" !in fields then Ok(Malformed) else Err(AttributeError)
      case _ => Err(TypeError)
  }

  function Min(x: int, y: int): int
  {
    if x <= y then x else y
  }

  /** query.offset(offset).limit(limit) over the rows in the store's order. */
  function Page(rows: seq<Row>, offset: nat, limit: nat): (r: seq<Row>)
    ensures |r| == if offset >= |rows| then 0 else Min(limit, |rows| - offset)
    ensures forall i :: 0 <= i < |r| ==> r[i] == rows[offset + i]
  {
    rows[Min(offset, |rows|)..Min(offset + limit, |rows|)]
  }

  /**
    How Python binds the parameter `ranges` of call(self, ranges, *a, **kw):
    from the first positional argument or from the keyword, and a TypeError
    when both or neither supply it.  Further arguments are ignored.
  */
  function RangesArgument(args: Args): (r: Result<Value, Exception>)
    ensures r.Ok? <==> (args.positional != [] <==> "ranges" !in args.keywords)
    ensures r.Ok? && args.positional != [] ==> r.value == args.positional[0]
    ensures r.Ok? && args.positional == [] ==> r.value == args.keywords["ranges"]
    ensures r.Err? ==> r.error == TypeError
  {
    if args.positional != [] && "ranges" !in args.keywords then Ok(args.positional[0])
    else if args.positional == [] && "ranges" in args.keywords then Ok(args.keywords["ranges"])
    else Err(TypeError)
  }

  /**
    GET_RANGE.call (dictapi.py lines 132-158).  A range the parser rejects
    returns before the query and without a rollback.
  */
  function RangeCore(schema: Schema, t: string, args: Args, tx: Tx): (o: Outcome)
    requires t in schema
    ensures o.tx == tx || o.tx == Rollback(tx)
  {
    match RangesArgument(args)
    case Err(e) => Outcome(Raised(e), tx)
    case Ok(ranges) =>
      match RangeOf(ranges)
      case Err(e) => Outcome(Raised(e), tx)
      case Ok(Unparsable) => Outcome(Raised(ValueError), tx)
      case Ok(Malformed) => Outcome(Reply(BAD_REQUEST, ErrorBody(InvalidRange)), tx)
      case Ok(Window(offset, limit)) =>
        var entries := Page(Rows(tx.pending, t), offset, limit);
        if entries == [] then Outcome(Reply(NOT_FOUND, ErrorBody(NoEntriesInRange)), Rollback(tx))
        else Outcome(Reply(OK, List(Records(entries))), Rollback(tx))
  }

  /** HEAD.call (dictapi.py lines 164-165): GET's status with no payload. */
  function HeadOf(g: Outcome): (o: Outcome)
    ensures o.tx == g.tx
    ensures g.reply.Raised? ==> o.reply == g.reply
    ensures !g.reply.Raised? ==> o.reply == Reply(g.reply.status, Null)
  {
    if g.reply.Raised? then g else Outcome(Reply(g.reply.status, Null), g.tx)
  }

  /** The primary-key columns among PUT's keyword arguments. */
  function KeyArguments(pks: seq<string>, kw: map<string, Value>): (wheres: map<string, Value>)
    ensures wheres.Keys == (set p | p in pks) * kw.Keys
    ensures forall p :: p in wheres ==> wheres[p] == kw[p]
  {
    map p | p in pks && p in kw :: kw[p]
  }

  /**
    What PUT does with GET's outcome g (dictapi.py lines 181-195): a 200 on
    something other than a list updates that entry and commits; a 404
    inserts a row from the arguments and commits; any other reply is
    returned as it is.
  */
  function PutAfter(schema: Schema, t: string, kw: map<string, Value>, g: Outcome): (o: Outcome)
    requires t in schema
    ensures g.reply.Raised? ==> o == g
    ensures o.tx == g.tx || (o.tx.log == g.tx.log + [Committed] && Settled(o.tx))
    ensures o.reply.Reply? && o.reply.status == CREATED ==>
      (g.reply.Reply? && g.reply.status == CREATED && o == g) ||
      (g.reply.Reply? && g.reply.status == NOT_FOUND && InsertRow(schema, g.tx.pending, t, kw).Ok? &&
       o.tx.committed == InsertRow(schema, g.tx.pending, t, kw).value.1)
  {
    match g.reply
    case Raised(_) => g
    case Reply(code, entry) =>
      if code == OK && !entry.List? then
        if !entry.Record? then Outcome(Raised(AttributeError), g.tx)
        else
          match UpdateRow(schema, g.tx.pending, t, entry.fields, kw)
          case Err(e) => Outcome(Raised(e), g.tx)
          case Ok((row, db)) => Outcome(Reply(OK, Record(row)), Commit(Write(g.tx, db)))
      else if code == NOT_FOUND then
        match InsertRow(schema, g.tx.pending, t, kw)
        case Err(e) => Outcome(Raised(e), g.tx)
        case Ok((row, db)) => Outcome(Reply(CREATED, Record(row)), Commit(Write(g.tx, db)))
      else g
  }

  /**
    What DELETE does with GET's outcome g (dictapi.py lines 205-218): a 200
    deletes the entry and commits, or answers 400 and rolls back when a
    foreign key still references it (the one exception the handler
    catches); any other reply is returned as it is.
  */
  function DeleteAfter(schema: Schema, t: string, g: Outcome): (o: Outcome)
    requires t in schema
    ensures g.reply.Raised? ==> o == g
    ensures o.tx == g.tx || o.tx == Rollback(g.tx) || (o.tx.log == g.tx.log + [Committed] && Settled(o.tx))
    ensures g.reply.Reply? && g.reply.status == OK && g.reply.payload.Record? ==>
      match DeleteRow(schema, g.tx.pending, t, g.reply.payload.fields)
      case Ok(db) => o.reply == Reply(OK, Null) && o.tx == Commit(Write(g.tx, db))
      case Err(e) =>
        (e == IntegrityError ==> o == Outcome(Reply(BAD_REQUEST, ErrorBody(ReferencedEntry)), Rollback(g.tx))) &&
        (e != IntegrityError ==> o == Outcome(Raised(e), g.tx))
  {
    match g.reply
    case Raised(_) => g
    case Reply(code, entry) =>
      if code != OK then g
      else if !entry.Record? then Outcome(Raised(AttributeError), g.tx)
      else
        match DeleteRow(schema, g.tx.pending, t, entry.fields)
        case Err(e) =>
          if e == IntegrityError then Outcome(Reply(BAD_REQUEST, ErrorBody(ReferencedEntry)), Rollback(g.tx))
          else Outcome(Raised(e), g.tx)
        case Ok(db) => Outcome(Reply(OK, Null), Commit(Write(g.tx, db)))
  }

  /**
    NoRead's effect on a reply (dictapi.py lines 36-40): result.pop(column,
    None) removes the column from a dict; a list's pop takes no default
    (TypeError); other values have no pop (AttributeError).
  */
  function Hide(r: Reply, column: string): (h: Reply)
    ensures r.Raised? ==> h == r
    ensures r.Reply? && r.payload.Record? ==>
      h.Reply? && h.status == r.status && h.payload.Record? &&
      column !in h.payload.fields && h.payload.fields.Keys <= r.payload.fields.Keys &&
      forall k :: k in r.payload.fields && k != column ==> k in h.payload.fields && h.payload.fields[k] == r.payload.fields[k]
    ensures r.Reply? && r.payload.List? ==> h == Raised(TypeError)
    ensures r.Reply? && !r.payload.Record? && !r.payload.List? ==> h == Raised(AttributeError)
  {
    match r
    case Raised(_) => r
    case Reply(code, payload) =>
      match payload
      case Record(fields) => Reply(code, Record(fields - {column}))
      case List(_) => Raised(TypeError)
      case _ => Raised(AttributeError)
  }

  /**
    The body a verb runs once its modifiers have run: getMods are the
    modifiers of the table's GET, which HEAD, PUT and DELETE call.
  */
  function Core(v: Verb, getMods: seq<Modifier>, schema: Schema, t: string, args: Args, now: int, tx: Tx): (o: Outcome)
    requires t in schema
    ensures tx.log <= o.tx.log
    decreases Rank(v), 0, 0
  {
    match v
    case Get => GetCore(schema, t, args, tx)
    case GetRange => RangeCore(schema, t, args, tx)
    case Head => HeadOf(Chain(Get, getMods, [], schema, t, args, now, tx))
    case Put =>
      var wheres := KeyArguments(schema[t].pks, args.keywords);
      var g :=
        if wheres == map[] then Outcome(Reply(NOT_FOUND, Null), tx)
        else Chain(Get, getMods, [], schema, t, Args([], wheres), now, tx);
      PutAfter(schema, t, args.keywords, g)
    case Delete =>
      if |args.positional| > |schema[t].pks| then Outcome(Reply(BAD_REQUEST, ErrorBody(TooManyKeys)), tx)
      else DeleteAfter(schema, t, Chain(Get, getMods, [], schema, t, args, now, tx))
  }

  /** NoWrite refuses a call that names its column (dictapi.py lines 43-46). */
  predicate Refuses(m: Modifier, args: Args)
  {
    m.kind == NoWrite && m.column in args.keywords
  }

  /** The arguments a modifier hands inward: LastModified sets its column to now (lines 51-53). */
  function Passed(m: Modifier, args: Args, now: int): (p: Args)
    ensures p.positional == args.positional
    ensures m.kind == LastModified ==> p.keywords == args.keywords[m.column := Stamp(now)]
    ensures m.kind != LastModified ==> p == args
  {
    if m.kind == LastModified then args.(keywords := args.keywords[m.column := Stamp(now)]) else args
  }

  /**
    One layer of modify (dictapi.py lines 64-71) around the outcome o of the
    layers inside it: the modifier's answer, then a rollback, which an
    escaping exception skips.  A refusing NoWrite never calls inward, so o
    plays no part in its answer.
  */
  function Wrap(m: Modifier, args: Args, tx: Tx, o: Outcome): (w: Outcome)
    ensures Refuses(m, args) ==> w == Outcome(Reply(BAD_REQUEST, ErrorBody(CannotWrite(m.column))), Rollback(tx))
    ensures !Refuses(m, args) && w.reply.Raised? ==> w.tx == o.tx
    ensures !Refuses(m, args) && w.reply.Reply? ==> w.tx == Rollback(o.tx) && o.reply.Reply?
    ensures !Refuses(m, args) && m.kind != NoRead ==> w.reply == o.reply
    ensures !Refuses(m, args) && m.kind == NoRead ==> w.reply == Hide(o.reply, m.column)
  {
    if Refuses(m, args) then
      Outcome(Reply(BAD_REQUEST, ErrorBody(CannotWrite(m.column))), Rollback(tx))
    else
      var r := if m.kind == NoRead then Hide(o.reply, m.column) else o.reply;
      if r.Raised? then Outcome(r, o.tx) else Outcome(r, Rollback(o.tx))
  }

  /**
    The number of modify layers a call passes through: every layer down to
    and including the first NoWrite that refuses it.
  */
  function Layers(mods: seq<Modifier>, args: Args, now: int): nat
  {
    if mods == [] then 0
    else
      var m := mods[|mods| - 1];
      if Refuses(m, args) then 1
      else 1 + Layers(mods[..|mods| - 1], Passed(m, args, now), now)
  }

  /** The last k events are rollbacks. */
  predicate EndsInRollbacks(events: seq<TxEvent>, k: nat)
  {
    |events| >= k && forall i :: |events| - k <= i < |events| ==> events[i] == RolledBack
  }

  /**
    The verb behind its modifiers (dictapi.py lines 64-75): the last
    modifier added is the outermost layer.  The connection's log only
    grows, and a call that returns (rather than raising) ends with one
    rollback for each layer it passed through.
  */
  function Chain(v: Verb, mods: seq<Modifier>, getMods: seq<Modifier>, schema: Schema, t: string, args: Args, now: int, tx: Tx): (o: Outcome)
    requires t in schema
    ensures tx.log <= o.tx.log
    ensures o.reply.Reply? ==> EndsInRollbacks(o.tx.log[|tx.log|..], Layers(mods, args, now))
    decreases Rank(v), |mods|, 1
  {
    if mods == [] then Core(v, getMods, schema, t, args, now, tx)
    else
      var m := mods[|mods| - 1];
      Wrap(m, args, tx, Chain(v, mods[..|mods| - 1], getMods, schema, t, Passed(m, args, now), now, tx))
  }
}
