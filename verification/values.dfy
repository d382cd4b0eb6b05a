/** Option and Result, for lookups that may find nothing and calls that may fail. */
module Wrappers {

  datatype Option<T> = None | Some(value: T)

  datatype Result<T, E> = Ok(value: T) | Err(error: E)
}

/**
  The values the dispatch engine passes around: column values and payloads,
  the (status, payload) envelope every verb returns, and the arguments a verb
  is called with.
*/
module Values {

  import opened Wrappers

  /** HTTP statuses returned to clients (dictapi.py lines 19-22). */
  const OK := 200
  const CREATED := 201
  const BAD_REQUEST := 400
  const NOT_FOUND := 404

  /** Default end of a range and size of a collection (dictapi.py line 12). */
  const COLLECTION_SIZE := 20

  /**
    A Python value as it crosses the engine: a column value, a row (Record),
    a list of rows, or the message of an error body (Note).  Stamp is a
    datetime, kept as a point on an integer clock.
  */
  datatype Value =
    | Null
    | Bool(b: bool)
    | Int(i: int)
    | Text(s: string)
    | Stamp(t: int)
    | Record(fields: map<string, Value>)
    | List(items: seq<Value>)
    | Note(message: Message)

  /** The messages of the engine's error bodies. */
  datatype Message =
    | InvalidPrimaryKey                           // 'Invalid primary key(s)'
    | InvalidName                                 // 'Invalid name(s)'
    | NoEntryMatching(filter: map<string, Value>) // 'No entry matching: ' + the filter
    | NoReference                                 // 'No reference exists'
    | InvalidRange                                // 'Invalid range value'
    | NoEntriesInRange                            // 'No entries found in range'
    | TooManyKeys                                 // 'Invalid primary keys'
    | ReferencedEntry                             // 'Cannot delete referenced entry'
    | CannotWrite(column: string)                 // 'Cannot write to ' + the column

  /** The text of a message; for NoEntryMatching the Python repr of the filter follows. */
  function Wording(m: Message): string
  {
    match m
    case InvalidPrimaryKey => "Invalid primary key(s)"
    case InvalidName => "Invalid name(s)"
    case NoEntryMatching(_) => "No entry matching: "
    case NoReference => "No reference exists"
    case InvalidRange => "Invalid range value"
    case NoEntriesInRange => "No entries found in range"
    case TooManyKeys => "Invalid primary keys"
    case ReferencedEntry => "Cannot delete referenced entry"
    case CannotWrite(column) => "Cannot write to " + column
  }

  /** error(msg): the body {'error': True, 'message': msg} (dictapi.py lines 16-17). */
  function ErrorBody(m: Message): (v: Value)
    ensures v.Record? && v.fields.Keys == {"error", "message"}
    ensures v.fields["error"] == Bool(true) && v.fields["message"] == Note(m)
  {
    Record(map["error" := Bool(true), "message" := Note(m)])
  }

  /** Python truthiness: None, False, 0, "" and empty containers are false. */
  predicate Truthy(v: Value)
  {
    match v
    case Null => false
    case Bool(b) => b
    case Int(i) => i != 0
    case Text(s) => s != ""
    case Stamp(_) => true
    case Record(fields) => fields != map[]
    case List(items) => items != []
    case Note(_) => true
  }

  /** Exceptions the engine lets escape to its caller. */
  datatype Exception =
    | ValueError        // int() of a malformed range side
    | TypeError         // an operation applied to a value of the wrong kind
    | IndexError        // a list indexed past its end
    | AttributeError    // a method missing on the value (None.update, list.pop)
    | DataError         // the store rejected a value for a column's type
    | ProgrammingError  // the store was given an unknown column
    | IntegrityError    // the store refused a key or foreign-key violation
    | KeyError          // a dict subscripted by a key it lacks

  /** What a call returns: the (status, payload) envelope, or an escaping exception. */
  datatype Reply = Reply(status: int, payload: Value) | Raised(error: Exception)

  /** The positional and keyword arguments of a call. */
  datatype Args = Args(positional: seq<Value>, keywords: map<string, Value>)
}
