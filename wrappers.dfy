/** Failure-carrying result types used throughout the model. */
module Wrappers {

  datatype Option<+T> = None | Some(value: T)

  datatype Result<+R, +E> = Success(value: R) | Failure(error: E)

  /** An operation that returns nothing on success (a Python `-> None` call that may raise). */
  datatype Outcome<+E> = Pass | Fail(error: E)
}

/**
 * The exceptions (and `sys.exit` paths) of the statistics ledger, one constructor
 * per way an operation can fail.
 */
module Errors {

  datatype Error =
    | UnsupportedType(typeName: string)   // ValueError: val_type not "int" or "float"
    | MathDomain                          // ValueError from sqrt of a negative count
    | ReservedKey(key: string)            // KeyError: stat name starts with "_"
    | BadArgument(name: string)           // TypeError/KeyError: a saved entry that does not fit the constructor
    | BadMetadata(key: string)            // a metadata key whose saved value has the wrong shape
    | BlankUnitDefinition(definition: string)  // IndexError: definition.split()[0] of a blank string
    | StateFileNotFound                   // FileNotFoundError raised by load()
    | MalformedState                      // malformed JSON: logged, then sys.exit(1)
    | UnknownTableFormat(format: string)  // unknown table format: logged, then sys.exit(1)
    | Raised(message: string)             // a fault raised by wrapped business logic
}

/** The values a JSON document decodes to, as Python's `json` module produces them. */
module Json {

  datatype Json =
    | JNull
    | JBool(b: bool)
    | JInt(i: int)          // a JSON number without fraction or exponent: a Python int
    | JFloat(r: real)       // any other JSON number: a Python float
    | JStr(s: string)
    | JArr(items: seq<Json>)
    | JObj(fields: map<string, Json>)

  /** A decoded top-level JSON object, its members in file order. */
  type Entries = seq<(string, Json)>

  function Strings(ss: seq<string>): (r: seq<Json>)
    ensures |r| == |ss|
    ensures forall i :: 0 <= i < |ss| ==> r[i] == JStr(ss[i])
  {
    if ss == [] then [] else Strings(ss[..|ss| - 1]) + [JStr(ss[|ss| - 1])]
  }
}
