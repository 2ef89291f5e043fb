/**
 * Documents of the event model and the values found inside their bodies.
 *
 * A document is a `(name, doc)` pair: `name` is one of the four document
 * types and `doc` is a mapping from field names to values. Values are the
 * small fragment of Python data the translation nodes look at: `None`,
 * integers, strings, tuples and string-keyed mappings.
 */
module Documents {

  /** A value stored in a document body; `VNone` is Python's `None`. */
  datatype Value =
    | VNone
    | VInt(i: int)
    | VStr(s: string)
    | VTuple(items: seq<Value>)
    | VMap(fields: map<string, Value>)

  /** A document body: field name to value. */
  type Body = map<string, Value>

  /** The closed set of document types. */
  datatype DocKind = Start | Descriptor | Event | Stop

  /** The `(name, doc)` pair travelling through a document stream. */
  datatype Doc = Doc(kind: DocKind, body: Body)

  /** The wildcard stream name: "accept descriptors of every name". */
  const ALL: string := "--ALL THE DOCS--"

  /** The value of a body field, or the default when the field is absent. */
  function GetOr(b: Body, key: string, default: Value): Value
  {
    if key in b then b[key] else default
  }

  datatype Option<+T> = None | Some(value: T)

  datatype Result<+T, +E> = Ok(value: T) | Err(error: E)
}
