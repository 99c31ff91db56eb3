/** Value-level vocabulary shared by the handler and the log masker: Go's byte
    strings, its 64-bit signed integers, and the dynamically typed values that
    populate a `map[string]interface{}`. */
module Values {

  /** One byte of a Go string. */
  newtype byte = x: int | 0 <= x < 0x100

  /** Go's `int64`: result counts, totals, page numbers and limits. */
  newtype int64 = x: int | -0x8000_0000_0000_0000 <= x < 0x8000_0000_0000_0000

  /** A Go `string` is a sequence of bytes; `len` counts bytes, not characters. */
  type GoString = seq<byte>

  /** A dynamically typed value as found in a `map[string]interface{}` built
      from a JSON body or from a struct. Numbers keep their textual form: no
      arithmetic is done on them anywhere in this model. */
  datatype Value =
    | Null
    | Bool(b: bool)
    | Number(text: GoString)
    | Str(s: GoString)
    | List(items: seq<Value>)
    | Object(fields: map<GoString, Value>)

  /** A generic field map, the Go `map[string]interface{}`. */
  type FieldMap = map<GoString, Value>
}
