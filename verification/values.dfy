/** The Python values that flow through the metadata pipeline: what the
    extractors put into their result dicts, and what the cache stores. */
module Values {
  import opened PyText

  /** A Python value as it appears in a metadata dict.
      - `VComputed` is a `str` rendered from floating-point arithmetic
        (a `.2f` size, a frame rate, a GPS degree-minute text): it keeps the
        textual operands it was computed from and the text that follows the
        number, but not its digits, which this model does not compute.
      - `VObject` is any other object (a `datetime`, an EXIF tag, a PDF
        string object): not a `str`, not a container, always truthy, and
        `text` is what `str()` gives for it. */
  datatype Value =
    | VNone
    | VStr(s: string)
    | VInt(i: int)
    | VComputed(operands: seq<string>, shape: string)
    | VObject(cls: string, text: string)
    | VList(items: seq<Value>)
    | VDict(entries: map<string, Value>)

  /** A flat metadata dict, field name to value. */
  type Metadata = map<string, Value>

  /** Python truthiness: `None`, `""`, `0`, `[]` and `{}` are false. */
  predicate Truthy(v: Value) {
    match v
    case VNone => false
    case VStr(s) => s != ""
    case VInt(i) => i != 0
    case VComputed(_, _) => true
    case VObject(_, _) => true
    case VList(items) => items != []
    case VDict(entries) => entries != map[]
  }

  /** `type(v).__name__`. */
  function TypeName(v: Value): string {
    match v
    case VNone => "NoneType"
    case VStr(_) => "str"
    case VInt(_) => "int"
    case VComputed(_, _) => "str"
    case VObject(cls, _) => cls
    case VList(_) => "list"
    case VDict(_) => "dict"
  }

  /** Whether `isinstance(v, str)` holds. */
  predicate IsStr(v: Value) {
    v.VStr? || v.VComputed?
  }

  /** The dict `{'error': msg}` the coordinator reports for a failed file. */
  function ErrorDict(msg: string): (d: Metadata)
    ensures d.Keys == {"error"} && d["error"] == VStr(msg)
  {
    map["error" := VStr(msg)]
  }

  /** Message of the `AttributeError` raised by `x.name` when `x` has no
      such attribute. */
  function NoAttribute(v: Value, name: string): string {
    "'" + TypeName(v) + "' object has no attribute '" + name + "'"
  }
}
