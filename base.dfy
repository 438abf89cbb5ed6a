/** Shared vocabulary of the adaptation engine: bytes, wire formats, the
    Python-level values that handlers produce and consume, Python classes and
    their method resolution order, and the exceptions the core raises. */
module Base {

  newtype byte = b: int | 0 <= b < 256
  type bytes = seq<byte>

  /** pq.Format: the wire format of a parameter or a result column. */
  datatype Format = Text | Binary

  datatype Option<+T> = None | Some(value: T)

  /** A value, or the Python exception raised instead of returning one. */
  datatype Result<+T> = Success(value: T) | Failure(error: Error)

  /** The outcome of an operation that returns nothing. */
  datatype Outcome = Pass | Fail(error: Error)

  /** The exceptions raised by the core, and a tag for those raised by code
      outside the model (charset codecs, libpq, user handlers). */
  datatype Error =
    | TypeError
    | AttributeError
    | KeyError
    | IndexError
    | StructError                                  // struct.error: buffer too short
    | DataError                                    // NUL in a text parameter
    | ProgrammingError(typeName: string, format: Format)  // "cannot adapt type .. to format .."
    | ForeignError(code: nat)

  /** PostgreSQL type oids the core names (pg_type.oid values). */
  const INVALID_OID: int := 0
  const BYTEA_OID: int := 17
  const NAME_OID: int := 19
  const TEXT_OID: int := 25
  const BPCHAR_OID: int := 1042
  const VARCHAR_OID: int := 1043
  const RECORD_OID: int := 2249

  /** A Python class object: identity, `__module__` (moduleName), `__qualname__`, `__name__`. */
  datatype ClassRef = ClassRef(id: nat, moduleName: string, qualname: string, name: string)

  /** A runtime type with its ancestors, most-derived first (`__mro__` minus the class itself). */
  datatype PyType = PyType(cls: ClassRef, bases: seq<ClassRef>) {
    /** `cls.__mro__`: the class itself, then its ancestors. */
    function Mro(): (mro: seq<ClassRef>)
      ensures |mro| == |bases| + 1 && mro[0] == cls
    {
      [cls] + bases
    }
  }

  const ObjectClass := ClassRef(0, "builtins", "object", "object")
  const StrClass := ClassRef(1, "builtins", "str", "str")
  const BytesClass := ClassRef(2, "builtins", "bytes", "bytes")
  const TupleClass := ClassRef(3, "builtins", "tuple", "tuple")

  /** Python values as far as the core looks into them; `None` is `Option.None`
      wherever a value may be missing. */
  datatype PyObj =
    | PyStr(s: string)
    | PyBytes(b: bytes)
    | PyTuple(items: seq<Option<PyObj>>)
    | PyRecord(typeName: string, fieldNames: seq<string>, values: seq<Option<PyObj>>)  // a namedtuple
    | PyInstance(t: PyType, state: nat)                                              // any other object

  /** `type(obj)`. */
  function TypeOf(obj: PyObj): PyType
  {
    match obj
    case PyStr(_) => PyType(StrClass, [ObjectClass])
    case PyBytes(_) => PyType(BytesClass, [ObjectClass])
    case PyTuple(_) => PyType(TupleClass, [ObjectClass])
    case PyRecord(name, _, _) => PyType(ClassRef(4, "types", name, name), [TupleClass, ObjectClass])
    case PyInstance(t, _) => t
  }
}
