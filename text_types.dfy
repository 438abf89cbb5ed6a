/** The text and bytea handlers of types/text.py: how each chooses its
    encoding from the connection, and what its `dump` or `load` returns. */
module TextTypes {
  import opened Base
  import opened Registry

  /** Code the core calls but does not contain, passed in as total functions:
      Python's charset codecs, libpq's bytea escaping, the `dump`/`load` of
      handler classes outside types/text.py, and custom composite factories. */
  datatype Foreign = Foreign(
    encode: (string, string) -> Result<bytes>,                   // str.encode(encoding)
    decode: (string, bytes) -> Result<string>,                   // bytes.decode(encoding)
    escapeBytea: (Option<Connection>, bytes) -> Result<bytes>,   // Escaping.escape_bytea
    escapeLiteral: (Connection, bytes) -> Result<bytes>,         // Escaping.escape_literal
    escapeString: bytes -> Result<bytes>,                        // Escaping.escape_string
    unescapeBytea: bytes -> Result<bytes>,                       // Escaping.unescape_bytea
    dumpOther: (Dumper, PyObj) -> Result<bytes>,
    loadOther: (Loader, bytes) -> Result<PyObj>,
    construct: (nat, seq<Option<PyObj>>) -> Result<PyObj>)

  const SQL_ASCII: string := "SQL_ASCII"
  const UTF8: string := "utf-8"
  const NUL: char := 0 as char

  /** `_StringDumper.encoding`: the connection's codec unless there is no
      connection or the connection is SQL_ASCII. */
  function StringDumperEncoding(conn: Option<Connection>): string
  {
    if conn.Some? && conn.value.clientEncoding != SQL_ASCII then conn.value.pyenc else UTF8
  }

  /** `TextLoader.encoding`: "" (meaning: do not decode) on an SQL_ASCII connection. */
  function TextLoaderEncoding(conn: Option<Connection>): string
  {
    if conn.None? then UTF8
    else if conn.value.clientEncoding != SQL_ASCII then conn.value.pyenc
    else ""
  }

  /** `UnknownLoader.encoding`: the connection's codec, whatever the server encoding. */
  function UnknownLoaderEncoding(conn: Option<Connection>): string
  {
    if conn.Some? then conn.value.pyenc else UTF8
  }

  /** `Dumper.oid`: 0 in the base class, bytea for the bytes dumpers. */
  function DumperOid(cls: DumperClass): int
  {
    match cls
    case BytesDumper => BYTEA_OID
    case BytesBinaryDumper => BYTEA_OID
    case OtherDumper(_, oid) => oid
    case _ => 0
  }

  function EncodeStr(f: Foreign, encoding: string, s: string): Result<bytes>
  {
    f.encode(encoding, s)
  }

  function DecodeStr(f: Foreign, encoding: string, data: bytes): Result<PyObj>
  {
    match f.decode(encoding, data)
    case Success(s) => Success(PyStr(s))
    case Failure(e) => Failure(e)
  }

  /** `dumper.dump(obj)` for the dumpers of types/text.py; any other dumper,
      or an object of a type the dumper does not expect, is handed to `dumpOther`. */
  function Dump(d: Dumper, obj: PyObj, f: Foreign): Result<bytes>
  {
    match (d.cls, obj)
    case (StringDumper, PyStr(s)) =>
      if NUL in s then Failure(DataError) else EncodeStr(f, StringDumperEncoding(d.connection), s)
    case (StringBinaryDumper, PyStr(s)) => EncodeStr(f, StringDumperEncoding(d.connection), s)
    case (BytesDumper, PyBytes(b)) => f.escapeBytea(d.connection, b)
    case (BytesBinaryDumper, PyBytes(b)) => Success(b)
    case _ => f.dumpOther(d, obj)
  }

  /** `loader.load(data)` for the loaders of types/text.py; any other loader
      is handed to `loadOther`. */
  function Load(l: Loader, data: bytes, f: Foreign): Result<PyObj>
  {
    match l.cls
    case TextLoader =>
      var encoding := TextLoaderEncoding(l.connection);
      if encoding != "" then DecodeStr(f, encoding, data) else Success(PyBytes(data))
    case UnknownLoader => DecodeStr(f, UnknownLoaderEncoding(l.connection), data)
    case ByteaLoader =>
      (match f.unescapeBytea(data)
       case Success(b) => Success(PyBytes(b))
       case Failure(e) => Failure(e))
    case ByteaBinaryLoader => Success(PyBytes(data))
    case _ => f.loadOther(l, data)
  }

  /** The codec for `encoding` decodes what it encodes. */
  ghost predicate CodecRoundTrips(f: Foreign, encoding: string, s: string)
  {
    f.encode(encoding, s).Success? ==> f.decode(encoding, f.encode(encoding, s).value) == Success(s)
  }

  /** The string dumpers and the text loaders of one connection agree on the
      encoding, except that TextLoader does not decode on SQL_ASCII. */
  lemma EncodingChoice(conn: Option<Connection>)
    ensures conn.None? ==> StringDumperEncoding(conn) == UTF8 && TextLoaderEncoding(conn) == UTF8
                           && UnknownLoaderEncoding(conn) == UTF8
    ensures conn.Some? && conn.value.clientEncoding == SQL_ASCII ==>
              StringDumperEncoding(conn) == UTF8 && TextLoaderEncoding(conn) == ""
              && UnknownLoaderEncoding(conn) == conn.value.pyenc
    ensures conn.Some? && conn.value.clientEncoding != SQL_ASCII ==>
              StringDumperEncoding(conn) == conn.value.pyenc && TextLoaderEncoding(conn) == conn.value.pyenc
              && UnknownLoaderEncoding(conn) == conn.value.pyenc
  {
  }

  /** StringDumper refuses exactly the strings holding NUL; StringBinaryDumper
      encodes every string. */
  lemma StringDumpNul(conn: Option<Connection>, src: ClassRef, s: string, f: Foreign)
    ensures var r := Dump(Dumper(StringDumper, src, conn), PyStr(s), f);
            (NUL in s ==> r == Failure(DataError))
            && (NUL !in s ==> r == f.encode(StringDumperEncoding(conn), s))
    ensures Dump(Dumper(StringBinaryDumper, src, conn), PyStr(s), f) == f.encode(StringDumperEncoding(conn), s)
  {
  }

  /** What TextLoader returns for each kind of connection. */
  lemma TextLoaderResult(oid: int, fmod: int, conn: Option<Connection>, data: bytes, f: Foreign)
    ensures var r := Load(Loader(TextLoader, oid, fmod, conn), data, f);
            (conn.Some? && conn.value.clientEncoding == SQL_ASCII ==> r == Success(PyBytes(data)))
            && (conn.None? ==> r == DecodeStr(f, UTF8, data))
            && (conn.Some? && conn.value.clientEncoding != SQL_ASCII && conn.value.pyenc != "" ==>
                  r == DecodeStr(f, conn.value.pyenc, data))
  {
  }

  /** UnknownLoader always decodes, even on SQL_ASCII. */
  lemma UnknownLoaderDecodes(oid: int, fmod: int, conn: Option<Connection>, data: bytes, f: Foreign)
    ensures Load(Loader(UnknownLoader, oid, fmod, conn), data, f)
            == DecodeStr(f, if conn.Some? then conn.value.pyenc else UTF8, data)
  {
  }

  /** A string without NUL dumped by StringDumper and loaded by TextLoader
      through the same connection comes back unchanged when the codec round
      trips, or as the encoded bytes on an SQL_ASCII connection. */
  lemma TextRoundTrip(conn: Option<Connection>, s: string, f: Foreign)
    requires NUL !in s
    requires CodecRoundTrips(f, StringDumperEncoding(conn), s)
    requires conn.Some? ==> conn.value.pyenc != ""
    ensures var dumped := Dump(Dumper(StringDumper, StrClass, conn), PyStr(s), f);
            dumped.Success? ==>
              Load(Loader(TextLoader, TEXT_OID, -1, conn), dumped.value, f)
              == (if conn.Some? && conn.value.clientEncoding == SQL_ASCII
                  then Success(PyBytes(dumped.value)) else Success(PyStr(s)))
  {
  }

  /** The base `Dumper.oid` is 0: the dumpers of types/text.py that do not
      override it leave the type to the server. */
  lemma StringDumpersHaveNoOid()
    ensures DumperOid(StringDumper) == 0 && DumperOid(StringBinaryDumper) == 0 && DumperOid(TupleDumper) == 0
  {
  }

  /** Binary bytea is the identity both ways, so every byte string, the empty
      one included, round-trips; the dumpers' oid is bytea. */
  lemma ByteaBinaryRoundTrip(b: bytes, oid: int, fmod: int, conn: Option<Connection>, f: Foreign)
    ensures Dump(Dumper(BytesBinaryDumper, BytesClass, conn), PyBytes(b), f) == Success(b)
    ensures Load(Loader(ByteaBinaryLoader, oid, fmod, conn), b, f) == Success(PyBytes(b))
    ensures DumperOid(BytesBinaryDumper) == BYTEA_OID && DumperOid(BytesDumper) == BYTEA_OID
  {
  }
}
