/** The handler classes, the registry maps they are registered in, the
    connection and cursor objects that own registries, and handler instances. */
module Registry {
  import opened Base

  /** A key a dumper is registered under: a class, or a qualified class name
      such as "uuid.UUID" for classes that are not imported eagerly. */
  datatype Src = TypeSrc(cls: ClassRef) | NameSrc(name: string)

  /** Dumper classes. The ones of types/text.py and the tuple dumper are
      named; `OtherDumper` stands for any other class, with its `oid`. */
  datatype DumperClass =
    | StringDumper
    | StringBinaryDumper
    | BytesDumper
    | BytesBinaryDumper
    | TupleDumper
    | OtherDumper(name: string, oid: int)

  /** The callable a composite loader passes the loaded fields to. */
  datatype Factory =
    | NamedTuple(typeName: string, fieldNames: seq<string>)
    | CustomFactory(id: nat)

  /** Loader classes. The composite ones are the classes that
      types/composite.py `register` generates for one composite type. */
  datatype LoaderClass =
    | TextLoader
    | UnknownLoader
    | ByteaLoader
    | ByteaBinaryLoader
    | RecordLoader
    | RecordBinaryLoader
    | CompositeLoader(typeName: string, factory: Factory, fieldsTypes: seq<int>)
    | CompositeBinaryLoader(typeName: string, factory: Factory)
    | OtherLoader(name: string)

  /** A `DumpersMap`: (class or name, format) -> dumper class, mutated in place. */
  class DumpersMap {
    var entries: map<(Src, Format), DumperClass>

    constructor ()
      ensures entries == map[]
    {
      entries := map[];
    }
  }

  /** A `LoadersMap`: (oid, format) -> loader class, mutated in place. */
  class LoadersMap {
    var entries: map<(int, Format), LoaderClass>

    constructor ()
      ensures entries == map[]
    {
      entries := map[];
    }
  }

  /** The class attributes `Dumper.globals` and `Loader.globals`. */
  class Globals {
    const dumpers: DumpersMap
    const loaders: LoadersMap

    constructor ()
      ensures fresh(dumpers) && fresh(loaders)
      ensures dumpers.entries == map[] && loaders.entries == map[]
    {
      dumpers := new DumpersMap();
      loaders := new LoadersMap();
    }
  }

  /** What the core reads of a connection: its encodings and its registries. */
  class Connection {
    const clientEncoding: string   // the server's client_encoding, e.g. "UTF8", "SQL_ASCII"
    const pyenc: string            // the matching Python codec name
    const dumpers: DumpersMap
    const loaders: LoadersMap

    constructor (clientEncoding: string, pyenc: string)
      ensures this.clientEncoding == clientEncoding && this.pyenc == pyenc
      ensures fresh(dumpers) && fresh(loaders)
      ensures dumpers.entries == map[] && loaders.entries == map[]
    {
      this.clientEncoding := clientEncoding;
      this.pyenc := pyenc;
      dumpers := new DumpersMap();
      loaders := new LoadersMap();
    }
  }

  /** What the core reads of a cursor: its connection and its registries. */
  class Cursor {
    const connection: Connection
    const dumpers: DumpersMap
    const loaders: LoadersMap

    constructor (connection: Connection)
      ensures this.connection == connection
      ensures fresh(dumpers) && fresh(loaders)
      ensures dumpers.entries == map[] && loaders.entries == map[]
    {
      this.connection := connection;
      dumpers := new DumpersMap();
      loaders := new LoadersMap();
    }
  }

  /** A dumper instance: its class, the class it adapts (`src`) and the
      connection taken from its context. */
  datatype Dumper = Dumper(cls: DumperClass, src: ClassRef, connection: Option<Connection>)

  /** A loader instance: its class, `oid`, `fmod` and the connection taken
      from its context. */
  datatype Loader = Loader(cls: LoaderClass, oid: int, fmod: int, connection: Option<Connection>)
}
