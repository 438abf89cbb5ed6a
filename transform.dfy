/** The Transformer of _transform.py: the per-query object that chains the
    registries of its context, resolves and caches dumpers and loaders, keeps
    one loader per result column and decodes rows. */
module Transform {
  import opened Base
  import opened Registry
  import opened TextTypes

  type DumperEntries = map<(Src, Format), DumperClass>
  type LoaderEntries = map<(int, Format), LoaderClass>

  /** An `AdaptContext`: nothing, a connection, a cursor or a parent
      Transformer; `ForeignContext` is any other object passed in its place. */
  datatype Context =
    | NoContext
    | ConnectionContext(conn: Connection)
    | CursorContext(cursor: Cursor)
    | TransformerContext(parent: Transformer)
    | ForeignContext

  /** `_connection_from_context` of adapt.py (kept beside `Context` because
      adapt.py and _transform.py import each other). */
  function ConnectionFromContext(context: Context): (r: Result<Option<Connection>>)
    ensures r.Failure? <==> context.ForeignContext?
    ensures r.Failure? ==> r.error == TypeError
    ensures context.NoContext? ==> r == Success(None)
    ensures context.ConnectionContext? ==> r == Success(Some(context.conn))
    ensures context.CursorContext? ==> r == Success(Some(context.cursor.connection))
    ensures context.TransformerContext? ==> r == Success(context.parent.connection)
  {
    match context
    case NoContext => Success(None)
    case ConnectionContext(c) => Success(Some(c))
    case CursorContext(cur) => Success(Some(cur.connection))
    case TransformerContext(t) => Success(t.connection)
    case ForeignContext => Failure(TypeError)
  }

  /** The entries of a chain of registries, in chain order. */
  function DumperEntriesOf(ms: seq<DumpersMap>): (r: seq<DumperEntries>)
    reads set m | m in ms
    ensures |r| == |ms| && forall n :: 0 <= n < |ms| ==> r[n] == ms[n].entries
  {
    seq(|ms|, n requires 0 <= n < |ms| reads set m | m in ms => ms[n].entries)
  }

  function LoaderEntriesOf(ms: seq<LoadersMap>): (r: seq<LoaderEntries>)
    reads set m | m in ms
    ensures |r| == |ms| && forall n :: 0 <= n < |ms| ==> r[n] == ms[n].entries
  {
    seq(|ms|, n requires 0 <= n < |ms| reads set m | m in ms => ms[n].entries)
  }

  // ---------------------------------------------------------------------
  // Dumper resolution

  /** The two passes of `get_dumper`: by class object, then by qualified name.
      `ByNameAsWritten` is the name the source builds (see QualifiedName). */
  datatype Pass = ByType | ByName | ByNameAsWritten(runtime: ClassRef)

  /** `module.qualname` of a class: the name a string registration uses. */
  function QualifiedName(c: ClassRef): string
  {
    c.moduleName + "." + c.qualname
  }

  /** The registry key looked up for ancestor `scls` in pass `p`. The source
      forms the name from the RUNTIME class's module and the ancestor's
      qualname; `ByName` uses the ancestor's own module. */
  function PassKey(p: Pass, scls: ClassRef, format: Format): (Src, Format)
  {
    match p
    case ByType => (TypeSrc(scls), format)
    case ByName => (NameSrc(QualifiedName(scls)), format)
    case ByNameAsWritten(cls) => (NameSrc(cls.moduleName + "." + scls.qualname), format)
  }

  /** The first class of `mro[j..]` with an entry in `m`, and that entry. */
  function FindInMro(m: DumperEntries, p: Pass, mro: seq<ClassRef>, format: Format, j: nat)
    : (r: Option<(ClassRef, DumperClass)>)
    decreases |mro| - j
    ensures r.None? <==> forall k :: j <= k < |mro| ==> PassKey(p, mro[k], format) !in m
    ensures r.Some? ==>
              exists k :: j <= k < |mro| && mro[k] == r.value.0
                          && PassKey(p, mro[k], format) in m && m[PassKey(p, mro[k], format)] == r.value.1
                          && forall k' :: j <= k' < k ==> PassKey(p, mro[k'], format) !in m
  {
    if j >= |mro| then None
    else if PassKey(p, mro[j], format) in m then Some((mro[j], m[PassKey(p, mro[j], format)]))
    else FindInMro(m, p, mro, format, j + 1)
  }

  /** The inner loop of `get_dumper` over one registry: the classes of the
      MRO from the most derived, looking up the key of `pass`. */
  method SearchMro(m: DumperEntries, pass: Pass, mro: seq<ClassRef>, format: Format)
    returns (hit: Option<(ClassRef, DumperClass)>)
    ensures hit == FindInMro(m, pass, mro, format, 0)
  {
    var j := 0;
    while j < |mro|
      invariant 0 <= j <= |mro|
      invariant FindInMro(m, pass, mro, format, 0) == FindInMro(m, pass, mro, format, j)
    {
      var key := PassKey(pass, mro[j], format);
      if key in m {
        return Some((mro[j], m[key]));
      }
      j := j + 1;
    }
    return None;
  }

  /** The loop pair of `get_dumper`: the registries from the most specific
      to the global one and, inside each, the classes of the MRO from the
      most derived, looking up the key of `pass`. */
  method SearchChain(chain: seq<DumperEntries>, pass: Pass, mro: seq<ClassRef>, format: Format)
    returns (hit: Option<(nat, ClassRef, DumperClass)>)
    ensures hit == FindInChain(chain, pass, mro, format, 0)
  {
    var i := 0;
    while i < |chain|
      invariant 0 <= i <= |chain|
      invariant FindInChain(chain, pass, mro, format, 0) == FindInChain(chain, pass, mro, format, i)
    {
      var found := SearchMro(chain[i], pass, mro, format);
      if found.Some? {
        assert FindInChain(chain, pass, mro, format, i) == Some((i, found.value.0, found.value.1));
        return Some((i, found.value.0, found.value.1));
      }
      assert FindInChain(chain, pass, mro, format, i) == FindInChain(chain, pass, mro, format, i + 1);
      i := i + 1;
    }
    return None;
  }

  /** The first registry of `chain[i..]` serving some class of `mro`: its index,
      the matched class and the dumper class. */
  function FindInChain(chain: seq<DumperEntries>, p: Pass, mro: seq<ClassRef>, format: Format, i: nat)
    : (r: Option<(nat, ClassRef, DumperClass)>)
    decreases |chain| - i
    ensures r.None? <==>
              forall n, k :: i <= n < |chain| && 0 <= k < |mro| ==> PassKey(p, mro[k], format) !in chain[n]
    ensures r.Some? ==>
              i <= r.value.0 < |chain|
              && FindInMro(chain[r.value.0], p, mro, format, 0) == Some((r.value.1, r.value.2))
              && forall n :: i <= n < r.value.0 ==> FindInMro(chain[n], p, mro, format, 0).None?
  {
    if i >= |chain| then None
    else match FindInMro(chain[i], p, mro, format, 0)
      case Some((scls, dc)) => Some((i, scls, dc))
      case None => FindInChain(chain, p, mro, format, i + 1)
  }

  /** Substitutability: a dumper registered for any ancestor, in any registry
      of the chain, makes the by-class pass succeed for the descendant. */
  lemma AncestorServesDescendant(chain: seq<DumperEntries>, t: PyType, format: Format, n: nat, k: nat)
    requires n < |chain| && k < |t.Mro()|
    requires (TypeSrc(t.Mro()[k]), format) in chain[n]
    ensures FindInChain(chain, ByType, t.Mro(), format, 0).Some?
  {
    assert PassKey(ByType, t.Mro()[k], format) in chain[n];
  }

  /** The by-class pass prefers the more specific registry, and inside one
      registry the more derived class. */
  lemma FirstHitWins(chain: seq<DumperEntries>, mro: seq<ClassRef>, format: Format)
    requires FindInChain(chain, ByType, mro, format, 0).Some?
    ensures var (n, scls, dc) := FindInChain(chain, ByType, mro, format, 0).value;
            n < |chain|
            && (forall n', k :: 0 <= n' < n && 0 <= k < |mro| ==> (TypeSrc(mro[k]), format) !in chain[n'])
            && exists k :: 0 <= k < |mro| && mro[k] == scls && chain[n][(TypeSrc(scls), format)] == dc
                           && forall k' :: 0 <= k' < k ==> (TypeSrc(mro[k']), format) !in chain[n]
  {
    var (n, scls, dc) := FindInChain(chain, ByType, mro, format, 0).value;
    forall n', k | 0 <= n' < n && 0 <= k < |mro|
      ensures (TypeSrc(mro[k]), format) !in chain[n']
    {
      assert FindInMro(chain[n'], ByType, mro, format, 0).None?;
      assert PassKey(ByType, mro[k], format) !in chain[n'];
    }
    var k :| 0 <= k < |mro| && mro[k] == scls
             && PassKey(ByType, mro[k], format) in chain[n] && chain[n][PassKey(ByType, mro[k], format)] == dc
             && forall k' :: 0 <= k' < k ==> PassKey(ByType, mro[k'], format) !in chain[n];
    forall k' | 0 <= k' < k ensures (TypeSrc(mro[k']), format) !in chain[n] {
      assert PassKey(ByType, mro[k'], format) !in chain[n];
    }
  }

  /** A dumper registered for the exact runtime class in the first registry
      of the chain is the one the by-class pass picks. */
  lemma ExactRegistrationFirstWins(chain: seq<DumperEntries>, t: PyType, format: Format)
    requires |chain| > 0 && (TypeSrc(t.cls), format) in chain[0]
    ensures FindInChain(chain, ByType, t.Mro(), format, 0)
            == Some((0, t.cls, chain[0][(TypeSrc(t.cls), format)]))
  {
    assert PassKey(ByType, t.Mro()[0], format) in chain[0];
  }

  /** With a string registration under an ancestor's qualified name, the name
      pass finds a dumper for every descendant. */
  lemma NameFallbackServesDescendant(chain: seq<DumperEntries>, t: PyType, format: Format, n: nat, k: nat)
    requires n < |chain| && k < |t.Mro()|
    requires (NameSrc(QualifiedName(t.Mro()[k])), format) in chain[n]
    ensures FindInChain(chain, ByName, t.Mro(), format, 0).Some?
  {
    assert PassKey(ByName, t.Mro()[k], format) in chain[n];
  }

  /** The name the source builds for an ancestor from another module is not
      the ancestor's name: a subclass of uuid.UUID defined in module "app"
      looks up "app.UUID", so the "uuid.UUID" registration never serves it. */
  lemma NameFallbackAsWrittenMissesAncestor()
    ensures var uuid := ClassRef(10, "uuid", "UUID", "UUID");
            var mine := ClassRef(11, "app", "MyId", "MyId");
            var t := PyType(mine, [uuid, ObjectClass]);
            var chain := [map[(NameSrc("uuid.UUID"), Text) := OtherDumper("UUIDDumper", 2950)]];
            FindInChain(chain, ByNameAsWritten(mine), t.Mro(), Text, 0).None?
            && FindInChain(chain, ByName, t.Mro(), Text, 0) == Some((0, uuid, OtherDumper("UUIDDumper", 2950)))
  {
    var uuid := ClassRef(10, "uuid", "UUID", "UUID");
    var mine := ClassRef(11, "app", "MyId", "MyId");
    var t := PyType(mine, [uuid, ObjectClass]);
    var m := map[(NameSrc("uuid.UUID"), Text) := OtherDumper("UUIDDumper", 2950)];
    assert t.Mro() == [mine, uuid, ObjectClass];
    var wanted := NameSrc("uuid.UUID");
    assert QualifiedName(uuid) == "uuid.UUID";
    forall c | c in t.Mro() ensures PassKey(ByNameAsWritten(mine), c, Text) != (wanted, Text) {
      var name := mine.moduleName + "." + c.qualname;
      assert name[0] == 'a' != "uuid.UUID"[0];
    }
    assert QualifiedName(mine)[0] == 'a';
    assert FindInMro(m, ByNameAsWritten(mine), t.Mro(), Text, 0).None?;
    assert FindInMro(m, ByName, t.Mro(), Text, 1) == Some((uuid, OtherDumper("UUIDDumper", 2950)));
    assert PassKey(ByName, mine, Text) !in m;
  }

  // ---------------------------------------------------------------------
  // Loader resolution

  /** The loop of `get_loader` over the registries, most specific first:
      the loader class of the first one holding `key`. */
  method SearchLoaders(chain: seq<LoaderEntries>, key: (int, Format)) returns (found: Option<LoaderClass>)
    ensures found == FindLoaderClass(chain, key, 0)
  {
    var i := 0;
    while i < |chain|
      invariant 0 <= i <= |chain|
      invariant FindLoaderClass(chain, key, 0) == FindLoaderClass(chain, key, i)
    {
      if key in chain[i] {
        return Some(chain[i][key]);
      }
      i := i + 1;
    }
    return None;
  }

  /** The loader class of the first registry of `chain[i..]` holding `key`. */
  function FindLoaderClass(chain: seq<LoaderEntries>, key: (int, Format), i: nat): (r: Option<LoaderClass>)
    decreases |chain| - i
    ensures r.None? <==> forall n :: i <= n < |chain| ==> key !in chain[n]
    ensures r.Some? ==>
              exists n :: i <= n < |chain| && key in chain[n] && chain[n][key] == r.value
                          && forall n' :: i <= n' < n ==> key !in chain[n']
  {
    if i >= |chain| then None
    else if key in chain[i] then Some(chain[i][key])
    else FindLoaderClass(chain, key, i + 1)
  }

  /** The loader `get_loader` builds on a cache miss: from the first registry
      holding `(oid, format)`, else from the global default registered under
      `(INVALID_OID, format)`; a KeyError only when that default is missing. */
  function ResolveLoaderIn(chain: seq<LoaderEntries>, defaults: LoaderEntries, oid: int, format: Format,
                           fmod: int, conn: Option<Connection>): (r: Result<Loader>)
    ensures r.Success? ==> r.value.oid == oid && r.value.fmod == fmod && r.value.connection == conn
    ensures r.Failure? <==> FindLoaderClass(chain, (oid, format), 0).None? && (INVALID_OID, format) !in defaults
    ensures r.Failure? ==> r.error == KeyError
    ensures r.Success? && FindLoaderClass(chain, (oid, format), 0).None? ==>
              r.value.cls == defaults[(INVALID_OID, format)]
  {
    match FindLoaderClass(chain, (oid, format), 0)
    case Some(cls) => Success(Loader(cls, oid, fmod, conn))
    case None =>
      if (INVALID_OID, format) in defaults then Success(Loader(defaults[(INVALID_OID, format)], oid, fmod, conn))
      else Failure(KeyError)
  }

  /** A loader class registered under `(oid, format)` in registry `n`, with
      no registry before it holding that key, is the one resolved. */
  lemma RegisteredLoaderResolves(chain: seq<LoaderEntries>, defaults: LoaderEntries, oid: int, format: Format,
                                 fmod: int, conn: Option<Connection>, n: nat)
    requires n < |chain| && (oid, format) in chain[n]
    requires forall n' :: 0 <= n' < n ==> (oid, format) !in chain[n']
    ensures ResolveLoaderIn(chain, defaults, oid, format, fmod, conn)
            == Success(Loader(chain[n][(oid, format)], oid, fmod, conn))
  {
    var found := FindLoaderClass(chain, (oid, format), 0);
    assert found.Some?;
    var m :| 0 <= m < |chain| && (oid, format) in chain[m] && chain[m][(oid, format)] == found.value
             && forall n' :: 0 <= n' < m ==> (oid, format) !in chain[n'];
    assert m == n;
  }

  /** The type modifier plays no part in choosing the loader class. */
  lemma FmodOnlyBindsInstance(chain: seq<LoaderEntries>, defaults: LoaderEntries, oid: int, format: Format,
                              fmod1: int, fmod2: int, conn: Option<Connection>)
    ensures var r1 := ResolveLoaderIn(chain, defaults, oid, format, fmod1, conn);
            var r2 := ResolveLoaderIn(chain, defaults, oid, format, fmod2, conn);
            r1.Success? == r2.Success? && (r1.Success? ==> r1.value.cls == r2.value.cls)
  {
  }

  // ---------------------------------------------------------------------
  // Row decoding

  /** One cell: NULL stays NULL, anything else goes through the column's loader. */
  function DecodeCell(loaders: seq<Loader>, i: nat, cell: Option<bytes>, f: Foreign): (r: Result<Option<PyObj>>)
    ensures r.Success? ==> (r.value.None? <==> cell.None?)
    ensures cell.None? ==> r == Success(None)
    ensures cell.Some? && i >= |loaders| ==> r == Failure(IndexError)
    ensures cell.Some? && i < |loaders| ==>
              (r.Success? <==> Load(loaders[i], cell.value, f).Success?)
              && (r.Success? ==> Success(r.value.value) == Load(loaders[i], cell.value, f))
  {
    if cell.None? then Success(None)
    else if i >= |loaders| then Failure(IndexError)
    else match Load(loaders[i], cell.value, f)
      case Success(v) => Success(Some(v))
      case Failure(e) => Failure(e)
  }

  /** The cells `record[i..]`, or the error of the first cell that fails. */
  function DecodeFrom(loaders: seq<Loader>, record: seq<Option<bytes>>, i: nat, f: Foreign)
    : (r: Result<seq<Option<PyObj>>>)
    requires i <= |record|
    decreases |record| - i
    ensures r.Success? ==>
              |r.value| == |record| - i
              && forall k :: i <= k < |record| ==> DecodeCell(loaders, k, record[k], f) == Success(r.value[k - i])
    ensures r.Failure? ==>
              exists k :: i <= k < |record| && DecodeCell(loaders, k, record[k], f) == Failure(r.error)
                          && forall k' :: i <= k' < k ==> DecodeCell(loaders, k', record[k'], f).Success?
  {
    if i == |record| then Success([])
    else match DecodeCell(loaders, i, record[i], f)
      case Failure(e) => Failure(e)
      case Success(v) =>
        match DecodeFrom(loaders, record, i + 1, f)
        case Failure(e) => Failure(e)
        case Success(vs) => Success([v] + vs)
  }

  /** The column metadata of a result: type oid, format, type modifier. */
  datatype Column = Column(ftype: int, fformat: Format, fmod: int)

  /** A PGresult as the core reads it: column metadata and, per row, one
      cell per column, `None` where the value is NULL. */
  datatype PGResult = PGResult(columns: seq<Column>, rows: seq<seq<Option<bytes>>>) {
    ghost predicate WellFormed()
    {
      forall r :: 0 <= r < |rows| ==> |rows[r]| == |columns|
    }
  }

  function ColumnKey(c: Column): (int, Format, int)
  {
    (c.ftype, c.fformat, c.fmod)
  }

  /** The cache key `set_row_types` asks for in column `i`. */
  function RowKey(types: seq<int>, formats: seq<Format>, fmods: seq<int>, i: nat): (int, Format, int)
    requires i < |types| && i < |formats| && (|fmods| == 0 || i < |fmods|)
  {
    (types[i], formats[i], if |fmods| > 0 then fmods[i] else -1)
  }

  ghost predicate CacheExtends(before: map<(int, Format, int), Loader>, after: map<(int, Format, int), Loader>)
  {
    forall k :: k in before ==> k in after && after[k] == before[k]
  }

  class Transformer {
    const connection: Option<Connection>
    const encoding: string
    const globals: Globals
    const dumpers: DumpersMap
    const loaders: LoadersMap
    const dumpersMaps: seq<DumpersMap>
    const loadersMaps: seq<LoadersMap>

    var pgresult: Option<PGResult>
    var nfields: int
    var ntuples: int
    var dumpersCache: map<(ClassRef, Format), Dumper>
    var loadersCache: map<(int, Format, int), Loader>
    var rowLoaders: seq<Loader>

    /** The chains start with this Transformer's own registry and end with
        the global one; the counts mirror the attached result. */
    ghost predicate Valid()
      reads this
    {
      && |dumpersMaps| >= 2 && dumpersMaps[0] == dumpers && dumpersMaps[|dumpersMaps| - 1] == globals.dumpers
      && |loadersMaps| >= 2 && loadersMaps[0] == loaders && loadersMaps[|loadersMaps| - 1] == globals.loaders
      && (pgresult.None? ==> nfields == 0 && ntuples == 0)
      && (pgresult.Some? ==>
            pgresult.value.WellFormed()
            && nfields == |pgresult.value.columns| && ntuples == |pgresult.value.rows|)
      && (forall key :: key in dumpersCache ==>
            dumpersCache[key].src == key.0 && dumpersCache[key].connection == connection)
    }

    /** `_setup_context`, then `self.pgresult = None`. */
    constructor (context: Context, globals: Globals)
      requires !context.ForeignContext?
      requires context.TransformerContext? ==> context.parent.Valid() && context.parent.globals == globals
      ensures Valid() && this.globals == globals
      ensures ConnectionFromContext(context) == Success(connection)
      ensures context.NoContext? ==>
                encoding == UTF8 && fresh(dumpers) && fresh(loaders)
                && dumpers.entries == map[] && loaders.entries == map[]
                && dumpersMaps == [dumpers, globals.dumpers] && loadersMaps == [loaders, globals.loaders]
      ensures context.ConnectionContext? ==>
                encoding == context.conn.pyenc && fresh(dumpers) && fresh(loaders)
                && dumpers.entries == map[] && loaders.entries == map[]
                && dumpersMaps == [dumpers, context.conn.dumpers, globals.dumpers]
                && loadersMaps == [loaders, context.conn.loaders, globals.loaders]
      ensures context.CursorContext? ==>
                var cur := context.cursor;
                encoding == cur.connection.pyenc && fresh(dumpers) && fresh(loaders)
                && dumpers.entries == map[] && loaders.entries == map[]
                && dumpersMaps == [dumpers, cur.dumpers, cur.connection.dumpers, globals.dumpers]
                && loadersMaps == [loaders, cur.loaders, cur.connection.loaders, globals.loaders]
      ensures context.TransformerContext? ==>
                var p := context.parent;
                encoding == p.encoding && dumpers == p.dumpers && loaders == p.loaders
                && dumpersMaps == p.dumpersMaps && loadersMaps == p.loadersMaps
      ensures pgresult.None? && nfields == 0 && ntuples == 0
      ensures dumpersCache == map[] && loadersCache == map[] && rowLoaders == []
    {
      this.globals := globals;
      match context {
        case NoContext =>
          connection := None;
          encoding := UTF8;
          var d := new DumpersMap();
          var l := new LoadersMap();
          dumpers, loaders := d, l;
          dumpersMaps := [d, globals.dumpers];
          loadersMaps := [l, globals.loaders];
        case TransformerContext(p) =>
          connection := p.connection;
          encoding := p.encoding;
          dumpers, loaders := p.dumpers, p.loaders;
          dumpersMaps := p.dumpersMaps;
          loadersMaps := p.loadersMaps;
        case CursorContext(cur) =>
          connection := Some(cur.connection);
          encoding := cur.connection.pyenc;
          var d := new DumpersMap();
          var l := new LoadersMap();
          dumpers, loaders := d, l;
          dumpersMaps := [d, cur.dumpers, cur.connection.dumpers, globals.dumpers];
          loadersMaps := [l, cur.loaders, cur.connection.loaders, globals.loaders];
        case ConnectionContext(c) =>
          connection := Some(c);
          encoding := c.pyenc;
          var d := new DumpersMap();
          var l := new LoadersMap();
          dumpers, loaders := d, l;
          dumpersMaps := [d, c.dumpers, globals.dumpers];
          loadersMaps := [l, c.loaders, globals.loaders];
      }
      pgresult := None;
      nfields, ntuples := 0, 0;
      dumpersCache := map[];
      loadersCache := map[];
      rowLoaders := [];
    }

    /** What `get_loader` returns: the cached instance, or a freshly resolved one. */
    function CachedOrResolved(oid: int, format: Format, fmod: int): Result<Loader>
      reads this, globals.loaders, set m | m in loadersMaps
    {
      if (oid, format, fmod) in loadersCache then Success(loadersCache[(oid, format, fmod)])
      else ResolveLoaderIn(LoaderEntriesOf(loadersMaps), globals.loaders.entries, oid, format, fmod, connection)
    }

    /** Every cache entry added since `before` is what resolution gives now. */
    ghost predicate NewEntriesResolved(before: map<(int, Format, int), Loader>)
      reads this, globals.loaders, set m | m in loadersMaps
    {
      forall k :: k in loadersCache && k !in before ==>
        ResolveLoaderIn(LoaderEntriesOf(loadersMaps), globals.loaders.entries, k.0, k.1, k.2, connection)
        == Success(loadersCache[k])
    }

    /** The dumper `get_dumper` gives for `obj` in the current state. */
    ghost function DumperLookup(obj: PyObj, format: Format): (r: Result<Dumper>)
      reads this, set m | m in dumpersMaps
      ensures Valid() && r.Success? ==> r.value.connection == connection && r.value.src in TypeOf(obj).Mro()
      ensures r.Failure? ==> r.error == ProgrammingError(TypeOf(obj).cls.name, format)
    {
      var cls := TypeOf(obj).cls;
      var chain := DumperEntriesOf(dumpersMaps);
      if (cls, format) in dumpersCache then Success(dumpersCache[(cls, format)])
      else match FindInChain(chain, ByType, TypeOf(obj).Mro(), format, 0)
        case Some((_, scls, dc)) => Success(Dumper(dc, scls, connection))
        case None =>
          match FindInChain(chain, ByName, TypeOf(obj).Mro(), format, 0)
          case Some((_, scls, dc)) => Success(Dumper(dc, scls, connection))
          case None => Failure(ProgrammingError(cls.name, format))
    }

    /** Stores `dumper` in the dumpers cache under the class it was found for. */
    method CacheDumper(scls: ClassRef, format: Format, dumper: Dumper)
      requires Valid() && dumper.src == scls && dumper.connection == connection
      modifies this`dumpersCache
      ensures Valid()
      ensures dumpersCache == old(dumpersCache)[(scls, format) := dumper]
    {
      dumpersCache := dumpersCache[(scls, format) := dumper];
    }

    /** Registers `dc` under `key` in the `n`-th registry of the chain. */
    method WriteBack(n: nat, key: (Src, Format), dc: DumperClass)
      requires n < |dumpersMaps|
      modifies dumpersMaps[n]
      ensures dumpersMaps[n].entries == old(dumpersMaps[n].entries)[key := dc]
      ensures forall m :: 0 <= m < |dumpersMaps| && dumpersMaps[m] != dumpersMaps[n] ==>
                            dumpersMaps[m].entries == old(dumpersMaps[m].entries)
    {
      var dmap := dumpersMaps[n];
      dmap.entries := dmap.entries[key := dc];
    }

    /** `get_dumper`: the cached dumper for the runtime class, else the first
        registration (most specific registry first, most derived class first)
        by class object, else by qualified name (writing the class key back
        into the registry that had the name), else ProgrammingError. */
    method GetDumper(obj: PyObj, format: Format) returns (r: Result<Dumper>)
      requires Valid()
      modifies this`dumpersCache, set m | m in dumpersMaps
      ensures Valid()
      ensures r == old(DumperLookup(obj, format))
      ensures var cls := TypeOf(obj).cls;
              (cls, format) in old(dumpersCache) ==>
                r == Success(old(dumpersCache)[(cls, format)])
                && dumpersCache == old(dumpersCache) && DumperEntriesOf(dumpersMaps) == old(DumperEntriesOf(dumpersMaps))
      ensures var cls := TypeOf(obj).cls;
              var hit := FindInChain(old(DumperEntriesOf(dumpersMaps)), ByType, TypeOf(obj).Mro(), format, 0);
              (cls, format) !in old(dumpersCache) && hit.Some? ==>
                r == Success(Dumper(hit.value.2, hit.value.1, connection))
                && dumpersCache == old(dumpersCache)[(hit.value.1, format) := r.value]
                && DumperEntriesOf(dumpersMaps) == old(DumperEntriesOf(dumpersMaps))
      ensures var cls := TypeOf(obj).cls;
              var hit := FindInChain(old(DumperEntriesOf(dumpersMaps)), ByType, TypeOf(obj).Mro(), format, 0);
              var named := FindInChain(old(DumperEntriesOf(dumpersMaps)), ByName, TypeOf(obj).Mro(), format, 0);
              (cls, format) !in old(dumpersCache) && hit.None? && named.Some? ==>
                var (n, scls, dc) := named.value;
                r == Success(Dumper(dc, scls, connection))
                && dumpersCache == old(dumpersCache)[(scls, format) := r.value]
                && dumpersMaps[n].entries == old(dumpersMaps[n].entries)[(TypeSrc(scls), format) := dc]
                && forall m :: 0 <= m < |dumpersMaps| && dumpersMaps[m] != dumpersMaps[n] ==>
                                 dumpersMaps[m].entries == old(dumpersMaps[m].entries)
      ensures var cls := TypeOf(obj).cls;
              var hit := FindInChain(old(DumperEntriesOf(dumpersMaps)), ByType, TypeOf(obj).Mro(), format, 0);
              var named := FindInChain(old(DumperEntriesOf(dumpersMaps)), ByName, TypeOf(obj).Mro(), format, 0);
              (cls, format) !in old(dumpersCache) && hit.None? && named.None? ==>
                r == Failure(ProgrammingError(cls.name, format))
                && dumpersCache == old(dumpersCache) && DumperEntriesOf(dumpersMaps) == old(DumperEntriesOf(dumpersMaps))
    {
      var cls := TypeOf(obj).cls;
      if (cls, format) in dumpersCache {
        return Success(dumpersCache[(cls, format)]);
      }
      r := ResolveDumper(obj, format);
    }

    /** The cache-miss path of `get_dumper`: the by-class pass, then the
        by-name pass with its write-back, then ProgrammingError. */
    method ResolveDumper(obj: PyObj, format: Format) returns (r: Result<Dumper>)
      requires Valid() && (TypeOf(obj).cls, format) !in dumpersCache
      modifies this`dumpersCache, set m | m in dumpersMaps
      ensures Valid()
      ensures r == old(DumperLookup(obj, format))
      ensures var hit := FindInChain(old(DumperEntriesOf(dumpersMaps)), ByType, TypeOf(obj).Mro(), format, 0);
              hit.Some? ==>
                dumpersCache == old(dumpersCache)[(hit.value.1, format) := r.value]
                && DumperEntriesOf(dumpersMaps) == old(DumperEntriesOf(dumpersMaps))
      ensures var hit := FindInChain(old(DumperEntriesOf(dumpersMaps)), ByType, TypeOf(obj).Mro(), format, 0);
              var named := FindInChain(old(DumperEntriesOf(dumpersMaps)), ByName, TypeOf(obj).Mro(), format, 0);
              hit.None? && named.Some? ==>
                var (n, scls, dc) := named.value;
                dumpersCache == old(dumpersCache)[(scls, format) := r.value]
                && dumpersMaps[n].entries == old(dumpersMaps[n].entries)[(TypeSrc(scls), format) := dc]
                && forall m :: 0 <= m < |dumpersMaps| && dumpersMaps[m] != dumpersMaps[n] ==>
                                 dumpersMaps[m].entries == old(dumpersMaps[m].entries)
      ensures var hit := FindInChain(old(DumperEntriesOf(dumpersMaps)), ByType, TypeOf(obj).Mro(), format, 0);
              var named := FindInChain(old(DumperEntriesOf(dumpersMaps)), ByName, TypeOf(obj).Mro(), format, 0);
              hit.None? && named.None? ==>
                dumpersCache == old(dumpersCache) && DumperEntriesOf(dumpersMaps) == old(DumperEntriesOf(dumpersMaps))
    {
      ghost var look := DumperLookup(obj, format);
      var mro := TypeOf(obj).Mro();
      var hit := SearchChain(DumperEntriesOf(dumpersMaps), ByType, mro, format);
      if hit.Some? {
        var (_, scls, dc) := hit.value;
        var dumper := Dumper(dc, scls, connection);
        assert look == Success(dumper);
        CacheDumper(scls, format, dumper);
        return Success(dumper);
      }
      r := ResolveByName(obj, format);
    }

    /** The by-name pass of `get_dumper`, reached when no registry serves
        any class of the MRO by class object. */
    method ResolveByName(obj: PyObj, format: Format) returns (r: Result<Dumper>)
      requires Valid() && (TypeOf(obj).cls, format) !in dumpersCache
      requires FindInChain(DumperEntriesOf(dumpersMaps), ByType, TypeOf(obj).Mro(), format, 0).None?
      modifies this`dumpersCache, set m | m in dumpersMaps
      ensures Valid()
      ensures r == old(DumperLookup(obj, format))
      ensures var named := FindInChain(old(DumperEntriesOf(dumpersMaps)), ByName, TypeOf(obj).Mro(), format, 0);
              named.Some? ==>
                var (n, scls, dc) := named.value;
                dumpersCache == old(dumpersCache)[(scls, format) := r.value]
                && dumpersMaps[n].entries == old(dumpersMaps[n].entries)[(TypeSrc(scls), format) := dc]
                && forall m :: 0 <= m < |dumpersMaps| && dumpersMaps[m] != dumpersMaps[n] ==>
                                 dumpersMaps[m].entries == old(dumpersMaps[m].entries)
      ensures var named := FindInChain(old(DumperEntriesOf(dumpersMaps)), ByName, TypeOf(obj).Mro(), format, 0);
              named.None? ==>
                dumpersCache == old(dumpersCache) && DumperEntriesOf(dumpersMaps) == old(DumperEntriesOf(dumpersMaps))
    {
      ghost var look := DumperLookup(obj, format);
      var named := SearchChain(DumperEntriesOf(dumpersMaps), ByName, TypeOf(obj).Mro(), format);
      if named.Some? {
        var (n, scls, dc) := named.value;
        assert look == Success(Dumper(dc, scls, connection));
        WriteBack(n, (TypeSrc(scls), format), dc);
        var dumper := Dumper(dc, scls, connection);
        CacheDumper(scls, format, dumper);
        return Success(dumper);
      }
      return Failure(ProgrammingError(TypeOf(obj).cls.name, format));
    }

    /** `get_loader`: the cached loader for `(oid, format, fmod)`, else one
        built from the first registry holding `(oid, format)` or from the
        global `(INVALID_OID, format)` default, and cached. */
    method GetLoader(oid: int, format: Format, fmod: int) returns (r: Result<Loader>)
      requires Valid()
      modifies this`loadersCache
      ensures Valid()
      ensures r == old(CachedOrResolved(oid, format, fmod))
      ensures loadersCache == if r.Success? then old(loadersCache)[(oid, format, fmod) := r.value] else old(loadersCache)
    {
      var key := (oid, format, fmod);
      if key in loadersCache {
        return Success(loadersCache[key]);
      }
      var found := SearchLoaders(LoaderEntriesOf(loadersMaps), (oid, format));
      if found.Some? {
        var loader := Loader(found.value, oid, fmod, connection);
        loadersCache := loadersCache[key := loader];
        return Success(loader);
      }
      if (INVALID_OID, format) !in globals.loaders.entries {
        return Failure(KeyError);
      }
      var loader := Loader(globals.loaders.entries[(INVALID_OID, format)], oid, fmod, connection);
      loadersCache := loadersCache[key := loader];
      return Success(loader);
    }

    /** `set_row_types`: one loader per column, `fmod` -1 when `fmods` is
        empty; the list is replaced only once every column has its loader. */
    method SetRowTypes(types: seq<int>, formats: seq<Format>, fmods: seq<int>) returns (o: Outcome)
      requires Valid()
      modifies this`loadersCache, this`rowLoaders
      ensures Valid()
      ensures CacheExtends(old(loadersCache), loadersCache) && NewEntriesResolved(old(loadersCache))
      ensures o.Pass? ==>
                |formats| >= |types| && (|fmods| == 0 || |fmods| >= |types|) && |rowLoaders| == |types|
                && forall i :: 0 <= i < |types| ==>
                     RowKey(types, formats, fmods, i) in loadersCache
                     && rowLoaders[i] == loadersCache[RowKey(types, formats, fmods, i)]
      ensures o.Fail? ==> rowLoaders == old(rowLoaders) && (o.error == IndexError || o.error == KeyError)
      ensures o.Fail? && (|formats| >= |types| && (|fmods| == 0 || |fmods| >= |types|)) ==> o.error == KeyError
      ensures HasDefaults() && |formats| >= |types| && (|fmods| == 0 || |fmods| >= |types|) ==> o.Pass?
    {
      var loaded: seq<Loader> := [];
      var i := 0;
      while i < |types|
        invariant 0 <= i <= |types| && |loaded| == i
        invariant i <= |formats| && (|fmods| == 0 || i <= |fmods|)
        invariant Valid() && rowLoaders == old(rowLoaders)
        invariant CacheExtends(old(loadersCache), loadersCache) && NewEntriesResolved(old(loadersCache))
        invariant forall k :: 0 <= k < i ==>
                    RowKey(types, formats, fmods, k) in loadersCache
                    && loaded[k] == loadersCache[RowKey(types, formats, fmods, k)]
      {
        if i >= |formats| || (|fmods| > 0 && i >= |fmods|) {
          return Fail(IndexError);
        }
        var fmod := if |fmods| > 0 then fmods[i] else -1;
        ghost var before := loadersCache;
        assert HasDefaults() ==> (INVALID_OID, formats[i]) in globals.loaders.entries by {
          if formats[i].Text? {} else {}
        }
        var l := GetLoader(types[i], formats[i], fmod);
        if l.Failure? {
          return Fail(l.error);
        }
        assert RowKey(types, formats, fmods, i) == (types[i], formats[i], fmod);
        loaded := loaded + [l.value];
        i := i + 1;
      }
      rowLoaders := loaded;
      return Pass;
    }

    /** The global registry holds the text and binary fallback loaders. */
    ghost predicate HasDefaults()
      reads this, globals.loaders
    {
      (INVALID_OID, Text) in globals.loaders.entries && (INVALID_OID, Binary) in globals.loaders.entries
    }

    /** The `pgresult` setter: attach a result (or detach with `None`), record
        its shape and configure one loader per column from its metadata. */
    method SetPGResult(result: Option<PGResult>) returns (o: Outcome)
      requires Valid()
      requires result.Some? ==> result.value.WellFormed()
      modifies this`pgresult, this`nfields, this`ntuples, this`loadersCache, this`rowLoaders
      ensures Valid() && pgresult == result
      ensures result.None? ==>
                o.Pass? && rowLoaders == old(rowLoaders) && loadersCache == old(loadersCache)
      ensures result.Some? ==> nfields == |result.value.columns| && ntuples == |result.value.rows|
      ensures CacheExtends(old(loadersCache), loadersCache) && NewEntriesResolved(old(loadersCache))
      ensures result.Some? && o.Pass? ==>
                |rowLoaders| == nfields
                && forall i :: 0 <= i < nfields ==>
                     ColumnKey(result.value.columns[i]) in loadersCache
                     && rowLoaders[i] == loadersCache[ColumnKey(result.value.columns[i])]
      ensures o.Fail? ==> o.error == KeyError && rowLoaders == old(rowLoaders)
      ensures HasDefaults() ==> o.Pass?
    {
      pgresult := result;
      if result.None? {
        nfields, ntuples := 0, 0;
        return Pass;
      }
      var res := result.value;
      nfields := |res.columns|;
      ntuples := |res.rows|;
      var types: seq<int> := [];
      var formats: seq<Format> := [];
      var fmods: seq<int> := [];
      var i := 0;
      while i < nfields
        invariant 0 <= i <= nfields && |types| == i && |formats| == i && |fmods| == i
        invariant forall k :: 0 <= k < i ==> RowKey(types, formats, fmods, k) == ColumnKey(res.columns[k])
      {
        types := types + [res.columns[i].ftype];
        formats := formats + [res.columns[i].fformat];
        fmods := fmods + [res.columns[i].fmod];
        i := i + 1;
      }
      o := SetRowTypes(types, formats, fmods);
    }

    /** `load_row`: `None` past the last row (or with no result), else the
        row's cells decoded by the column loaders, NULL staying NULL. */
    method LoadRow(row: nat, f: Foreign) returns (r: Result<Option<seq<Option<PyObj>>>>)
      requires Valid()
      ensures pgresult.None? || row >= ntuples ==> r == Success(None)
      ensures pgresult.Some? && row < ntuples ==>
                var d := DecodeFrom(rowLoaders, pgresult.value.rows[row], 0, f);
                (r.Success? <==> d.Success?)
                && (r.Success? ==> r.value == Some(d.value))
                && (r.Failure? ==> r.error == d.error)
      ensures r.Success? && r.value.Some? ==>
                pgresult.Some? && row < ntuples && |r.value.value| == nfields
                && forall c :: 0 <= c < nfields ==> (r.value.value[c].None? <==> pgresult.value.rows[row][c].None?)
    {
      if pgresult.None? {
        return Success(None);
      }
      if row >= ntuples {
        return Success(None);
      }
      var res := pgresult.value;
      ghost var record := res.rows[row];
      var rv: seq<Option<PyObj>> := [];
      var col := 0;
      while col < nfields
        invariant 0 <= col <= nfields && |rv| == col
        invariant forall k :: 0 <= k < col ==> DecodeCell(rowLoaders, k, record[k], f) == Success(rv[k])
      {
        var val := res.rows[row][col];
        var cell: Option<PyObj> := None;
        if val.Some? {
          if col >= |rowLoaders| {
            DecodeFailsAt(rowLoaders, record, col, f);
            return Failure(IndexError);
          }
          var loaded := Load(rowLoaders[col], val.value, f);
          if loaded.Failure? {
            DecodeFailsAt(rowLoaders, record, col, f);
            return Failure(loaded.error);
          }
          cell := Some(loaded.value);
        }
        rv := rv + [cell];
        col := col + 1;
      }
      DecodeSucceeds(rowLoaders, record, rv, f);
      return Success(Some(rv));
    }

    /** `load_sequence`: the cells of `record` decoded by the column loaders. */
    function LoadSequence(record: seq<Option<bytes>>, f: Foreign): (r: Result<seq<Option<PyObj>>>)
      reads this
      ensures r.Success? ==>
                |r.value| == |record| && forall i :: 0 <= i < |record| ==> (r.value[i].None? <==> record[i].None?)
      ensures r.Failure? <==>
                exists i :: 0 <= i < |record| && record[i].Some?
                            && (i >= |rowLoaders| || Load(rowLoaders[i], record[i].value, f).Failure?)
    {
      var d := DecodeFrom(rowLoaders, record, 0, f);
      assert d.Success? ==> forall i :: 0 <= i < |record| ==> DecodeCell(rowLoaders, i, record[i], f).Success?;
      d
    }
  }

  /** If the cells before `c` decode and cell `c` does not, decoding the whole
      record fails with cell `c`'s error. */
  lemma DecodeFailsAt(loaders: seq<Loader>, record: seq<Option<bytes>>, c: nat, f: Foreign)
    requires c < |record| && DecodeCell(loaders, c, record[c], f).Failure?
    requires forall k :: 0 <= k < c ==> DecodeCell(loaders, k, record[k], f).Success?
    ensures DecodeFrom(loaders, record, 0, f) == Failure(DecodeCell(loaders, c, record[c], f).error)
  {
    var d := DecodeFrom(loaders, record, 0, f);
    if d.Failure? {
      var k :| 0 <= k < |record| && DecodeCell(loaders, k, record[k], f) == Failure(d.error)
               && forall k' :: 0 <= k' < k ==> DecodeCell(loaders, k', record[k'], f).Success?;
      if k < c {
      } else if k > c {
      }
    }
  }

  /** If every cell decodes to the matching value of `vs`, so does the record. */
  lemma DecodeSucceeds(loaders: seq<Loader>, record: seq<Option<bytes>>, vs: seq<Option<PyObj>>, f: Foreign)
    requires |vs| == |record|
    requires forall k :: 0 <= k < |record| ==> DecodeCell(loaders, k, record[k], f) == Success(vs[k])
    ensures DecodeFrom(loaders, record, 0, f) == Success(vs)
  {
    var d := DecodeFrom(loaders, record, 0, f);
    if d.Success? {
      forall k | 0 <= k < |record| ensures d.value[k] == vs[k] {
        assert DecodeCell(loaders, k, record[k], f) == Success(d.value[k - 0]);
      }
      assert d.value == vs;
    }
  }
}
