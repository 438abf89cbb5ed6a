/** The entry points of adapt.py: handler construction, `Dumper.quote`, and
    the registration class methods and decorators of `Dumper` and `Loader`. */
module Adapt {
  import opened Base
  import opened Registry
  import opened TextTypes
  import opened Transform

  /** `Dumper.__init__(src, context)`: the connection comes from the context. */
  function NewDumper(cls: DumperClass, src: ClassRef, context: Context): (r: Result<Dumper>)
    ensures r.Failure? <==> context.ForeignContext?
    ensures r.Failure? ==> r.error == TypeError
    ensures r.Success? ==>
              r.value.cls == cls && r.value.src == src
              && ConnectionFromContext(context) == Success(r.value.connection)
  {
    match ConnectionFromContext(context)
    case Success(conn) => Success(Dumper(cls, src, conn))
    case Failure(e) => Failure(e)
  }

  /** `Loader.__init__(oid, fmod, context)`: `oid` and `fmod` kept as given. */
  function NewLoader(cls: LoaderClass, oid: int, fmod: int, context: Context): (r: Result<Loader>)
    ensures r.Failure? <==> context.ForeignContext?
    ensures r.Failure? ==> r.error == TypeError
    ensures r.Success? ==>
              r.value.cls == cls && r.value.oid == oid && r.value.fmod == fmod
              && ConnectionFromContext(context) == Success(r.value.connection)
  {
    match ConnectionFromContext(context)
    case Success(conn) => Success(Loader(cls, oid, fmod, conn))
    case Failure(e) => Failure(e)
  }

  /** The Transformer builds its handlers with itself as context: that is a
      dumper or loader bound to the Transformer's connection. */
  lemma TransformerBuildsHandlers(t: Transformer, dc: DumperClass, scls: ClassRef, lc: LoaderClass, oid: int, fmod: int)
    ensures NewDumper(dc, scls, TransformerContext(t)) == Success(Dumper(dc, scls, t.connection))
    ensures NewLoader(lc, oid, fmod, TransformerContext(t)) == Success(Loader(lc, oid, fmod, t.connection))
  {
  }

  const SINGLE_QUOTE: byte := 39

  /** `Dumper.quote`: the dumped value as an SQL literal, escaped by libpq
      for the connection, or by the connectionless escaping between single
      quotes. */
  function Quote(d: Dumper, obj: PyObj, f: Foreign): (r: Result<bytes>)
    ensures Dump(d, obj, f).Failure? ==> r == Failure(Dump(d, obj, f).error)
    ensures Dump(d, obj, f).Success? && d.connection.Some? ==>
              r == f.escapeLiteral(d.connection.value, Dump(d, obj, f).value)
    ensures Dump(d, obj, f).Success? && d.connection.None? ==>
              (r.Success? <==> f.escapeString(Dump(d, obj, f).value).Success?)
              && (r.Success? ==>
                    |r.value| >= 2 && r.value[0] == SINGLE_QUOTE && r.value[|r.value| - 1] == SINGLE_QUOTE
                    && r.value[1..|r.value| - 1] == f.escapeString(Dump(d, obj, f).value).value)
  {
    match Dump(d, obj, f)
    case Failure(e) => Failure(e)
    case Success(value) =>
      if d.connection.Some? then f.escapeLiteral(d.connection.value, value)
      else match f.escapeString(value)
        case Failure(e) => Failure(e)
        case Success(esc) => Success([SINGLE_QUOTE] + esc + [SINGLE_QUOTE])
  }

  // ---------------------------------------------------------------------
  // Registration

  /** What `Dumper.register` receives as `src`: a class, a string, or
      something else. */
  datatype SrcArg = ClassArg(cls: ClassRef) | NameArg(name: string) | OtherArg

  /** What `Loader.register` receives as `oid`: an int, or something else. */
  datatype OidArg = IntOid(oid: int) | NotInt

  function SrcKey(src: SrcArg): Src
    requires !src.OtherArg?
  {
    if src.ClassArg? then TypeSrc(src.cls) else NameSrc(src.name)
  }

  /** `context.dumpers if context else Dumper.globals`; `None` for an object
      without a `dumpers` attribute. */
  function DumpersTarget(context: Context, globals: Globals): Option<DumpersMap>
  {
    match context
    case NoContext => Some(globals.dumpers)
    case ConnectionContext(c) => Some(c.dumpers)
    case CursorContext(cur) => Some(cur.dumpers)
    case TransformerContext(t) => Some(t.dumpers)
    case ForeignContext => None
  }

  function LoadersTarget(context: Context, globals: Globals): Option<LoadersMap>
  {
    match context
    case NoContext => Some(globals.loaders)
    case ConnectionContext(c) => Some(c.loaders)
    case CursorContext(cur) => Some(cur.loaders)
    case TransformerContext(t) => Some(t.loaders)
    case ForeignContext => None
  }

  function DumpersFrame(context: Context, globals: Globals): set<DumpersMap>
  {
    if context.ForeignContext? then {} else {DumpersTarget(context, globals).value}
  }

  function LoadersFrame(context: Context, globals: Globals): set<LoadersMap>
  {
    if context.ForeignContext? then {} else {LoadersTarget(context, globals).value}
  }

  /** `Dumper.register`: TypeError for a `src` that is neither a class nor a
      string, AttributeError for a context without registries; otherwise
      exactly `(src, format)` is (over)written in the context's registry, or
      in the global one when there is no context. */
  method RegisterDumper(cls: DumperClass, src: SrcArg, context: Context, format: Format, globals: Globals)
    returns (o: Outcome)
    modifies DumpersFrame(context, globals)
    ensures src.OtherArg? ==> o == Fail(TypeError)
    ensures !src.OtherArg? && context.ForeignContext? ==> o == Fail(AttributeError)
    ensures o.Fail? ==> forall m :: m in DumpersFrame(context, globals) ==> m.entries == old(m.entries)
    ensures !src.OtherArg? && !context.ForeignContext? ==>
              var where := DumpersTarget(context, globals).value;
              o.Pass? && where.entries == old(where.entries)[(SrcKey(src), format) := cls]
  {
    if src.OtherArg? {
      return Fail(TypeError);
    }
    if context.ForeignContext? {
      return Fail(AttributeError);
    }
    var where := DumpersTarget(context, globals).value;
    where.entries := where.entries[(SrcKey(src), format) := cls];
    return Pass;
  }

  /** `Dumper.register_binary`: `register` with the binary format. */
  method RegisterDumperBinary(cls: DumperClass, src: SrcArg, context: Context, globals: Globals)
    returns (o: Outcome)
    modifies DumpersFrame(context, globals)
    ensures src.OtherArg? ==> o == Fail(TypeError)
    ensures !src.OtherArg? && context.ForeignContext? ==> o == Fail(AttributeError)
    ensures o.Fail? ==> forall m :: m in DumpersFrame(context, globals) ==> m.entries == old(m.entries)
    ensures !src.OtherArg? && !context.ForeignContext? ==>
              var where := DumpersTarget(context, globals).value;
              o.Pass? && where.entries == old(where.entries)[(SrcKey(src), Binary) := cls]
  {
    o := RegisterDumper(cls, src, context, Binary, globals);
  }

  /** Applying the decorator `@Dumper.text(src)` to a class: registers it in
      the global registry for the text format and gives the class back. */
  method DumperText(src: SrcArg, cls: DumperClass, globals: Globals) returns (r: Result<DumperClass>)
    modifies globals.dumpers
    ensures src.OtherArg? ==> r == Failure(TypeError) && globals.dumpers.entries == old(globals.dumpers.entries)
    ensures !src.OtherArg? ==>
              r == Success(cls) && globals.dumpers.entries == old(globals.dumpers.entries)[(SrcKey(src), Text) := cls]
  {
    var o := RegisterDumper(cls, src, NoContext, Text, globals);
    r := if o.Pass? then Success(cls) else Failure(o.error);
  }

  /** Applying the decorator `@Dumper.binary(src)`. */
  method DumperBinary(src: SrcArg, cls: DumperClass, globals: Globals) returns (r: Result<DumperClass>)
    modifies globals.dumpers
    ensures src.OtherArg? ==> r == Failure(TypeError) && globals.dumpers.entries == old(globals.dumpers.entries)
    ensures !src.OtherArg? ==>
              r == Success(cls) && globals.dumpers.entries == old(globals.dumpers.entries)[(SrcKey(src), Binary) := cls]
  {
    var o := RegisterDumperBinary(cls, src, NoContext, globals);
    r := if o.Pass? then Success(cls) else Failure(o.error);
  }

  /** `Loader.register`: TypeError for an `oid` that is not an int,
      AttributeError for a context without registries; otherwise exactly
      `(oid, format)` is (over)written in the context's or the global registry. */
  method RegisterLoader(cls: LoaderClass, oid: OidArg, context: Context, format: Format, globals: Globals)
    returns (o: Outcome)
    modifies LoadersFrame(context, globals)
    ensures oid.NotInt? ==> o == Fail(TypeError)
    ensures oid.IntOid? && context.ForeignContext? ==> o == Fail(AttributeError)
    ensures o.Fail? ==> forall m :: m in LoadersFrame(context, globals) ==> m.entries == old(m.entries)
    ensures oid.IntOid? && !context.ForeignContext? ==>
              var where := LoadersTarget(context, globals).value;
              o.Pass? && where.entries == old(where.entries)[(oid.oid, format) := cls]
  {
    if oid.NotInt? {
      return Fail(TypeError);
    }
    if context.ForeignContext? {
      return Fail(AttributeError);
    }
    var where := LoadersTarget(context, globals).value;
    where.entries := where.entries[(oid.oid, format) := cls];
    return Pass;
  }

  /** `Loader.register_binary`: `register` with the binary format. */
  method RegisterLoaderBinary(cls: LoaderClass, oid: OidArg, context: Context, globals: Globals)
    returns (o: Outcome)
    modifies LoadersFrame(context, globals)
    ensures oid.NotInt? ==> o == Fail(TypeError)
    ensures oid.IntOid? && context.ForeignContext? ==> o == Fail(AttributeError)
    ensures o.Fail? ==> forall m :: m in LoadersFrame(context, globals) ==> m.entries == old(m.entries)
    ensures oid.IntOid? && !context.ForeignContext? ==>
              var where := LoadersTarget(context, globals).value;
              o.Pass? && where.entries == old(where.entries)[(oid.oid, Binary) := cls]
  {
    o := RegisterLoader(cls, oid, context, Binary, globals);
  }

  /** Applying the decorator `@Loader.text(oid)` to a class. */
  method LoaderText(oid: OidArg, cls: LoaderClass, globals: Globals) returns (r: Result<LoaderClass>)
    modifies globals.loaders
    ensures oid.NotInt? ==> r == Failure(TypeError) && globals.loaders.entries == old(globals.loaders.entries)
    ensures oid.IntOid? ==>
              r == Success(cls) && globals.loaders.entries == old(globals.loaders.entries)[(oid.oid, Text) := cls]
  {
    var o := RegisterLoader(cls, oid, NoContext, Text, globals);
    r := if o.Pass? then Success(cls) else Failure(o.error);
  }

  /** Applying the decorator `@Loader.binary(oid)` to a class. */
  method LoaderBinary(oid: OidArg, cls: LoaderClass, globals: Globals) returns (r: Result<LoaderClass>)
    modifies globals.loaders
    ensures oid.NotInt? ==> r == Failure(TypeError) && globals.loaders.entries == old(globals.loaders.entries)
    ensures oid.IntOid? ==>
              r == Success(cls) && globals.loaders.entries == old(globals.loaders.entries)[(oid.oid, Binary) := cls]
  {
    var o := RegisterLoaderBinary(cls, oid, NoContext, globals);
    r := if o.Pass? then Success(cls) else Failure(o.error);
  }

  /** A class registered in a Transformer's own registry is what that
      Transformer's `get_dumper` finds first for objects of exactly that class. */
  lemma RegisteredDumperIsFound(chain: seq<DumperEntries>, obj: PyObj, format: Format, dc: DumperClass)
    requires |chain| > 0
    ensures var t := TypeOf(obj);
            var chain' := chain[0 := chain[0][(SrcKey(ClassArg(t.cls)), format) := dc]];
            FindInChain(chain', ByType, t.Mro(), format, 0) == Some((0, t.cls, dc))
  {
    var t := TypeOf(obj);
    var chain' := chain[0 := chain[0][(SrcKey(ClassArg(t.cls)), format) := dc]];
    ExactRegistrationFirstWins(chain', t, format);
  }
}
