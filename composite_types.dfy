/** The composite support of types/composite.py: the tuple dumper, the
    record and composite loaders with their nested Transformers, and
    `register`, which generates the loaders of one composite type. */
module CompositeTypes {
  import opened Base
  import opened Registry
  import TextTypes
  import opened Transform
  import opened Adapt
  import opened RecordText
  import opened RecordBinary

  /** Calling the composite factory with the loaded fields: a namedtuple class
      takes exactly one value per field name. */
  function Construct(factory: Factory, values: seq<Option<PyObj>>, f: TextTypes.Foreign): (r: Result<PyObj>)
    ensures factory.NamedTuple? ==> (r.Success? <==> |values| == |factory.fieldNames|)
    ensures factory.NamedTuple? && r.Success? ==>
              r.value == PyRecord(factory.typeName, factory.fieldNames, values)
    ensures factory.NamedTuple? && r.Failure? ==> r.error == TypeError
    ensures factory.CustomFactory? ==> r == f.construct(factory.id, values)
  {
    match factory
    case NamedTuple(name, names) =>
      if |values| == |names| then Success(PyRecord(name, names, values)) else Failure(TypeError)
    case CustomFactory(id) => f.construct(id, values)
  }

  /** The tokens of a record passed through one loader, NULL kept. */
  function CastTokens(cast: Loader, tokens: seq<Option<bytes>>, f: TextTypes.Foreign)
    : (r: Result<seq<Option<PyObj>>>)
    ensures r.Success? ==>
              |r.value| == |tokens|
              && forall i :: 0 <= i < |tokens| ==>
                   (r.value[i].None? <==> tokens[i].None?)
                   && (tokens[i].Some? ==> TextTypes.Load(cast, tokens[i].value, f) == Success(r.value[i].value))
    ensures r.Failure? <==>
              exists i :: 0 <= i < |tokens| && tokens[i].Some? && TextTypes.Load(cast, tokens[i].value, f).Failure?
  {
    var loaders := seq(|tokens|, _ => cast);
    var d := DecodeFrom(loaders, tokens, 0, f);
    assert d.Success? ==> forall i :: 0 <= i < |tokens| ==> DecodeCell(loaders, i, tokens[i], f).Success?;
    d
  }

  function Concat(parts: seq<bytes>): bytes
  {
    if parts == [] then [] else Concat(parts[..|parts| - 1]) + parts[|parts| - 1]
  }

  lemma ConcatAppend(parts: seq<bytes>, x: bytes)
    ensures Concat(parts + [x]) == Concat(parts) + x
  {
    assert (parts + [x])[..|parts|] == parts;
  }

  /** `TupleDumper`: dumps each item with the dumper its nested Transformer
      picks for the text format and writes the record syntax. */
  class TupleTextDumper {
    const src: ClassRef
    const connection: Option<Connection>
    const tx: Transformer

    constructor (src: ClassRef, context: Context, globals: Globals)
      requires !context.ForeignContext?
      requires context.TransformerContext? ==> context.parent.Valid() && context.parent.globals == globals
      ensures this.src == src && ConnectionFromContext(context) == Success(connection)
      ensures fresh(tx) && tx.Valid() && tx.globals == globals && tx.connection == connection
    {
      this.src := src;
      connection := ConnectionFromContext(context).value;
      tx := new Transformer(context, globals);
    }

    /** `TupleDumper.dump`: `()` for the empty tuple, else every item's
        dumped text, quoted and escaped where needed, between parentheses and
        separated by commas, an empty field for `None`. `fields` are the items
        as dumped, before quoting, and `ds` the dumpers the nested Transformer
        gave for them. It fails at the first item whose dumper lookup or dump
        fails, with that failure. */
    method Dump(items: seq<Option<PyObj>>, f: TextTypes.Foreign)
      returns (r: Result<bytes>, ghost fields: seq<Option<bytes>>, ghost ds: seq<Option<Dumper>>)
      requires tx.Valid()
      modifies tx`dumpersCache, set m | m in tx.dumpersMaps
      ensures tx.Valid()
      ensures items == [] ==> r == Success([LPAREN, RPAREN])
      ensures r.Success? ==>
                |fields| == |items| && |ds| == |items|
                && (forall i :: 0 <= i < |items| ==> DumpedItem(items[i], fields[i], ds[i], tx.connection, f))
                && r.value == ComposeRecord(Corrected, fields)
      ensures r.Failure? ==> FailedAt(items, fields, ds, f, r.error)
    {
      if |items| == 0 {
        return Success([LPAREN, RPAREN]), [], [];
      }
      var parts, err;
      parts, err, fields, ds := DumpParts(items, f);
      if err.Some? {
        return Failure(err.value), fields, ds;
      }
      AllDumpedEach(items, fields, ds, tx.connection, f);
      CloseRecord(parts, fields);
      parts := parts[|parts| - 1 := [RPAREN]];
      return Success(Concat(parts)), fields, ds;
    }

    /** The loop of `TupleDumper.dump`: the opening parenthesis, then each
        item's field and a comma; `err` is the failure that stops it at the
        first item whose dumper lookup or dump fails. */
    method DumpParts(items: seq<Option<PyObj>>, f: TextTypes.Foreign)
      returns (parts: seq<bytes>, err: Option<Error>, ghost fields: seq<Option<bytes>>, ghost ds: seq<Option<Dumper>>)
      requires tx.Valid() && items != []
      modifies tx`dumpersCache, set m | m in tx.dumpersMaps
      ensures tx.Valid()
      ensures err.None? ==>
                AllDumped(items, fields, ds, tx.connection, f)
                && |parts| > 0 && Concat(parts) == Opened(fields) && parts[|parts| - 1] == [COMMA]
      ensures err.Some? ==> FailedAt(items, fields, ds, f, err.value)
    {
      fields, ds := [], [];
      parts := [[LPAREN]];
      var i := 0;
      while i < |items|
        invariant 0 <= i <= |items| && |fields| == i
        invariant tx.Valid()
        invariant AllDumped(items[..i], fields, ds, tx.connection, f)
        invariant |parts| > 0 && Concat(parts) == Opened(fields)
        invariant fields != [] ==> parts[|parts| - 1] == [COMMA]
      {
        var item := items[i];
        ghost var before := parts;
        var field: Option<bytes> := None;
        ghost var d: Option<Dumper> := None;
        if item.Some? {
          ghost var dd;
          var ad;
          ad, dd := DumpItem(item.value, f);
          if ad.Failure? {
            FailedHere(items, fields, ds, item.value, dd, f, ad.error);
            return parts, Some(ad.error), fields, if dd.Some? then ds + [dd] else ds;
          }
          field, d := Some(ad.value), dd;
          parts := parts + [QuoteField(Corrected, ad.value)];
        }
        parts := parts + [[COMMA]];
        AppendField(before, fields, field, parts);
        AllDumpedStep(items, fields, ds, i, field, d, tx.connection, f);
        fields, ds := fields + [field], ds + [d];
        i := i + 1;
      }
      assert items[..i] == items;
      return parts, None, fields, ds;
    }

    /** Stopping at item `|fields|` after its dumper `dd`, or its lookup, failed. */
    lemma FailedHere(items: seq<Option<PyObj>>, fields: seq<Option<bytes>>, ds: seq<Option<Dumper>>,
                     x: PyObj, dd: Option<Dumper>, f: TextTypes.Foreign, err: Error)
      requires |fields| < |items| && items[|fields|] == Some(x)
      requires AllDumped(items[..|fields|], fields, ds, tx.connection, f)
      requires dd.None? ==> tx.DumperLookup(x, Text).Failure? && err == ProgrammingError(TypeOf(x).cls.name, Text)
      requires dd.Some? ==> ItemFails(x, dd.value, f, err)
      ensures FailedAt(items, fields, if dd.Some? then ds + [dd] else ds, f, err)
    {
      var i := |fields|;
      AllDumpedEach(items[..i], fields, ds, tx.connection, f);
      var ds' := if dd.Some? then ds + [dd] else ds;
      forall k | 0 <= k < i
        ensures DumpedItem(items[k], fields[k], ds'[k], tx.connection, f)
      {
        assert items[..i][k] == items[k] && ds'[k] == ds[k];
      }
    }

    /** How `TupleDumper.dump` stops at item `i == |fields|`: every earlier
        item was dumped, and this one is not `None` and either has no dumper
        (`ds` ends before it; the lookup still fails) or its dumper, last in
        `ds`, failed with `err`. */
    ghost predicate FailedAt(items: seq<Option<PyObj>>, fields: seq<Option<bytes>>, ds: seq<Option<Dumper>>,
                             f: TextTypes.Foreign, err: Error)
      reads tx, set m | m in tx.dumpersMaps
    {
      var i := |fields|;
      && i < |items| && items[i].Some? && (|ds| == i || |ds| == i + 1)
      && (forall k :: 0 <= k < i ==> DumpedItem(items[k], fields[k], ds[k], tx.connection, f))
      && (|ds| == i ==>
            tx.DumperLookup(items[i].value, Text).Failure?
            && err == ProgrammingError(TypeOf(items[i].value).cls.name, Text))
      && (|ds| == i + 1 ==> ds[i].Some? && ItemFails(items[i].value, ds[i].value, f, err))
    }

    /** The dumper `d` found for `x`, adapting a class of its MRO on the
        Transformer's connection, fails on it with `err`. */
    ghost predicate ItemFails(x: PyObj, d: Dumper, f: TextTypes.Foreign, err: Error)
      reads tx
    {
      d.connection == tx.connection && d.src in TypeOf(x).Mro() && TextTypes.Dump(d, x, f) == Failure(err)
    }

    /** One non-NULL item: the text dumper `get_dumper` gives for it, `d`,
        applied to it; a failed lookup fails with its error and changes
        nothing. */
    method DumpItem(item: PyObj, f: TextTypes.Foreign) returns (r: Result<bytes>, ghost d: Option<Dumper>)
      requires tx.Valid()
      modifies tx`dumpersCache, set m | m in tx.dumpersMaps
      ensures tx.Valid()
      ensures var look := old(tx.DumperLookup(item, Text));
              && (look.Failure? ==> r == Failure(look.error) && d.None? && tx.DumperLookup(item, Text) == look)
              && (look.Success? ==>
                    d == Some(look.value) && r == TextTypes.Dump(look.value, item, f)
                    && look.value.connection == tx.connection && look.value.src in TypeOf(item).Mro())
      ensures r.Success? ==> DumpedItem(Some(item), Some(r.value), d, tx.connection, f)
      ensures r.Failure? && d.None? ==>
                tx.DumperLookup(item, Text).Failure? && r.error == ProgrammingError(TypeOf(item).cls.name, Text)
      ensures r.Failure? && d.Some? ==> ItemFails(item, d.value, f, r.error)
    {
      var dumper := tx.GetDumper(item, Text);
      if dumper.Failure? {
        return Failure(dumper.error), None;
      }
      d := Some(dumper.value);
      r := TextTypes.Dump(dumper.value, item, f);
    }
  }

  /** How `TupleDumper.dump` handles one item: `None` gives an empty field
      and uses no dumper; any other item gives the field that the dumper `d`
      found for it produces, `d` adapting a class of the item's MRO on the
      Transformer's connection. */
  ghost predicate DumpedItem(item: Option<PyObj>, field: Option<bytes>, d: Option<Dumper>,
                             conn: Option<Connection>, f: TextTypes.Foreign)
  {
    match item
    case None => field.None? && d.None?
    case Some(x) =>
      field.Some? && d.Some? && d.value.connection == conn && d.value.src in TypeOf(x).Mro()
      && TextTypes.Dump(d.value, x, f) == Success(field.value)
  }

  /** `DumpedItem` for every position of `items`, `fields` and `ds`. */
  ghost predicate AllDumped(items: seq<Option<PyObj>>, fields: seq<Option<bytes>>, ds: seq<Option<Dumper>>,
                            conn: Option<Connection>, f: TextTypes.Foreign)
    decreases |items|
  {
    && |fields| == |items| && |ds| == |items|
    && (items != [] ==>
          var n := |items| - 1;
          AllDumped(items[..n], fields[..n], ds[..n], conn, f) && DumpedItem(items[n], fields[n], ds[n], conn, f))
  }

  lemma AllDumpedStep(items: seq<Option<PyObj>>, fields: seq<Option<bytes>>, ds: seq<Option<Dumper>>, i: nat,
                      field: Option<bytes>, d: Option<Dumper>, conn: Option<Connection>, f: TextTypes.Foreign)
    requires i < |items| && AllDumped(items[..i], fields, ds, conn, f)
    requires DumpedItem(items[i], field, d, conn, f)
    ensures AllDumped(items[..i + 1], fields + [field], ds + [d], conn, f)
  {
    assert items[..i + 1][..i] == items[..i];
    assert (fields + [field])[..i] == fields;
    assert (ds + [d])[..i] == ds;
  }

  lemma {:induction false} AllDumpedAt(items: seq<Option<PyObj>>, fields: seq<Option<bytes>>, ds: seq<Option<Dumper>>,
                                       conn: Option<Connection>, f: TextTypes.Foreign, k: nat)
    requires AllDumped(items, fields, ds, conn, f) && k < |items|
    ensures DumpedItem(items[k], fields[k], ds[k], conn, f)
    decreases |items|
  {
    var n := |items| - 1;
    if k < n {
      AllDumpedAt(items[..n], fields[..n], ds[..n], conn, f, k);
    }
  }

  lemma AllDumpedEach(items: seq<Option<PyObj>>, fields: seq<Option<bytes>>, ds: seq<Option<Dumper>>,
                      conn: Option<Connection>, f: TextTypes.Foreign)
    requires AllDumped(items, fields, ds, conn, f)
    ensures |fields| == |items| && |ds| == |items|
    ensures forall k :: 0 <= k < |items| ==> DumpedItem(items[k], fields[k], ds[k], conn, f)
  {
    forall k | 0 <= k < |items|
      ensures DumpedItem(items[k], fields[k], ds[k], conn, f)
    {
      AllDumpedAt(items, fields, ds, conn, f, k);
    }
  }

  /** What the parts `TupleDumper.dump` has collected after the fields
      `fields` join to: the opening parenthesis, then each field followed by
      a comma. */
  ghost function Opened(fields: seq<Option<bytes>>): bytes
    decreases |fields|
  {
    if fields == [] then [LPAREN]
    else Opened(fields[..|fields| - 1]) + FieldText(Corrected, fields[|fields| - 1]) + [COMMA]
  }

  /** The collected parts are the record without its closing parenthesis,
      with a trailing comma instead. */
  lemma {:induction false} OpenedIsBody(fields: seq<Option<bytes>>)
    requires fields != []
    ensures Opened(fields) == [LPAREN] + Body(Corrected, fields) + [COMMA]
    decreases |fields|
  {
    var init, last := fields[..|fields| - 1], fields[|fields| - 1];
    assert fields == init + [last];
    if init == [] {
      assert Body(Corrected, fields) == FieldText(Corrected, last);
    } else {
      var b, t := Body(Corrected, init), FieldText(Corrected, last);
      assert Opened(fields) == Opened(init) + t + [COMMA];
      OpenedIsBody(init);
      BodyAppend(Corrected, init, last);
      Regroup5([LPAREN], b, [COMMA], t, [COMMA]);
    }
  }

  lemma Regroup5(a: bytes, b: bytes, c: bytes, d: bytes, e: bytes)
    ensures a + b + c + d + e == a + (b + c + d) + e
  {
  }

  /** One more item: its field text, if any, then a comma. */
  lemma AppendField(parts: seq<bytes>, fields: seq<Option<bytes>>, field: Option<bytes>, after: seq<bytes>)
    requires Concat(parts) == Opened(fields)
    requires field.Some? ==> after == parts + [QuoteField(Corrected, field.value)] + [[COMMA]]
    requires field.None? ==> after == parts + [[COMMA]]
    ensures |after| > 0 && Concat(after) == Opened(fields + [field]) && after[|after| - 1] == [COMMA]
  {
    var text := FieldText(Corrected, field);
    if field.Some? {
      ConcatAppend(parts, text);
      ConcatAppend(parts + [text], [COMMA]);
    } else {
      ConcatAppend(parts, [COMMA]);
    }
    assert (fields + [field])[..|fields|] == fields;
  }

  /** `parts[-1] = b")"`: the trailing comma becomes the closing parenthesis. */
  lemma CloseRecord(parts: seq<bytes>, fields: seq<Option<bytes>>)
    requires fields != [] && |parts| > 0 && Concat(parts) == Opened(fields) && parts[|parts| - 1] == [COMMA]
    ensures Concat(parts[|parts| - 1 := [RPAREN]]) == ComposeRecord(Corrected, fields)
  {
    var last := |parts| - 1;
    var closed := parts[last := [RPAREN]];
    assert parts == parts[..last] + [[COMMA]];
    assert closed == parts[..last] + [[RPAREN]];
    ConcatAppend(parts[..last], [COMMA]);
    ConcatAppend(parts[..last], [RPAREN]);
    OpenedIsBody(fields);
    var whole := Concat(parts);
    assert Concat(parts[..last]) == whole[..|whole| - 1];
    assert ([LPAREN] + Body(Corrected, fields) + [COMMA])[..|whole| - 1] == [LPAREN] + Body(Corrected, fields);
    TailIsBody(Corrected, fields);
  }

  /** `RecordLoader`: a text record of unknown type, every field loaded as text. */
  class TextRecordLoader {
    const oid: int
    const fmod: int
    const connection: Option<Connection>
    const tx: Transformer

    constructor (oid: int, fmod: int, context: Context, globals: Globals)
      requires !context.ForeignContext?
      requires context.TransformerContext? ==> context.parent.Valid() && context.parent.globals == globals
      ensures this.oid == oid && this.fmod == fmod && ConnectionFromContext(context) == Success(connection)
      ensures fresh(tx) && tx.Valid() && tx.globals == globals
    {
      this.oid, this.fmod := oid, fmod;
      connection := ConnectionFromContext(context).value;
      tx := new Transformer(context, globals);
    }

    /** `RecordLoader.load`: the tokens of the record, each non-NULL one
        through the loader its Transformer gives for text. */
    method Load(data: bytes, f: TextTypes.Foreign) returns (r: Result<PyObj>)
      requires tx.Valid()
      modifies tx`loadersCache
      ensures tx.Valid()
      ensures var cast := old(tx.CachedOrResolved(TEXT_OID, Text, -1));
              && (cast.Failure? ==> r == Failure(cast.error))
              && (cast.Success? ==>
                    var vals := CastTokens(cast.value, ParseRecord(data), f);
                    (r.Success? <==> vals.Success?)
                    && (r.Success? ==> r.value == PyTuple(vals.value))
                    && (r.Failure? ==> r.error == vals.error))
    {
      var cast := tx.GetLoader(TEXT_OID, Text, -1);
      if cast.Failure? {
        return Failure(cast.error);
      }
      var vals := CastTokens(cast.value, ParseRecord(data), f);
      if vals.Failure? {
        return Failure(vals.error);
      }
      return Success(PyTuple(vals.value));
    }
  }

  /** `RecordBinaryLoader`: a binary record, its row types configured from
      the field oids of the first record loaded. */
  class BinaryRecordLoader {
    const oid: int
    const fmod: int
    const connection: Option<Connection>
    const tx: Transformer
    var typesSet: bool

    constructor (oid: int, fmod: int, context: Context, globals: Globals)
      requires !context.ForeignContext?
      requires context.TransformerContext? ==> context.parent.Valid() && context.parent.globals == globals
      ensures this.oid == oid && this.fmod == fmod && ConnectionFromContext(context) == Success(connection)
      ensures fresh(tx) && tx.Valid() && tx.globals == globals && !typesSet
    {
      this.oid, this.fmod := oid, fmod;
      connection := ConnectionFromContext(context).value;
      tx := new Transformer(context, globals);
      typesSet := false;
    }

    /** The row loaders are, field by field, the cached binary loaders for
        the oids that the fields of `data` declare. */
    ghost predicate Configured(data: bytes)
      reads tx
    {
      && WalkSpec(data).Success?
      && var refs := WalkSpec(data).value;
      && |tx.rowLoaders| == |refs|
      && forall k :: 0 <= k < |refs| ==>
           (refs[k].oid, Binary, -1) in tx.loadersCache
           && tx.rowLoaders[k] == tx.loadersCache[(refs[k].oid, Binary, -1)]
    }

    /** `_config_types`: one binary loader per field, by the field's oid. */
    method ConfigTypes(data: bytes) returns (o: Outcome)
      requires tx.Valid()
      modifies tx`loadersCache, tx`rowLoaders
      ensures tx.Valid()
      ensures WalkSpec(data).Failure? ==>
                o == Fail(StructError) && tx.rowLoaders == old(tx.rowLoaders) && tx.loadersCache == old(tx.loadersCache)
      ensures o.Pass? ==> Configured(data)
      ensures o.Fail? ==> tx.rowLoaders == old(tx.rowLoaders)
      ensures WalkSpec(data).Success? && tx.HasDefaults() ==> o.Pass?
    {
      var refs := WalkRecord(data);
      if refs.Failure? {
        return Fail(refs.error);
      }
      var oids := seq(|refs.value|, k requires 0 <= k < |refs.value| => refs.value[k].oid);
      var formats := seq(|refs.value|, _ => Binary);
      o := tx.SetRowTypes(oids, formats, []);
      if o.Pass? {
        assert forall k :: 0 <= k < |oids| ==> RowKey(oids, formats, [], k) == (refs.value[k].oid, Binary, -1);
      }
    }

    /** The fields of `RecordBinaryLoader.load`, before any factory. */
    method LoadFields(data: bytes, f: TextTypes.Foreign) returns (r: Result<seq<Option<PyObj>>>)
      requires tx.Valid()
      modifies this`typesSet, tx`loadersCache, tx`rowLoaders
      ensures tx.Valid()
      ensures old(typesSet) ==>
                typesSet && tx.rowLoaders == old(tx.rowLoaders) && tx.loadersCache == old(tx.loadersCache)
      ensures !old(typesSet) && WalkSpec(data).Failure? ==> !typesSet && r == Failure(StructError)
      ensures !old(typesSet) && WalkSpec(data).Success? && tx.HasDefaults() ==> typesSet
      ensures !old(typesSet) && typesSet ==> Configured(data)
      ensures r.Success? <==>
                typesSet && WalkSpec(data).Success?
                && tx.LoadSequence(Cells(data, WalkSpec(data).value), f).Success?
      ensures r.Success? ==> r == tx.LoadSequence(Cells(data, WalkSpec(data).value), f)
    {
      if !typesSet {
        var o := ConfigTypes(data);
        if o.Fail? {
          return Failure(o.error);
        }
        typesSet := true;
      }
      var refs := WalkRecord(data);
      if refs.Failure? {
        return Failure(refs.error);
      }
      r := tx.LoadSequence(Cells(data, refs.value), f);
    }

    /** `RecordBinaryLoader.load`: the fields as a tuple. */
    method Load(data: bytes, f: TextTypes.Foreign) returns (r: Result<PyObj>)
      requires tx.Valid()
      modifies this`typesSet, tx`loadersCache, tx`rowLoaders
      ensures tx.Valid()
      ensures old(typesSet) ==>
                typesSet && tx.rowLoaders == old(tx.rowLoaders) && tx.loadersCache == old(tx.loadersCache)
      ensures !old(typesSet) && WalkSpec(data).Failure? ==> !typesSet && r == Failure(StructError)
      ensures !old(typesSet) && WalkSpec(data).Success? && tx.HasDefaults() ==> typesSet
      ensures !old(typesSet) && typesSet ==> Configured(data)
      ensures r.Success? <==>
                typesSet && WalkSpec(data).Success?
                && tx.LoadSequence(Cells(data, WalkSpec(data).value), f).Success?
      ensures r.Success? ==> r.value == PyTuple(tx.LoadSequence(Cells(data, WalkSpec(data).value), f).value)
    {
      var fields := LoadFields(data, f);
      if fields.Failure? {
        return Failure(fields.error);
      }
      return Success(PyTuple(fields.value));
    }
  }

  /** `CompositeBinaryLoader`: the binary record loader whose fields are
      passed to the type's factory. */
  class BinaryCompositeLoader {
    const record: BinaryRecordLoader
    const factory: Factory

    constructor (factory: Factory, oid: int, fmod: int, context: Context, globals: Globals)
      requires !context.ForeignContext?
      requires context.TransformerContext? ==> context.parent.Valid() && context.parent.globals == globals
      ensures this.factory == factory && fresh(record) && fresh(record.tx)
      ensures record.oid == oid && record.fmod == fmod && record.tx.Valid() && !record.typesSet
      ensures ConnectionFromContext(context) == Success(record.connection)
    {
      this.factory := factory;
      record := new BinaryRecordLoader(oid, fmod, context, globals);
    }

    method Load(data: bytes, f: TextTypes.Foreign) returns (r: Result<PyObj>)
      requires record.tx.Valid()
      modifies record`typesSet, record.tx`loadersCache, record.tx`rowLoaders
      ensures record.tx.Valid()
      ensures old(record.typesSet) ==>
                record.typesSet && record.tx.rowLoaders == old(record.tx.rowLoaders)
                && record.tx.loadersCache == old(record.tx.loadersCache)
      ensures !old(record.typesSet) && WalkSpec(data).Failure? ==> !record.typesSet && r == Failure(StructError)
      ensures !old(record.typesSet) && WalkSpec(data).Success? && record.tx.HasDefaults() ==> record.typesSet
      ensures !old(record.typesSet) && record.typesSet ==> record.Configured(data)
      ensures record.typesSet && WalkSpec(data).Success? ==>
                var fields := record.tx.LoadSequence(Cells(data, WalkSpec(data).value), f);
                fields.Success? ==> r == Construct(factory, fields.value, f)
      ensures r.Success? ==>
                record.typesSet && WalkSpec(data).Success?
                && record.tx.LoadSequence(Cells(data, WalkSpec(data).value), f).Success?
    {
      var fields := record.LoadFields(data, f);
      if fields.Failure? {
        return Failure(fields.error);
      }
      r := Construct(factory, fields.value, f);
    }
  }

  /** `CompositeLoader`: a text record of a known composite type, its row
      types configured once from the type's field oids. */
  class TextCompositeLoader {
    const oid: int
    const fmod: int
    const connection: Option<Connection>
    const tx: Transformer
    const factory: Factory
    const fieldsTypes: seq<int>
    var typesSet: bool

    constructor (factory: Factory, fieldsTypes: seq<int>, oid: int, fmod: int, context: Context, globals: Globals)
      requires !context.ForeignContext?
      requires context.TransformerContext? ==> context.parent.Valid() && context.parent.globals == globals
      ensures this.factory == factory && this.fieldsTypes == fieldsTypes && this.oid == oid && this.fmod == fmod
      ensures ConnectionFromContext(context) == Success(connection)
      ensures fresh(tx) && tx.Valid() && tx.globals == globals && !typesSet
    {
      this.factory, this.fieldsTypes := factory, fieldsTypes;
      this.oid, this.fmod := oid, fmod;
      connection := ConnectionFromContext(context).value;
      tx := new Transformer(context, globals);
      typesSet := false;
    }

    /** The row loaders are, field by field, the cached text loaders for
        the declared field oids. */
    ghost predicate Configured()
      reads tx
    {
      && |tx.rowLoaders| == |fieldsTypes|
      && forall k :: 0 <= k < |fieldsTypes| ==>
           (fieldsTypes[k], Text, -1) in tx.loadersCache
           && tx.rowLoaders[k] == tx.loadersCache[(fieldsTypes[k], Text, -1)]
    }

    /** `CompositeLoader._config_types`: one text loader per declared field. */
    method ConfigTypes() returns (o: Outcome)
      requires tx.Valid()
      modifies tx`loadersCache, tx`rowLoaders
      ensures tx.Valid()
      ensures o.Pass? ==> Configured()
      ensures o.Fail? ==> o.error == KeyError && tx.rowLoaders == old(tx.rowLoaders)
      ensures tx.HasDefaults() ==> o.Pass?
    {
      var formats := seq(|fieldsTypes|, _ => Text);
      o := tx.SetRowTypes(fieldsTypes, formats, []);
      if o.Pass? {
        assert forall k :: 0 <= k < |fieldsTypes| ==> RowKey(fieldsTypes, formats, [], k) == (fieldsTypes[k], Text, -1);
      }
    }

    /** `CompositeLoader.load`: the record's tokens loaded by the configured
        column loaders, then passed to the factory. */
    method Load(data: bytes, f: TextTypes.Foreign) returns (r: Result<PyObj>)
      requires tx.Valid()
      modifies this`typesSet, tx`loadersCache, tx`rowLoaders
      ensures tx.Valid()
      ensures old(typesSet) ==>
                typesSet && tx.rowLoaders == old(tx.rowLoaders) && tx.loadersCache == old(tx.loadersCache)
      ensures !old(typesSet) && tx.HasDefaults() ==> typesSet
      ensures !old(typesSet) && typesSet ==> Configured()
      ensures !old(typesSet) && !typesSet ==> r == Failure(KeyError) && tx.rowLoaders == old(tx.rowLoaders)
      ensures var vals := tx.LoadSequence(ParseRecord(data), f);
              typesSet && vals.Success? ==> r == Construct(factory, vals.value, f)
      ensures var vals := tx.LoadSequence(ParseRecord(data), f);
              r.Success? ==> typesSet && vals.Success?
    {
      if !typesSet {
        var o := ConfigTypes();
        if o.Fail? {
          return Failure(o.error);
        }
        typesSet := true;
      }
      var vals := tx.LoadSequence(ParseRecord(data), f);
      if vals.Failure? {
        return Failure(vals.error);
      }
      r := Construct(factory, vals.value, f);
    }
  }

  /** A dumper registry after the `tuple` decorator of types/composite.py. */
  function WithCompositeDumpers(m: map<(Src, Format), DumperClass>): map<(Src, Format), DumperClass>
  {
    m[(TypeSrc(TupleClass), Text) := TupleDumper]
  }

  /** A loader registry after the `record` decorators of types/composite.py. */
  function WithCompositeLoaders(m: LoaderEntries): LoaderEntries
  {
    m[(RECORD_OID, Text) := RecordLoader][(RECORD_OID, Binary) := RecordBinaryLoader]
  }

  /** The class decorators of types/composite.py, in module order. */
  method RegisterCompositeAdapters(globals: Globals)
    modifies globals.dumpers, globals.loaders
    ensures globals.dumpers.entries == WithCompositeDumpers(old(globals.dumpers.entries))
    ensures globals.loaders.entries == WithCompositeLoaders(old(globals.loaders.entries))
  {
    var _ := DumperText(ClassArg(TupleClass), TupleDumper, globals);
    var _ := LoaderText(IntOid(RECORD_OID), RecordLoader, globals);
    var _ := LoaderBinary(IntOid(RECORD_OID), RecordBinaryLoader, globals);
  }

  /** With the composite adapters registered, a record column that no more
      specific registry claims loads with the record loader of its format. */
  lemma RecordColumnsResolve(chain: seq<LoaderEntries>, before: LoaderEntries, format: Format,
                             fmod: int, conn: Option<Connection>)
    requires |chain| > 0 && chain[|chain| - 1] == WithCompositeLoaders(before)
    requires forall n :: 0 <= n < |chain| - 1 ==> (RECORD_OID, format) !in chain[n]
    ensures ResolveLoaderIn(chain, map[], RECORD_OID, format, fmod, conn)
            == Success(Loader(if format == Text then RecordLoader else RecordBinaryLoader, RECORD_OID, fmod, conn))
  {
    var n := |chain| - 1;
    if format == Text {
      assert chain[n][(RECORD_OID, Text)] == RecordLoader;
    } else {
      assert chain[n][(RECORD_OID, Binary)] == RecordBinaryLoader;
    }
    RegisteredLoaderResolves(chain, map[], RECORD_OID, format, fmod, conn, n);
  }

  /** A field of a composite type: its name and its type oid. */
  datatype FieldInfo = FieldInfo(name: string, typeOid: int)

  /** `CompositeTypeInfo`: name, oid, array oid and fields of a composite type. */
  datatype CompositeTypeInfo = CompositeTypeInfo(name: string, oid: int, arrayOid: int, fields: seq<FieldInfo>)

  /** The factory `register` uses: the one given, else a namedtuple class
      named after the type with one field per attribute. */
  function FactoryFor(info: CompositeTypeInfo, factory: Option<Factory>): (fac: Factory)
    ensures factory.Some? ==> fac == factory.value
    ensures factory.None? ==>
              fac.NamedTuple? && fac.typeName == info.name && |fac.fieldNames| == |info.fields|
              && forall k :: 0 <= k < |info.fields| ==> fac.fieldNames[k] == info.fields[k].name
  {
    if factory.Some? then factory.value
    else NamedTuple(info.name, seq(|info.fields|, k requires 0 <= k < |info.fields| => info.fields[k].name))
  }

  function FieldTypes(info: CompositeTypeInfo): (types: seq<int>)
    ensures |types| == |info.fields| && forall k :: 0 <= k < |info.fields| ==> types[k] == info.fields[k].typeOid
  {
    seq(|info.fields|, k requires 0 <= k < |info.fields| => info.fields[k].typeOid)
  }

  /** `register`: a generated text loader and a generated binary loader for
      the type's oid in the context's registry (the global one without a
      context). The array registration, requested only for a nonzero array
      oid, is returned as `(array oid, element oid)`. */
  method Register(info: CompositeTypeInfo, context: Context, factory: Option<Factory>, globals: Globals)
    returns (o: Outcome, arrayRequest: Option<(int, int)>)
    modifies LoadersFrame(context, globals)
    ensures context.ForeignContext? ==> o == Fail(AttributeError) && arrayRequest.None?
    ensures !context.ForeignContext? ==>
              var where := LoadersTarget(context, globals).value;
              var fac := FactoryFor(info, factory);
              o.Pass?
              && where.entries == old(where.entries)
                   [(info.oid, Text) := CompositeLoader(info.name, fac, FieldTypes(info))]
                   [(info.oid, Binary) := CompositeBinaryLoader(info.name, fac)]
              && (arrayRequest.Some? <==> info.arrayOid != 0)
              && (arrayRequest.Some? ==> arrayRequest.value == (info.arrayOid, info.oid))
  {
    var fac := FactoryFor(info, factory);
    arrayRequest := None;
    o := RegisterLoader(CompositeLoader(info.name, fac, FieldTypes(info)), IntOid(info.oid), context, Text, globals);
    if o.Fail? {
      return;
    }
    o := RegisterLoader(CompositeBinaryLoader(info.name, fac), IntOid(info.oid), context, Binary, globals);
    if info.arrayOid != 0 {
      arrayRequest := Some((info.arrayOid, info.oid));
    }
  }

  /** After `register`, the type's oid resolves to the generated loaders in
      any chain whose first registry holding the oid is the one registered in. */
  lemma RegisteredCompositeResolves(chain: seq<LoaderEntries>, defaults: LoaderEntries, info: CompositeTypeInfo,
                                    fac: Factory, fmod: int, conn: Option<Connection>, n: nat)
    requires n < |chain|
    requires (info.oid, Text) in chain[n] && chain[n][(info.oid, Text)] == CompositeLoader(info.name, fac, FieldTypes(info))
    requires forall n' :: 0 <= n' < n ==> (info.oid, Text) !in chain[n']
    ensures ResolveLoaderIn(chain, defaults, info.oid, Text, fmod, conn)
            == Success(Loader(CompositeLoader(info.name, fac, FieldTypes(info)), info.oid, fmod, conn))
  {
    RegisteredLoaderResolves(chain, defaults, info.oid, Text, fmod, conn, n);
  }
}
