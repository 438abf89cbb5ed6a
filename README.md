# psycopg3 value adaptation, modelled in Dafny

psycopg3 converts between Python values and the text and binary wire formats
of PostgreSQL. Its core is the **Transformer**, a per-query object. It:

- chains the handler registries of its context: its own, the cursor's, the
  connection's and the global one;
- picks a **Dumper** for each outgoing Python value by class, walking the
  class's MRO (method resolution order), with a second pass by qualified name;
- picks a **Loader** for each result column by `(oid, format)`, falling back
  to the global `INVALID_OID` default;
- caches both;
- keeps one loader per column of the attached result and decodes rows.

Around it the model covers four other parts:

- **Registration** (`Dumper.register`, `Loader.register` and their
  decorators), which writes one entry into a context registry or the global
  one.
- The **text and bytea handlers**, including how each chooses an encoding
  from the connection.
- The **composite support**:
  - the tuple dumper;
  - the text record syntax of PostgreSQL documentation section 8.16.6
    ("Composite Type Input and Output Syntax");
  - the binary record layout: a big-endian `int32` field count, then per
    field `uint32 oid`, `int32 length` and the bytes, with length -1 for NULL;
  - the record and composite loaders;
  - `register`, which installs the loaders of a composite type.

Modules follow the program: `Base` (Python objects, errors, oids),
`Registry` (handler classes, registry objects, connections and cursors),
`TextTypes`, `Transform`, `Adapt`, `TextTypesInit` (the registrations
that importing types/text.py performs), `RecordText`, `RecordBinary` and
`CompositeTypes`. Registries, Transformers and the composite loaders are
classes whose methods update their fields, as in the source. Resolution,
decoding, the record syntax and the binary walk are also stated as
functions; the methods are proved against those functions.

Where a source comment differs from the code, the model follows the code:

- Transformer sharing. The comment at _transform.py:65-66 says a nested
  Transformer shares the entire state of its parent. The code shares the
  connection, the encoding and the registries, but the nested Transformer
  starts with empty caches and an empty row-loader list.

Two source behaviours the model keeps as written:

- Oid checks. `Loader.register` (adapt.py:105-111) only checks that the
  oid is an `int`; it does not check that it is non-negative.
- Missing default. Loader resolution (_transform.py:232-238) raises
  `KeyError` when the global `(INVALID_OID, format)` default is missing.

## Model

| member | source | states |
|---|---|---|
| Transform.ConnectionFromContext | psycopg3/psycopg3/adapt.py:135-147 | Gives `None` for no context, the connection itself, a cursor's connection, or a Transformer's connection; gives TypeError exactly for any other object |
| Transform.FindInMro | psycopg3/psycopg3/_transform.py:170-177 | Gives nothing iff no class of the MRO has a key in the registry; otherwise the first such class and its dumper class |
| Transform.FindInChain | psycopg3/psycopg3/_transform.py:169-177 | Gives nothing iff no registry of the chain serves any MRO class; otherwise the first serving registry, every earlier one serving nothing |
| Transform.AncestorServesDescendant | psycopg3/psycopg3/_transform.py:167-177 | A dumper registered for any ancestor in any registry makes the by-class pass succeed for the descendant |
| Transform.FirstHitWins | psycopg3/psycopg3/_transform.py:169-177 | The by-class hit comes from a registry before which no registry holds any MRO class; inside it, the hit is the most derived registered class |
| Transform.ExactRegistrationFirstWins | psycopg3/psycopg3/_transform.py:169-177 | A registration of the exact runtime class in the first registry is the one picked, matched on the class itself |
| Transform.NameFallbackServesDescendant | psycopg3/psycopg3/_transform.py:179-190 | With each ancestor's own module in the name, a registration under an ancestor's qualified name serves every descendant (the corrected name pass) |
| Transform.NameFallbackAsWrittenMissesAncestor | psycopg3/psycopg3/_transform.py:182 | The name as written joins the runtime class's module with the ancestor's qualname, so a subclass in module `app` of `uuid.UUID` misses the `"uuid.UUID"` registration that the corrected pass finds |
| Transform.FindLoaderClass | psycopg3/psycopg3/_transform.py:229-233 | Gives nothing iff no registry holds `(oid, format)`; otherwise the entry of the first registry holding it |
| Transform.ResolveLoaderIn | psycopg3/psycopg3/_transform.py:229-239 | The loader keeps the requested oid, fmod and connection. It fails (KeyError) iff no registry holds the key and the global `(INVALID_OID, format)` default is missing. Otherwise it uses that default when no registry matches |
| Transform.RegisteredLoaderResolves | psycopg3/psycopg3/_transform.py:229-239 | A class registered under `(oid, format)` in a registry with no earlier registry holding the key is the class resolved |
| Transform.FmodOnlyBindsInstance | psycopg3/psycopg3/_transform.py:223-239 | Two fmods give the same success and the same loader class: the fmod is not part of the registry lookup |
| Transform.DecodeCell | psycopg3/psycopg3/_transform.py:207-209 | NULL stays NULL. A non-NULL cell without a column loader is an IndexError. Otherwise the cell succeeds iff its loader does, with the loader's value |
| Transform.DecodeFrom | psycopg3/psycopg3/_transform.py:205-212 | On success one value per cell, each the cell's own decoding; on failure the error of the first failing cell, all earlier cells decoding |
| Transform.Transformer.constructor | psycopg3/psycopg3/_transform.py:34-99 | Chains per context: `[own, globals]`; `[own, conn, globals]`; `[own, cursor, cursor.connection, globals]`; or the parent's chains, own registries aliased. Encoding utf-8 or `pyenc`, empty caches, no result |
| Transform.Transformer.GetDumper | psycopg3/psycopg3/_transform.py:157-195 | Returns what `DumperLookup` gives in the state before the call. Four cases: a cached dumper for the runtime class; the first by-class hit, cached under the matched class; the first by-name hit, written back by class into that registry and cached; or ProgrammingError with the type name and format, nothing changed |
| Transform.Transformer.DumperLookup | psycopg3/psycopg3/_transform.py:157-195 | In a valid Transformer, a dumper found for an object adapts a class of the object's MRO and carries the Transformer's connection; a failed lookup is ProgrammingError naming the object's type and the format |
| Transform.Transformer.ResolveDumper | psycopg3/psycopg3/_transform.py:164-195 | On a cache miss, returns the lookup's result; a by-class hit is cached under the matched class with every registry unchanged; otherwise the by-name pass decides |
| Transform.Transformer.ResolveByName | psycopg3/psycopg3/_transform.py:178-195 | With no by-class hit, returns the lookup's result; a by-name hit is written back by class into the registry that had the name, no other registry changes, and it is cached; no hit changes nothing |
| Transform.Transformer.CacheDumper | psycopg3/psycopg3/_transform.py:174-175 | Adds one entry to the dumpers cache and keeps the cache invariant: every cached dumper adapts its key's class and carries the Transformer's connection |
| Transform.Transformer.WriteBack | psycopg3/psycopg3/_transform.py:186-187 | The registry that had the name gains the class key for that dumper class; every other registry of the chain keeps its entries |
| Transform.SearchChain | psycopg3/psycopg3/_transform.py:169-177 | The outer loop over the registries, most specific first, returns exactly the first registry with a hit for the pass, with its index |
| Transform.SearchMro | psycopg3/psycopg3/_transform.py:170-174 | The inner loop over the MRO, most derived first, returns exactly the first class with an entry for the pass, and that entry |
| Transform.SearchLoaders | psycopg3/psycopg3/_transform.py:229-233 | The loop over the loader registries, most specific first, returns exactly the loader class of the first one holding `(oid, format)`, or nothing |
| Transform.Transformer.GetLoader | psycopg3/psycopg3/_transform.py:222-240 | Returns the cached loader or the resolved one, and caches a resolved loader under `(oid, format, fmod)` |
| Transform.Transformer.SetRowTypes | psycopg3/psycopg3/_transform.py:144-155 | On success one loader per type, each the cached loader for `(type, format, fmod or -1)`. On failure (IndexError for short formats or fmods, KeyError from resolution) the row loaders are unchanged. Always succeeds when the defaults exist |
| Transform.Transformer.SetPGResult | psycopg3/psycopg3/_transform.py:113-134 | `None` sets both counts to 0. A result sets nfields and ntuples, and on success gives one row loader per column, keyed by its `(ftype, fformat, fmod)` |
| Transform.Transformer.LoadRow | psycopg3/psycopg3/_transform.py:197-212 | `None` without a result or past the last row; otherwise the row decoded as the cell-by-cell specification gives, nfields long, with NULL exactly where the cell is NULL |
| Transform.Transformer.LoadSequence | psycopg3/psycopg3/_transform.py:214-220 | Keeps the record length and NULLs; fails iff some non-NULL cell has no column loader or its loader fails |
| Adapt.NewDumper | psycopg3/psycopg3/adapt.py:24-27 | A dumper keeps its class and source class, with the context's connection; TypeError exactly for a foreign context |
| Adapt.NewLoader | psycopg3/psycopg3/adapt.py:90-94 | A loader keeps oid and fmod as given, with the context's connection; TypeError exactly for a foreign context |
| Adapt.TransformerBuildsHandlers | psycopg3/psycopg3/adapt.py:144-145 | Handlers the Transformer builds with itself as context are bound to the Transformer's connection |
| Adapt.Quote | psycopg3/psycopg3/adapt.py:32-40 | Propagates a dump error. With a connection it gives the libpq literal escaping. Without one it gives the escaped string between single quotes |
| Adapt.RegisterDumper | psycopg3/psycopg3/adapt.py:47-59 | TypeError for a non-class, non-string source and AttributeError for a context without registries, with no registry changed. Otherwise exactly `(src, format)` is overwritten in the context's registry, or the global one without a context |
| Adapt.RegisterDumperBinary | psycopg3/psycopg3/adapt.py:61-65 | As `register` with the binary format |
| Adapt.DumperText | psycopg3/psycopg3/adapt.py:67-73 | The decorator writes `(src, TEXT)` into the global registry and returns the class unchanged |
| Adapt.DumperBinary | psycopg3/psycopg3/adapt.py:75-83 | The decorator writes `(src, BINARY)` into the global registry and returns the class unchanged |
| Adapt.RegisterLoader | psycopg3/psycopg3/adapt.py:99-112 | TypeError for a non-int oid and AttributeError for a context without registries, with no registry changed. Otherwise exactly `(oid, format)` is overwritten in the context's or the global registry |
| Adapt.RegisterLoaderBinary | psycopg3/psycopg3/adapt.py:114-116 | As `register` with the binary format |
| Adapt.LoaderText | psycopg3/psycopg3/adapt.py:118-124 | The decorator writes `(oid, TEXT)` into the global registry and returns the class unchanged |
| Adapt.LoaderBinary | psycopg3/psycopg3/adapt.py:126-132 | The decorator writes `(oid, BINARY)` into the global registry and returns the class unchanged |
| Adapt.RegisteredDumperIsFound | psycopg3/psycopg3/adapt.py:58-59 | After registering a class in the first registry of a chain, the by-class pass picks it for objects of that class |
| TextTypes.EncodingChoice | psycopg3/psycopg3/types/text.py:16-26 | Encodings by connection state. No connection: utf-8 everywhere. SQL_ASCII: utf-8 for the string dumpers, no decoding for TextLoader, `pyenc` for UnknownLoader. Otherwise `pyenc` everywhere |
| TextTypes.StringDumpNul | psycopg3/psycopg3/types/text.py:29-43 | StringDumper gives DataError iff the string holds NUL, else the encoded string; StringBinaryDumper encodes every string |
| TextTypes.TextLoaderResult | psycopg3/psycopg3/types/text.py:51-68 | TextLoader gives the bytes unchanged on SQL_ASCII, decodes utf-8 without a connection, and decodes with `pyenc` otherwise |
| TextTypes.UnknownLoaderDecodes | psycopg3/psycopg3/types/text.py:75-81 | UnknownLoader always decodes: `pyenc` with a connection, utf-8 without |
| TextTypes.TextRoundTrip | psycopg3/psycopg3/types/text.py:35-68 | A NUL-free string dumped as text and loaded as text comes back, or as its encoded bytes on SQL_ASCII |
| TextTypes.StringDumpersHaveNoOid | psycopg3/psycopg3/adapt.py:42-44 | The base dumper oid is 0 for the dumpers that do not override it |
| TextTypes.ByteaBinaryRoundTrip | psycopg3/psycopg3/types/text.py:99-120 | Binary bytea dump and load are the identity on every byte string, the empty one included; the bytes dumpers' oid is bytea |
| TextTypesInit.RegisterTextAdapters | psycopg3/psycopg3/types/text.py:29-118 | The module's decorators, in order, leave the global registries as the listed entry updates |
| TextTypesInit.UnknownOidFallsBack | psycopg3/psycopg3/_transform.py:234-237 | With the text adapters registered, an oid no registry knows loads with TextLoader (text) or ByteaBinaryLoader (binary) |
| TextTypesInit.ResolutionIsTotal | psycopg3/psycopg3/_transform.py:229-239 | With the text adapters registered, loader resolution never fails |
| TextTypesInit.TextAdaptersProvideDefaults | psycopg3/psycopg3/types/text.py:46-118 | The registrations provide both `INVALID_OID` defaults that `set_row_types` relies on |
| RecordText.ComposeRecord | psycopg3/psycopg3/types/composite.py:132-153 | The output starts with `(` and ends with `)`; the empty tuple gives exactly `()` |
| RecordText.Run | psycopg3/psycopg3/types/composite.py:195 | The greedy `[^",)]+`: the maximal run of bytes other than `"`, `,` and `)` |
| RecordText.MatchAt | psycopg3/psycopg3/types/composite.py:191-197 | A match always consumes input, within the data |
| RecordText.UndoubleEscape | psycopg3/psycopg3/types/composite.py:199 | Undoubling inverts the corrected escaping |
| RecordText.RoundTrip | psycopg3/psycopg3/types/composite.py:132-199 | With corrected quoting, parsing the dumped record gives back exactly the dumped fields, NULLs included, except a single NULL |
| RecordText.SingleNullIsEmpty | psycopg3/psycopg3/types/composite.py:133-151 | A one-NULL tuple and the empty tuple both dump as `()`, which parses as no fields |
| RecordText.BackslashNotDoubled | psycopg3/psycopg3/types/composite.py:155-161 | As written, the field `\\` is quoted but not doubled, and parses back as `\` |
| RecordText.ParenthesisNotQuoted | psycopg3/psycopg3/types/composite.py:155-160 | As written, the field `a)b` is not quoted, and parses back as two fields `a` and `b` |
| RecordBinary.UInt32At | psycopg3/psycopg3/types/composite.py:203 | A big-endian unsigned 32-bit read is in `[0, 2^32)` |
| RecordBinary.Int32At | psycopg3/psycopg3/types/composite.py:202 | A big-endian signed 32-bit read is in `[-2^31, 2^31)` |
| RecordBinary.UInt32RoundTrip | psycopg3/psycopg3/types/composite.py:203 | Reading the four bytes of a `uint32` encoding gives the value back |
| RecordBinary.Int32RoundTrip | psycopg3/psycopg3/types/composite.py:202 | Reading the four bytes of an `int32` encoding gives the value back |
| RecordBinary.WalkFrom | psycopg3/psycopg3/types/composite.py:227-231 | Yields exactly `max(nfields, 0)` triples, or a struct error |
| RecordBinary.WalkShape | psycopg3/psycopg3/types/composite.py:228-231 | Each triple's offset is its header + 8 and its oid and length are read there. The next header is at header + 8 + length for a positive length, else header + 8 |
| RecordBinary.WalkSpec | psycopg3/psycopg3/types/composite.py:226-231 | Data under 4 bytes is a struct error; the count is the leading int32 (none when negative); the first field's data starts at 12 |
| RecordBinary.WalkRecord | psycopg3/psycopg3/types/composite.py:222-231 | The offset-advancing loop returns exactly the walk specification |
| RecordBinary.PySliceInRange | psycopg3/psycopg3/types/composite.py:217 | `data[offset:offset+length]` is the plain slice in range and is truncated at the end of the data |
| RecordBinary.SliceField | psycopg3/psycopg3/types/composite.py:217 | A field is NULL iff its length is -1, otherwise the Python slice |
| RecordBinary.Cells | psycopg3/psycopg3/types/composite.py:216-219 | One cell per walked field, each its slice or NULL |
| RecordBinary.WalkEncoded | psycopg3/psycopg3/types/composite.py:228-231 | Walking encoded fields yields their oids and, through the slices, their values |
| RecordBinary.RecordRoundTrip | psycopg3/psycopg3/types/composite.py:222-231 | Walking and slicing an encoded record gives back every field's oid and value, NULLs as length -1 |
| CompositeTypes.Construct | psycopg3/psycopg3/types/composite.py:249-251 | A namedtuple factory succeeds iff the arity matches, building the record of the loaded values, else TypeError; a custom factory is called with the values |
| CompositeTypes.CastTokens | psycopg3/psycopg3/types/composite.py:173-177 | Keeps token count, order and NULLs, each non-NULL token through the cast loader; fails iff some token's load fails |
| CompositeTypes.TupleTextDumper.constructor | psycopg3/psycopg3/types/composite.py:128-130 | The dumper's connection comes from its context and it owns a fresh nested Transformer over that context |
| CompositeTypes.TupleTextDumper.Dump | psycopg3/psycopg3/types/composite.py:132-153 | `()` for the empty tuple. On success, each field is empty exactly for a `None` item; each other item has a dumper on the Transformer's connection that adapts a class of its MRO, and dumping the item with it gives the field. The output is the record those fields compose, quoted where needed and separated by commas. On failure, every earlier item was dumped, and the failing item either has no dumper (ProgrammingError, the lookup still failing) or its dumper fails with that error |
| CompositeTypes.TupleTextDumper.DumpParts | psycopg3/psycopg3/types/composite.py:136-151 | The loop: without error, every item is dumped as above and the parts join to the opening parenthesis followed by each field and a comma; with an error, it stopped at the first failing item as Dump states |
| CompositeTypes.TupleTextDumper.DumpItem | psycopg3/psycopg3/types/composite.py:144-145 | The dumper is the one `get_dumper` resolves for the item in the current state. When that lookup fails, the result is its error and the lookup state is unchanged; otherwise the result is that dumper's dump of the item |
| CompositeTypes.TupleTextDumper.FailedHere | psycopg3/psycopg3/types/composite.py:138-145 | An error at an item, after every earlier item was dumped, is the failure Dump describes |
| CompositeTypes.TextRecordLoader.constructor | psycopg3/psycopg3/types/composite.py:164-167 | Keeps oid and fmod, the context's connection and a fresh nested Transformer |
| CompositeTypes.TextRecordLoader.Load | psycopg3/psycopg3/types/composite.py:172-177 | Propagates a text-loader resolution error; otherwise gives the parsed tokens through that loader as a tuple, or the first cast error |
| CompositeTypes.BinaryRecordLoader.constructor | psycopg3/psycopg3/types/composite.py:164-167 | Keeps oid and fmod, with a fresh nested Transformer and types not yet configured |
| CompositeTypes.BinaryRecordLoader.ConfigTypes | psycopg3/psycopg3/types/composite.py:233-236 | One binary row loader per walked field, by its oid. A walk error is a struct error with nothing changed. Always succeeds when the defaults exist |
| CompositeTypes.BinaryRecordLoader.LoadFields | psycopg3/psycopg3/types/composite.py:210-220 | Configures types only on the first call, leaving loaders and cache unchanged once configured. Succeeds iff configured, the walk succeeds and the cells load, giving the loaded cells. On the first call: a walk error is a struct error and types stay unconfigured; with the defaults, types get configured; once configured, row loader k is the cached binary loader for field k's oid |
| CompositeTypes.BinaryRecordLoader.Load | psycopg3/psycopg3/types/composite.py:210-220 | As LoadFields, the cells returned as a tuple. On the first call: a walk error is a struct error and types stay unconfigured; with the defaults, types get configured; once configured, row loader k is the cached binary loader for field k's oid |
| CompositeTypes.BinaryCompositeLoader.constructor | psycopg3/psycopg3/types/composite.py:259-260 | A record loader over the context, with the factory |
| CompositeTypes.BinaryCompositeLoader.Load | psycopg3/psycopg3/types/composite.py:262-264 | Configures the record's types only on the first call, as BinaryRecordLoader.Load: a walk error is a struct error, and once configured row loader k is the cached binary loader for field k's oid. When the fields load, the result is the factory applied to them; success implies they loaded |
| CompositeTypes.TextCompositeLoader.constructor | psycopg3/psycopg3/types/composite.py:239-242 | Keeps the factory and field types, with a fresh nested Transformer, not configured |
| CompositeTypes.TextCompositeLoader.ConfigTypes | psycopg3/psycopg3/types/composite.py:253-256 | One text row loader per declared field type; KeyError leaves the row loaders unchanged; always succeeds when the defaults exist |
| CompositeTypes.TextCompositeLoader.Load | psycopg3/psycopg3/types/composite.py:244-251 | Configures types only on the first call: with the defaults it succeeds, and then row loader k is the cached text loader for the declared type of field k; otherwise it is KeyError with the row loaders unchanged. When the parsed tokens load, the result is the factory applied to them; success implies they loaded |
| CompositeTypes.RegisterCompositeAdapters | psycopg3/psycopg3/types/composite.py:126-207 | The module's decorators register TupleDumper for `tuple` (text) and the record loaders for the record oid in both formats |
| CompositeTypes.RecordColumnsResolve | psycopg3/psycopg3/types/composite.py:170-207 | A record column no more specific registry claims resolves to RecordLoader (text) or RecordBinaryLoader (binary) |
| CompositeTypes.FactoryFor | psycopg3/psycopg3/types/composite.py:68-71 | The given factory, else a namedtuple named after the type with the fields' names in order |
| CompositeTypes.FieldTypes | psycopg3/psycopg3/types/composite.py:81 | The fields' type oids in order |
| CompositeTypes.Register | psycopg3/psycopg3/types/composite.py:63-97 | Installs a text composite loader (factory and field types) and a binary one under the type's oid in the context's registry. An array registration is requested iff the array oid is nonzero |
| CompositeTypes.RegisteredCompositeResolves | psycopg3/psycopg3/types/composite.py:76-84 | After `register`, the type's oid resolves to the generated text loader where no earlier registry claims it |

## Findings

| source | as written | input that shows it | evidently intended | confidence | as-written member | corrected member |
|---|---|---|---|---|---|---|
| psycopg3/psycopg3/_transform.py:182 | the name pass looks up `cls.__module__ + "." + scls.__qualname__`, the runtime class's module with the ancestor's name | a subclass `app.MyId` of `uuid.UUID` with a dumper registered under `"uuid.UUID"`: the lookup is `"app.UUID"` and fails with ProgrammingError | each ancestor's own `scls.__module__`, so a name registration serves subclasses like a class registration does | not executed | Transform.NameFallbackAsWrittenMissesAncestor | Transform.NameFallbackServesDescendant |
| psycopg3/psycopg3/types/composite.py:161 | `_re_escape` doubles only `"`, while `_re_undouble` (line 199) collapses doubled backslashes too | the bytes `\\` dump as `("\\")`, which parses back as `\` | double backslashes as well, so that parsing inverts dumping | not executed | RecordText.BackslashNotDoubled | RecordText.RoundTrip |
| psycopg3/psycopg3/types/composite.py:155-160 | `_re_needs_quotes` does not force quotes for `(` or `)`, while the tokenizer ends an unquoted token at `)` | the bytes `a)b` dump as `(a)b)`, which parses as the two fields `a` and `b` | quote fields holding parentheses, as the PostgreSQL record output does | not executed | RecordText.ParenthesisNotQuoted | RecordText.RoundTrip |

The model's tuple dumper (`CompositeTypes.TupleTextDumper.Dump`) uses the
corrected quoting. The Transformer's name pass (`GetDumper`) uses the
corrected qualified name.

## Left out

- Transform.Transformer.constructor: requires a context that is none, a connection, a cursor or a Transformer. For any other object the source leaves `_connection`, `_dumpers` and `_loaders` unset and chains only the global registries. The model does not represent this half-built object. The composite handlers' constructors require the same, since their base constructors raise TypeError first.
- Transform.Transformer.LoadRow: takes a non-negative row number; what libpq returns for a negative row is not modelled.
- TextTypes.Load: handler classes outside types/text.py are reached through opaque hooks. These are the record, composite and user loaders, and the tuple and user dumpers. As a result, a composite column read by `load_row`, or a nested tuple item, is not decoded by the composite classes of this model.
- CompositeTypes.TupleTextDumper.Dump: names for each item a dumper on the Transformer's connection for a class of its MRO; that it is the one the lookup chose at that point of the loop is stated per item by DumpItem, not carried across the loop.
- CompositeTypes.Register: the generated class names (`info.name.title()` plus `Loader` or `BinaryLoader`) are not modelled. The generated classes are identified by the type name, the factory and the field types.
- CompositeTypes.Register: the array registration is returned as a request, because the array module is not part of this model.
- CompositeTypes.FactoryFor: `namedtuple` is not modelled in full. Its validation of names and its behaviour for duplicate field names are out of scope. The resulting class is represented by its name and field names.
- Charset codecs, libpq escaping (`escape_bytea`, `unescape_bytea`, `escape_literal`, `escape_string`) and custom factories are left uninterpreted. They are total functions passed as a parameter.
- Result access, network I/O, connection locks and the C implementation of the Transformer are left out. A result is a value: column metadata and cells.
- The `Dumper.context` and `Loader.context` attributes are left out; only the connection derived from the context is kept.
- The Transformer's `_load_funcs` dictionary is left out; the code never reads or writes it after construction.
- types/uuid.py, `fetch_info`, `fetch_info_async` and the catalog query are not part of this model. The uuid dumper's string key appears only as the example in the name-pass finding.
- The Python regex engine is not modelled. The tokenizer, quoting and undoubling patterns are modelled directly on bytes.
- Python's dynamic typing is reduced to tagged arguments: registration keys that are not classes, strings or ints, and contexts that are not a connection, cursor or Transformer. Subtleties such as `bool` being an `int` are not represented.
