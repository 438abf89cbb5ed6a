/** The registrations that importing types/text.py performs through its
    class decorators, and what they guarantee to loader resolution. */
module TextTypesInit {
  import opened Base
  import opened Registry
  import opened Transform
  import opened Adapt

  /** A dumper registry after the decorators of types/text.py, in the
      order the module applies them. */
  function WithTextDumpers(m: map<(Src, Format), DumperClass>): map<(Src, Format), DumperClass>
  {
    m[(TypeSrc(StrClass), Binary) := StringBinaryDumper]
     [(TypeSrc(StrClass), Text) := StringDumper]
     [(TypeSrc(BytesClass), Text) := BytesDumper]
     [(TypeSrc(BytesClass), Binary) := BytesBinaryDumper]
  }

  /** A loader registry after the decorators of types/text.py, the two
      `INVALID_OID` defaults among them. */
  function WithTextLoaders(m: LoaderEntries): LoaderEntries
  {
    m[(INVALID_OID, Text) := TextLoader]
     [(VARCHAR_OID, Binary) := TextLoader]
     [(VARCHAR_OID, Text) := TextLoader]
     [(TEXT_OID, Binary) := TextLoader]
     [(TEXT_OID, Text) := TextLoader]
     [(BPCHAR_OID, Binary) := UnknownLoader]
     [(BPCHAR_OID, Text) := UnknownLoader]
     [(NAME_OID, Binary) := UnknownLoader]
     [(NAME_OID, Text) := UnknownLoader]
     [(BYTEA_OID, Text) := ByteaLoader]
     [(INVALID_OID, Binary) := ByteaBinaryLoader]
     [(BYTEA_OID, Binary) := ByteaBinaryLoader]
  }

  /** The decorators of types/text.py, applied in module order and, for a
      stacked class, from the innermost decorator out. */
  method RegisterTextAdapters(globals: Globals)
    modifies globals.dumpers, globals.loaders
    ensures globals.dumpers.entries == WithTextDumpers(old(globals.dumpers.entries))
    ensures globals.loaders.entries == WithTextLoaders(old(globals.loaders.entries))
  {
    var _ := DumperBinary(ClassArg(StrClass), StringBinaryDumper, globals);
    var _ := DumperText(ClassArg(StrClass), StringDumper, globals);

    var _ := LoaderText(IntOid(INVALID_OID), TextLoader, globals);
    var _ := LoaderBinary(IntOid(VARCHAR_OID), TextLoader, globals);
    var _ := LoaderText(IntOid(VARCHAR_OID), TextLoader, globals);
    var _ := LoaderBinary(IntOid(TEXT_OID), TextLoader, globals);
    var _ := LoaderText(IntOid(TEXT_OID), TextLoader, globals);

    var _ := LoaderBinary(IntOid(BPCHAR_OID), UnknownLoader, globals);
    var _ := LoaderText(IntOid(BPCHAR_OID), UnknownLoader, globals);
    var _ := LoaderBinary(IntOid(NAME_OID), UnknownLoader, globals);
    var _ := LoaderText(IntOid(NAME_OID), UnknownLoader, globals);

    var _ := DumperText(ClassArg(BytesClass), BytesDumper, globals);
    var _ := DumperBinary(ClassArg(BytesClass), BytesBinaryDumper, globals);

    var _ := LoaderText(IntOid(BYTEA_OID), ByteaLoader, globals);
    var _ := LoaderBinary(IntOid(INVALID_OID), ByteaBinaryLoader, globals);
    var _ := LoaderBinary(IntOid(BYTEA_OID), ByteaBinaryLoader, globals);
  }

  /** Once the text adapters are registered, an oid no registry knows is
      loaded as text by TextLoader and as binary by ByteaBinaryLoader, so
      resolution never raises KeyError. */
  lemma UnknownOidFallsBack(chain: seq<LoaderEntries>, before: LoaderEntries, oid: int, format: Format,
                            fmod: int, conn: Option<Connection>)
    requires forall n :: 0 <= n < |chain| ==> (oid, format) !in chain[n]
    ensures var r := ResolveLoaderIn(chain, WithTextLoaders(before), oid, format, fmod, conn);
            r.Success? && r.value == Loader(if format == Text then TextLoader else ByteaBinaryLoader, oid, fmod, conn)
  {
    var defaults := WithTextLoaders(before);
    assert (INVALID_OID, Text) in defaults && defaults[(INVALID_OID, Text)] == TextLoader;
    assert (INVALID_OID, Binary) in defaults && defaults[(INVALID_OID, Binary)] == ByteaBinaryLoader;
  }

  /** With the text adapters registered, every oid resolves in both formats. */
  lemma ResolutionIsTotal(chain: seq<LoaderEntries>, before: LoaderEntries, oid: int, format: Format,
                          fmod: int, conn: Option<Connection>)
    ensures ResolveLoaderIn(chain, WithTextLoaders(before), oid, format, fmod, conn).Success?
  {
    var defaults := WithTextLoaders(before);
    assert (INVALID_OID, format) in defaults by {
      if format == Text {} else {}
    }
  }

  /** A Transformer whose global registry holds the text adapters has the
      defaults that make `set_row_types` and the `pgresult` setter succeed. */
  lemma TextAdaptersProvideDefaults(t: Transformer, before: LoaderEntries)
    requires t.globals.loaders.entries == WithTextLoaders(before)
    ensures t.HasDefaults()
  {
  }
}
