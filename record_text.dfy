/** The text syntax of composite values (PostgreSQL documentation section
    8.16.6, "Composite Type Input and Output Syntax") as types/composite.py
    writes it in `TupleDumper.dump` and reads it in `RecordLoader._parse_record`.
    The regular expressions of the source are modelled directly, byte by byte. */
module RecordText {
  import opened Base

  const DQUOTE: byte := 34
  const LPAREN: byte := 40
  const RPAREN: byte := 41
  const COMMA: byte := 44
  const BACKSLASH: byte := 92

  /** `\s` on bytes: space, tab, newline, vertical tab, form feed, carriage return. */
  predicate IsSpace(b: byte)
  {
    b == 32 || 9 <= b <= 13
  }

  predicate IsSep(b: byte)
  {
    b == COMMA || b == RPAREN
  }

  /** The quoting rule as the source writes it, and the rule the parser needs. */
  datatype Quoting = AsWritten | Corrected

  /** A byte that forces a field into quotes: `"`, `,`, backslash or
      whitespace in the source's `_re_needs_quotes`; the corrected rule adds
      the parentheses. */
  predicate ForcesQuotes(q: Quoting, b: byte)
  {
    b == DQUOTE || b == COMMA || b == BACKSLASH || IsSpace(b)
    || (q == Corrected && (b == LPAREN || b == RPAREN))
  }

  /** `_re_needs_quotes.search(ad)`: the empty string, or a forcing byte. */
  predicate NeedsQuotes(q: Quoting, ad: bytes)
  {
    |ad| == 0 || exists i :: 0 <= i < |ad| && ForcesQuotes(q, ad[i])
  }

  /** A byte doubled inside quotes: only `"` in the source's `_re_escape`;
      the corrected rule doubles backslash too, as the parser undoubles both. */
  predicate Doubled(q: Quoting, b: byte)
  {
    b == DQUOTE || (q == Corrected && b == BACKSLASH)
  }

  function Escape(q: Quoting, ad: bytes): (r: bytes)
    ensures |r| >= |ad|
  {
    if ad == [] then []
    else (if Doubled(q, ad[0]) then [ad[0], ad[0]] else [ad[0]]) + Escape(q, ad[1..])
  }

  /** One dumped item as it appears in the record. */
  function QuoteField(q: Quoting, ad: bytes): bytes
  {
    if NeedsQuotes(q, ad) then [DQUOTE] + Escape(q, ad) + [DQUOTE] else ad
  }

  /** A field of the record: empty for `None`. */
  function FieldText(q: Quoting, f: Option<bytes>): bytes
  {
    if f.None? then [] else QuoteField(q, f.value)
  }

  /** The fields, each followed by `,`, the last by `)`. */
  function Tail(q: Quoting, fs: seq<Option<bytes>>): bytes
    requires |fs| > 0
  {
    FieldText(q, fs[0]) + if |fs| == 1 then [RPAREN] else [COMMA] + Tail(q, fs[1..])
  }

  /** What `TupleDumper.dump` returns for the dumped items `fs`. */
  function ComposeRecord(q: Quoting, fs: seq<Option<bytes>>): (r: bytes)
    ensures |r| >= 2 && r[0] == LPAREN && r[|r| - 1] == RPAREN
    ensures fs == [] ==> r == [LPAREN, RPAREN]
  {
    if fs == [] then [LPAREN, RPAREN]
    else
      TailEndsWithParen(q, fs);
      [LPAREN] + Tail(q, fs)
  }

  lemma {:induction false} TailEndsWithParen(q: Quoting, fs: seq<Option<bytes>>)
    requires |fs| > 0
    ensures |Tail(q, fs)| > 0 && Tail(q, fs)[|Tail(q, fs)| - 1] == RPAREN
  {
    if |fs| > 1 {
      TailEndsWithParen(q, fs[1..]);
    }
  }

  /** The fields separated by commas, without the closing parenthesis. */
  function Body(q: Quoting, fs: seq<Option<bytes>>): bytes
    requires |fs| > 0
  {
    FieldText(q, fs[0]) + if |fs| == 1 then [] else [COMMA] + Body(q, fs[1..])
  }

  lemma {:induction false} TailIsBody(q: Quoting, fs: seq<Option<bytes>>)
    requires |fs| > 0
    ensures Tail(q, fs) == Body(q, fs) + [RPAREN]
  {
    if |fs| > 1 {
      TailIsBody(q, fs[1..]);
    }
  }

  lemma {:induction false} BodyAppend(q: Quoting, fs: seq<Option<bytes>>, f: Option<bytes>)
    requires |fs| > 0
    ensures Body(q, fs + [f]) == Body(q, fs) + [COMMA] + FieldText(q, f)
  {
    var gs := fs + [f];
    assert gs[0] == fs[0];
    var head, last := FieldText(q, fs[0]), FieldText(q, f);
    if |fs| > 1 {
      assert gs[1..] == fs[1..] + [f];
      BodyAppend(q, fs[1..], f);
      var mid := Body(q, fs[1..]);
      calc {
        Body(q, gs);
        head + ([COMMA] + Body(q, gs[1..]));
        head + ([COMMA] + (mid + [COMMA] + last));
        { Regroup(head, mid, last); }
        head + ([COMMA] + mid) + [COMMA] + last;
        Body(q, fs) + [COMMA] + last;
      }
    } else {
      assert gs[1..] == [f];
      assert Body(q, [f]) == last;
    }
  }

  lemma Regroup(a: bytes, b: bytes, c: bytes)
    ensures a + ([COMMA] + (b + [COMMA] + c)) == a + ([COMMA] + b) + [COMMA] + c
  {
  }

  // ---------------------------------------------------------------------
  // The tokenizer `_re_tokenize` and `_re_undouble`

  /** Length of the longest run of bytes other than `"`, `,` and `)` at `p`:
      the greedy `[^",)]+`. */
  function Run(data: bytes, p: nat): (n: nat)
    requires p <= |data|
    decreases |data| - p
    ensures p + n <= |data|
    ensures forall k :: p <= k < p + n ==> data[k] != DQUOTE && !IsSep(data[k])
    ensures p + n < |data| ==> data[p + n] == DQUOTE || IsSep(data[p + n])
  {
    if p == |data| || data[p] == DQUOTE || IsSep(data[p]) then 0 else 1 + Run(data, p + 1)
  }

  /** Where `(?: [^"] | "")*` stops from `p`. Each unit is decided by its first
      byte (a non-quote byte, or a quote that needs a second one), so the
      chain is unique; a shorter repetition is always followed by a byte that
      cannot close the token, so the greedy end is the only candidate. */
  function ChainEnd(data: bytes, p: nat): (e: nat)
    requires p <= |data|
    decreases |data| - p
    ensures p <= e <= |data|
  {
    if p == |data| then p
    else if data[p] != DQUOTE then ChainEnd(data, p + 1)
    else if p + 1 < |data| && data[p + 1] == DQUOTE then ChainEnd(data, p + 2)
    else p
  }

  /** A token and the position after it. */
  type Match = Option<(Option<bytes>, nat)>

  /** Alternative 1, `([,)])`: an empty token, NULL. */
  function EmptyAt(data: bytes, q: nat): Match
  {
    if q < |data| && IsSep(data[q]) then Some((None, q + 1)) else None
  }

  /** Alternative 2, `" ((?: [^"] | "")*) " [,)]`: a quoted token, undoubled. */
  function QuotedAt(data: bytes, q: nat): Match
  {
    if q < |data| && data[q] == DQUOTE then
      var e := ChainEnd(data, q + 1);
      if e + 1 < |data| && data[e] == DQUOTE && IsSep(data[e + 1]) then Some((Some(Undouble(data[q + 1..e])), e + 2))
      else None
    else None
  }

  /** Alternative 3, `([^",)]+) [,)]`: an unquoted token, verbatim. */
  function UnquotedAt(data: bytes, q: nat): Match
  {
    if q <= |data| then
      var n := Run(data, q);
      if n > 0 && q + n < |data| && IsSep(data[q + n]) then Some((Some(data[q..q + n]), q + n + 1)) else None
    else None
  }

  /** The three alternatives in order. */
  function Alternatives(data: bytes, q: nat): Match
  {
    if EmptyAt(data, q).Some? then EmptyAt(data, q)
    else if QuotedAt(data, q).Some? then QuotedAt(data, q)
    else UnquotedAt(data, q)
  }

  /** `_re_tokenize.match` at `p`: each alternative first with its optional
      `\(` consumed, then without it. */
  function MatchAt(data: bytes, p: nat): (m: Match)
    requires p < |data|
    ensures m.Some? ==> p < m.value.1 <= |data|
  {
    var paren := data[p] == LPAREN;
    if paren && EmptyAt(data, p + 1).Some? then EmptyAt(data, p + 1)
    else if EmptyAt(data, p).Some? then EmptyAt(data, p)
    else if paren && QuotedAt(data, p + 1).Some? then QuotedAt(data, p + 1)
    else if QuotedAt(data, p).Some? then QuotedAt(data, p)
    else if paren && UnquotedAt(data, p + 1).Some? then UnquotedAt(data, p + 1)
    else UnquotedAt(data, p)
  }

  /** `_re_tokenize.finditer(data)` from `p`: a position where nothing
      matches is skipped. */
  function Tokens(data: bytes, p: nat): seq<Option<bytes>>
    decreases |data| - p
  {
    if p >= |data| then []
    else match MatchAt(data, p)
      case Some((tok, next)) => [tok] + Tokens(data, next)
      case None => Tokens(data, p + 1)
  }

  /** `_re_undouble.sub(br"\1", s)`: `""` and a doubled backslash collapse. */
  function Undouble(s: bytes): (r: bytes)
    ensures |r| <= |s|
  {
    if |s| >= 2 && (s[0] == DQUOTE || s[0] == BACKSLASH) && s[1] == s[0] then [s[0]] + Undouble(s[2..])
    else if s == [] then []
    else [s[0]] + Undouble(s[1..])
  }

  /** `_parse_record`: no tokens for `()`, else the tokens of `data`. */
  function ParseRecord(data: bytes): seq<Option<bytes>>
  {
    if data == [LPAREN, RPAREN] then [] else Tokens(data, 0)
  }

  // ---------------------------------------------------------------------
  // Round trip with the corrected quoting

  lemma {:induction false} UndoubleEscape(ad: bytes)
    ensures Undouble(Escape(Corrected, ad)) == ad
  {
    if ad != [] {
      var rest := Escape(Corrected, ad[1..]);
      UndoubleEscape(ad[1..]);
      if Doubled(Corrected, ad[0]) {
        assert Escape(Corrected, ad) == [ad[0], ad[0]] + rest;
        assert ([ad[0], ad[0]] + rest)[2..] == rest;
      } else {
        assert Escape(Corrected, ad) == [ad[0]] + rest;
        assert ([ad[0]] + rest)[1..] == rest;
      }
    }
  }

  /** The unit chain over an escaped field stops exactly at its closing quote. */
  lemma {:induction false} ChainEndOfEscaped(data: bytes, s: nat, ad: bytes)
    requires s + |Escape(Corrected, ad)| + 1 < |data|
    requires data[s..s + |Escape(Corrected, ad)|] == Escape(Corrected, ad)
    requires data[s + |Escape(Corrected, ad)|] == DQUOTE && data[s + |Escape(Corrected, ad)| + 1] != DQUOTE
    ensures ChainEnd(data, s) == s + |Escape(Corrected, ad)|
    decreases |ad|
  {
    var e := Escape(Corrected, ad);
    if ad == [] {
    } else {
      var rest := Escape(Corrected, ad[1..]);
      if Doubled(Corrected, ad[0]) {
        assert e == [ad[0], ad[0]] + rest;
        assert data[s] == e[0] && data[s + 1] == e[1];
        assert data[s + 2..s + 2 + |rest|] == e[2..] == rest;
        ChainEndOfEscaped(data, s + 2, ad[1..]);
        if ad[0] == BACKSLASH {
          assert ChainEnd(data, s + 1) == ChainEnd(data, s + 2);
        }
      } else {
        assert e == [ad[0]] + rest;
        assert data[s] == e[0];
        assert data[s + 1..s + 1 + |rest|] == e[1..] == rest;
        ChainEndOfEscaped(data, s + 1, ad[1..]);
      }
    }
  }

  /** A field the corrected rule leaves unquoted is one maximal run. */
  lemma {:induction false} RunOfPlain(data: bytes, q: nat, ad: bytes)
    requires q + |ad| < |data| && data[q..q + |ad|] == ad
    requires forall i :: 0 <= i < |ad| ==> !ForcesQuotes(Corrected, ad[i])
    requires IsSep(data[q + |ad|])
    ensures Run(data, q) == |ad|
    decreases |ad|
  {
    if ad != [] {
      assert data[q] == ad[0];
      assert data[q + 1..q + 1 + |ad[1..]|] == ad[1..];
      RunOfPlain(data, q + 1, ad[1..]);
    }
  }

  /** A field followed by a separator is read back by the three alternatives. */
  lemma MatchField(data: bytes, q: nat, f: Option<bytes>)
    requires q + |FieldText(Corrected, f)| < |data|
    requires data[q..q + |FieldText(Corrected, f)|] == FieldText(Corrected, f)
    requires IsSep(data[q + |FieldText(Corrected, f)|])
    ensures Alternatives(data, q) == Some((f, q + |FieldText(Corrected, f)| + 1))
    ensures data[q] != LPAREN
  {
    if f.Some? {
      if NeedsQuotes(Corrected, f.value) {
        MatchQuoted(data, q, f.value, Escape(Corrected, f.value));
      } else {
        MatchPlain(data, q, f.value);
      }
    }
  }

  /** A quoted field is read back by the second alternative, undoubled. */
  lemma MatchQuoted(data: bytes, q: nat, ad: bytes, e: bytes)
    requires e == Escape(Corrected, ad)
    requires q + |e| + 2 < |data| && data[q..q + |e| + 2] == [DQUOTE] + e + [DQUOTE]
    requires IsSep(data[q + |e| + 2])
    ensures EmptyAt(data, q).None? && data[q] != LPAREN
    ensures QuotedAt(data, q) == Some((Some(ad), q + |e| + 3))
  {
    QuotedSplit(data, q, e);
    ChainEndOfEscaped(data, q + 1, ad);
    UndoubleEscape(ad);
  }

  /** Where `"e"` lies in `data`, `e` lies between the two quotes. */
  lemma QuotedSplit(data: bytes, q: nat, e: bytes)
    requires q + |e| + 2 <= |data| && data[q..q + |e| + 2] == [DQUOTE] + e + [DQUOTE]
    ensures data[q] == DQUOTE && data[q + 1..q + 1 + |e|] == e && data[q + 1 + |e|] == DQUOTE
  {
    var ft := [DQUOTE] + e + [DQUOTE];
    var w := data[q..q + |e| + 2];
    assert data[q] == w[0] == ft[0];
    forall k | 0 <= k < |e|
      ensures data[q + 1..q + 1 + |e|][k] == e[k]
    {
      assert data[q + 1 + k] == w[1 + k] == ft[1 + k];
    }
    assert data[q + 1 + |e|] == w[1 + |e|] == ft[1 + |e|];
  }

  /** A field left unquoted is read back verbatim by the third alternative. */
  lemma MatchPlain(data: bytes, q: nat, ad: bytes)
    requires !NeedsQuotes(Corrected, ad)
    requires q + |ad| < |data| && data[q..q + |ad|] == ad
    requires IsSep(data[q + |ad|])
    ensures EmptyAt(data, q).None? && QuotedAt(data, q).None? && data[q] != LPAREN
    ensures UnquotedAt(data, q) == Some((Some(ad), q + |ad| + 1))
  {
    assert |ad| > 0 && data[q] == ad[0] && !ForcesQuotes(Corrected, ad[0]);
    RunOfPlain(data, q, ad);
  }

  /** Where the first field of a run of fields lies, and what follows it. */
  lemma {:induction false} FirstField(data: bytes, p: nat, fs: seq<Option<bytes>>)
    requires |fs| > 0 && p <= |data| && data[p..] == Tail(Corrected, fs)
    ensures var ft := FieldText(Corrected, fs[0]);
            && p + |ft| < |data|
            && data[p..p + |ft|] == ft
            && IsSep(data[p + |ft|])
            && (|fs| == 1 ==> p + |ft| + 1 == |data|)
            && (|fs| > 1 ==> data[p + |ft| + 1..] == Tail(Corrected, fs[1..]))
  {
    var ft := FieldText(Corrected, fs[0]);
    var rest: bytes := if |fs| == 1 then [RPAREN] else [COMMA] + Tail(Corrected, fs[1..]);
    assert Tail(Corrected, fs) == ft + rest;
    SplitSuffix(data, p, ft, rest);
  }

  /** Where `a + b` is the suffix of `data` from `p`, `a` lies at `p` and
      `b` follows it. */
  lemma SplitSuffix(data: bytes, p: nat, a: bytes, b: bytes)
    requires p <= |data| && data[p..] == a + b
    ensures p + |a| + |b| == |data| && data[p..p + |a|] == a
    ensures |b| > 0 ==> data[p + |a|] == b[0] && data[p + |a| + 1..] == b[1..]
  {
    assert data[p..p + |a|] == data[p..][..|a|];
    if |b| > 0 {
      assert data[p + |a|] == data[p..][|a|];
      assert data[p + |a| + 1..] == data[p..][|a| + 1..];
    }
  }

  /** The tokens of a run of fields, from a position that is not a parenthesis. */
  lemma {:induction false} TokensOfTail(data: bytes, p: nat, fs: seq<Option<bytes>>)
    requires |fs| > 0 && p <= |data| && data[p..] == Tail(Corrected, fs)
    ensures Tokens(data, p) == fs
    decreases |fs|
  {
    var next := p + |FieldText(Corrected, fs[0])| + 1;
    FirstField(data, p, fs);
    TokenStep(data, p, fs[0]);
    if |fs| > 1 {
      TokensOfTail(data, next, fs[1..]);
      assert fs == [fs[0]] + fs[1..];
    }
  }

  /** A field followed by a separator, not at a parenthesis, is the next token. */
  lemma TokenStep(data: bytes, p: nat, f: Option<bytes>)
    requires p + |FieldText(Corrected, f)| < |data|
    requires data[p..p + |FieldText(Corrected, f)|] == FieldText(Corrected, f)
    requires IsSep(data[p + |FieldText(Corrected, f)|])
    ensures Tokens(data, p) == [f] + Tokens(data, p + |FieldText(Corrected, f)| + 1)
  {
    MatchField(data, p, f);
    assert MatchAt(data, p) == Some((f, p + |FieldText(Corrected, f)| + 1));
  }

  /** The record is not `()` unless it is the one-NULL record. */
  lemma NotEmptyRecord(fs: seq<Option<bytes>>)
    requires fs != [] && fs != [None]
    ensures ComposeRecord(Corrected, fs) != [LPAREN, RPAREN]
  {
    var t := Tail(Corrected, fs);
    var ft := FieldText(Corrected, fs[0]);
    if fs[0].None? {
      assert |fs| > 1 && t[0] == COMMA;
    } else {
      var ad := fs[0].value;
      if NeedsQuotes(Corrected, ad) {
        assert t[0] == ft[0] == DQUOTE;
      } else {
        assert |ad| > 0 && !ForcesQuotes(Corrected, ad[0]);
        assert t[0] == ft[0] == ad[0];
      }
    }
  }

  /** The first token of a record: the optional `(` is consumed. */
  lemma {:induction false} FirstToken(data: bytes, fs: seq<Option<bytes>>)
    requires fs != [] && data == [LPAREN] + Tail(Corrected, fs)
    ensures var next := |FieldText(Corrected, fs[0])| + 2;
            next <= |data| && Tokens(data, 0) == [fs[0]] + Tokens(data, next)
            && (|fs| == 1 ==> next == |data|)
            && (|fs| > 1 ==> data[next..] == Tail(Corrected, fs[1..]))
  {
    var next := |FieldText(Corrected, fs[0])| + 2;
    assert data[1..] == Tail(Corrected, fs);
    FirstField(data, 1, fs);
    MatchField(data, 1, fs[0]);
    assert MatchAt(data, 0) == Some((fs[0], next));
  }

  /** With the corrected quoting every record the dumper writes parses back
      to its fields, except the one-NULL record, which prints as `()` like
      the empty record. */
  lemma RoundTrip(fs: seq<Option<bytes>>)
    requires fs != [None]
    ensures ParseRecord(ComposeRecord(Corrected, fs)) == fs
  {
    if fs != [] {
      var data := ComposeRecord(Corrected, fs);
      NotEmptyRecord(fs);
      FirstToken(data, fs);
      var next := |FieldText(Corrected, fs[0])| + 2;
      if |fs| > 1 {
        TokensOfTail(data, next, fs[1..]);
        assert fs == [fs[0]] + fs[1..];
      }
    }
  }

  /** Both the empty record and the one-NULL record print as `()`, which
      parses as the empty record. */
  lemma SingleNullIsEmpty()
    ensures ComposeRecord(Corrected, [None]) == ComposeRecord(Corrected, []) == [LPAREN, RPAREN]
    ensures ParseRecord([LPAREN, RPAREN]) == []
  {
  }

  // ---------------------------------------------------------------------
  // The quoting as written

  /** A backslash is not doubled, yet the parser undoubles it: two
      backslashes come back as one. */
  lemma BackslashNotDoubled()
    ensures var fs := [Some([BACKSLASH, BACKSLASH])];
            ComposeRecord(AsWritten, fs) == [LPAREN, DQUOTE, BACKSLASH, BACKSLASH, DQUOTE, RPAREN]
            && ParseRecord(ComposeRecord(AsWritten, fs)) == [Some([BACKSLASH])]
  {
    var ad: bytes := [BACKSLASH, BACKSLASH];
    assert NeedsQuotes(AsWritten, ad) by { assert ForcesQuotes(AsWritten, ad[0]); }
    assert Escape(AsWritten, ad) == ad by {
      assert Escape(AsWritten, ad[1..]) == [BACKSLASH];
    }
    var data: bytes := [LPAREN, DQUOTE, BACKSLASH, BACKSLASH, DQUOTE, RPAREN];
    assert ComposeRecord(AsWritten, [Some(ad)]) == data;
    assert ChainEnd(data, 4) == 4;
    assert ChainEnd(data, 3) == 4;
    assert ChainEnd(data, 2) == 4;
    assert data[2..4] == ad;
    assert Undouble(ad) == [BACKSLASH];
    assert QuotedAt(data, 1) == Some((Some([BACKSLASH]), 6));
    assert MatchAt(data, 0) == Some((Some([BACKSLASH]), 6));
    assert Tokens(data, 0) == [Some([BACKSLASH])] + Tokens(data, 6);
  }

  /** A parenthesis does not force quotes, and the parser ends a token at
      `)`: the field `a)b` comes back as two fields. */
  lemma ParenthesisNotQuoted()
    ensures var a: byte := 97;
            var b: byte := 98;
            var fs := [Some([a, RPAREN, b])];
            ComposeRecord(AsWritten, fs) == [LPAREN, a, RPAREN, b, RPAREN]
            && ParseRecord(ComposeRecord(AsWritten, fs)) == [Some([a]), Some([b])]
  {
    var a: byte := 97;
    var b: byte := 98;
    var ad: bytes := [a, RPAREN, b];
    assert !NeedsQuotes(AsWritten, ad) by {
      forall i | 0 <= i < |ad| ensures !ForcesQuotes(AsWritten, ad[i]) {
      }
    }
    var data: bytes := [LPAREN, a, RPAREN, b, RPAREN];
    assert ComposeRecord(AsWritten, [Some(ad)]) == data;
    assert Run(data, 1) == 1;
    assert data[1..2] == [a];
    assert MatchAt(data, 0) == Some((Some([a]), 3));
    assert Run(data, 3) == 1;
    assert data[3..4] == [b];
    assert MatchAt(data, 3) == Some((Some([b]), 5));
    assert Tokens(data, 5) == [];
    assert Tokens(data, 3) == [Some([b])];
    assert Tokens(data, 0) == [Some([a]), Some([b])];
  }
}
