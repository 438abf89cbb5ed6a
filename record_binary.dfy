/** The binary record layout read by `RecordBinaryLoader._walk_record`: a
    big-endian int32 field count, then per field a big-endian uint32 type oid,
    a big-endian int32 length (-1 for NULL) and that many bytes. */
module RecordBinary {
  import opened Base

  const TWO_31: int := 0x8000_0000
  const TWO_32: int := 0x1_0000_0000

  /** `struct.unpack_from("!I", data, i)`. */
  function UInt32At(data: bytes, i: nat): (u: int)
    requires i + 4 <= |data|
    ensures 0 <= u < TWO_32
  {
    data[i] as int * 0x100_0000 + data[i + 1] as int * 0x1_0000 + data[i + 2] as int * 0x100 + data[i + 3] as int
  }

  /** `struct.unpack_from("!i", data, i)`: two's complement. */
  function Int32At(data: bytes, i: nat): (v: int)
    requires i + 4 <= |data|
    ensures -TWO_31 <= v < TWO_31
  {
    var u := UInt32At(data, i);
    if u >= TWO_31 then u - TWO_32 else u
  }

  /** `struct.pack("!I", u)`, the writer's side of the layout. */
  function UInt32Bytes(u: int): (b: bytes)
    requires 0 <= u < TWO_32
    ensures |b| == 4
  {
    var q1 := u / 0x100;
    var q2 := q1 / 0x100;
    var q3 := q2 / 0x100;
    [q3 as byte, (q2 % 0x100) as byte, (q1 % 0x100) as byte, (u % 0x100) as byte]
  }

  /** `struct.pack("!i", v)`. */
  function Int32Bytes(v: int): (b: bytes)
    requires -TWO_31 <= v < TWO_31
    ensures |b| == 4
  {
    UInt32Bytes(if v < 0 then v + TWO_32 else v)
  }

  lemma UInt32RoundTrip(data: bytes, i: nat, u: int)
    requires 0 <= u < TWO_32 && i + 4 <= |data| && data[i..i + 4] == UInt32Bytes(u)
    ensures UInt32At(data, i) == u
  {
    var q1 := u / 0x100;
    var q2 := q1 / 0x100;
    var q3 := q2 / 0x100;
    assert u == 0x100 * q1 + u % 0x100;
    assert q1 == 0x100 * q2 + q1 % 0x100;
    assert q2 == 0x100 * q3 + q2 % 0x100;
    assert data[i] as int == q3 && data[i + 1] as int == q2 % 0x100;
    assert data[i + 2] as int == q1 % 0x100 && data[i + 3] as int == u % 0x100;
  }

  lemma Int32RoundTrip(data: bytes, i: nat, v: int)
    requires -TWO_31 <= v < TWO_31 && i + 4 <= |data| && data[i..i + 4] == Int32Bytes(v)
    ensures Int32At(data, i) == v
  {
    UInt32RoundTrip(data, i, if v < 0 then v + TWO_32 else v);
  }

  /** One field as `_walk_record` yields it: oid, data offset, length. */
  datatype FieldRef = FieldRef(oid: int, offset: nat, length: int)

  /** The fields of `_walk_record` from the header at `i` with `n` fields
      left, or the struct.error of a header that runs past the data. */
  function WalkFrom(data: bytes, i: nat, n: int): (r: Result<seq<FieldRef>>)
    decreases if n > 0 then n else 0
    ensures r.Failure? ==> r.error == StructError
    ensures r.Success? ==> |r.value| == (if n > 0 then n else 0)
  {
    if n <= 0 then Success([])
    else if i + 8 > |data| then Failure(StructError)
    else
      var length := Int32At(data, i + 4);
      var next := if length > 0 then i + 8 + length else i + 8;
      match WalkFrom(data, next, n - 1)
      case Failure(e) => Failure(e)
      case Success(rest) => Success([FieldRef(UInt32At(data, i), i + 8, length)] + rest)
  }

  /** A walk that succeeds past its first header starts with that header's field. */
  lemma WalkHead(data: bytes, i: nat, n: int)
    requires n > 0 && i + 8 <= |data|
    ensures var length := Int32At(data, i + 4);
            var next := if length > 0 then i + 8 + length else i + 8;
            WalkFrom(data, next, n - 1).Success? ==>
              WalkFrom(data, i, n) == Success([FieldRef(UInt32At(data, i), i + 8, length)] + WalkFrom(data, next, n - 1).value)
  {
  }

  /** The shape of a successful walk: the first value right after the first
      header, each header decoded where it lies, and each next header 8 bytes
      plus any non-empty value further on. */
  lemma WalkShape(data: bytes, i: nat, n: int)
    requires WalkFrom(data, i, n).Success?
    ensures var fs := WalkFrom(data, i, n).value;
            && (n > 0 ==> fs[0].offset == i + 8)
            && (forall k :: 0 <= k < |fs| ==>
                  8 <= fs[k].offset <= |data|
                  && fs[k].oid == UInt32At(data, fs[k].offset - 8)
                  && fs[k].length == Int32At(data, fs[k].offset - 4))
            && (forall k :: 0 <= k < |fs| - 1 ==>
                  fs[k + 1].offset == fs[k].offset + 8 + (if fs[k].length > 0 then fs[k].length else 0))
  {
    var fs := WalkFrom(data, i, n).value;
    if n > 0 {
      WalkFieldAt(data, i, n, 0);
    }
    forall k | 0 <= k < |fs|
      ensures 8 <= fs[k].offset <= |data|
      ensures fs[k].oid == UInt32At(data, fs[k].offset - 8) && fs[k].length == Int32At(data, fs[k].offset - 4)
    {
      WalkFieldAt(data, i, n, k);
    }
    forall k | 0 <= k < |fs| - 1
      ensures fs[k + 1].offset == fs[k].offset + 8 + (if fs[k].length > 0 then fs[k].length else 0)
    {
      WalkNext(data, i, n, k);
    }
  }

  /** Field `k` of a successful walk: its header lies 8 bytes before its
      value, and is decoded there; the first field's value follows the header at `i`. */
  lemma {:induction false} WalkFieldAt(data: bytes, i: nat, n: int, k: nat)
    requires WalkFrom(data, i, n).Success? && k < |WalkFrom(data, i, n).value|
    decreases k
    ensures var fr := WalkFrom(data, i, n).value[k];
            8 <= fr.offset <= |data|
            && fr.oid == UInt32At(data, fr.offset - 8) && fr.length == Int32At(data, fr.offset - 4)
            && (k == 0 ==> fr.offset == i + 8)
  {
    var length := Int32At(data, i + 4);
    var next := if length > 0 then i + 8 + length else i + 8;
    WalkHead(data, i, n);
    if k > 0 {
      WalkFieldAt(data, next, n - 1, k - 1);
    }
  }

  /** Consecutive fields of a successful walk: the next header follows the
      value, or directly follows the header when the length is not positive. */
  lemma {:induction false} WalkNext(data: bytes, i: nat, n: int, k: nat)
    requires WalkFrom(data, i, n).Success? && k + 1 < |WalkFrom(data, i, n).value|
    decreases k
    ensures var fs := WalkFrom(data, i, n).value;
            fs[k + 1].offset == fs[k].offset + 8 + (if fs[k].length > 0 then fs[k].length else 0)
  {
    var length := Int32At(data, i + 4);
    var next := if length > 0 then i + 8 + length else i + 8;
    WalkHead(data, i, n);
    if k == 0 {
      WalkFieldAt(data, next, n - 1, 0);
    } else {
      WalkNext(data, next, n - 1, k - 1);
    }
  }

  /** `_walk_record(data)`: the field count is the leading int32; a negative
      count yields no fields. */
  function WalkSpec(data: bytes): (r: Result<seq<FieldRef>>)
    ensures |data| < 4 ==> r == Failure(StructError)
    ensures r.Success? ==> |data| >= 4 && |r.value| == (if Int32At(data, 0) > 0 then Int32At(data, 0) else 0)
    ensures r.Success? && |r.value| > 0 ==> r.value[0].offset == 12
  {
    if |data| < 4 then Failure(StructError) else WalkFrom(data, 4, Int32At(data, 0))
  }

  /** The fields before the header at `i`, followed by the rest of the walk. */
  function Continue(acc: seq<FieldRef>, rest: Result<seq<FieldRef>>): Result<seq<FieldRef>>
  {
    match rest
    case Success(fs) => Success(acc + fs)
    case Failure(e) => Failure(e)
  }

  /** One step of the walk: the header at `i`, then the rest. */
  lemma WalkStep(data: bytes, i: nat, n: int, acc: seq<FieldRef>)
    requires n > 0 && i + 8 <= |data|
    ensures var length := Int32At(data, i + 4);
            var next := if length > 0 then i + 8 + length else i + 8;
            Continue(acc, WalkFrom(data, i, n))
            == Continue(acc + [FieldRef(UInt32At(data, i), i + 8, length)], WalkFrom(data, next, n - 1))
  {
    var length := Int32At(data, i + 4);
    var next := if length > 0 then i + 8 + length else i + 8;
    var head := FieldRef(UInt32At(data, i), i + 8, length);
    match WalkFrom(data, next, n - 1) {
      case Failure(_) =>
      case Success(rest) =>
        assert WalkFrom(data, i, n) == Success([head] + rest);
        assert acc + ([head] + rest) == (acc + [head]) + rest;
    }
  }

  lemma WalkStart(data: bytes)
    requires |data| >= 4
    ensures Continue([], WalkFrom(data, 4, Int32At(data, 0))) == WalkSpec(data)
  {
    if WalkFrom(data, 4, Int32At(data, 0)).Success? {
      assert [] + WalkFrom(data, 4, Int32At(data, 0)).value == WalkFrom(data, 4, Int32At(data, 0)).value;
    }
  }

  lemma WalkDone(data: bytes, i: nat, n: int, acc: seq<FieldRef>)
    requires n <= 0
    ensures Continue(acc, WalkFrom(data, i, n)) == Success(acc)
  {
    assert acc + [] == acc;
  }

  /** `_walk_record` as the loop it is: the header position advances by 8
      plus the length of any non-empty value. */
  method WalkRecord(data: bytes) returns (r: Result<seq<FieldRef>>)
    ensures r == WalkSpec(data)
  {
    if |data| < 4 {
      return Failure(StructError);
    }
    var nfields := Int32At(data, 0);
    var i: nat := 4;
    var acc: seq<FieldRef> := [];
    var k := 0;
    WalkStart(data);
    while k < nfields
      invariant 0 <= k && (nfields > 0 ==> k <= nfields)
      invariant Continue(acc, WalkFrom(data, i, nfields - k)) == WalkSpec(data)
    {
      if i + 8 > |data| {
        return Failure(StructError);
      }
      var oid := UInt32At(data, i);
      var length := Int32At(data, i + 4);
      WalkStep(data, i, nfields - k, acc);
      acc := acc + [FieldRef(oid, i + 8, length)];
      i := if length > 0 then i + 8 + length else i + 8;
      k := k + 1;
    }
    WalkDone(data, i, nfields - k, acc);
    return Success(acc);
  }

  /** Python's slice bound: a negative bound counts from the end, and both
      ends are clamped to the data. */
  function SliceBound(x: int, n: nat): (b: nat)
    ensures b <= n
  {
    if x < 0 then (if x + n < 0 then 0 else x + n) else if x > n then n else x
  }

  /** `data[lo:hi]`. */
  function PySlice(data: bytes, lo: int, hi: int): bytes
  {
    var a := SliceBound(lo, |data|);
    var b := SliceBound(hi, |data|);
    if a < b then data[a..b] else []
  }

  /** A slice within the data is exactly the bytes asked for; one running
      past the end is cut at the end. */
  lemma PySliceInRange(data: bytes, lo: nat, length: nat)
    ensures lo + length <= |data| ==> PySlice(data, lo, lo + length) == data[lo..lo + length]
    ensures lo <= |data| < lo + length ==> PySlice(data, lo, lo + length) == data[lo..]
  {
  }

  /** One cell of `RecordBinaryLoader.load`: length -1 is NULL, any other
      length takes the slice at the field's offset. */
  function SliceField(data: bytes, f: FieldRef): (c: Option<bytes>)
    ensures c.None? <==> f.length == -1
    ensures f.length >= 0 && f.offset + f.length <= |data| ==>
              c == Some(data[f.offset..f.offset + f.length])
  {
    if f.length == -1 then None
    else if f.length >= 0 then
      PySliceInRange(data, f.offset, f.length);
      Some(PySlice(data, f.offset, f.offset + f.length))
    else Some(PySlice(data, f.offset, f.offset + f.length))
  }

  function Cells(data: bytes, refs: seq<FieldRef>): (cells: seq<Option<bytes>>)
    ensures |cells| == |refs| && forall k :: 0 <= k < |refs| ==> cells[k] == SliceField(data, refs[k])
  {
    seq(|refs|, k requires 0 <= k < |refs| => SliceField(data, refs[k]))
  }

  // ---------------------------------------------------------------------
  // The layout written out, as PostgreSQL's record_send produces it

  datatype BinaryField = BinaryField(oid: int, value: Option<bytes>)

  predicate Encodable(f: BinaryField)
  {
    0 <= f.oid < TWO_32 && (f.value.Some? ==> |f.value.value| < TWO_31)
  }

  function FieldBytes(f: BinaryField): (b: bytes)
    requires Encodable(f)
    ensures |b| == 8 + (if f.value.Some? then |f.value.value| else 0)
  {
    UInt32Bytes(f.oid)
    + Int32Bytes(if f.value.None? then -1 else |f.value.value|)
    + (if f.value.None? then [] else f.value.value)
  }

  function FieldsBytes(fs: seq<BinaryField>): bytes
    requires forall k :: 0 <= k < |fs| ==> Encodable(fs[k])
  {
    if fs == [] then [] else FieldBytes(fs[0]) + FieldsBytes(fs[1..])
  }

  function EncodeRecord(fs: seq<BinaryField>): bytes
    requires |fs| < TWO_31 && forall k :: 0 <= k < |fs| ==> Encodable(fs[k])
  {
    Int32Bytes(|fs|) + FieldsBytes(fs)
  }

  /** Where `a + b` lies in `data`, `a` and `b` lie one after the other. */
  lemma SplitAt(data: bytes, i: nat, a: bytes, b: bytes)
    requires i + |a + b| <= |data| && data[i..i + |a + b|] == a + b
    ensures data[i..i + |a|] == a && data[i + |a|..i + |a| + |b|] == b
  {
    assert data[i..i + |a|] == (a + b)[..|a|];
    assert data[i + |a|..i + |a| + |b|] == (a + b)[|a|..];
  }

  /** Where `a + b + c` lies in `data`, the three lie one after the other. */
  lemma Split3(data: bytes, i: nat, a: bytes, b: bytes, c: bytes)
    requires |a| == 4 && |b| == 4
    requires i + |a + b + c| <= |data| && data[i..i + |a + b + c|] == a + b + c
    ensures data[i..i + 4] == a && data[i + 4..i + 8] == b && data[i + 8..i + 8 + |c|] == c
  {
    SplitAt(data, i, a + b, c);
    SplitAt(data, i, a, b);
  }

  /** An encoded field at `i` decodes to its oid, its length and its value. */
  lemma FieldAt(data: bytes, i: nat, f: BinaryField)
    requires Encodable(f)
    requires i + |FieldBytes(f)| <= |data| && data[i..i + |FieldBytes(f)|] == FieldBytes(f)
    ensures var len := if f.value.None? then -1 else |f.value.value|;
            UInt32At(data, i) == f.oid && Int32At(data, i + 4) == len
            && SliceField(data, FieldRef(f.oid, i + 8, len)) == f.value
  {
    var len := if f.value.None? then -1 else |f.value.value|;
    var v: bytes := if f.value.None? then [] else f.value.value;
    Split3(data, i, UInt32Bytes(f.oid), Int32Bytes(len), v);
    UInt32RoundTrip(data, i, f.oid);
    Int32RoundTrip(data, i + 4, len);
  }

  /** The bytes of the first field and of the remaining fields, each where
      the encoding puts them. */
  lemma EncodedSplit(data: bytes, i: nat, fs: seq<BinaryField>)
    requires fs != [] && forall k :: 0 <= k < |fs| ==> Encodable(fs[k])
    requires i + |FieldsBytes(fs)| <= |data| && data[i..i + |FieldsBytes(fs)|] == FieldsBytes(fs)
    ensures var fb := FieldBytes(fs[0]);
            var tail := FieldsBytes(fs[1..]);
            i + |fb| + |tail| <= |data|
            && data[i..i + |fb|] == fb && data[i + |fb|..i + |fb| + |tail|] == tail
  {
    FieldsBytesCons(fs);
    SplitAt(data, i, FieldBytes(fs[0]), FieldsBytes(fs[1..]));
  }

  lemma FieldsBytesCons(fs: seq<BinaryField>)
    requires fs != [] && forall k :: 0 <= k < |fs| ==> Encodable(fs[k])
    ensures FieldsBytes(fs) == FieldBytes(fs[0]) + FieldsBytes(fs[1..])
  {
  }

  /** Walking encoded fields finds each field's oid and value again. */
  lemma WalkEncoded(data: bytes, i: nat, fs: seq<BinaryField>)
    requires forall k :: 0 <= k < |fs| ==> Encodable(fs[k])
    requires i + |FieldsBytes(fs)| <= |data| && data[i..i + |FieldsBytes(fs)|] == FieldsBytes(fs)
    ensures var r := WalkFrom(data, i, |fs|);
            r.Success?
            && forall k :: 0 <= k < |fs| ==>
                 r.value[k].oid == fs[k].oid && SliceField(data, r.value[k]) == fs[k].value
  {
    WalkEncodedSucceeds(data, i, fs);
    var r := WalkFrom(data, i, |fs|).value;
    forall k | 0 <= k < |fs|
      ensures r[k].oid == fs[k].oid && SliceField(data, r[k]) == fs[k].value
    {
      WalkEncodedAt(data, i, fs, k);
    }
  }

  /** The header after an encoded field is where the walk goes next, and
      the remaining fields are encoded from there. */
  lemma EncodedStep(data: bytes, i: nat, fs: seq<BinaryField>, next: nat, tail: seq<BinaryField>)
    requires fs != [] && forall k :: 0 <= k < |fs| ==> Encodable(fs[k])
    requires i + |FieldsBytes(fs)| <= |data| && data[i..i + |FieldsBytes(fs)|] == FieldsBytes(fs)
    requires next == i + |FieldBytes(fs[0])| && tail == fs[1..]
    ensures i + 8 <= |data| && |tail| == |fs| - 1
    ensures next == (if Int32At(data, i + 4) > 0 then i + 8 + Int32At(data, i + 4) else i + 8)
    ensures UInt32At(data, i) == fs[0].oid
    ensures SliceField(data, FieldRef(fs[0].oid, i + 8, Int32At(data, i + 4))) == fs[0].value
    ensures forall k :: 0 <= k < |tail| ==> Encodable(tail[k])
    ensures next + |FieldsBytes(tail)| <= |data| && data[next..next + |FieldsBytes(tail)|] == FieldsBytes(tail)
  {
    EncodedSplit(data, i, fs);
    FieldAt(data, i, fs[0]);
    var len := if fs[0].value.None? then -1 else |fs[0].value.value|;
    assert Int32At(data, i + 4) == len;
    assert |FieldBytes(fs[0])| == if len > 0 then 8 + len else 8;
    forall k | 0 <= k < |tail|
      ensures Encodable(tail[k])
    {
      assert tail[k] == fs[k + 1];
    }
  }

  /** A walk whose rest succeeds from `next` starts with the field at `i`. */
  lemma WalkCons(data: bytes, i: nat, n: int, next: nat, rest: seq<FieldRef>)
    requires n > 0 && i + 8 <= |data|
    requires next == (if Int32At(data, i + 4) > 0 then i + 8 + Int32At(data, i + 4) else i + 8)
    requires WalkFrom(data, next, n - 1) == Success(rest)
    ensures WalkFrom(data, i, n) == Success([FieldRef(UInt32At(data, i), i + 8, Int32At(data, i + 4))] + rest)
  {
  }

  lemma {:induction false} WalkEncodedSucceeds(data: bytes, i: nat, fs: seq<BinaryField>)
    requires forall k :: 0 <= k < |fs| ==> Encodable(fs[k])
    requires i + |FieldsBytes(fs)| <= |data| && data[i..i + |FieldsBytes(fs)|] == FieldsBytes(fs)
    decreases |fs|
    ensures WalkFrom(data, i, |fs|).Success?
  {
    if fs != [] {
      var next := i + |FieldBytes(fs[0])|;
      var tail := fs[1..];
      EncodedStep(data, i, fs, next, tail);
      WalkEncodedSucceeds(data, next, tail);
      WalkCons(data, i, |fs|, next, WalkFrom(data, next, |tail|).value);
    }
  }

  lemma {:induction false} WalkEncodedAt(data: bytes, i: nat, fs: seq<BinaryField>, k: nat)
    requires forall k :: 0 <= k < |fs| ==> Encodable(fs[k])
    requires i + |FieldsBytes(fs)| <= |data| && data[i..i + |FieldsBytes(fs)|] == FieldsBytes(fs)
    requires k < |fs|
    decreases k
    ensures WalkFrom(data, i, |fs|).Success?
    ensures var r := WalkFrom(data, i, |fs|).value;
            r[k].oid == fs[k].oid && SliceField(data, r[k]) == fs[k].value
  {
    var next := i + |FieldBytes(fs[0])|;
    var tail := fs[1..];
    EncodedStep(data, i, fs, next, tail);
    WalkEncodedSucceeds(data, next, tail);
    var rest := WalkFrom(data, next, |tail|).value;
    WalkCons(data, i, |fs|, next, rest);
    if k > 0 {
      WalkEncodedAt(data, next, tail, k - 1);
      assert fs[k] == tail[k - 1];
    }
  }

  /** Round trip of the binary layout: the cells read from an encoded record
      are the encoded values, one per field, with the field oids. */
  lemma RecordRoundTrip(fs: seq<BinaryField>)
    requires |fs| < TWO_31 && forall k :: 0 <= k < |fs| ==> Encodable(fs[k])
    ensures var data := EncodeRecord(fs);
            var r := WalkSpec(data);
            r.Success? && |r.value| == |fs|
            && forall k :: 0 <= k < |fs| ==>
                 r.value[k].oid == fs[k].oid && Cells(data, r.value)[k] == fs[k].value
  {
    var data := EncodeRecord(fs);
    assert data[0..4] == Int32Bytes(|fs|);
    Int32RoundTrip(data, 0, |fs|);
    assert data[4..4 + |FieldsBytes(fs)|] == FieldsBytes(fs);
    WalkEncoded(data, 4, fs);
  }
}
