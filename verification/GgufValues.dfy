/** Metadata values as bytes, by the GGUF format, and that the reader reads them back. */
module GgufValues {
  import opened GgufReader

  const U32: nat := 0x1_0000_0000
  const U64: nat := 0x1_0000_0000_0000_0000

  function LeBytes(v: nat, n: nat): (b: seq<Byte>)
    ensures |b| == n
  {
    if n == 0 then [] else [v % 256] + LeBytes(v / 256, n - 1)
  }

  function Pow256(n: nat): (p: nat)
    ensures p > 0
  {
    if n == 0 then 1 else 256 * Pow256(n - 1)
  }

  /** `struct.pack` refuses numbers that do not fit. */
  function WriteU32(v: nat): (b: seq<Byte>)
    requires v < U32
    ensures |b| == 4
  {
    LeBytes(v, 4)
  }

  function WriteU64(v: nat): (b: seq<Byte>)
    requires v < U64
    ensures |b| == 8
  {
    LeBytes(v, 8)
  }

  function WriteStr(s: seq<Byte>): seq<Byte>
    requires |s| < U64
  {
    WriteU64(|s|) + s
  }

  /** Two's complement in `n` bytes. */
  function IntBytes(v: int, n: nat): (b: seq<Byte>)
    ensures |b| == n
  {
    LeBytes(v % Pow256(n), n)
  }

  function Flat(parts: seq<seq<Byte>>): seq<Byte> {
    if parts == [] then [] else Flat(parts[..|parts| - 1]) + parts[|parts| - 1]
  }

  lemma FlatSnoc(parts: seq<seq<Byte>>, p: seq<Byte>)
    ensures Flat(parts + [p]) == Flat(parts) + p
  {
    assert (parts + [p])[..|parts|] == parts;
  }

  // ---- the thirteen types ---------------------------------------------------------------

  predicate IsInt(v: int, half: int) {
    -half <= v < half
  }

  predicate Below(vs: seq<nat>, bound: nat) {
    forall k :: 0 <= k < |vs| ==> vs[k] < bound
  }

  predicate AllInts(vs: seq<int>, half: int) {
    forall k :: 0 <= k < |vs| ==> IsInt(vs[k], half)
  }

  /** The value is one of its type: within the width, or with a length of eight bytes. */
  predicate Writable(v: Value) {
    match v
    case Uint8(n) => n < 0x100
    case Int8(i) => IsInt(i, 0x80)
    case Uint16(n) => n < 0x1_0000
    case Int16(i) => IsInt(i, 0x8000)
    case Uint32(n) => n < U32
    case Int32(i) => IsInt(i, 0x8000_0000)
    case Float32(bits) => bits < U32
    case Bool(_) => true
    case Str(s) => |s| < U64
    case Array(a) => Count(a) < U64 && Elements(a)
    case Uint64(n) => n < U64
    case Int64(i) => IsInt(i, 0x8000_0000_0000_0000)
    case Float64(bits) => bits < U64
  }

  predicate Elements(a: ArrayValue) {
    match a
    case AUint8(v) => Below(v, 0x100)
    case AInt8(v) => AllInts(v, 0x80)
    case AUint16(v) => Below(v, 0x1_0000)
    case AInt16(v) => AllInts(v, 0x8000)
    case AUint32(v) => Below(v, U32)
    case AInt32(v) => AllInts(v, 0x8000_0000)
    case AFloat32(v) => Below(v, U32)
    case ABool(_) => true
    case AStr(v) => forall k :: 0 <= k < |v| ==> |v[k]| < U64
    case AUint64(v) => Below(v, U64)
    case AInt64(v) => AllInts(v, 0x8000_0000_0000_0000)
    case AFloat64(v) => Below(v, U64)
  }

  function Count(a: ArrayValue): nat {
    match a
    case AUint8(v) => |v|
    case AInt8(v) => |v|
    case AUint16(v) => |v|
    case AInt16(v) => |v|
    case AUint32(v) => |v|
    case AInt32(v) => |v|
    case AFloat32(v) => |v|
    case ABool(v) => |v|
    case AStr(v) => |v|
    case AUint64(v) => |v|
    case AInt64(v) => |v|
    case AFloat64(v) => |v|
  }

  /** The number of a value's type. */
  function Tag(v: Value): (tag: nat)
    ensures tag <= 12
  {
    match v
    case Uint8(_) => 0
    case Int8(_) => 1
    case Uint16(_) => 2
    case Int16(_) => 3
    case Uint32(_) => 4
    case Int32(_) => 5
    case Float32(_) => 6
    case Bool(_) => 7
    case Str(_) => 8
    case Array(_) => 9
    case Uint64(_) => 10
    case Int64(_) => 11
    case Float64(_) => 12
  }

  function ElementTag(a: ArrayValue): (tag: nat)
    ensures tag <= 12
  {
    match a
    case AUint8(_) => 0
    case AInt8(_) => 1
    case AUint16(_) => 2
    case AInt16(_) => 3
    case AUint32(_) => 4
    case AInt32(_) => 5
    case AFloat32(_) => 6
    case ABool(_) => 7
    case AStr(_) => 8
    case AUint64(_) => 10
    case AInt64(_) => 11
    case AFloat64(_) => 12
  }

  function Numbers(vs: seq<nat>, n: nat): (encs: seq<seq<Byte>>)
    ensures |encs| == |vs|
  {
    seq(|vs|, k requires 0 <= k < |vs| => LeBytes(vs[k], n))
  }

  function Integers(vs: seq<int>, n: nat): (encs: seq<seq<Byte>>)
    ensures |encs| == |vs|
  {
    seq(|vs|, k requires 0 <= k < |vs| => IntBytes(vs[k], n))
  }

  function BoolByte(b: bool): seq<Byte> {
    if b then [1] else [0]
  }

  function BoolBytes(bs: seq<bool>): (encs: seq<seq<Byte>>)
    ensures |encs| == |bs|
  {
    seq(|bs|, k requires 0 <= k < |bs| => BoolByte(bs[k]))
  }

  function Strs(ss: seq<seq<Byte>>): (encs: seq<seq<Byte>>)
    requires forall k :: 0 <= k < |ss| ==> |ss[k]| < U64
    ensures |encs| == |ss|
  {
    seq(|ss|, k requires 0 <= k < |ss| => WriteStr(ss[k]))
  }

  function ElementBytes(a: ArrayValue): seq<seq<Byte>>
    requires Elements(a)
  {
    match a
    case AUint8(v) => Numbers(v, 1)
    case AInt8(v) => Integers(v, 1)
    case AUint16(v) => Numbers(v, 2)
    case AInt16(v) => Integers(v, 2)
    case AUint32(v) => Numbers(v, 4)
    case AInt32(v) => Integers(v, 4)
    case AFloat32(v) => Numbers(v, 4)
    case ABool(v) => BoolBytes(v)
    case AStr(v) => Strs(v)
    case AUint64(v) => Numbers(v, 8)
    case AInt64(v) => Integers(v, 8)
    case AFloat64(v) => Numbers(v, 8)
  }

  /** The element type in four bytes, the length in eight, and the elements in order. */
  function ArrayBytes(a: ArrayValue): seq<Byte>
    requires Elements(a) && Count(a) < U64
  {
    WriteU32(ElementTag(a)) + WriteU64(Count(a)) + Flat(ElementBytes(a))
  }

  function ValueBytes(v: Value): seq<Byte>
    requires Writable(v)
  {
    match v
    case Uint8(n) => LeBytes(n, 1)
    case Int8(i) => IntBytes(i, 1)
    case Uint16(n) => LeBytes(n, 2)
    case Int16(i) => IntBytes(i, 2)
    case Uint32(n) => LeBytes(n, 4)
    case Int32(i) => IntBytes(i, 4)
    case Float32(bits) => LeBytes(bits, 4)
    case Bool(b) => BoolByte(b)
    case Str(s) => WriteStr(s)
    case Array(a) => ArrayBytes(a)
    case Uint64(n) => LeBytes(n, 8)
    case Int64(i) => IntBytes(i, 8)
    case Float64(bits) => LeBytes(bits, 8)
  }

  // ---- reading back -------------------------------------------------------------------

  /** `enc` reads as `v` wherever it stands. */
  ghost predicate Reads<T(!new)>(read: Read<T>, enc: seq<Byte>, v: T) {
    forall a: seq<Byte>, b: seq<Byte> :: read(a + enc + b, |a|) == Ok(v, |a| + |enc|)
  }

  lemma {:induction false} LeRoundTrip(v: nat, n: nat)
    requires v < Pow256(n)
    ensures Le(LeBytes(v, n)) == v
  {
    if n > 0 {
      LeRoundTrip(v / 256, n - 1);
      assert LeBytes(v, n)[1..] == LeBytes(v / 256, n - 1);
    }
  }

  lemma NumberReads(v: nat, n: nat, a: seq<Byte>, b: seq<Byte>)
    requires v < Pow256(n)
    ensures ReadLe(a + LeBytes(v, n) + b, |a|, n) == Ok(v, |a| + n)
  {
    LeRoundTrip(v, n);
    assert (a + LeBytes(v, n) + b)[|a|..|a| + n] == LeBytes(v, n);
  }

  lemma Powers()
    ensures Pow256(1) == 0x100 && Pow256(2) == 0x1_0000
    ensures Pow256(4) == U32 && Pow256(8) == U64
  {
    assert Pow256(2) == 0x1_0000;
    assert Pow256(4) == U32;
    assert Pow256(6) == 0x1_0000_0000_0000;
  }

  lemma U32Reads(v: nat)
    requires v < U32
    ensures Reads(ReadU32, WriteU32(v), v)
  {
    Powers();
    forall a: seq<Byte>, b: seq<Byte>
      ensures ReadU32(a + WriteU32(v) + b, |a|) == Ok(v, |a| + 4)
    {
      NumberReads(v, 4, a, b);
    }
  }

  lemma U64Reads(v: nat)
    requires v < U64
    ensures Reads(ReadU64, WriteU64(v), v)
  {
    Powers();
    forall a: seq<Byte>, b: seq<Byte>
      ensures ReadU64(a + WriteU64(v) + b, |a|) == Ok(v, |a| + 8)
    {
      NumberReads(v, 8, a, b);
    }
  }

  /** Reading the second of two encodings. */
  lemma ReadsSecond<T(!new)>(read: Read<T>, x: seq<Byte>, enc: seq<Byte>, v: T, a: seq<Byte>, b: seq<Byte>)
    requires Reads(read, enc, v)
    ensures read(a + (x + enc) + b, |a| + |x|) == Ok(v, |a| + |x| + |enc|)
  {
    assert a + (x + enc) + b == (a + x) + enc + b;
    assert read((a + x) + enc + b, |a + x|) == Ok(v, |a + x| + |enc|);
  }

  lemma ReadsFirst<T(!new)>(read: Read<T>, enc: seq<Byte>, x: seq<Byte>, v: T, a: seq<Byte>, b: seq<Byte>)
    requires Reads(read, enc, v)
    ensures read(a + (enc + x) + b, |a|) == Ok(v, |a| + |enc|)
  {
    assert a + (enc + x) + b == a + enc + (x + b);
    assert read(a + enc + (x + b), |a|) == Ok(v, |a| + |enc|);
  }

  lemma TakeReads(a: seq<Byte>, s: seq<Byte>, b: seq<Byte>)
    ensures Take(a + s + b, |a|, |s|) == Ok(s, |a| + |s|)
  {
    assert (a + s + b)[|a|..|a| + |s|] == s;
  }

  lemma StringReads(s: seq<Byte>)
    requires |s| < U64
    ensures Reads(ReadString, WriteStr(s), s)
  {
    hide WriteU64, Take, Le;
    U64Reads(|s|);
    forall a: seq<Byte>, b: seq<Byte>
      ensures ReadString(a + WriteStr(s) + b, |a|) == Ok(s, |a| + |WriteStr(s)|)
    {
      ReadsFirst<nat>(ReadU64, WriteU64(|s|), s, |s|, a, b);
      TakeReads(a + WriteU64(|s|), s, b);
      assert a + (WriteU64(|s|) + s) + b == a + WriteU64(|s|) + s + b;
    }
  }

  lemma {:induction false} ManyReads<T(!new)>(read: Read<T>, encs: seq<seq<Byte>>, vs: seq<T>,
                                              a: seq<Byte>, b: seq<Byte>)
    requires |encs| == |vs| && forall k :: 0 <= k < |vs| ==> Reads(read, encs[k], vs[k])
    ensures Many(read, |vs|, a + Flat(encs) + b, |a|) == Ok(vs, |a| + |Flat(encs)|)
  {
    if vs != [] {
      var n := |vs| - 1;
      var init := Flat(encs[..n]);
      assert Flat(encs) == init + encs[n];
      assert a + Flat(encs) + b == a + init + (encs[n] + b);
      ManyReads(read, encs[..n], vs[..n], a, encs[n] + b);
      ReadsSecond(read, init, encs[n], vs[n], a, b);
      assert vs[..n] + [vs[n]] == vs;
    }
  }

  // ---- signed numbers and single bytes ------------------------------------------------------

  lemma SignedMod(v: int, half: nat)
    requires half > 0 && IsInt(v, half)
    ensures 0 <= v % (2 * half) < 2 * half && Signed(v % (2 * half), half) == v
  {
    ModIs(v, 2 * half, if v < 0 then v + 2 * half else v, if v < 0 then -1 else 0);
  }

  lemma ModIs(v: int, m: nat, r: int, q: int)
    requires m > 0 && 0 <= r < m && v == q * m + r
    ensures v % m == r
  {
    var k: int := v / m - q;
    assert v == v / m * m + v % m;
    assert v / m * m - q * m == k * m;
    NoMultiple(k, m);
  }

  /** No multiple of `m` but zero is nearer to zero than `m`. */
  lemma NoMultiple(k: int, m: int)
    requires m >= 0
    ensures k == 0 || k * m >= m || k * m <= -m
  {
    if k >= 1 {
      assert (k - 1) * m >= 0;
    } else if k <= -1 {
      assert (-1 - k) * m >= 0;
    }
  }

  /** Reading `n` bytes and taking them as signed gives the number back. */
  lemma IntReads(v: int, n: nat, half: nat, a: seq<Byte>, b: seq<Byte>)
    requires Pow256(n) == 2 * half && half > 0 && IsInt(v, half)
    ensures Map(ReadLe(a + IntBytes(v, n) + b, |a|, n), u => Signed(u, half)) == Ok(v, |a| + n)
  {
    hide LeBytes, Le, Take, Pow256;
    SignedMod(v, half);
    NumberReads(v % Pow256(n), n, a, b);
  }

  /** Every number below `bound` reads back from its `n` bytes. */
  ghost predicate ReadsBelow(read: Read<nat>, n: nat, bound: nat) {
    forall v: nat :: v < bound ==> Reads(read, LeBytes(v, n), v)
  }

  ghost predicate ReadsInts(read: Read<int>, n: nat, half: int) {
    forall v: int :: IsInt(v, half) ==> Reads(read, IntBytes(v, n), v)
  }

  lemma NaturalsRead()
    ensures ReadsBelow(ReadU16, 2, 0x1_0000) && ReadsBelow(ReadU32, 4, U32) && ReadsBelow(ReadU64, 8, U64)
  {
    hide LeBytes, ReadLe;
    Powers();
    forall v: nat, a: seq<Byte>, b: seq<Byte> | v < 0x1_0000 {
      NumberReads(v, 2, a, b);
    }
    forall v: nat, a: seq<Byte>, b: seq<Byte> | v < U32 {
      NumberReads(v, 4, a, b);
    }
    forall v: nat, a: seq<Byte>, b: seq<Byte> | v < U64 {
      NumberReads(v, 8, a, b);
    }
  }

  lemma I16Reads(v: int)
    requires IsInt(v, 0x8000)
    ensures Reads(ReadI16, IntBytes(v, 2), v)
  {
    hide IntBytes, ReadLe, Pow256;
    Powers();
    forall a: seq<Byte>, b: seq<Byte>
      ensures ReadI16(a + IntBytes(v, 2) + b, |a|) == Ok(v, |a| + 2)
    {
      IntReads(v, 2, 0x8000, a, b);
    }
  }

  lemma I32Reads(v: int)
    requires IsInt(v, 0x8000_0000)
    ensures Reads(ReadI32, IntBytes(v, 4), v)
  {
    hide IntBytes, ReadLe, Pow256;
    Powers();
    forall a: seq<Byte>, b: seq<Byte>
      ensures ReadI32(a + IntBytes(v, 4) + b, |a|) == Ok(v, |a| + 4)
    {
      IntReads(v, 4, 0x8000_0000, a, b);
    }
  }

  lemma I64Reads(v: int)
    requires IsInt(v, 0x8000_0000_0000_0000)
    ensures Reads(ReadI64, IntBytes(v, 8), v)
  {
    hide IntBytes, ReadLe, Pow256;
    Powers();
    forall a: seq<Byte>, b: seq<Byte>
      ensures ReadI64(a + IntBytes(v, 8) + b, |a|) == Ok(v, |a| + 8)
    {
      IntReads(v, 8, 0x8000_0000_0000_0000, a, b);
    }
  }

  lemma IntegersReadBack()
    ensures ReadsInts(ReadI16, 2, 0x8000) && ReadsInts(ReadI32, 4, 0x8000_0000)
    ensures ReadsInts(ReadI64, 8, 0x8000_0000_0000_0000)
  {
    hide IntBytes, Reads, IsInt;
    forall v: int | IsInt(v, 0x8000) {
      I16Reads(v);
    }
    forall v: int | IsInt(v, 0x8000_0000) {
      I32Reads(v);
    }
    forall v: int | IsInt(v, 0x8000_0000_0000_0000) {
      I64Reads(v);
    }
  }

  lemma NumbersRead(read: Read<nat>, n: nat, bound: nat, vs: seq<nat>, a: seq<Byte>, b: seq<Byte>)
    requires ReadsBelow(read, n, bound) && Below(vs, bound)
    ensures Many(read, |vs|, a + Flat(Numbers(vs, n)) + b, |a|) == Ok(vs, |a| + |Flat(Numbers(vs, n))|)
  {
    hide Reads, LeBytes, Many, Flat;
    ManyReads(read, Numbers(vs, n), vs, a, b);
  }

  lemma IntegersRead(read: Read<int>, n: nat, half: int, vs: seq<int>, a: seq<Byte>, b: seq<Byte>)
    requires ReadsInts(read, n, half) && AllInts(vs, half)
    ensures Many(read, |vs|, a + Flat(Integers(vs, n)) + b, |a|) == Ok(vs, |a| + |Flat(Integers(vs, n))|)
  {
    hide Reads, IntBytes, Many, Flat, IsInt;
    ManyReads(read, Integers(vs, n), vs, a, b);
  }

  lemma StrsRead(vs: seq<seq<Byte>>, a: seq<Byte>, b: seq<Byte>)
    requires forall k :: 0 <= k < |vs| ==> |vs[k]| < U64
    ensures Many(ReadString, |vs|, a + Flat(Strs(vs)) + b, |a|) == Ok(vs, |a| + |Flat(Strs(vs))|)
  {
    hide Reads, WriteStr, ReadString, Many, Flat;
    forall k | 0 <= k < |vs| {
      StringReads(vs[k]);
    }
    ManyReads(ReadString, Strs(vs), vs, a, b);
  }

  /** Single bytes stand side by side. */
  lemma {:induction false} FlatSingles(encs: seq<seq<Byte>>)
    requires forall k :: 0 <= k < |encs| ==> |encs[k]| == 1
    ensures |Flat(encs)| == |encs| && forall k :: 0 <= k < |encs| ==> Flat(encs)[k] == encs[k][0]
  {
    if encs != [] {
      FlatSingles(encs[..|encs| - 1]);
    }
  }

  lemma OneByte(v: nat)
    ensures v < 0x100 ==> LeBytes(v, 1) == [v]
  {
    assert LeBytes(v / 256, 0) == [];
  }

  lemma OneSigned(v: int)
    requires IsInt(v, 0x80)
    ensures Signed(IntBytes(v, 1)[0], 0x80) == v
  {
    Powers();
    SignedMod(v, 0x80);
    OneByte(v % 0x100);
  }

  lemma ByteElements(v: seq<nat>)
    requires Below(v, 0x100)
    ensures Flat(Numbers(v, 1)) == v
  {
    hide LeBytes, Flat;
    forall k | 0 <= k < |v|
      ensures Numbers(v, 1)[k] == [v[k]]
    {
      OneByte(v[k]);
    }
    FlatSingles(Numbers(v, 1));
  }

  lemma SignedElements(v: seq<int>)
    requires AllInts(v, 0x80)
    ensures |Flat(Integers(v, 1))| == |v| && SignedBytes(Flat(Integers(v, 1))) == v
  {
    hide IntBytes, Flat, Signed;
    FlatSingles(Integers(v, 1));
    forall k | 0 <= k < |v|
      ensures SignedBytes(Flat(Integers(v, 1)))[k] == v[k]
    {
      OneSigned(v[k]);
    }
  }

  lemma BoolElements(v: seq<bool>)
    ensures |Flat(BoolBytes(v))| == |v| && Bools(Flat(BoolBytes(v))) == v
  {
    hide Flat;
    FlatSingles(BoolBytes(v));
  }

  // ---- arrays and values -----------------------------------------------------------------

  predicate IsBytes(a: ArrayValue) {
    a.AUint8? || a.AInt8? || a.ABool?
  }

  lemma BytesRead(v: ArrayValue, a: seq<Byte>, b: seq<Byte>)
    requires Elements(v) && IsBytes(v)
    ensures var enc := Flat(ElementBytes(v));
            ReadElements(FromRaw(ElementTag(v)).ty, Count(v), a + enc + b, |a|) == Ok(v, |a| + |enc|)
  {
    hide Flat, Take, Many, SignedBytes, Bools, Numbers, Integers, BoolBytes, Below, AllInts;
    var enc := Flat(ElementBytes(v));
    TakeReads(a, enc, b);
    match v
    case AUint8(u) => ByteElements(u);
    case AInt8(i) => SignedElements(i);
    case ABool(bs) => BoolElements(bs);
  }

  lemma NaturalElements(v: ArrayValue, a: seq<Byte>, b: seq<Byte>)
    requires Elements(v) && (v.AUint16? || v.AUint32? || v.AFloat32? || v.AUint64? || v.AFloat64?)
    ensures var enc := Flat(ElementBytes(v));
            ReadElements(FromRaw(ElementTag(v)).ty, Count(v), a + enc + b, |a|) == Ok(v, |a| + |enc|)
  {
    hide Flat, Take, Many, SignedBytes, Bools, Numbers, Integers, BoolBytes, Below, AllInts, ReadsBelow;
    hide ReadU16, ReadU32, ReadU64;
    NaturalsRead();
    match v
    case AUint16(u) => NumbersRead(ReadU16, 2, 0x1_0000, u, a, b);
    case AUint32(u) => NumbersRead(ReadU32, 4, U32, u, a, b);
    case AFloat32(u) => NumbersRead(ReadU32, 4, U32, u, a, b);
    case AUint64(u) => NumbersRead(ReadU64, 8, U64, u, a, b);
    case AFloat64(u) => NumbersRead(ReadU64, 8, U64, u, a, b);
  }

  lemma ElementsRead(v: ArrayValue, a: seq<Byte>, b: seq<Byte>)
    requires Elements(v)
    ensures var enc := Flat(ElementBytes(v));
            ReadElements(FromRaw(ElementTag(v)).ty, Count(v), a + enc + b, |a|) == Ok(v, |a| + |enc|)
  {
    hide Flat, Take, Many, SignedBytes, Bools, Numbers, Integers, BoolBytes, Below, AllInts, ReadsInts;
    hide ReadI16, ReadI32, ReadI64, ReadString, Strs;
    IntegersReadBack();
    match v
    case AInt16(i) => IntegersRead(ReadI16, 2, 0x8000, i, a, b);
    case AInt32(i) => IntegersRead(ReadI32, 4, 0x8000_0000, i, a, b);
    case AInt64(i) => IntegersRead(ReadI64, 8, 0x8000_0000_0000_0000, i, a, b);
    case AStr(ss) => StrsRead(ss, a, b);
    case _ =>
      if IsBytes(v) {
        BytesRead(v, a, b);
      } else {
        NaturalElements(v, a, b);
      }
  }

  /** Each of three consecutive parts has its own place in the whole. */
  lemma ThreeParts(a: seq<Byte>, t: seq<Byte>, n: seq<Byte>, e: seq<Byte>, b: seq<Byte>)
    ensures var w := a + (t + n + e) + b;
      && w == a + t + (n + e + b) && w == (a + t) + n + (e + b) && w == (a + t + n) + e + b
  {
  }

  /** An array reads back: its element type, its length and its elements in order. */
  lemma ArrayReads(v: ArrayValue, a: seq<Byte>, b: seq<Byte>)
    requires Elements(v) && Count(v) < U64
    ensures ReadArray(a + ArrayBytes(v) + b, |a|) == Ok(v, |a| + |ArrayBytes(v)|)
  {
    hide Flat, ElementBytes, Elements, Count, ReadElements, ReadU32, ReadU64, WriteU32, WriteU64;
    var (t, n, e) := (WriteU32(ElementTag(v)), WriteU64(Count(v)), Flat(ElementBytes(v)));
    U32Reads(ElementTag(v));
    U64Reads(Count(v));
    ElementsRead(v, a + t + n, b);
    ThreeParts(a, t, n, e, b);
    assert ReadU32(a + t + (n + e + b), |a|) == Ok(ElementTag(v), |a| + |t|);
    assert ReadU64((a + t) + n + (e + b), |a + t|) == Ok(Count(v), |a + t| + |n|);
  }

  /** An array of arrays is refused, whatever its elements. */
  lemma NestedArrayRefused(n: nat, a: seq<Byte>, b: seq<Byte>)
    requires n < U64
    ensures ReadArray(a + (WriteU32(9) + WriteU64(n) + b), |a|) == Err(UnexpectedEof)
  {
    hide ReadU32, ReadU64, WriteU32, WriteU64;
    var (t, l) := (WriteU32(9), WriteU64(n));
    U32Reads(9);
    U64Reads(n);
    var w := a + (t + l + b);
    assert w == a + t + (l + b) && w == (a + t) + l + b;
    assert ReadU32(a + t + (l + b), |a|) == Ok(9, |a| + |t|);
    assert ReadU64((a + t) + l + b, |a + t|) == Ok(n, |a + t| + |l|);
  }

  lemma ByteValueReads(v: Value, a: seq<Byte>, b: seq<Byte>)
    requires Writable(v) && (v.Uint8? || v.Int8? || v.Bool?)
    ensures ReadValue(FromRaw(Tag(v)).ty, a + ValueBytes(v) + b, |a|) == Ok(v, |a| + |ValueBytes(v)|)
  {
    hide LeBytes, ReadLe, IntBytes, Pow256;
    Powers();
    match v
    case Uint8(n) => NumberReads(n, 1, a, b);
    case Int8(i) => IntReads(i, 1, 0x80, a, b);
    case Bool(x) =>
      OneByte(if x then 1 else 0);
      NumberReads(if x then 1 else 0, 1, a, b);
  }

  lemma NaturalValueReads(v: Value, a: seq<Byte>, b: seq<Byte>)
    requires Writable(v) && (v.Uint16? || v.Uint32? || v.Float32? || v.Uint64? || v.Float64?)
    ensures ReadValue(FromRaw(Tag(v)).ty, a + ValueBytes(v) + b, |a|) == Ok(v, |a| + |ValueBytes(v)|)
  {
    hide LeBytes, ReadU16, ReadU32, ReadU64;
    NaturalsRead();
    match v
    case Uint16(n) => assert Reads(ReadU16, LeBytes(n, 2), n);
    case Uint32(n) => assert Reads(ReadU32, LeBytes(n, 4), n);
    case Float32(n) => assert Reads(ReadU32, LeBytes(n, 4), n);
    case Uint64(n) => assert Reads(ReadU64, LeBytes(n, 8), n);
    case Float64(n) => assert Reads(ReadU64, LeBytes(n, 8), n);
  }

  /** A value of any of the thirteen types reads back at any place, and the read ends where
      its bytes end. */
  lemma ValueReads(v: Value, a: seq<Byte>, b: seq<Byte>)
    requires Writable(v)
    ensures FromRaw(Tag(v)).Known?
    ensures ReadValue(FromRaw(Tag(v)).ty, a + ValueBytes(v) + b, |a|) == Ok(v, |a| + |ValueBytes(v)|)
  {
    hide ReadI16, ReadI32, ReadI64, ReadArray, ReadString, WriteStr, IntBytes, ArrayBytes, Elements;
    match v
    case Int16(i) =>
      I16Reads(i);
      assert ReadI16(a + IntBytes(i, 2) + b, |a|) == Ok(i, |a| + 2);
    case Int32(i) =>
      I32Reads(i);
      assert ReadI32(a + IntBytes(i, 4) + b, |a|) == Ok(i, |a| + 4);
    case Int64(i) =>
      I64Reads(i);
      assert ReadI64(a + IntBytes(i, 8) + b, |a|) == Ok(i, |a| + 8);
    case Str(s) =>
      StringReads(s);
      assert ReadString(a + WriteStr(s) + b, |a|) == Ok(s, |a| + |WriteStr(s)|);
    case Array(x) => ArrayReads(x, a, b);
    case _ =>
      if v.Uint8? || v.Int8? || v.Bool? {
        ByteValueReads(v, a, b);
      } else {
        NaturalValueReads(v, a, b);
      }
  }
}
