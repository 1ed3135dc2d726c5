/** The fixture writer, and the round trip through the reader. */
module GgufWriter {
  import opened GgufReader
  import opened GgufValues

  /** A metadata entry as the writer takes it: a key, a type tag, and ready-made bytes. */
  datatype RawPair = RawPair(key: seq<Byte>, dtype: nat, bytes: seq<Byte>) {
    predicate Fits() {
      |key| < U64 && dtype < U32
    }
  }

  /** An entry written out: its key, the tag of its value, and the bytes of the value. */
  function RawOf(kv: KeyValue): (r: RawPair)
    requires |kv.key| < U64 && Writable(kv.value)
    ensures r.Fits()
  {
    RawPair(kv.key, Tag(kv.value), ValueBytes(kv.value))
  }

  predicate TensorFits(t: TensorInfo) {
    && |t.name| < U64 && |t.dims| < U32 && t.ggmlType < U32 && t.offset < U64
    && forall k :: 0 <= k < |t.dims| ==> t.dims[k] < U64
  }

  function PairBytes(p: RawPair): seq<Byte>
    requires p.Fits()
  {
    WriteStr(p.key) + WriteU32(p.dtype) + p.bytes
  }

  function DimsBytes(dims: seq<nat>): seq<seq<Byte>>
    requires forall k :: 0 <= k < |dims| ==> dims[k] < U64
  {
    seq(|dims|, k requires 0 <= k < |dims| => WriteU64(dims[k]))
  }

  function TensorBytes(t: TensorInfo): seq<Byte>
    requires TensorFits(t)
  {
    WriteStr(t.name) + WriteU32(|t.dims|) + Flat(DimsBytes(t.dims)) + WriteU32(t.ggmlType) + WriteU64(t.offset)
  }

  function Pairs(kvs: seq<RawPair>): seq<seq<Byte>>
    requires forall k :: 0 <= k < |kvs| ==> kvs[k].Fits()
  {
    seq(|kvs|, k requires 0 <= k < |kvs| => PairBytes(kvs[k]))
  }

  function Tensors(ts: seq<TensorInfo>): seq<seq<Byte>>
    requires forall k :: 0 <= k < |ts| ==> TensorFits(ts[k])
  {
    seq(|ts|, k requires 0 <= k < |ts| => TensorBytes(ts[k]))
  }

  ghost predicate Accepts(kvs: seq<RawPair>, ts: seq<TensorInfo>) {
    && |kvs| < U64 && |ts| < U64
    && (forall k :: 0 <= k < |kvs| ==> kvs[k].Fits())
    && (forall k :: 0 <= k < |ts| ==> TensorFits(ts[k]))
  }

  /** The fixture writer puts every tensor at offset zero. */
  predicate NoOffsets(ts: seq<TensorInfo>) {
    forall k :: 0 <= k < |ts| ==> ts[k].offset == 0
  }

  /** Header and tables, before padding. The fixture writer gives version 3. */
  function Unpadded(version: nat, kvs: seq<RawPair>, ts: seq<TensorInfo>): seq<Byte>
    requires version < U32 && Accepts(kvs, ts)
  {
    MAGIC + WriteU32(version) + WriteU64(|ts|) + WriteU64(|kvs|) + Flat(Pairs(kvs)) + Flat(Tensors(ts))
  }

  function Zeros(n: nat): (z: seq<Byte>)
    ensures |z| == n
  {
    seq(n, _ => 0)
  }

  function FileBytes(version: nat, kvs: seq<RawPair>, ts: seq<TensorInfo>): seq<Byte>
    requires version < U32 && Accepts(kvs, ts)
  {
    var b := Unpadded(version, kvs, ts);
    b + Zeros(Align(|b|) - |b|)
  }

  method MakeGguf(kvs: seq<RawPair>, ts: seq<TensorInfo>) returns (buf: seq<Byte>)
    requires Accepts(kvs, ts) && NoOffsets(ts)
    ensures buf == FileBytes(3, kvs, ts)
  {
    hide LeBytes, PairBytes, Flat;
    buf := MAGIC;
    buf := buf + WriteU32(3);
    buf := buf + WriteU64(|ts|);
    buf := buf + WriteU64(|kvs|);
    var pairs := WritePairs(kvs);
    buf := buf + pairs;
    var tensors := WriteTensors(ts);
    buf := buf + tensors;
    buf := Pad(buf);
  }

  method WritePairs(kvs: seq<RawPair>) returns (buf: seq<Byte>)
    requires forall k :: 0 <= k < |kvs| ==> kvs[k].Fits()
    ensures buf == Flat(Pairs(kvs))
  {
    hide WriteStr, WriteU32;
    buf := [];
    for k := 0 to |kvs|
      invariant buf == Flat(Pairs(kvs)[..k])
    {
      FlatSnoc(Pairs(kvs)[..k], Pairs(kvs)[k]);
      assert Pairs(kvs)[..k + 1] == Pairs(kvs)[..k] + [Pairs(kvs)[k]];
      buf := buf + (WriteStr(kvs[k].key) + WriteU32(kvs[k].dtype) + kvs[k].bytes);
    }
    assert Pairs(kvs)[..|kvs|] == Pairs(kvs);
  }

  method WriteTensors(ts: seq<TensorInfo>) returns (buf: seq<Byte>)
    requires NoOffsets(ts) && forall k :: 0 <= k < |ts| ==> TensorFits(ts[k])
    ensures buf == Flat(Tensors(ts))
  {
    hide TensorBytes;
    buf := [];
    for k := 0 to |ts|
      invariant buf == Flat(Tensors(ts)[..k])
    {
      FlatSnoc(Tensors(ts)[..k], Tensors(ts)[k]);
      assert Tensors(ts)[..k + 1] == Tensors(ts)[..k] + [Tensors(ts)[k]];
      var t := WriteTensor(ts[k]);
      buf := buf + t;
    }
    assert Tensors(ts)[..|ts|] == Tensors(ts);
  }

  method WriteTensor(t: TensorInfo) returns (buf: seq<Byte>)
    requires TensorFits(t) && t.offset == 0
    ensures buf == TensorBytes(t)
  {
    hide LeBytes;
    buf := WriteStr(t.name) + WriteU32(|t.dims|);
    ghost var start := buf;
    for k := 0 to |t.dims|
      invariant buf == start + Flat(DimsBytes(t.dims)[..k])
    {
      FlatSnoc(DimsBytes(t.dims)[..k], WriteU64(t.dims[k]));
      assert DimsBytes(t.dims)[..k + 1] == DimsBytes(t.dims)[..k] + [WriteU64(t.dims[k])];
      buf := buf + WriteU64(t.dims[k]);
    }
    assert DimsBytes(t.dims)[..|t.dims|] == DimsBytes(t.dims);
    buf := buf + WriteU32(t.ggmlType);
    buf := buf + WriteU64(0);
  }

  method Pad(start: seq<Byte>) returns (buf: seq<Byte>)
    ensures buf == start + Zeros(Align(|start|) - |start|)
  {
    buf := start;
    while |buf| % 32 != 0
      invariant |start| <= |buf| <= Align(|start|) && buf == start + Zeros(|buf| - |start|)
      decreases Align(|start|) - |buf|
    {
      buf := buf + [0];
    }
  }

  // ---- reading back what was written -------------------------------------------------

  lemma KeyValueReads(kv: KeyValue)
    requires |kv.key| < U64 && Writable(kv.value)
    ensures Reads(ReadKeyValue, PairBytes(RawOf(kv)), kv)
  {
    hide ReadU32, WriteU32, WriteStr, ReadString, ReadValue, FromRaw, Tag, ValueBytes, Writable;
    var raw := RawOf(kv);
    var (k, t) := (WriteStr(kv.key), WriteU32(raw.dtype));
    StringReads(kv.key);
    U32Reads(raw.dtype);
    forall a: seq<Byte>, b: seq<Byte>
      ensures ReadKeyValue(a + PairBytes(raw) + b, |a|) == Ok(kv, |a| + |PairBytes(raw)|)
    {
      var w := a + PairBytes(raw) + b;
      assert w == a + k + (t + raw.bytes + b);
      assert ReadString(a + k + (t + raw.bytes + b), |a|) == Ok(kv.key, |a| + |k|);
      assert w == (a + k) + t + (raw.bytes + b);
      assert ReadU32((a + k) + t + (raw.bytes + b), |a + k|) == Ok(raw.dtype, |a + k| + |t|);
      assert w == (a + k + t) + raw.bytes + b;
      ValueReads(kv.value, a + k + t, b);
    }
  }

  lemma DimsRead(dims: seq<nat>, a: seq<Byte>, b: seq<Byte>)
    requires |dims| < U32 && forall k :: 0 <= k < |dims| ==> dims[k] < U64
    ensures var enc := WriteU32(|dims|) + Flat(DimsBytes(dims));
            ReadDims(a + enc + b, |a|) == Ok(dims, |a| + |enc|)
  {
    hide WriteU32, ReadU64, WriteU64, Many, Flat;
    var (n, f) := (WriteU32(|dims|), Flat(DimsBytes(dims)));
    U32Reads(|dims|);
    ReadsFirst<nat>(ReadU32, n, f, |dims|, a, b);
    forall k | 0 <= k < |dims|
      ensures Reads(ReadU64, DimsBytes(dims)[k], dims[k])
    {
      U64Reads(dims[k]);
    }
    ManyReads(ReadU64, DimsBytes(dims), dims, a + n, b);
    assert a + (n + f) + b == (a + n) + f + b;
  }

  /** Each of four consecutive parts has its own place in the whole. */
  lemma FourParts(a: seq<Byte>, s: seq<Byte>, d: seq<Byte>, y: seq<Byte>, z: seq<Byte>, b: seq<Byte>)
    ensures var w := a + (s + d + y + z) + b;
      && w == a + s + (d + y + z + b) && w == (a + s) + d + (y + z + b)
      && w == (a + s + d) + y + (z + b) && w == (a + s + d + y) + z + b
  {
  }

  lemma TensorReads(t: TensorInfo)
    requires TensorFits(t)
    ensures Reads(ReadTensor, TensorBytes(t), t)
  {
    hide ReadU32, WriteU32, ReadU64, WriteU64, WriteStr, ReadString, ReadDims, Flat, DimsBytes;
    var (s, d) := (WriteStr(t.name), WriteU32(|t.dims|) + Flat(DimsBytes(t.dims)));
    var (y, z) := (WriteU32(t.ggmlType), WriteU64(t.offset));
    StringReads(t.name);
    U32Reads(t.ggmlType);
    U64Reads(t.offset);
    assert TensorBytes(t) == s + d + y + z;
    forall a: seq<Byte>, b: seq<Byte>
      ensures ReadTensor(a + TensorBytes(t) + b, |a|) == Ok(t, |a| + |TensorBytes(t)|)
    {
      FourParts(a, s, d, y, z, b);
      assert ReadString(a + s + (d + y + z + b), |a|) == Ok(t.name, |a| + |s|);
      DimsRead(t.dims, a + s, y + z + b);
      assert ReadU32((a + s + d) + y + (z + b), |a + s + d|) == Ok(t.ggmlType, |a + s + d| + 4);
      assert ReadU64((a + s + d + y) + z + b, |a + s + d + y|) == Ok(t.offset, |a + s + d + y| + 8);
    }
  }

  lemma FixedReads(version: nat, ts: nat, kvs: nat, b: seq<Byte>)
    requires version < U32 && ts < U64 && kvs < U64
    ensures var enc := WriteU32(version) + WriteU64(ts) + WriteU64(kvs);
            var read := ReadFixed(MAGIC + enc + b, 4);
            if version == 2 || version == 3 then read == Ok(Fixed(version, ts, kvs), 24)
            else read == Err(UnsupportedVersion(version))
  {
    hide ReadU32, WriteU32, ReadU64, WriteU64;
    U32Reads(version);
    U64Reads(ts);
    U64Reads(kvs);
    var (v, t, k) := (WriteU32(version), WriteU64(ts), WriteU64(kvs));
    var w := MAGIC + (v + t + k) + b;
    assert w == MAGIC + v + (t + k + b);
    assert ReadU32(MAGIC + v + (t + k + b), |MAGIC|) == Ok(version, |MAGIC| + 4);
    assert w == (MAGIC + v) + t + (k + b);
    assert ReadU64((MAGIC + v) + t + (k + b), |MAGIC + v|) == Ok(ts, |MAGIC + v| + 8);
    assert w == (MAGIC + v + t) + k + b;
    assert ReadU64((MAGIC + v + t) + k + b, |MAGIC + v + t|) == Ok(kvs, |MAGIC + v + t| + 8);
  }

  function RawPairs(kvs: seq<KeyValue>): (r: seq<RawPair>)
    requires forall k :: 0 <= k < |kvs| ==> |kvs[k].key| < U64 && Writable(kvs[k].value)
    ensures |r| == |kvs| && forall k :: 0 <= k < |r| ==> r[k].Fits()
  {
    seq(|kvs|, k requires 0 <= k < |kvs| => RawOf(kvs[k]))
  }

  lemma TablesRead(version: nat, kvs: seq<KeyValue>, ts: seq<TensorInfo>, a: seq<Byte>)
    requires forall k :: 0 <= k < |kvs| ==> |kvs[k].key| < U64 && Writable(kvs[k].value)
    requires forall k :: 0 <= k < |ts| ==> TensorFits(ts[k])
    ensures var w := a + Flat(Pairs(RawPairs(kvs))) + Flat(Tensors(ts));
            ReadTables(Fixed(version, |ts|, |kvs|), w, |a|) == Ok(Header(version, |ts|, kvs, ts, Align(|w|)), |w|)
  {
    hide Many, Flat, ReadKeyValue, ReadTensor, RawOf, PairBytes, TensorBytes, Reads, Align, TensorFits, Writable;
    var (p, t) := (Pairs(RawPairs(kvs)), Tensors(ts));
    forall k | 0 <= k < |kvs|
      ensures Reads(ReadKeyValue, p[k], kvs[k])
    {
      KeyValueReads(kvs[k]);
    }
    forall k | 0 <= k < |ts|
      ensures Reads(ReadTensor, t[k], ts[k])
    {
      TensorReads(ts[k]);
    }
    ManyReads(ReadKeyValue, p, kvs, a, Flat(t));
    ManyReads(ReadTensor, t, ts, a + Flat(p), []);
    assert (a + Flat(p)) + Flat(t) + [] == a + Flat(p) + Flat(t);
  }

  /** Whatever entries and tensors are written, of all thirteen value types: parsing the file
      gives them back in order, and the data starts where the padded file ends; if the version
      is 2 or 3, and otherwise the version is refused. */
  lemma RoundTrip(version: nat, kvs: seq<KeyValue>, ts: seq<TensorInfo>)
    requires version < U32 && |kvs| < U64 && |ts| < U64
    requires forall k :: 0 <= k < |kvs| ==> |kvs[k].key| < U64 && Writable(kvs[k].value)
    requires forall k :: 0 <= k < |ts| ==> TensorFits(ts[k])
    ensures var file := FileBytes(version, RawPairs(kvs), ts);
      if version == 2 || version == 3
      then Parse(file).Ok? && Parse(file).value == Header(version, |ts|, kvs, ts, |file|)
      else Parse(file) == Err(UnsupportedVersion(version))
  {
    hide Flat, ReadFixed, ReadTables, WriteU32, WriteU64, RawOf, Pairs, Tensors, TensorFits, Writable;
    var raw := RawPairs(kvs);
    var b := Unpadded(version, raw, ts);
    var (p, t) := (Flat(Pairs(raw)), Flat(Tensors(ts)));
    var counts := WriteU32(version) + WriteU64(|ts|) + WriteU64(|kvs|);
    assert b == MAGIC + counts + (p + t);
    FixedReads(version, |ts|, |kvs|, p + t);
    TablesRead(version, kvs, ts, MAGIC + counts);
    assert b == (MAGIC + counts) + p + t;
    assert b[..4] == MAGIC;
    ParseStable(b, Zeros(Align(|b|) - |b|));
  }

  // ---- what is refused ------------------------------------------------------------------

  /** An entry whose tag is no type. */
  lemma UnknownReads(p: RawPair, a: seq<Byte>, b: seq<Byte>)
    requires p.Fits() && p.dtype > 12
    ensures ReadKeyValue(a + PairBytes(p) + b, |a|) == Err(UnknownValueType(p.dtype))
  {
    hide ReadU32, WriteU32, WriteStr, ReadString, ReadValue;
    var (k, t) := (WriteStr(p.key), WriteU32(p.dtype));
    var w := a + PairBytes(p) + b;
    StringReads(p.key);
    U32Reads(p.dtype);
    assert w == a + k + (t + p.bytes + b);
    assert ReadString(a + k + (t + p.bytes + b), |a|) == Ok(p.key, |a| + |k|);
    assert w == (a + k) + t + (p.bytes + b);
    assert ReadU32((a + k) + t + (p.bytes + b), |a + k|) == Ok(p.dtype, |a + k| + |t|);
  }

  /** The first entry with an unknown tag refuses the file, whatever stands behind it. */
  lemma UnknownTagRefused(version: nat, kvs: seq<KeyValue>, bad: RawPair, rest: seq<Byte>, entries: nat, tensors: nat)
    requires (version == 2 || version == 3) && |kvs| < entries < U64 && tensors < U64
    requires forall k :: 0 <= k < |kvs| ==> |kvs[k].key| < U64 && Writable(kvs[k].value)
    requires bad.Fits() && bad.dtype > 12
    ensures var file := MAGIC + (WriteU32(version) + WriteU64(tensors) + WriteU64(entries))
                        + (Flat(Pairs(RawPairs(kvs))) + PairBytes(bad) + rest);
            Parse(file) == Err(UnknownValueType(bad.dtype))
  {
    hide Flat, ReadFixed, WriteU32, WriteU64, RawOf, PairBytes, ReadKeyValue, ReadTensor, Reads, Writable;
    var (counts, p) := (WriteU32(version) + WriteU64(tensors) + WriteU64(entries), Pairs(RawPairs(kvs)));
    var (f, tail) := (Flat(p), PairBytes(bad) + rest);
    var file := MAGIC + counts + (f + PairBytes(bad) + rest);
    FixedReads(version, tensors, entries, f + PairBytes(bad) + rest);
    forall k | 0 <= k < |kvs|
      ensures Reads(ReadKeyValue, p[k], kvs[k])
    {
      KeyValueReads(kvs[k]);
    }
    ManyReads(ReadKeyValue, p, kvs, MAGIC + counts, tail);
    assert file == (MAGIC + counts) + f + tail;
    UnknownReads(bad, MAGIC + counts + f, rest);
    assert file == (MAGIC + counts + f) + PairBytes(bad) + rest;
    ManyFails(ReadKeyValue, |kvs| + 1, entries, file, 24, UnknownValueType(bad.dtype));
    assert file[..4] == MAGIC;
  }
}
