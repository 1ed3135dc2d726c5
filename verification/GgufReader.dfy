/** The GGUF header reader: a bounds-checked cursor, and the header it reads, as functions of
    the buffer and a position. Strings are kept as their bytes. */
module GgufReader {
  type Byte = b: int | 0 <= b < 256

  datatype ReadError =
    | Truncated
    | BadMagic
    | UnsupportedVersion(version: nat)
    | UnexpectedEof
    | UnknownValueType(tag: nat)

  /** A read: the value and the position behind it, or why it failed. */
  datatype Parsed<+T> = Ok(value: T, pos: nat) | Err(error: ReadError)

  type Read<!T> = (seq<Byte>, nat) -> Parsed<T>

  datatype DataType =
    | TUint8 | TInt8 | TUint16 | TInt16 | TUint32 | TInt32 | TFloat32 | TBool
    | TString | TArray | TUint64 | TInt64 | TFloat64

  datatype MaybeType = Known(ty: DataType) | Unknown

  function FromRaw(raw: nat): MaybeType {
    match raw
    case 0 => Known(TUint8)
    case 1 => Known(TInt8)
    case 2 => Known(TUint16)
    case 3 => Known(TInt16)
    case 4 => Known(TUint32)
    case 5 => Known(TInt32)
    case 6 => Known(TFloat32)
    case 7 => Known(TBool)
    case 8 => Known(TString)
    case 9 => Known(TArray)
    case 10 => Known(TUint64)
    case 11 => Known(TInt64)
    case 12 => Known(TFloat64)
    case _ => Unknown
  }

  /** Floating-point values are kept as their bits. */
  datatype Value =
    | Uint8(u8: nat) | Int8(i8: int) | Uint16(u16: nat) | Int16(i16: int)
    | Uint32(u32: nat) | Int32(i32: int) | Float32(f32: nat) | Bool(b: bool)
    | Str(s: seq<Byte>) | Array(a: ArrayValue)
    | Uint64(u64: nat) | Int64(i64: int) | Float64(f64: nat)

  datatype ArrayValue =
    | AUint8(u8s: seq<nat>) | AInt8(i8s: seq<int>) | AUint16(u16s: seq<nat>) | AInt16(i16s: seq<int>)
    | AUint32(u32s: seq<nat>) | AInt32(i32s: seq<int>) | AFloat32(f32s: seq<nat>) | ABool(bs: seq<bool>)
    | AStr(ss: seq<seq<Byte>>) | AUint64(u64s: seq<nat>) | AInt64(i64s: seq<int>) | AFloat64(f64s: seq<nat>)

  /** `ggmlType` is the raw tag: distinct tags are distinct types. */
  datatype TensorInfo = TensorInfo(name: seq<Byte>, dims: seq<nat>, ggmlType: nat, offset: nat)

  datatype KeyValue = KeyValue(key: seq<Byte>, value: Value)

  datatype Header = Header(
    version: nat, tensorCount: nat, metadata: seq<KeyValue>, tensors: seq<TensorInfo>, dataStart: nat)

  const MAGIC: seq<Byte> := [0x47, 0x47, 0x55, 0x46]

  // ---- the cursor's reads --------------------------------------------------------

  function Take(buf: seq<Byte>, pos: nat, n: nat): (r: Parsed<seq<Byte>>)
    ensures r.Ok? ==> pos <= r.pos
  {
    if pos + n > |buf| then Err(UnexpectedEof) else Ok(buf[pos..pos + n], pos + n)
  }

  /** Little-endian value. */
  function Le(bytes: seq<Byte>): nat {
    if bytes == [] then 0 else bytes[0] + 256 * Le(bytes[1..])
  }

  /** Two's complement reading of `v` in `2 * half` values. */
  function Signed(v: nat, half: nat): int {
    if v < half then v else v - 2 * half
  }

  function Map<T, U>(r: Parsed<T>, f: T -> U): Parsed<U> {
    match r
    case Ok(v, p) => Ok(f(v), p)
    case Err(e) => Err(e)
  }

  function ReadLe(buf: seq<Byte>, pos: nat, n: nat): (r: Parsed<nat>)
    ensures r.Ok? ==> pos <= r.pos
  {
    Map(Take(buf, pos, n), Le)
  }

  function ReadU16(buf: seq<Byte>, pos: nat): (r: Parsed<nat>)
    ensures r.Ok? ==> pos <= r.pos
  {
    ReadLe(buf, pos, 2)
  }

  function ReadU32(buf: seq<Byte>, pos: nat): (r: Parsed<nat>)
    ensures r.Ok? ==> pos <= r.pos
  {
    ReadLe(buf, pos, 4)
  }

  function ReadU64(buf: seq<Byte>, pos: nat): (r: Parsed<nat>)
    ensures r.Ok? ==> pos <= r.pos
  {
    ReadLe(buf, pos, 8)
  }


  function ReadI16(buf: seq<Byte>, pos: nat): (r: Parsed<int>)
    ensures r.Ok? ==> pos <= r.pos
  {
    Map(ReadU16(buf, pos), v => Signed(v, 0x8000))
  }

  function ReadI32(buf: seq<Byte>, pos: nat): (r: Parsed<int>)
    ensures r.Ok? ==> pos <= r.pos
  {
    Map(ReadU32(buf, pos), v => Signed(v, 0x8000_0000))
  }

  function ReadI64(buf: seq<Byte>, pos: nat): (r: Parsed<int>)
    ensures r.Ok? ==> pos <= r.pos
  {
    Map(ReadU64(buf, pos), v => Signed(v, 0x8000_0000_0000_0000))
  }

  function ReadString(buf: seq<Byte>, pos: nat): (r: Parsed<seq<Byte>>)
    ensures r.Ok? ==> pos <= r.pos
  {
    match ReadU64(buf, pos)
    case Err(e) => Err(e)
    case Ok(len, p) => Take(buf, p, len)
  }

  ghost predicate Forward<T>(elem: Read<T>, buf: seq<Byte>) {
    forall pos: nat :: elem(buf, pos).Ok? ==> pos <= elem(buf, pos).pos
  }

  /** `n` reads, one behind the other. */
  function Many<T>(elem: Read<T>, n: nat, buf: seq<Byte>, pos: nat): (r: Parsed<seq<T>>)
    ensures Forward(elem, buf) && r.Ok? ==> pos <= r.pos
  {
    if n == 0 then Ok([], pos)
    else
      match Many(elem, n - 1, buf, pos)
      case Err(e) => Err(e)
      case Ok(vs, p) => Map(elem(buf, p), v => vs + [v])
  }

  /** A loop of reads that failed stays failed. */
  lemma {:induction false} ManyFails<T>(elem: Read<T>, k: nat, n: nat, buf: seq<Byte>, pos: nat, e: ReadError)
    requires k <= n && Many(elem, k, buf, pos) == Err(e)
    ensures Many(elem, n, buf, pos) == Err(e)
  {
    if k < n {
      ManyFails(elem, k, n - 1, buf, pos, e);
    }
  }

  function SignedBytes(b: seq<Byte>): seq<int> {
    seq(|b|, k requires 0 <= k < |b| => Signed(b[k], 0x80))
  }

  function Bools(b: seq<Byte>): seq<bool> {
    seq(|b|, k requires 0 <= k < |b| => b[k] != 0)
  }

  function ReadElements(ety: DataType, n: nat, buf: seq<Byte>, pos: nat): (r: Parsed<ArrayValue>)
    ensures r.Ok? ==> pos <= r.pos
  {
    match ety
    case TUint8 => Map(Take(buf, pos, n), b => AUint8(b))
    case TInt8 => Map(Take(buf, pos, n), b => AInt8(SignedBytes(b)))
    case TUint16 => Map(Many(ReadU16, n, buf, pos), v => AUint16(v))
    case TInt16 => Map(Many(ReadI16, n, buf, pos), v => AInt16(v))
    case TUint32 => Map(Many(ReadU32, n, buf, pos), v => AUint32(v))
    case TInt32 => Map(Many(ReadI32, n, buf, pos), v => AInt32(v))
    case TFloat32 => Map(Many(ReadU32, n, buf, pos), v => AFloat32(v))
    case TBool => Map(Take(buf, pos, n), b => ABool(Bools(b)))
    case TString => Map(Many(ReadString, n, buf, pos), v => AStr(v))
    case TUint64 => Map(Many(ReadU64, n, buf, pos), v => AUint64(v))
    case TInt64 => Map(Many(ReadI64, n, buf, pos), v => AInt64(v))
    case TFloat64 => Map(Many(ReadU64, n, buf, pos), v => AFloat64(v))
    case TArray => Err(UnexpectedEof)
  }

  function ReadType(buf: seq<Byte>, pos: nat): (r: Parsed<DataType>)
    ensures r.Ok? ==> pos <= r.pos
  {
    match ReadU32(buf, pos)
    case Err(e) => Err(e)
    case Ok(raw, p) =>
      match FromRaw(raw)
      case Known(ty) => Ok(ty, p)
      case Unknown => Err(UnknownValueType(raw))
  }

  function ReadArray(buf: seq<Byte>, pos: nat): (r: Parsed<ArrayValue>)
    ensures r.Ok? ==> pos <= r.pos
  {
    match ReadType(buf, pos)
    case Err(e) => Err(e)
    case Ok(ety, p) =>
      match ReadU64(buf, p)
      case Err(e) => Err(e)
      case Ok(n, q) => ReadElements(ety, n, buf, q)
  }

  function ReadValue(ty: DataType, buf: seq<Byte>, pos: nat): (r: Parsed<Value>)
    ensures r.Ok? ==> pos <= r.pos
  {
    match ty
    case TUint8 => Map(ReadLe(buf, pos, 1), v => Uint8(v))
    case TInt8 => Map(ReadLe(buf, pos, 1), v => Int8(Signed(v, 0x80)))
    case TUint16 => Map(ReadU16(buf, pos), v => Uint16(v))
    case TInt16 => Map(ReadI16(buf, pos), v => Int16(v))
    case TUint32 => Map(ReadU32(buf, pos), v => Uint32(v))
    case TInt32 => Map(ReadI32(buf, pos), v => Int32(v))
    case TFloat32 => Map(ReadU32(buf, pos), v => Float32(v))
    case TBool => Map(ReadLe(buf, pos, 1), v => Bool(v != 0))
    case TString => Map(ReadString(buf, pos), v => Str(v))
    case TArray => Map(ReadArray(buf, pos), v => Array(v))
    case TUint64 => Map(ReadU64(buf, pos), v => Uint64(v))
    case TInt64 => Map(ReadI64(buf, pos), v => Int64(v))
    case TFloat64 => Map(ReadU64(buf, pos), v => Float64(v))
  }

  function ReadKeyValue(buf: seq<Byte>, pos: nat): (r: Parsed<KeyValue>)
    ensures r.Ok? ==> pos <= r.pos
  {
    match ReadString(buf, pos)
    case Err(e) => Err(e)
    case Ok(key, p) =>
      match ReadType(buf, p)
      case Err(e) => Err(e)
      case Ok(ty, q) => Map(ReadValue(ty, buf, q), v => KeyValue(key, v))
  }

  function ReadDims(buf: seq<Byte>, pos: nat): (r: Parsed<seq<nat>>)
    ensures r.Ok? ==> pos <= r.pos
  {
    match ReadU32(buf, pos)
    case Err(e) => Err(e)
    case Ok(n, p) => Many(ReadU64, n, buf, p)
  }

  function ReadTensor(buf: seq<Byte>, pos: nat): (r: Parsed<TensorInfo>)
    ensures r.Ok? ==> pos <= r.pos
  {
    match ReadString(buf, pos)
    case Err(e) => Err(e)
    case Ok(name, p) =>
      match ReadDims(buf, p)
      case Err(e) => Err(e)
      case Ok(dims, q) =>
        match ReadU32(buf, q)
        case Err(e) => Err(e)
        case Ok(ty, r) => Map(ReadU64(buf, r), offset => TensorInfo(name, dims, ty, offset))
  }

  /** The next multiple of 32. */
  function Align(pos: nat): nat {
    (pos + 31) / 32 * 32
  }

  datatype Fixed = Fixed(version: nat, tensorCount: nat, kvCount: nat)

  /** Version and counts. */
  function ReadFixed(buf: seq<Byte>, pos: nat): (r: Parsed<Fixed>)
    ensures r.Ok? ==> pos <= r.pos
  {
    match ReadU32(buf, pos)
    case Err(e) => Err(e)
    case Ok(version, p) =>
      if version != 2 && version != 3 then Err(UnsupportedVersion(version))
      else
        match ReadU64(buf, p)
        case Err(e) => Err(e)
        case Ok(tensors, q) => Map(ReadU64(buf, q), kvs => Fixed(version, tensors, kvs))
  }

  function ReadTables(fixed: Fixed, buf: seq<Byte>, pos: nat): (r: Parsed<Header>)
    ensures r.Ok? ==> pos <= r.pos
  {
    match Many(ReadKeyValue, fixed.kvCount, buf, pos)
    case Err(e) => Err(e)
    case Ok(metadata, p) =>
      match Many(ReadTensor, fixed.tensorCount, buf, p)
      case Err(e) => Err(e)
      case Ok(tensors, q) => Ok(Header(fixed.version, fixed.tensorCount, metadata, tensors, Align(q)), q)
  }

  /** `Reader::parse`. */
  function Parse(buf: seq<Byte>): Parsed<Header> {
    if |buf| < 4 then Err(Truncated)
    else if buf[..4] != MAGIC then Err(BadMagic)
    else
      match ReadFixed(buf, 4)
      case Err(e) => Err(e)
      case Ok(fixed, p) => ReadTables(fixed, buf, p)
  }

  // ---- more bytes do not change a definitive result -------------------------------------

  predicate IsTruncation(e: ReadError) {
    e.Truncated? || e.UnexpectedEof?
  }

  /** A result that asks for more bytes. */
  predicate Short<T>(r: Parsed<T>) {
    r.Err? && IsTruncation(r.error)
  }

  /** `r` was read from a buffer of `size` bytes, and `w` with more bytes behind them: what is
      not short is the same, and what is short cannot have ended within the buffer. */
  predicate Agrees<T(==)>(r: Parsed<T>, w: Parsed<T>, size: nat) {
    && (!Short(r) ==> w == r)
    && (r.Ok? ==> r.pos <= size)
    && (Short(r) && w.Ok? ==> w.pos > size)
  }

  /** Appending `x` changes nothing at `pos`, unless the read runs past the buffer. */
  predicate StableAt<T(==)>(read: Read<T>, buf: seq<Byte>, pos: nat, x: seq<Byte>) {
    Agrees(read(buf, pos), read(buf + x, pos), |buf|)
  }

  ghost predicate StableOn<T(!new)>(read: Read<T>, buf: seq<Byte>, x: seq<Byte>) {
    forall pos: nat :: pos <= |buf| ==> StableAt(read, buf, pos, x)
  }

  lemma TakeStable(buf: seq<Byte>, pos: nat, n: nat, x: seq<Byte>)
    ensures Agrees(Take(buf, pos, n), Take(buf + x, pos, n), |buf|)
  {
    if pos + n <= |buf| {
      assert (buf + x)[pos..pos + n] == buf[pos..pos + n];
    }
  }

  lemma LeStable(buf: seq<Byte>, pos: nat, n: nat, x: seq<Byte>)
    ensures Agrees(ReadLe(buf, pos, n), ReadLe(buf + x, pos, n), |buf|)
  {
    TakeStable(buf, pos, n, x);
  }

  lemma NumbersStable(buf: seq<Byte>, x: seq<Byte>)
    ensures StableOn(ReadU16, buf, x) && StableOn(ReadU32, buf, x) && StableOn(ReadU64, buf, x)
    ensures StableOn(ReadI16, buf, x) && StableOn(ReadI32, buf, x) && StableOn(ReadI64, buf, x)
  {
    forall pos: nat | pos <= |buf|
      ensures StableAt(ReadU16, buf, pos, x) && StableAt(ReadU32, buf, pos, x) && StableAt(ReadU64, buf, pos, x)
      ensures StableAt(ReadI16, buf, pos, x) && StableAt(ReadI32, buf, pos, x) && StableAt(ReadI64, buf, pos, x)
    {
      LeStable(buf, pos, 2, x);
      LeStable(buf, pos, 4, x);
      LeStable(buf, pos, 8, x);
    }
  }

  lemma StringStable(buf: seq<Byte>, pos: nat, x: seq<Byte>)
    ensures StableAt(ReadString, buf, pos, x)
  {
    LeStable(buf, pos, 8, x);
    var len := ReadU64(buf, pos);
    if len.Ok? {
      TakeStable(buf, len.pos, len.value, x);
    }
  }

  lemma {:induction false} ManyStable<T(!new)>(elem: Read<T>, n: nat, buf: seq<Byte>, pos: nat, x: seq<Byte>)
    requires StableOn(elem, buf, x) && Forward(elem, buf) && Forward(elem, buf + x) && pos <= |buf|
    ensures Agrees(Many(elem, n, buf, pos), Many(elem, n, buf + x, pos), |buf|)
  {
    if n > 0 {
      ManyStable(elem, n - 1, buf, pos, x);
      var init := Many(elem, n - 1, buf, pos);
      if init.Ok? {
        assert StableAt(elem, buf, init.pos, x);
      }
    }
  }

  lemma ElementsStable(ety: DataType, n: nat, buf: seq<Byte>, pos: nat, x: seq<Byte>)
    requires pos <= |buf|
    ensures Agrees(ReadElements(ety, n, buf, pos), ReadElements(ety, n, buf + x, pos), |buf|)
  {
    hide ReadU16, ReadU32, ReadU64, ReadI16, ReadI32, ReadI64, ReadString, Many;
    NumbersStable(buf, x);
    assert StableOn(ReadString, buf, x) by {
      forall pos: nat {
        StringStable(buf, pos, x);
      }
    }
    TakeStable(buf, pos, n, x);
    match ety
    case TUint16 => ManyStable(ReadU16, n, buf, pos, x);
    case TInt16 => ManyStable(ReadI16, n, buf, pos, x);
    case TUint32 => ManyStable(ReadU32, n, buf, pos, x);
    case TInt32 => ManyStable(ReadI32, n, buf, pos, x);
    case TFloat32 => ManyStable(ReadU32, n, buf, pos, x);
    case TString => ManyStable(ReadString, n, buf, pos, x);
    case TUint64 => ManyStable(ReadU64, n, buf, pos, x);
    case TInt64 => ManyStable(ReadI64, n, buf, pos, x);
    case TFloat64 => ManyStable(ReadU64, n, buf, pos, x);
    case _ =>
  }

  lemma TypeStable(buf: seq<Byte>, pos: nat, x: seq<Byte>)
    ensures StableAt(ReadType, buf, pos, x)
  {
    LeStable(buf, pos, 4, x);
  }

  lemma ArrayStable(buf: seq<Byte>, pos: nat, x: seq<Byte>)
    ensures StableAt(ReadArray, buf, pos, x)
  {
    hide ReadElements, ReadType;
    TypeStable(buf, pos, x);
    var ety := ReadType(buf, pos);
    if ety.Ok? {
      LeStable(buf, ety.pos, 8, x);
      var n := ReadU64(buf, ety.pos);
      if n.Ok? {
        ElementsStable(ety.value, n.value, buf, n.pos, x);
      }
    }
  }

  lemma ValueStable(ty: DataType, buf: seq<Byte>, pos: nat, x: seq<Byte>)
    requires pos <= |buf|
    ensures Agrees(ReadValue(ty, buf, pos), ReadValue(ty, buf + x, pos), |buf|)
  {
    hide ReadU16, ReadU32, ReadU64, ReadI16, ReadI32, ReadI64, ReadString, ReadArray;
    NumbersStable(buf, x);
    assert StableAt(ReadU16, buf, pos, x) && StableAt(ReadU32, buf, pos, x) && StableAt(ReadU64, buf, pos, x);
    assert StableAt(ReadI16, buf, pos, x) && StableAt(ReadI32, buf, pos, x) && StableAt(ReadI64, buf, pos, x);
    LeStable(buf, pos, 1, x);
    StringStable(buf, pos, x);
    ArrayStable(buf, pos, x);
  }

  lemma KeyValueStable(buf: seq<Byte>, pos: nat, x: seq<Byte>)
    ensures StableAt(ReadKeyValue, buf, pos, x)
  {
    hide ReadString, ReadType, ReadValue;
    StringStable(buf, pos, x);
    var key := ReadString(buf, pos);
    if key.Ok? {
      TypeStable(buf, key.pos, x);
      var ty := ReadType(buf, key.pos);
      if ty.Ok? {
        ValueStable(ty.value, buf, ty.pos, x);
      }
    }
  }

  lemma DimsStable(buf: seq<Byte>, pos: nat, x: seq<Byte>)
    ensures StableAt(ReadDims, buf, pos, x)
  {
    hide Many, ReadU64;
    LeStable(buf, pos, 4, x);
    NumbersStable(buf, x);
    var n := ReadU32(buf, pos);
    if n.Ok? {
      ManyStable(ReadU64, n.value, buf, n.pos, x);
    }
  }

  lemma TensorStable(buf: seq<Byte>, pos: nat, x: seq<Byte>)
    ensures StableAt(ReadTensor, buf, pos, x)
  {
    hide ReadString, ReadDims;
    StringStable(buf, pos, x);
    var name := ReadString(buf, pos);
    if name.Ok? {
      DimsStable(buf, name.pos, x);
      var dims := ReadDims(buf, name.pos);
      if dims.Ok? {
        LeStable(buf, dims.pos, 4, x);
        LeStable(buf, dims.pos + 4, 8, x);
      }
    }
  }

  lemma FixedStable(buf: seq<Byte>, pos: nat, x: seq<Byte>)
    ensures StableAt(ReadFixed, buf, pos, x)
  {
    LeStable(buf, pos, 4, x);
    LeStable(buf, pos + 4, 8, x);
    LeStable(buf, pos + 12, 8, x);
  }

  lemma TablesStable(fixed: Fixed, buf: seq<Byte>, pos: nat, x: seq<Byte>)
    requires pos <= |buf|
    ensures Agrees(ReadTables(fixed, buf, pos), ReadTables(fixed, buf + x, pos), |buf|)
  {
    hide Many, ReadKeyValue, ReadTensor;
    assert StableOn(ReadKeyValue, buf, x) by {
      forall pos: nat {
        KeyValueStable(buf, pos, x);
      }
    }
    assert StableOn(ReadTensor, buf, x) by {
      forall pos: nat {
        TensorStable(buf, pos, x);
      }
    }
    ManyStable(ReadKeyValue, fixed.kvCount, buf, pos, x);
    var metadata := Many(ReadKeyValue, fixed.kvCount, buf, pos);
    if metadata.Ok? {
      ManyStable(ReadTensor, fixed.tensorCount, buf, metadata.pos, x);
    }
  }

  /** A header that parsed, and an error that is not about missing bytes, stay what they are
      whatever is appended; and a header whose tables end in the buffer parses there. */
  lemma ParseStable(buf: seq<Byte>, x: seq<Byte>)
    ensures !Short(Parse(buf)) ==> Parse(buf + x) == Parse(buf)
    ensures Parse(buf).Ok? ==> Parse(buf).pos <= |buf|
    ensures Short(Parse(buf)) && Parse(buf + x).Ok? ==> Parse(buf + x).pos > |buf|
  {
    hide ReadFixed, ReadTables;
    if |buf| >= 4 {
      assert (buf + x)[..4] == buf[..4];
      FixedStable(buf, 4, x);
      var fixed := ReadFixed(buf, 4);
      if fixed.Ok? {
        TablesStable(fixed.value, buf, fixed.pos, x);
      }
    }
  }

  /** A prefix of a buffer gives the buffer's own result or asks for more. */
  lemma PrefixOfParsed(buf: seq<Byte>, n: nat)
    requires n <= |buf|
    ensures Parse(buf[..n]) == Parse(buf) || Short(Parse(buf[..n]))
  {
    ParseStable(buf[..n], buf[n..]);
    assert buf[..n] + buf[n..] == buf;
  }

  /** A prefix of a file with a header parses exactly when it reaches the end of the tables. */
  lemma HeaderNeedsExactly(buf: seq<Byte>, n: nat)
    requires n <= |buf| && Parse(buf).Ok?
    ensures Parse(buf[..n]).Ok? <==> Parse(buf).pos <= n
  {
    hide Parse;
    ParseStable(buf[..n], buf[n..]);
    assert buf[..n] + buf[n..] == buf;
  }
}
