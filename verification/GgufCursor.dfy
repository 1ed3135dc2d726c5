/** The reader as it runs: a cursor that moves through the buffer, and the loops of `parse`. */
module GgufCursor {
  import opened GgufReader

  datatype Result<+T> = Success(value: T) | Failure(error: ReadError) {
    predicate IsFailure() { Failure? }

    function PropagateFailure<U>(): Result<U>
      requires Failure?
    {
      Failure(error)
    }

    function Extract(): T
      requires Success?
    {
      value
    }
  }

  class Cursor {
    const buf: seq<Byte>
    var pos: nat

    constructor (buf: seq<Byte>)
      ensures this.buf == buf && pos == 0
    {
      this.buf, pos := buf, 0;
    }

    /** What a method returned, and where it left the cursor, is what the read says. */
    ghost predicate Did<T>(r: Result<T>, read: Parsed<T>)
      reads this
    {
      match read
      case Ok(v, p) => r == Success(v) && pos == p
      case Err(e) => r == Failure(e)
    }

    method TakeBytes(n: nat) returns (r: Result<seq<Byte>>)
      modifies this
      ensures Did(r, Take(buf, old(pos), n))
    {
      if pos + n > |buf| {
        return Failure(UnexpectedEof);
      }
      r := Success(buf[pos..pos + n]);
      pos := pos + n;
    }

    method Number(n: nat) returns (r: Result<nat>)
      modifies this
      ensures Did(r, ReadLe(buf, old(pos), n))
    {
      var b :- TakeBytes(n);
      r := Success(Le(b));
    }

    method String() returns (r: Result<seq<Byte>>)
      modifies this
      ensures Did(r, ReadString(buf, old(pos)))
    {
      var len :- Number(8);
      r := TakeBytes(len);
    }

    method Type() returns (r: Result<DataType>)
      modifies this
      ensures Did(r, ReadType(buf, old(pos)))
    {
      var raw :- Number(4);
      match FromRaw(raw)
      case Known(ty) => r := Success(ty);
      case Unknown => r := Failure(UnknownValueType(raw));
    }

    /** `(0..n).map(read).collect()`. */
    method Collect<T>(elem: Read<T>, n: nat) returns (r: Result<seq<T>>)
      modifies this
      ensures Did(r, Many(elem, n, buf, old(pos)))
    {
      ghost var start := pos;
      var out := [];
      for k := 0 to n
        invariant Many(elem, k, buf, start) == Ok(out, pos)
      {
        match elem(buf, pos)
        case Err(e) =>
          ManyFails(elem, k + 1, n, buf, start, e);
          return Failure(e);
        case Ok(v, p) =>
          out := out + [v];
          pos := p;
      }
      r := Success(out);
    }

    method Elements(ety: DataType, n: nat) returns (r: Result<ArrayValue>)
      modifies this
      ensures Did(r, ReadElements(ety, n, buf, old(pos)))
    {
      match ety
      case TUint8 => var b :- TakeBytes(n); r := Success(AUint8(b));
      case TInt8 => var b :- TakeBytes(n); r := Success(AInt8(SignedBytes(b)));
      case TUint16 => var v :- Collect(ReadU16, n); r := Success(AUint16(v));
      case TInt16 => var v :- Collect(ReadI16, n); r := Success(AInt16(v));
      case TUint32 => var v :- Collect(ReadU32, n); r := Success(AUint32(v));
      case TInt32 => var v :- Collect(ReadI32, n); r := Success(AInt32(v));
      case TFloat32 => var v :- Collect(ReadU32, n); r := Success(AFloat32(v));
      case TBool => var b :- TakeBytes(n); r := Success(ABool(Bools(b)));
      case TString => var v :- Collect(ReadString, n); r := Success(AStr(v));
      case TUint64 => var v :- Collect(ReadU64, n); r := Success(AUint64(v));
      case TInt64 => var v :- Collect(ReadI64, n); r := Success(AInt64(v));
      case TFloat64 => var v :- Collect(ReadU64, n); r := Success(AFloat64(v));
      case TArray => r := Failure(UnexpectedEof);
    }

    method ArrayOf() returns (r: Result<ArrayValue>)
      modifies this
      ensures Did(r, ReadArray(buf, old(pos)))
    {
      var ety :- Type();
      var n :- Number(8);
      r := Elements(ety, n);
    }

    method ValueOf(ty: DataType) returns (r: Result<Value>)
      modifies this
      ensures Did(r, ReadValue(ty, buf, old(pos)))
    {
      match ty
      case TUint8 => var v :- Number(1); r := Success(Uint8(v));
      case TInt8 => var v :- Number(1); r := Success(Int8(Signed(v, 0x80)));
      case TUint16 => var v :- Number(2); r := Success(Uint16(v));
      case TInt16 => var v :- Number(2); r := Success(Int16(Signed(v, 0x8000)));
      case TUint32 => var v :- Number(4); r := Success(Uint32(v));
      case TInt32 => var v :- Number(4); r := Success(Int32(Signed(v, 0x8000_0000)));
      case TFloat32 => var v :- Number(4); r := Success(Float32(v));
      case TBool => var v :- Number(1); r := Success(Bool(v != 0));
      case TString => var v :- String(); r := Success(Str(v));
      case TArray => var v :- ArrayOf(); r := Success(Array(v));
      case TUint64 => var v :- Number(8); r := Success(Uint64(v));
      case TInt64 => var v :- Number(8); r := Success(Int64(Signed(v, 0x8000_0000_0000_0000)));
      case TFloat64 => var v :- Number(8); r := Success(Float64(v));
    }

    method KeyValueOf() returns (r: Result<KeyValue>)
      modifies this
      ensures Did(r, ReadKeyValue(buf, old(pos)))
    {
      var key :- String();
      var ty :- Type();
      var value :- ValueOf(ty);
      r := Success(KeyValue(key, value));
    }

    method TensorOf() returns (r: Result<TensorInfo>)
      modifies this
      ensures Did(r, ReadTensor(buf, old(pos)))
    {
      var name :- String();
      var dims :- Dims();
      var ty :- Number(4);
      var offset :- Number(8);
      r := Success(TensorInfo(name, dims, ty, offset));
    }

    method Dims() returns (r: Result<seq<nat>>)
      modifies this
      ensures Did(r, ReadDims(buf, old(pos)))
    {
      var n :- Number(4);
      r := Collect(ReadU64, n);
    }
  }

  /** `Reader::parse` on a buffer. */
  method ParseHeader(buf: seq<Byte>) returns (r: Result<Header>)
    ensures match Parse(buf)
            case Ok(h, _) => r == Success(h)
            case Err(e) => r == Failure(e)
  {
    hide ReadLe, ReadKeyValue, ReadTensor;
    var c := new Cursor(buf);
    if |buf| < 4 {
      return Failure(Truncated);
    }
    if buf[..4] != MAGIC {
      return Failure(BadMagic);
    }
    c.pos := 4;
    var version :- c.Number(4);
    if version != 2 && version != 3 {
      return Failure(UnsupportedVersion(version));
    }
    var tensorCount :- c.Number(8);
    var kvCount :- c.Number(8);
    ghost var p := c.pos;
    var metadata: seq<KeyValue> := [];
    for k := 0 to kvCount
      invariant Many(ReadKeyValue, k, buf, p) == Ok(metadata, c.pos)
    {
      var kv := c.KeyValueOf();
      if kv.Failure? {
        ManyFails(ReadKeyValue, k + 1, kvCount, buf, p, kv.error);
        return Failure(kv.error);
      }
      metadata := metadata + [kv.value];
    }
    ghost var q := c.pos;
    var tensors: seq<TensorInfo> := [];
    for k := 0 to tensorCount
      invariant Many(ReadTensor, k, buf, q) == Ok(tensors, c.pos)
    {
      var t := c.TensorOf();
      if t.Failure? {
        ManyFails(ReadTensor, k + 1, tensorCount, buf, q, t.error);
        return Failure(t.error);
      }
      tensors := tensors + [t.value];
    }
    r := Success(Header(version, tensorCount, metadata, tensors, Align(c.pos)));
  }
}
