/**
 Write-back to a Modbus device: inverse scaling, rounding, register encoding and the write request,
 and what reading the tag back afterwards returns. Arithmetic is over the reals.
 */
module WriteBack {
  import opened Basics
  import opened ModbusCodec
  import opened ReadPlanner
  import opened Polling
  import Types = ModbusDatatypes

  datatype Scaling = Scaling(scale: real, offset: real)
  datatype Access = ReadWrite | ReadOnly | WriteOnly
  datatype Refusal = TagReadOnly | MemoryReadOnly | DivisionByZero | BadValue(error: Types.Error)
  datatype Request = Coil(address: int, on: bool) | OneRegister(address: int, value: int) | ManyRegisters(address: int, values: seq<int>)

  /** Forward scaling of the pipeline: raw value to engineering units. */
  function Scale(raw: real, s: Option<Scaling>): real {
    match s
    case None => raw
    case Some(Scaling(scale, offset)) => raw * scale + offset
  }

  /** Scaling sends raw zero to the offset, and a raw step to a scale step. */
  lemma ScaleMeans(raw: real, scaling: Scaling)
    ensures Scale(0.0, Some(scaling)) == scaling.offset && Scale(raw, None) == raw
    ensures Scale(raw + 1.0, Some(scaling)) - Scale(raw, Some(scaling)) == scaling.scale
  {
  }

  function InverseScale(v: real, s: Option<Scaling>): Result<real, Refusal> {
    match s
    case None => Ok(v)
    case Some(Scaling(scale, offset)) => if scale == 0.0 then Err(DivisionByZero) else Ok((v - offset) / scale)
  }

  /** Rounding to the nearest integer, ties to even. */
  function Round(x: real): int {
    var low := x.Floor;
    var rest := x - low as real;
    if rest < 0.5 || (rest == 0.5 && low % 2 == 0) then low else low + 1
  }

  /** The request a write turns into, or why there is none; integer data types only. */
  function Write(tag: Tag, access: Access, s: Option<Scaling>, v: real): Result<Request, Refusal> {
    if access == ReadOnly then Err(TagReadOnly)
    else match tag.readFunction
      case ReadDiscreteInputs => Err(MemoryReadOnly)
      case ReadInputRegisters => Err(MemoryReadOnly)
      case ReadCoils => Ok(Coil(tag.address, v != 0.0))
      case ReadHoldingRegisters =>
        match InverseScale(v, s)
        case Err(e) => Err(e)
        case Ok(raw) =>
          match Types.Encode(Types.Integer(Round(raw)), tag.dataType, tag.wordOrder, tag.byteOrder)
          case Err(e) => Err(BadValue(e))
          case Ok(registers) =>
            Ok(if |registers| == 1 then OneRegister(tag.address, registers[0]) else ManyRegisters(tag.address, registers))
  }

  /** The device after it has carried out a request. */
  function After(d: Device, r: Request): Device {
    match r
    case Coil(address, on) => Stored(d, ReadCoils, address, [if on then 1 else 0])
    case OneRegister(address, value) => Stored(d, ReadHoldingRegisters, address, [value])
    case ManyRegisters(address, values) => Stored(d, ReadHoldingRegisters, address, values)
  }

  function Stored(d: Device, f: ReadFunction, address: int, values: seq<int>): Device {
    d.(memory := (g: ReadFunction, a: int) =>
         if g == f && address <= a < address + |values| then values[a - address] else d.memory(g, a))
  }

  lemma StoredReadBack(d: Device, f: ReadFunction, address: int, values: seq<int>)
    ensures Stored(d, f, address, values).Contents(f, address, |values|) == values
  {
  }

  lemma StoredElsewhere(d: Device, f: ReadFunction, address: int, values: seq<int>, g: ReadFunction, b: int, q: nat)
    requires g != f || b + q <= address || address + |values| <= b
    ensures Stored(d, f, address, values).Contents(g, b, q) == d.Contents(g, b, q)
  {
  }

  lemma RoundWithinHalf(x: real)
    ensures Abs(Round(x) as real - x) <= 0.5
  {
  }

  /** The nearest integer, and of two equally near ones the even one. */
  lemma RoundIff(x: real, n: int)
    ensures n == Round(x) <==> Abs(n as real - x) < 0.5 || (Abs(n as real - x) == 0.5 && n % 2 == 0)
  {
    var low := x.Floor;
    assert low as real <= x < low as real + 1.0;
    if n != low && n != low + 1 {
      assert Abs(n as real - x) >= 1.0 || n == low - 1 || n == low + 2;
    }
  }

  lemma RoundOfInteger(k: int)
    ensures Round(k as real) == k
  {
    assert (k as real).Floor == k;
  }

  lemma ProductWithinHalf(scale: real, e: real)
    requires Abs(e) <= 0.5
    ensures Abs(e * scale) <= Abs(scale) / 2.0
  {
    if scale >= 0.0 {
      assert -0.5 * scale <= e * scale <= 0.5 * scale;
    } else {
      assert 0.5 * scale <= e * scale <= -0.5 * scale;
    }
  }

  lemma Distribute(a: real, b: real, c: real)
    ensures (a - b) * c == a * c - b * c
  {
  }

  lemma DivideThenMultiply(a: real, b: real)
    requires b != 0.0
    ensures a / b * b == a && a * b / b == a
  {
  }

  /** The engineering value of a raw value differs from the one written by at most half a scale step. */
  lemma ScaledWithinHalf(v: real, s: Option<Scaling>, inverse: real)
    requires InverseScale(v, s) == Ok(inverse)
    ensures Abs(Scale(Round(inverse) as real, s) - v) <= (match s case None => 0.5 case Some(sc) => Abs(sc.scale) / 2.0)
  {
    RoundWithinHalf(inverse);
    match s
    case None =>
    case Some(Scaling(scale, offset)) =>
      var raw := Round(inverse) as real;
      DivideThenMultiply(v - offset, scale);
      ProductWithinHalf(scale, raw - inverse);
      Distribute(raw, inverse, scale);
      assert Scale(raw, s) - v == (raw - inverse) * scale;
  }

  /** The registers a successful write stores are the encoding of the rounded raw value. */
  lemma WrittenRegisters(tag: Tag, access: Access, s: Option<Scaling>, v: real)
    requires tag.readFunction == ReadHoldingRegisters && Write(tag, access, s, v).Ok?
    ensures InverseScale(v, s).Ok?
    ensures var e := Types.Encode(Types.Integer(Round(InverseScale(v, s).value)), tag.dataType, tag.wordOrder, tag.byteOrder);
            && e.Ok? && TagSpan(tag) == Ok(|e.value|)
            && forall d: Device :: After(d, Write(tag, access, s, v).value) == Stored(d, ReadHoldingRegisters, tag.address, e.value)
  {
    var raw := Types.Integer(Round(InverseScale(v, s).value));
    Types.DecodeAfterEncode(raw, tag.dataType, tag.wordOrder, tag.byteOrder, []);
    var e := Types.Encode(raw, tag.dataType, tag.wordOrder, tag.byteOrder);
    assert |e.value| == 1 ==> e.value == [e.value[0]];
  }

  /**
   Writing an engineering value to a register tag and reading the tag back yields the rounded raw
   value, whose engineering value is within half a scale step of the one written.
   */
  lemma WriteThenRead(d: Device, tag: Tag, access: Access, s: Option<Scaling>, v: real)
    requires tag.readFunction == ReadHoldingRegisters && Write(tag, access, s, v).Ok?
    requires TagSpan(tag).Ok? && d.Reads(tag.readFunction, tag.address, TagSpan(tag).value)
    ensures InverseScale(v, s).Ok?
    ensures var raw := Round(InverseScale(v, s).value);
            && Alone(After(d, Write(tag, access, s, v).value), tag) == TagUpdate(tag, Number(Types.Integer(raw)), Good, None)
            && Abs(Scale(raw as real, s) - v) <= (match s case None => 0.5 case Some(sc) => Abs(sc.scale) / 2.0)
  {
    WrittenRegisters(tag, access, s, v);
    var inverse := InverseScale(v, s).value;
    var raw := Types.Integer(Round(inverse));
    var registers := Types.Encode(raw, tag.dataType, tag.wordOrder, tag.byteOrder).value;
    Types.DecodeAfterEncode(raw, tag.dataType, tag.wordOrder, tag.byteOrder, []);
    assert registers + [] == registers;
    StoredReadBack(d, ReadHoldingRegisters, tag.address, registers);
    ScaledWithinHalf(v, s, inverse);
  }

  lemma InverseOfScale(s: Option<Scaling>, k: int)
    requires s.Some? ==> s.value.scale != 0.0
    ensures InverseScale(Scale(k as real, s), s) == Ok(k as real)
  {
    var x := k as real;
    match s {
      case None =>
      case Some(Scaling(scale, offset)) =>
        var y := Scale(x, s);
        assert y - offset == x * scale;
        DivideThenMultiply(x, scale);
        assert InverseScale(y, s) == Ok((y - offset) / scale);
    }
  }

  /**
   Writing back the engineering value of a raw value is accepted exactly when the data type holds that raw value, and
   then stores exactly its registers, so that the tag reads as that raw value.
   */
  lemma WriteOfRead(d: Device, tag: Tag, s: Option<Scaling>, k: int)
    requires tag.readFunction == ReadHoldingRegisters && (s.Some? ==> s.value.scale != 0.0)
    ensures
      var write := Write(tag, ReadWrite, s, Scale(k as real, s));
      var registers := Types.Encode(Types.Integer(k), tag.dataType, tag.wordOrder, tag.byteOrder);
      && (write.Ok? <==> registers.Ok?)
      && (write.Ok? ==> After(d, write.value) == Stored(d, ReadHoldingRegisters, tag.address, registers.value))
      && (write.Ok? && TagSpan(tag).Ok? && d.Reads(tag.readFunction, tag.address, TagSpan(tag).value) ==>
            Alone(After(d, write.value), tag) == TagUpdate(tag, Number(Types.Integer(k)), Good, None))
  {
    InverseOfScale(s, k);
    RoundOfInteger(k);
    var v := Scale(k as real, s);
    if Write(tag, ReadWrite, s, v).Ok? {
      WrittenRegisters(tag, ReadWrite, s, v);
      if TagSpan(tag).Ok? && d.Reads(tag.readFunction, tag.address, TagSpan(tag).value) {
        WriteThenRead(d, tag, ReadWrite, s, v);
      }
    }
  }

  /** Writing to a coil tag and reading it back tells whether the value was nonzero, whatever the scaling. */
  lemma CoilWriteThenRead(d: Device, tag: Tag, access: Access, s: Option<Scaling>, v: real)
    requires tag.readFunction == ReadCoils && access != ReadOnly && d.Reads(ReadCoils, tag.address, 1)
    ensures Write(tag, access, s, v).Ok?
    ensures Alone(After(d, Write(tag, access, s, v).value), tag) == TagUpdate(tag, Bit(v != 0.0), Good, None)
  {
    BitAlone(After(d, Write(tag, access, s, v).value), tag);
  }

  /**
   A write is accepted exactly for a tag that may be written, in a memory class that can be: a coil always, a register
   tag when its scaling can be inverted and its data type holds the rounded raw value.
   */
  lemma WriteAcceptedIff(tag: Tag, access: Access, s: Option<Scaling>, v: real)
    ensures Write(tag, access, s, v).Ok? <==>
              && access in {ReadWrite, WriteOnly}
              && (|| tag.readFunction == ReadCoils
                  || (&& tag.readFunction == ReadHoldingRegisters && (s.Some? ==> s.value.scale != 0.0)
                      && Types.Spec(tag.dataType).Some?
                      && Types.InRange(Round(InverseScale(v, s).value), Types.Spec(tag.dataType).value)))
  {
  }

  /** A write leaves every tag it does not overlap as it was. */
  lemma WriteElsewhere(d: Device, tag: Tag, access: Access, s: Option<Scaling>, v: real, other: Tag)
    requires Write(tag, access, s, v).Ok? && TagSpan(tag).Ok? && TagSpan(other).Ok?
    requires other.readFunction != tag.readFunction
          || other.address + TagSpan(other).value <= tag.address || tag.address + TagSpan(tag).value <= other.address
    ensures Alone(After(d, Write(tag, access, s, v).value), other) == Alone(d, other)
  {
    if tag.readFunction == ReadCoils {
      StoredElsewhere(d, ReadCoils, tag.address, [if v != 0.0 then 1 else 0], other.readFunction, other.address, TagSpan(other).value);
    } else {
      WrittenRegisters(tag, access, s, v);
      var registers := Types.Encode(Types.Integer(Round(InverseScale(v, s).value)), tag.dataType, tag.wordOrder, tag.byteOrder).value;
      StoredElsewhere(d, ReadHoldingRegisters, tag.address, registers, other.readFunction, other.address, TagSpan(other).value);
    }
  }
}
