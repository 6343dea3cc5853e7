/**
 Requests and responses as bytes, against a device that follows the Modbus Application Protocol: what the driver asks
 for is what the device is asked, and what the device answers is what the driver reads.
 */
module ModbusWire {
  import opened Basics
  import opened ModbusCodec
  import opened ReadPlanner
  import opened Polling
  import opened WriteBack
  import Types = ModbusDatatypes

  // ---------- a device, after the protocol specification ----------

  /** The read functions by their codes in sections 6.1 to 6.4 of the specification. */
  function FunctionOf(code: Byte): Option<ReadFunction> {
    if code == 0x01 then Some(ReadCoils)
    else if code == 0x02 then Some(ReadDiscreteInputs)
    else if code == 0x03 then Some(ReadHoldingRegisters)
    else if code == 0x04 then Some(ReadInputRegisters)
    else None
  }

  datatype Operation = Read(f: ReadFunction, address: int, quantity: nat) | Store(f: ReadFunction, address: int, values: seq<int>)

  /** What a request PDU asks of a device. */
  function Parse(pdu: seq<Byte>): Option<Operation> {
    if |pdu| < 5 then None
    else
      var address, number := FromBe16(pdu[1], pdu[2]), FromBe16(pdu[3], pdu[4]);
      if |pdu| == 5 && FunctionOf(pdu[0]).Some? then Some(Read(FunctionOf(pdu[0]).value, address, number))
      else if |pdu| == 5 && pdu[0] == 0x05 && number in {0x0000, 0xFF00} then
        Some(Store(ReadCoils, address, [if number == 0xFF00 then 1 else 0]))
      else if |pdu| == 5 && pdu[0] == 0x06 then Some(Store(ReadHoldingRegisters, address, [number]))
      else if |pdu| >= 6 && pdu[0] == 0x10 && pdu[5] as int == 2 * number == |pdu| - 6 then
        Some(Store(ReadHoldingRegisters, address, UnpackRegisters(pdu[6..])))
      else None
  }

  /** A packed bit string holds the device's bits, least significant bit first. */
  ghost predicate CarriesBits(d: Device, f: ReadFunction, address: int, quantity: nat, data: seq<Byte>) {
    |data| == (quantity + 7) / 8 && forall i | 0 <= i < quantity :: CoilAt(data, i) == (d.Contents(f, address, quantity)[i] != 0)
  }

  ghost predicate CarriesRegisters(d: Device, f: ReadFunction, address: int, quantity: nat, data: seq<Byte>) {
    Types.Registers(d.Contents(f, address, quantity)) && data == RegisterBytes(d.Contents(f, address, quantity))
  }

  /** The response to a read: an exception, or the byte count and the cells. */
  ghost predicate Answers(d: Device, f: ReadFunction, address: int, quantity: nat, code: Byte, response: seq<Byte>) {
    && |response| >= 2
    && match d.refusal(f, address, quantity)
       case Some(exception) => code < 128 && response == [code + 128, exception]
       case None =>
         && response[0] == code && response[1] as int == |response| - 2
         && if f.IsBit() then CarriesBits(d, f, address, quantity, response[2..])
            else CarriesRegisters(d, f, address, quantity, response[2..])
  }

  ghost predicate Responds(d: Device, request: seq<Byte>, response: seq<Byte>) {
    match Parse(request)
    case Some(Read(f, address, quantity)) => Answers(d, f, address, quantity, request[0], response)
    case _ => false
  }

  // ---------- reading ----------

  function Numbers(bits: seq<bool>): (r: seq<int>)
    ensures |r| == |bits| && forall i | 0 <= i < |r| :: r[i] == if bits[i] then 1 else 0
  {
    seq(|bits|, i requires 0 <= i < |bits| => if bits[i] then 1 else 0)
  }

  /** The transport's read: bits or registers by the function asked for. */
  function Received(f: ReadFunction, response: seq<Byte>, quantity: nat): Result<seq<int>, ResponseError> {
    if f.IsBit() then
      match DecodeBitsResponse(response, quantity)
      case Ok(bits) => Ok(Numbers(bits))
      case Err(e) => Err(e)
    else
      DecodeRegistersResponse(response)
  }

  /** A device is asked for exactly the range the driver means; what cannot be asked is refused before sending. */
  lemma ReadRequestCarries(f: ReadFunction, address: int, quantity: int)
    ensures
      var request := EncodeReadRequest(f, address, quantity);
      && (request.Ok? <==> 0 <= address && 1 <= quantity <= (if f.IsBit() then 2000 else 125) && address + quantity <= 65536)
      && (request.Ok? ==>
            && Parse(request.value) == Some(Read(f, address, quantity))
            && request.value[1..] == [address / 256, address % 256, quantity / 256, quantity % 256])
  {
    if EncodeReadRequest(f, address, quantity).Ok? {
      HiLo(address);
      HiLo(quantity);
    }
  }

  lemma RequestAnswered(d: Device, f: ReadFunction, address: int, quantity: nat, response: seq<Byte>)
    requires EncodeReadRequest(f, address, quantity).Ok?
    requires Responds(d, EncodeReadRequest(f, address, quantity).value, response)
    ensures Answers(d, f, address, quantity, f.Code(), response)
  {
    ReadRequestCarries(f, address, quantity);
  }

  /** The cells as the driver holds them: bits as 0 and 1. */
  function Cells(d: Device, f: ReadFunction, address: int, quantity: nat): (values: seq<int>)
    ensures |values| == quantity
    ensures forall i | 0 <= i < quantity && f.IsBit() :: values[i] == if d.Contents(f, address, quantity)[i] != 0 then 1 else 0
  {
    var contents := d.Contents(f, address, quantity);
    if f.IsBit() then seq(quantity, i requires 0 <= i < quantity => if contents[i] != 0 then 1 else 0) else contents
  }

  /** Whatever the device answers to a read request, the driver receives its cells, or its exception. */
  lemma ReadOverWire(d: Device, f: ReadFunction, address: int, quantity: nat, response: seq<Byte>)
    requires EncodeReadRequest(f, address, quantity).Ok?
    requires Responds(d, EncodeReadRequest(f, address, quantity).value, response)
    ensures Received(f, response, quantity) ==
              match d.refusal(f, address, quantity)
              case Some(code) => Err(Exception(f.Code(), code))
              case None => Ok(Cells(d, f, address, quantity))
  {
    RequestAnswered(d, f, address, quantity, response);
    if d.Reads(f, address, quantity) {
      assert response == [response[0], response[1]] + response[2..];
      CountedData(response[0], response[1], response[2..]);
      if f.IsBit() {
        BitsReceived(d, f, address, quantity, response);
      } else {
        RegistersReceived(d, f, address, quantity, response);
      }
    }
  }

  lemma BitsReceived(d: Device, f: ReadFunction, address: int, quantity: nat, response: seq<Byte>)
    requires |response| >= 2 && Data(response) == response[2..] && CheckException(response) == None
    requires f.IsBit() && CarriesBits(d, f, address, quantity, response[2..])
    ensures Received(f, response, quantity) == Ok(Cells(d, f, address, quantity))
  {
    var bits, contents := DecodeBitsResponse(response, quantity).value, d.Contents(f, address, quantity);
    forall i | 0 <= i < quantity
      ensures bits[i] == (contents[i] != 0)
    {
      assert bits[i] == CoilAt(response[2..], i);
    }
    assert Numbers(bits) == Cells(d, f, address, quantity);
  }

  lemma RegistersReceived(d: Device, f: ReadFunction, address: int, quantity: nat, response: seq<Byte>)
    requires !f.IsBit() && |response| >= 2 && response[0] == f.Code() && response[1] as int == |response| - 2
    requires quantity <= MAX_READ_REGISTERS && CarriesRegisters(d, f, address, quantity, response[2..])
    ensures Received(f, response, quantity) == Ok(Cells(d, f, address, quantity))
  {
    var contents := d.Contents(f, address, quantity);
    assert response == [response[0], response[1]] + response[2..];
    assert forall i | 0 <= i < quantity :: Types.IsRegister(contents[i]);
    RegistersResponse(f, contents, response[1]);
  }

  /** A tag decodes from the driver's cells as from the device's. */
  lemma SameReading(d: Device, b: ReadBlock, p: PlannedTag)
    requires Placed(p, b) && 0 <= b.quantity
    ensures GoodUpdate(p.tag, Cells(d, b.readFunction, b.address, b.quantity)[p.offset..p.offset + p.span])
         == GoodUpdate(p.tag, d.Contents(b.readFunction, b.address, b.quantity)[p.offset..p.offset + p.span])
  {
  }

  /** Slicing and decoding what came over the wire gives the updates the block stands for. */
  lemma UpdatesOverWire(d: Device, b: ReadBlock, response: seq<Byte>)
    requires WellFormed(b) && d.Reads(b.readFunction, b.address, b.quantity)
    requires EncodeReadRequest(b.readFunction, b.address, b.quantity).Ok?
    requires Responds(d, EncodeReadRequest(b.readFunction, b.address, b.quantity).value, response)
    ensures
      var received := Received(b.readFunction, response, b.quantity);
      received.Ok? && |received.value| == b.quantity && Slices(b.tags, b, received.value) == Updates(d, b)
  {
    ReadOverWire(d, b.readFunction, b.address, b.quantity, response);
    SameSlices(d, b, b.tags);
  }

  lemma {:induction false} SameSlices(d: Device, b: ReadBlock, tags: seq<PlannedTag>)
    requires 0 <= b.quantity && forall i | 0 <= i < |tags| :: Placed(tags[i], b)
    ensures Slices(tags, b, Cells(d, b.readFunction, b.address, b.quantity))
         == Slices(tags, b, d.Contents(b.readFunction, b.address, b.quantity))
  {
    if tags != [] {
      SameSlices(d, b, tags[..|tags| - 1]);
      SameReading(d, b, tags[|tags| - 1]);
    }
  }

  /** The tag at offset `o` of a bit block carries bit `o` of the packed answer. */
  lemma BitOfAnswer(d: Device, b: ReadBlock, response: seq<Byte>, i: nat)
    requires WellFormed(b) && i < |b.tags| && b.readFunction.IsBit() && d.Reads(b.readFunction, b.address, b.quantity)
    requires EncodeReadRequest(b.readFunction, b.address, b.quantity).Ok?
    requires Responds(d, EncodeReadRequest(b.readFunction, b.address, b.quantity).value, response)
    ensures
      var o := b.tags[i].tag.address - b.address;
      0 <= o < 8 * (|response| - 2) && Updates(d, b)[i].reading == Bit(CoilAt(response[2..], o))
  {
    BitsAnswered(d, b.readFunction, b.address, b.quantity, response);
    BitOfData(d, b, response[2..], i);
  }

  lemma BitOfData(d: Device, b: ReadBlock, data: seq<Byte>, i: nat)
    requires WellFormed(b) && i < |b.tags| && b.readFunction.IsBit() && d.Reads(b.readFunction, b.address, b.quantity)
    requires CarriesBits(d, b.readFunction, b.address, b.quantity, data)
    ensures
      var o := b.tags[i].tag.address - b.address;
      0 <= o < 8 * |data| && Updates(d, b)[i].reading == Bit(CoilAt(data, o))
  {
    assert Placed(b.tags[i], b);
    BitInBlock(d, b, i);
    BitCarried(d, b.readFunction, b.address, b.quantity, data, b.tags[i].offset);
  }

  lemma BitsAnswered(d: Device, f: ReadFunction, address: int, quantity: nat, response: seq<Byte>)
    requires EncodeReadRequest(f, address, quantity).Ok? && f.IsBit() && d.Reads(f, address, quantity)
    requires Responds(d, EncodeReadRequest(f, address, quantity).value, response)
    ensures |response| >= 2 && CarriesBits(d, f, address, quantity, response[2..])
  {
    RequestAnswered(d, f, address, quantity, response);
  }

  lemma BitCarried(d: Device, f: ReadFunction, address: int, quantity: nat, data: seq<Byte>, o: nat)
    requires CarriesBits(d, f, address, quantity, data) && o < quantity
    ensures o < 8 * |data| && CoilAt(data, o) == (d.memory(f, address + o) != 0)
  {
    assert d.Contents(f, address, quantity)[o] == d.memory(f, address + o);
  }

  // ---------- writing ----------

  /** The PDU of a write request. */
  function RequestPdu(r: Request): Result<seq<Byte>, ValueError> {
    match r
    case Coil(address, on) => EncodeWriteSingleCoil(address, on)
    case OneRegister(address, value) => EncodeWriteSingleRegister(address, value)
    case ManyRegisters(address, values) => EncodeWriteMultipleRegisters(address, values)
  }

  predicate Words(values: seq<int>) {
    forall i | 0 <= i < |values| :: 0 <= values[i] < 65536
  }

  /** A write request is refused before sending exactly for what its fields cannot hold. */
  lemma WriteRequestIff(r: Request)
    ensures RequestPdu(r).Ok? <==>
              && 0 <= r.address < 65536
              && match r
                 case Coil(_, _) => true
                 case OneRegister(_, value) => 0 <= value < 65536
                 case ManyRegisters(_, values) => 1 <= |values| <= 123 && Words(values)
  {
  }

  /** A device that carries out what the PDU says stores exactly what the request means. */
  lemma WriteRequestCarries(d: Device, r: Request)
    requires RequestPdu(r).Ok?
    ensures
      var operation := Parse(RequestPdu(r).value);
      operation.Some? && operation.value.Store? && Stored(d, operation.value.f, operation.value.address, operation.value.values) == After(d, r)
  {
    var pdu := RequestPdu(r).value;
    HiLo(r.address);
    match r {
      case Coil(address, on) =>
      case OneRegister(address, value) => HiLo(value);
      case ManyRegisters(address, values) =>
        HiLo(|values|);
        UnpackRegisterBytes(values);
        assert pdu[6..] == RegisterBytes(values);
    }
  }
}
