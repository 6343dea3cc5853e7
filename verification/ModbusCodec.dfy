/**
 Modbus application PDUs and the MBAP header: read requests, register and coil responses, coil
 packing, and cutting frames out of a TCP byte stream.
 */
module ModbusCodec {
  import opened Basics

  const MBAP_HEADER_LENGTH := 7
  const MAX_READ_BITS := 2000
  const MAX_READ_REGISTERS := 125
  const MAX_WRITE_COILS := 1968
  const MAX_WRITE_REGISTERS := 123

  datatype ReadFunction = ReadCoils | ReadDiscreteInputs | ReadHoldingRegisters | ReadInputRegisters {
    function Code(): Byte {
      match this
      case ReadCoils => 1
      case ReadDiscreteInputs => 2
      case ReadHoldingRegisters => 3
      case ReadInputRegisters => 4
    }

    predicate IsBit() {
      ReadCoils? || ReadDiscreteInputs?
    }

    function MaxQuantity(): nat {
      if IsBit() then MAX_READ_BITS else MAX_READ_REGISTERS
    }
  }

  datatype ValueError = AddressOutOfRange | QuantityOutOfRange | PastEndOfAddressSpace | RegisterOutOfRange

  /** The two bytes of a 16-bit number, sent most significant first. */
  function Hi(n: int): Byte
    requires 0 <= n < 65536
  {
    n / 256
  }

  function Lo(n: int): Byte
    requires 0 <= n < 65536
  {
    n % 256
  }

  function FromBe16(hi: Byte, lo: Byte): (n: int)
    ensures 0 <= n < 65536
  {
    256 * (hi as int) + lo
  }

  lemma HiLo(n: int)
    requires 0 <= n < 65536
    ensures FromBe16(Hi(n), Lo(n)) == n
  {
  }

  lemma HiLoOf(hi: Byte, lo: Byte)
    ensures Hi(FromBe16(hi, lo)) == hi && Lo(FromBe16(hi, lo)) == lo
  {
  }

  // ---------- requests ----------

  function EncodeReadRequest(f: ReadFunction, address: int, quantity: int): Result<seq<Byte>, ValueError> {
    if !(0 <= address <= 0xFFFF) then Err(AddressOutOfRange)
    else if !(1 <= quantity <= f.MaxQuantity()) then Err(QuantityOutOfRange)
    else if address + quantity - 1 > 0xFFFF then Err(PastEndOfAddressSpace)
    else Ok([f.Code(), Hi(address), Lo(address), Hi(quantity), Lo(quantity)])
  }

  /** Coil on is 0xFF00, off is 0x0000. */
  function EncodeWriteSingleCoil(address: int, on: bool): Result<seq<Byte>, ValueError> {
    if !(0 <= address <= 0xFFFF) then Err(AddressOutOfRange)
    else Ok([5, Hi(address), Lo(address), if on then 0xFF else 0, 0])
  }

  function EncodeWriteSingleRegister(address: int, value: int): Result<seq<Byte>, ValueError> {
    if !(0 <= address <= 0xFFFF) then Err(AddressOutOfRange)
    else if !(0 <= value <= 0xFFFF) then Err(RegisterOutOfRange)
    else Ok([6, Hi(address), Lo(address), Hi(value), Lo(value)])
  }

  /** A register out of range is refused by the packing itself. */
  function EncodeWriteMultipleRegisters(address: int, values: seq<int>): Result<seq<Byte>, ValueError> {
    if !(0 <= address <= 0xFFFF) then Err(AddressOutOfRange)
    else if !(1 <= |values| <= MAX_WRITE_REGISTERS) then Err(QuantityOutOfRange)
    else if exists i | 0 <= i < |values| :: !(0 <= values[i] <= 0xFFFF) then Err(RegisterOutOfRange)
    else Ok([16, Hi(address), Lo(address), Hi(|values|), Lo(|values|), 2 * |values|] + RegisterBytes(values))
  }

  // ---------- responses ----------

  datatype ResponseError = Exception(functionCode: Byte, exceptionCode: Byte) | Malformed

  /** What `_check_exception` raises, if anything. */
  function CheckException(pdu: seq<Byte>): Option<ResponseError> {
    if |pdu| == 0 then Some(Malformed)
    else if pdu[0] < 128 then None
    else if |pdu| == 1 then Some(Malformed)
    else Some(Exception(pdu[0] - 128, pdu[1]))
  }

  /** An exception is what has the top bit of the function code set and a code after it. */
  lemma ExceptionIff(pdu: seq<Byte>, functionCode: Byte, exceptionCode: Byte)
    ensures CheckException(pdu) == Some(Exception(functionCode, exceptionCode)) <==>
              |pdu| >= 2 && pdu[0] as int == functionCode as int + 128 && pdu[1] == exceptionCode
    ensures CheckException(pdu) == None <==> |pdu| >= 1 && pdu[0] < 128
  {
  }

  /** The data bytes after the byte count, as far as they are present. */
  function Data(pdu: seq<Byte>): seq<Byte>
    requires |pdu| >= 2
  {
    pdu[2..if 2 + pdu[1] as int <= |pdu| then 2 + pdu[1] as int else |pdu|]
  }

  predicate TestBit(b: nat, k: nat) {
    if k == 0 then b % 2 == 1 else TestBit(b / 2, k - 1)
  }

  function SetBit(b: nat, k: nat): nat {
    if k == 0 then b / 2 * 2 + 1 else 2 * SetBit(b / 2, k - 1) + b % 2
  }

  function DecodeBitsResponse(pdu: seq<Byte>, quantity: nat): Result<seq<bool>, ResponseError> {
    match CheckException(pdu)
    case Some(e) => Err(e)
    case None =>
      if |pdu| < 2 || quantity > 8 * |Data(pdu)| then Err(Malformed)
      else Ok(seq(quantity, i requires 0 <= i < quantity => TestBit(Data(pdu)[i / 8], i % 8)))
  }

  function UnpackRegisters(data: seq<Byte>): (r: seq<int>)
    requires |data| % 2 == 0
    ensures |r| == |data| / 2 && forall i | 0 <= i < |r| :: 0 <= r[i] < 65536
  {
    if data == [] then [] else [FromBe16(data[0], data[1])] + UnpackRegisters(data[2..])
  }

  function DecodeRegistersResponse(pdu: seq<Byte>): Result<seq<int>, ResponseError> {
    match CheckException(pdu)
    case Some(e) => Err(e)
    case None =>
      if |pdu| < 2 || |Data(pdu)| != 2 * (pdu[1] as int / 2) then Err(Malformed)
      else Ok(UnpackRegisters(Data(pdu)))
  }

  // ---------- coil packing ----------

  lemma {:induction false} SetThenTest(b: nat, k: nat, j: nat)
    ensures TestBit(SetBit(b, k), j) == (j == k || TestBit(b, j))
    decreases j
  {
    if k > 0 && j > 0 {
      SetThenTest(b / 2, k - 1, j - 1);
      assert SetBit(b, k) / 2 == SetBit(b / 2, k - 1);
    } else if j > 0 {
      assert SetBit(b, k) / 2 == b / 2;
    }
  }

  lemma SetBitByte(b: Byte, k: nat)
    requires k < 8
    ensures SetBit(b, k) < 256
  {
    SetBitBound(b, k, 8);
    assert Pow2(4) == 16;
  }

  lemma {:induction false} SetBitBound(b: nat, k: nat, n: nat)
    requires b < Pow2(n) && k < n
    ensures SetBit(b, k) < Pow2(n)
    decreases k
  {
    assert Pow2(n) == 2 * Pow2(n - 1);
    if k > 0 {
      Halves(b, Pow2(n - 1));
      SetBitBound(b / 2, k - 1, n - 1);
      Doubles(SetBit(b / 2, k - 1), b % 2, Pow2(n - 1));
    } else {
      Doubles(b / 2, 1, Pow2(n - 1));
      Halves(b, Pow2(n - 1));
    }
  }

  lemma Halves(b: nat, m: nat)
    requires b < 2 * m
    ensures b / 2 < m
  {
  }

  lemma Doubles(h: nat, low: nat, m: nat)
    requires low < 2
    ensures h < m ==> 2 * h + low < 2 * m
  {
  }

  lemma {:induction false} ZeroBits(k: nat)
    ensures !TestBit(0, k)
  {
    if k > 0 {
      ZeroBits(k - 1);
    }
  }

  /** Bit `i` of a packed coil string: byte i / 8, least significant bit first. */
  predicate CoilAt(packed: seq<Byte>, i: nat)
    requires i < 8 * |packed|
  {
    TestBit(packed[i / 8], i % 8)
  }

  /** The FC15 payload: every coil in its place and every unused bit zero. */
  method PackCoils(values: seq<bool>) returns (packed: seq<Byte>)
    ensures |packed| == (|values| + 7) / 8
    ensures forall i | 0 <= i < 8 * |packed| :: CoilAt(packed, i) == (i < |values| && values[i])
  {
    var bytes := new Byte[(|values| + 7) / 8](_ => 0);
    forall i | 0 <= i < 8 * bytes.Length
      ensures !CoilAt(bytes[..], i)
    {
      ZeroBits(i % 8);
    }
    for i := 0 to |values|
      invariant forall j | 0 <= j < 8 * bytes.Length :: CoilAt(bytes[..], j) == (j < i && values[j])
    {
      if values[i] {
        ghost var before := bytes[..];
        SetBitByte(bytes[i / 8], i % 8);
        bytes[i / 8] := SetBit(bytes[i / 8], i % 8);
        forall j | 0 <= j < 8 * bytes.Length
          ensures CoilAt(bytes[..], j) == (j == i || CoilAt(before, j))
        {
          SetThenTest(before[i / 8], i % 8, j % 8);
        }
      }
    }
    packed := bytes[..];
  }

  datatype CoilRequest = CoilRequest(pdu: seq<Byte>) | Refused(error: ValueError)

  method EncodeWriteMultipleCoils(address: int, values: seq<bool>) returns (r: CoilRequest)
    ensures r.Refused? <==> !(0 <= address < 65536 && 1 <= |values| <= 1968)
    ensures r.CoilRequest? ==>
              && |r.pdu| == 6 + (|values| + 7) / 8
              && r.pdu[..6] == [0x0F, Hi(address), Lo(address), Hi(|values|), Lo(|values|), (|values| + 7) / 8]
              && DecodeBitsResponse([1, r.pdu[5]] + r.pdu[6..], |values|) == Ok(values)
              && forall i | |values| <= i < 8 * (|r.pdu| - 6) :: !CoilAt(r.pdu[6..], i)
  {
    if !(0 <= address <= 0xFFFF) {
      return Refused(AddressOutOfRange);
    }
    if !(1 <= |values| <= MAX_WRITE_COILS) {
      return Refused(QuantityOutOfRange);
    }
    var packed := PackCoils(values);
    var count: Byte := |packed|;
    r := CoilRequest([0x0F, Hi(address), Lo(address), Hi(|values|), Lo(|values|), count] + packed);
    assert r.pdu[6..] == packed;
    DecodePacked(packed, values);
  }

  lemma DecodePacked(packed: seq<Byte>, values: seq<bool>)
    requires |packed| == (|values| + 7) / 8 && |packed| < 256
    requires forall i | 0 <= i < 8 * |packed| :: CoilAt(packed, i) == (i < |values| && values[i])
    ensures DecodeBitsResponse([1, |packed| as Byte] + packed, |values|) == Ok(values)
  {
    var pdu := [1, |packed| as Byte] + packed;
    assert Data(pdu) == packed;
    forall i | 0 <= i < |values|
      ensures TestBit(Data(pdu)[i / 8], i % 8) == values[i]
    {
      assert CoilAt(packed, i) == values[i];
    }
    assert CheckException(pdu) == None;
    assert DecodeBitsResponse(pdu, |values|).value == values;
  }

  // ---------- MBAP framing ----------

  datatype Mbap = Mbap(transaction: int, unit: int, pdu: seq<Byte>)
  datatype FramingError = TooShortForHeader | UnexpectedProtocol | Truncated

  /** What the header fields can carry: 16-bit transaction, 8-bit unit, 16-bit length. */
  predicate Encodable(m: Mbap) {
    0 <= m.transaction < 65536 && 0 <= m.unit < 256 && |m.pdu| + 1 < 65536
  }

  function EncodeMbap(m: Mbap): (frame: seq<Byte>)
    requires Encodable(m)
    ensures |frame| == MBAP_HEADER_LENGTH + |m.pdu|
  {
    [Hi(m.transaction), Lo(m.transaction), 0, 0, Hi(|m.pdu| + 1), Lo(|m.pdu| + 1), m.unit] + m.pdu
  }

  function DecodeMbap(frame: seq<Byte>): Result<Mbap, FramingError> {
    if |frame| < MBAP_HEADER_LENGTH then Err(TooShortForHeader)
    else if FromBe16(frame[2], frame[3]) != 0 then Err(UnexpectedProtocol)
    else
      var length := FromBe16(frame[4], frame[5]);
      if length < 1 || |frame| < MBAP_HEADER_LENGTH + length - 1 then Err(Truncated)
      else Ok(Mbap(FromBe16(frame[0], frame[1]), frame[6], frame[MBAP_HEADER_LENGTH..MBAP_HEADER_LENGTH + length - 1]))
  }

  /** How many bytes follow the header; a zero length field asks for -1, which no stream can serve. */
  function FrameRemainderLength(header: seq<Byte>): int
    requires |header| == MBAP_HEADER_LENGTH
  {
    FromBe16(header[4], header[5]) - 1
  }

  /** Cutting one frame off a byte stream: (frame, unread rest), or None when the stream cannot serve it. */
  function CutFrame(stream: seq<Byte>): Option<(seq<Byte>, seq<Byte>)> {
    if |stream| < MBAP_HEADER_LENGTH then None
    else
      var n := MBAP_HEADER_LENGTH + FrameRemainderLength(stream[..MBAP_HEADER_LENGTH]);
      if n < MBAP_HEADER_LENGTH || |stream| < n then None else Some((stream[..n], stream[n..]))
  }

  /** A connection's receive side: bytes are consumed in order. */
  class StreamReader {
    var buffer: seq<Byte>

    constructor (bytes: seq<Byte>)
      ensures buffer == bytes
    {
      buffer := bytes;
    }

    /** Exactly `n` bytes, or None when the stream ends (or `n` is negative) first. */
    method ReadExactly(n: int) returns (r: Option<seq<Byte>>)
      modifies this
      ensures r.Some? <==> 0 <= n <= |old(buffer)|
      ensures r.Some? ==> old(buffer) == r.value + buffer && |r.value| == n
    {
      if 0 <= n <= |buffer| {
        r := Some(buffer[..n]);
        buffer := buffer[n..];
      } else {
        r := None;
      }
    }

    method ReadFrame() returns (r: Option<seq<Byte>>)
      modifies this
      ensures r.Some? <==> CutFrame(old(buffer)).Some?
      ensures r.Some? ==> CutFrame(old(buffer)) == Some((r.value, buffer))
    {
      var header := ReadExactly(MBAP_HEADER_LENGTH);
      if header.None? {
        return None;
      }
      assert header.value == old(buffer)[..MBAP_HEADER_LENGTH];
      var remainder := ReadExactly(FrameRemainderLength(header.value));
      if remainder.None? {
        return None;
      }
      r := Some(header.value + remainder.value);
      assert old(buffer) == r.value + buffer;
    }
  }

  /** A frame cut from the front of any stream that begins with an encoded frame is that frame. */
  lemma CutEncoded(m: Mbap, rest: seq<Byte>)
    requires Encodable(m)
    ensures CutFrame(EncodeMbap(m) + rest) == Some((EncodeMbap(m), rest))
  {
    var frame := EncodeMbap(m);
    var stream := frame + rest;
    HiLo(|m.pdu| + 1);
    assert stream[..|frame|] == frame && stream[|frame|..] == rest;
  }

  function Concat(ms: seq<Mbap>): seq<Byte>
    requires forall i | 0 <= i < |ms| :: Encodable(ms[i])
  {
    if ms == [] then [] else EncodeMbap(ms[0]) + Concat(ms[1..])
  }

  /** Reading header-then-remainder as long as whole frames come: what each decodes to. */
  function ReadAll(stream: seq<Byte>): seq<Result<Mbap, FramingError>>
    decreases |stream|
  {
    match CutFrame(stream)
    case None => []
    case Some((frame, rest)) => [DecodeMbap(frame)] + ReadAll(rest)
  }

  /** The bytes that are then left over. */
  function LeftOver(stream: seq<Byte>): seq<Byte>
    decreases |stream|
  {
    match CutFrame(stream)
    case None => stream
    case Some((_, rest)) => LeftOver(rest)
  }

  function Delivered(ms: seq<Mbap>): (rs: seq<Result<Mbap, FramingError>>)
    ensures |rs| == |ms|
  {
    if ms == [] then [] else [Ok(ms[0])] + Delivered(ms[1..])
  }

  lemma MbapRoundTrip(m: Mbap)
    requires Encodable(m)
    ensures DecodeMbap(EncodeMbap(m)) == Ok(m)
  {
    var frame := EncodeMbap(m);
    HiLo(m.transaction);
    HiLo(|m.pdu| + 1);
    assert frame[7..7 + |m.pdu|] == m.pdu;
  }

  /** The header: transaction, protocol zero, the number of bytes that follow the length field, unit; all big-endian. */
  lemma MbapLayout(m: Mbap)
    requires Encodable(m)
    ensures
      var frame := EncodeMbap(m);
      && frame[0] as int * 256 + frame[1] as int == m.transaction && frame[2] == frame[3] == 0
      && frame[4] as int * 256 + frame[5] as int == |frame[6..]| && frame[6] == m.unit && frame[7..] == m.pdu
  {
    HiLo(m.transaction);
    HiLo(|m.pdu| + 1);
  }

  /**
   Any concatenation of encoded frames, whatever bytes follow it, is read back as exactly those frames, in order, and
   reading goes on at the first byte after them.
   */
  lemma {:induction false} ReadAllFrames(ms: seq<Mbap>, tail: seq<Byte>)
    requires forall i | 0 <= i < |ms| :: Encodable(ms[i])
    ensures ReadAll(Concat(ms) + tail) == Delivered(ms) + ReadAll(tail)
    ensures LeftOver(Concat(ms) + tail) == LeftOver(tail)
  {
    if ms == [] {
      assert Concat(ms) + tail == tail;
    } else {
      var rest := Concat(ms[1..]) + tail;
      assert Concat(ms) + tail == EncodeMbap(ms[0]) + rest;
      CutEncoded(ms[0], rest);
      MbapRoundTrip(ms[0]);
      ReadAllFrames(ms[1..], tail);
      OneMore(Ok(ms[0]), Delivered(ms[1..]), ReadAll(tail));
    }
  }

  lemma OneMore(r: Result<Mbap, FramingError>, a: seq<Result<Mbap, FramingError>>, b: seq<Result<Mbap, FramingError>>)
    ensures [r] + (a + b) == ([r] + a) + b
  {
  }

  lemma {:induction false} DeliveredAt(ms: seq<Mbap>, i: nat)
    requires i < |ms|
    ensures Delivered(ms)[i] == Ok(ms[i])
  {
    if i > 0 {
      DeliveredAt(ms[1..], i - 1);
    }
  }

  /** With an incomplete frame or nothing after them, exactly the frames are read and exactly that is left over. */
  lemma ReadExactlyFrames(ms: seq<Mbap>, tail: seq<Byte>)
    requires (forall i | 0 <= i < |ms| :: Encodable(ms[i])) && CutFrame(tail).None?
    ensures ReadAll(Concat(ms) + tail) == Delivered(ms) && LeftOver(Concat(ms) + tail) == tail
  {
    ReadAllFrames(ms, tail);
    assert Delivered(ms) + [] == Delivered(ms);
  }

  /** A frame with nothing after it that decodes at all is the encoding of what it decodes to. */
  lemma DecodeExact(frame: seq<Byte>)
    requires DecodeMbap(frame).Ok? && |frame| == MBAP_HEADER_LENGTH + |DecodeMbap(frame).value.pdu|
    ensures var m := DecodeMbap(frame).value; Encodable(m) && EncodeMbap(m) == frame
  {
    HiLoOf(frame[0], frame[1]);
    HiLoOf(frame[4], frame[5]);
    assert frame[2] == 0 && frame[3] == 0;
    assert frame == [frame[0], frame[1], 0, 0, frame[4], frame[5], frame[6]] + frame[7..];
  }

  /** Every frame the reader cuts out that decodes at all is the encoding of what it decodes to. */
  lemma CutThenDecode(stream: seq<Byte>)
    requires CutFrame(stream).Some? && DecodeMbap(CutFrame(stream).value.0).Ok?
    ensures var m := DecodeMbap(CutFrame(stream).value.0).value;
            Encodable(m) && EncodeMbap(m) == CutFrame(stream).value.0
  {
    var frame := CutFrame(stream).value.0;
    assert frame[4] == stream[4] && frame[5] == stream[5];
    DecodeExact(frame);
  }

  // ---------- what a device answers ----------

  function RegisterBytes(values: seq<int>): (data: seq<Byte>)
    requires forall i | 0 <= i < |values| :: 0 <= values[i] < 65536
    ensures |data| == 2 * |values|
  {
    if values == [] then [] else [Hi(values[0]), Lo(values[0])] + RegisterBytes(values[1..])
  }

  lemma {:induction false} UnpackRegisterBytes(values: seq<int>)
    requires forall i | 0 <= i < |values| :: 0 <= values[i] < 65536
    ensures UnpackRegisters(RegisterBytes(values)) == values
  {
    if values != [] {
      UnpackRegisterBytes(values[1..]);
      HiLo(values[0]);
      assert RegisterBytes(values)[2..] == RegisterBytes(values[1..]);
    }
  }

  lemma CountedData(code: Byte, count: Byte, data: seq<Byte>)
    requires code < 128 && |data| == count as int
    ensures CheckException([code, count] + data) == None && Data([code, count] + data) == data
  {
  }

  /** A well-formed FC03/FC04 answer decodes to the registers it carries. */
  lemma RegistersResponse(f: ReadFunction, values: seq<int>, count: Byte)
    requires forall i | 0 <= i < |values| :: 0 <= values[i] < 65536
    requires |values| <= MAX_READ_REGISTERS && count as int == 2 * |values|
    ensures DecodeRegistersResponse([f.Code(), count] + RegisterBytes(values)) == Ok(values)
  {
    CountedData(f.Code(), count, RegisterBytes(values));
    UnpackRegisterBytes(values);
  }
}
