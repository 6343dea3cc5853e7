/**
 Modbus RTU framing: the CRC-16/MODBUS shift register and the address + PDU + CRC frame.

 The program computes on integers, a byte at a time. Here its nested loop is tied to a register of
 16 coefficients that takes one bit at a time (`Feed`), that register to schoolbook long division by
 x^16 + x^15 + x^2 + 1, and the error-detection guarantees are proved for frames of every length.
 */
module RtuCodec {
  import opened Basics

  const POLYNOMIAL := 0xA001
  const INITIAL := 0xFFFF
  const MIN_FRAME_LENGTH := 4

  datatype Decoded = Frame(address: Byte, pdu: seq<Byte>) | TooShort | CrcMismatch
  datatype Encoded = Wire(frame: seq<Byte>) | AddressOutOfRange

  // ---------- integers as bit strings ----------

  /** Bitwise exclusive or of non-negative integers. */
  function Xor(a: nat, b: nat): nat
    decreases a + b
  {
    if a == 0 && b == 0 then 0 else 2 * Xor(a / 2, b / 2) + (a % 2 + b % 2) % 2
  }

  /** The low `k` bits of `n`, least significant first: transmission order. */
  function Read(n: nat, k: nat): (bits: seq<bool>)
    ensures |bits| == k
  {
    if k == 0 then [] else [n % 2 == 1] + Read(n / 2, k - 1)
  }

  function Value(bits: seq<bool>): nat {
    if bits == [] then 0 else (if bits[0] then 1 else 0) + 2 * Value(bits[1..])
  }

  function XorSeq(a: seq<bool>, b: seq<bool>): (r: seq<bool>)
    requires |a| == |b|
    ensures |r| == |a|
    ensures forall i | 0 <= i < |r| :: r[i] == (a[i] != b[i])
  {
    seq(|a|, i requires 0 <= i < |a| => a[i] != b[i])
  }

  function Zeros(k: nat): (r: seq<bool>)
    ensures |r| == k && forall i | 0 <= i < k :: !r[i]
  {
    seq(k, _ => false)
  }

  function Ones(k: nat): (r: seq<bool>)
    ensures |r| == k && forall i | 0 <= i < k :: r[i]
  {
    seq(k, _ => true)
  }

  lemma {:induction false} ReadXor(a: nat, b: nat, k: nat)
    ensures Read(Xor(a, b), k) == XorSeq(Read(a, k), Read(b, k))
    decreases k
  {
    if k > 0 {
      XorHalves(a, b);
      ReadXor(a / 2, b / 2, k - 1);
      XorSeqCons(a % 2 == 1, Read(a / 2, k - 1), b % 2 == 1, Read(b / 2, k - 1));
    }
  }

  lemma XorHalves(a: nat, b: nat)
    ensures Xor(a, b) / 2 == Xor(a / 2, b / 2) && Xor(a, b) % 2 == (a % 2 + b % 2) % 2
  {
  }

  lemma XorSeqCons(x: bool, a: seq<bool>, y: bool, b: seq<bool>)
    requires |a| == |b|
    ensures XorSeq([x] + a, [y] + b) == [x != y] + XorSeq(a, b)
  {
  }

  lemma {:induction false} XorBound(a: nat, b: nat, k: nat)
    requires a < Pow2(k) && b < Pow2(k)
    ensures Xor(a, b) < Pow2(k)
    decreases k
  {
    if k > 0 {
      XorBound(a / 2, b / 2, k - 1);
    }
  }

  lemma {:induction false} ReadPadded(n: nat, k: nat, z: nat)
    requires n < Pow2(k)
    ensures Read(n, k + z) == Read(n, k) + Zeros(z)
    decreases k, z
  {
    if k > 0 {
      ReadPadded(n / 2, k - 1, z);
      assert Read(n, k) + Zeros(z) == [n % 2 == 1] + (Read(n / 2, k - 1) + Zeros(z));
    } else if z > 0 {
      ReadPadded(0, 0, z - 1);
    }
  }

  lemma {:induction false} ReadValue(n: nat, k: nat)
    requires n < Pow2(k)
    ensures Value(Read(n, k)) == n
    decreases k
  {
    if k > 0 {
      ReadValue(n / 2, k - 1);
      assert Read(n, k)[1..] == Read(n / 2, k - 1);
    }
  }

  lemma {:induction false} ReadOnes(k: nat)
    ensures Read(Pow2(k) - 1, k) == Ones(k)
  {
    if k > 0 {
      ReadOnes(k - 1);
      assert (Pow2(k) - 1) / 2 == Pow2(k - 1) - 1;
    }
  }

  lemma Powers()
    ensures Pow2(8) == 256 && Pow2(16) == 65536
  {
    assert Pow2(4) == 16;
    assert Pow2(8) == 256;
    assert Pow2(12) == 4096;
  }

  // ---------- the shift register ----------

  type Register = r: seq<bool> | |r| == 16 witness Zeros(16)

  const ZERO: Register := Zeros(16)

  /** The register the program starts from: the bits of 0xFFFF. */
  const ONES: Register := Ones(16)

  /** Coefficients of x^15, ..., x^0 of the generator x^16 + x^15 + x^2 + 1. */
  const TAPS: Register :=
    [true, false, false, false, false, false, false, false,
     false, false, false, false, false, true, false, true]

  function Slide(r: Register): Register {
    r[1..] + [false]
  }

  function ShiftWith(r: Register, taps: Register): Register {
    if r[0] then XorSeq(Slide(r), taps) else Slide(r)
  }

  function Shift(r: Register): Register {
    ShiftWith(r, TAPS)
  }

  function Shifts(r: Register, n: nat): Register
    decreases n, r
  {
    if n == 0 then r else Shifts(Shift(r), n - 1)
  }

  /** The register after shifting in `bits`, first bit first. */
  function Feed(r: Register, bits: seq<bool>): Register
    decreases |bits|
  {
    if bits == [] then r else Feed(Shift(r[0 := r[0] != bits[0]]), bits[1..])
  }

  /** The bits of a byte string in transmission order. */
  function Bits(data: seq<Byte>): (bits: seq<bool>)
    ensures |bits| == 8 * |data|
  {
    if data == [] then [] else Bits(data[..|data| - 1]) + Read(data[|data| - 1], 8)
  }

  /** The register the program's CRC over `data` leaves behind. */
  function Crc(data: seq<Byte>): Register {
    Feed(ONES, Bits(data))
  }

  lemma ReadCons(n: nat, m: nat, k: nat)
    requires n == 2 * m || n == 2 * m + 1
    ensures Read(n, k + 1) == [n != 2 * m] + Read(m, k)
  {
  }

  lemma PolynomialLow()
    ensures Read(0xA001, 16) == [true, false, false, false, false, false, false, false] + Read(0xA0, 8)
  {
    ReadCons(0xA001, 0x5000, 15);
    ReadCons(0x5000, 0x2800, 14);
    ReadCons(0x2800, 0x1400, 13);
    ReadCons(0x1400, 0xA00, 12);
    ReadCons(0xA00, 0x500, 11);
    ReadCons(0x500, 0x280, 10);
    ReadCons(0x280, 0x140, 9);
    ReadCons(0x140, 0xA0, 8);
  }

  lemma PolynomialHigh()
    ensures Read(0xA0, 8) == [false, false, false, false, false, true, false, true]
  {
    ReadCons(0xA0, 0x50, 7);
    ReadCons(0x50, 0x28, 6);
    ReadCons(0x28, 0x14, 5);
    ReadCons(0x14, 0xA, 4);
    ReadCons(0xA, 5, 3);
    ReadCons(5, 2, 2);
    ReadCons(2, 1, 1);
    ReadCons(1, 0, 0);
  }

  lemma PolynomialBits()
    ensures Read(POLYNOMIAL, 16) == TAPS
  {
    PolynomialLow();
    PolynomialHigh();
  }

  /** One round of the inner loop, as the program writes it. */
  function Round(c: nat): nat {
    if c % 2 == 1 then Xor(c / 2, POLYNOMIAL) else c / 2
  }

  /** The round on integers is the shift on coefficients. */
  lemma ShiftInteger(c: nat)
    requires c < Pow2(16)
    ensures Shift(Read(c, 16)) == Read(Round(c), 16)
  {
    ReadPadded(c, 16, 1);
    assert Zeros(1) == [false];
    assert Read(c / 2, 16) == Read(c, 17)[1..] == Read(c, 16)[1..] + [false];
    PolynomialBits();
    ReadXor(c / 2, POLYNOMIAL, 16);
  }

  lemma XorSwap(a: Register, b: Register, c: Register)
    ensures XorSeq(XorSeq(a, b), c) == XorSeq(XorSeq(a, c), b)
  {
  }

  lemma SlideXor(r: Register, b: bool, p: seq<bool>)
    requires |p| == 15
    ensures Slide(XorSeq(r, [b] + p)) == XorSeq(Slide(r), p + [false])
  {
  }

  lemma SlideHead(r: Register, b: bool)
    ensures Slide(r[0 := b]) == Slide(r)
  {
  }

  lemma ShiftXor(r: Register, b: bool, p: seq<bool>, taps: Register)
    requires |p| == 15
    ensures ShiftWith(XorSeq(r, [b] + p), taps) == XorSeq(ShiftWith(r[0 := r[0] != b], taps), p + [false])
  {
    SlideXor(r, b, p);
    SlideHead(r, r[0] != b);
    if r[0] != b {
      XorSwap(Slide(r), p + [false], taps);
    }
  }

  /** Shifting a word that was XORed in at once equals shifting its bits in one by one. */
  lemma {:induction false} WordIsBits(r: Register, bits: seq<bool>)
    requires |bits| <= 16
    ensures Shifts(XorSeq(r, bits + Zeros(16 - |bits|)), |bits|) == Feed(r, bits)
    decreases |bits|
  {
    if bits == [] {
      assert XorSeq(r, bits + Zeros(16)) == r;
    } else {
      var p := bits[1..] + Zeros(16 - |bits|);
      assert bits + Zeros(16 - |bits|) == [bits[0]] + p;
      ShiftXor(r, bits[0], p, TAPS);
      assert p + [false] == bits[1..] + Zeros(16 - |bits[1..]|);
      WordIsBits(Shift(r[0 := r[0] != bits[0]]), bits[1..]);
    }
  }

  lemma {:induction false} FeedAppend(r: Register, m: seq<bool>, n: seq<bool>)
    ensures Feed(r, m + n) == Feed(Feed(r, m), n)
    decreases |m|
  {
    if m == [] {
      assert m + n == n;
    } else {
      assert (m + n)[1..] == m[1..] + n;
      FeedAppend(Shift(r[0 := r[0] != m[0]]), m[1..], n);
    }
  }

  lemma FeedByte(c: nat, b: Byte)
    requires c < Pow2(16)
    ensures Xor(c, b) < Pow2(16)
    ensures Shifts(Read(Xor(c, b), 16), 8) == Feed(Read(c, 16), Read(b, 8))
  {
    Powers();
    XorBound(c, b, 16);
    ReadXor(c, b, 16);
    ReadPadded(b, 8, 8);
    WordIsBits(Read(c, 16), Read(b, 8));
  }

  lemma RoundStep(c: nat, n: nat)
    requires c < Pow2(16) && n > 0
    ensures Round(c) < Pow2(16)
    ensures Shifts(Read(c, 16), n) == Shifts(Read(Round(c), 16), n - 1)
  {
    ShiftInteger(c);
    Powers();
    if c % 2 == 1 {
      XorBound(c / 2, POLYNOMIAL, 16);
    }
  }

  lemma FeedStep(r: Register, data: seq<Byte>, i: nat)
    requires i < |data|
    ensures Feed(r, Bits(data[..i + 1])) == Feed(Feed(r, Bits(data[..i])), Read(data[i], 8))
  {
    assert data[..i + 1][..i] == data[..i];
    FeedAppend(r, Bits(data[..i]), Read(data[i], 8));
  }

  /** The nested loop, from any register: a byte at a time equals a bit at a time. */
  method Update(start: nat, data: seq<Byte>) returns (crc: nat)
    requires start < Pow2(16)
    ensures crc < Pow2(16) && Read(crc, 16) == Feed(Read(start, 16), Bits(data))
  {
    crc := start;
    for i := 0 to |data|
      invariant crc < Pow2(16) && Read(crc, 16) == Feed(Read(start, 16), Bits(data[..i]))
    {
      FeedByte(crc, data[i]);
      FeedStep(Read(start, 16), data, i);
      ghost var goal := Feed(Read(crc, 16), Read(data[i], 8));
      crc := Xor(crc, data[i]);
      for k := 0 to 8
        invariant crc < Pow2(16)
        invariant Shifts(Read(crc, 16), 8 - k) == goal
      {
        RoundStep(crc, 8 - k);
        if crc % 2 == 1 {
          crc := Xor(crc / 2, POLYNOMIAL);
        } else {
          crc := crc / 2;
        }
      }
    }
    assert data[..|data|] == data;
  }

  /** The 16-bit value of the register. */
  function CrcValue(data: seq<Byte>): nat {
    Value(Crc(data))
  }

  /** The program's CRC over `data`. */
  method ComputeCrc16(data: seq<Byte>) returns (crc: nat)
    ensures crc == CrcValue(data)
  {
    Powers();
    ReadOnes(16);
    crc := Update(INITIAL, data);
    ReadValue(crc, 16);
  }

  // ---------- frames ----------

  function EncodeRtuFrame(address: int, pdu: seq<Byte>): Encoded {
    if 0 <= address <= 255 then
      var crc := CrcValue([address] + pdu);
      Wire([address] + pdu + [crc % 256, crc / 256 % 256])
    else
      AddressOutOfRange
  }

  function DecodeRtuFrame(frame: seq<Byte>): Decoded {
    if |frame| < MIN_FRAME_LENGTH then
      TooShort
    else
      var body := frame[..|frame| - 2];
      if (frame[|frame| - 2] as int) + 256 * (frame[|frame| - 1] as int) != CrcValue(body) then CrcMismatch
      else Frame(body[0], body[1..])
  }
}
