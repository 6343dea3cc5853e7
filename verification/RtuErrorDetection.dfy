/**
 What the RTU frame check guarantees: exactly which byte strings are accepted, that encoding and
 decoding undo each other, and which transmission errors can never turn one accepted frame into
 another.
 */
module RtuErrorDetection {
  import opened Basics
  import opened RtuCodec

  // ---------- the register is linear and forgets nothing ----------

  lemma ShiftLinear(x: Register, y: Register, taps: Register)
    ensures ShiftWith(XorSeq(x, y), taps) == XorSeq(ShiftWith(x, taps), ShiftWith(y, taps))
  {
    assert Slide(XorSeq(x, y)) == XorSeq(Slide(x), Slide(y));
  }

  lemma XorHead(x: Register, y: Register, a: bool, b: bool)
    ensures XorSeq(x, y)[0 := XorSeq(x, y)[0] != (a != b)] == XorSeq(x[0 := x[0] != a], y[0 := y[0] != b])
  {
  }

  lemma {:induction false} FeedLinear(x: Register, y: Register, m: seq<bool>, e: seq<bool>)
    requires |m| == |e|
    ensures Feed(XorSeq(x, y), XorSeq(m, e)) == XorSeq(Feed(x, m), Feed(y, e))
    decreases |m|
  {
    if m != [] {
      XorHead(x, y, m[0], e[0]);
      ShiftLinear(x[0 := x[0] != m[0]], y[0 := y[0] != e[0]], TAPS);
      FeedLinear(Shift(x[0 := x[0] != m[0]]), Shift(y[0 := y[0] != e[0]]), m[1..], e[1..]);
      assert XorSeq(m, e)[1..] == XorSeq(m[1..], e[1..]);
    }
  }

  lemma XorIsZero(x: Register, y: Register)
    ensures XorSeq(x, y) == ZERO <==> x == y
  {
    if XorSeq(x, y) == ZERO {
      forall i | 0 <= i < 16
        ensures x[i] == y[i]
      {
        assert !XorSeq(x, y)[i];
      }
    }
  }

  lemma ShiftKernel(r: Register)
    ensures Shift(r) == ZERO <==> r == ZERO
  {
    if r[0] {
      assert Shift(r)[15];
    } else if Shift(r) == ZERO {
      forall i | 0 < i < 16
        ensures !r[i]
      {
        assert Slide(r)[i - 1] == r[i];
      }
    }
    assert Slide(ZERO) == ZERO;
  }

  lemma {:induction false} ShiftsKernel(r: Register, n: nat)
    ensures Shifts(r, n) == ZERO <==> r == ZERO
    decreases n
  {
    if n > 0 {
      ShiftKernel(r);
      ShiftsKernel(Shift(r), n - 1);
    }
  }

  /** Feeding `n` zero bits is `n` plain shifts. */
  lemma {:induction false} FeedZeros(r: Register, n: nat)
    ensures Feed(r, Zeros(n)) == Shifts(r, n)
    decreases n
  {
    if n > 0 {
      assert r[0 := r[0] != false] == r;
      assert Zeros(n)[1..] == Zeros(n - 1);
      FeedZeros(Shift(r), n - 1);
    }
  }

  /** Sixteen bits leave the register at zero exactly when they equal its contents. */
  lemma FeedCancels(r: Register, w: seq<bool>)
    requires |w| == 16
    ensures Feed(r, w) == ZERO <==> r == w
  {
    assert w + Zeros(0) == w;
    WordIsBits(r, w);
    ShiftsKernel(XorSeq(r, w), 16);
    XorIsZero(r, w);
  }

  // ---------- which frames are accepted ----------

  lemma {:induction false} ReadOfValue(bits: seq<bool>)
    ensures Read(Value(bits), |bits|) == bits
  {
    if bits != [] {
      ReadOfValue(bits[1..]);
    }
  }

  lemma {:induction false} ReadSplit(lo: nat, hi: nat, k: nat, j: nat)
    requires lo < Pow2(k)
    ensures Read(lo + Pow2(k) * hi, k + j) == Read(lo, k) + Read(hi, j)
    decreases k
  {
    if k == 0 {
    } else {
      ReadSplit(lo / 2, hi, k - 1, j);
      assert lo + Pow2(k) * hi == 2 * (lo / 2 + Pow2(k - 1) * hi) + lo % 2;
    }
  }

  lemma CrcWithTrailer(body: seq<Byte>, lo: Byte, hi: Byte)
    ensures Crc(body + [lo, hi]) == Feed(Crc(body), Read(lo, 8) + Read(hi, 8))
  {
    var whole := body + [lo, hi];
    FeedStep(ONES, whole, |body|);
    FeedStep(ONES, whole, |body| + 1);
    assert whole[..|body|] == body && whole[..|body| + 2] == whole;
    FeedAppend(Crc(body), Read(lo, 8), Read(hi, 8));
  }

  lemma ValueOfPair(r: Register, lo: Byte, hi: Byte)
    ensures Value(r) == (lo as int) + 256 * (hi as int) <==> r == Read(lo, 8) + Read(hi, 8)
  {
    Powers();
    ReadSplit(lo, hi, 8, 8);
    ReadIff(r, (lo as int) + 256 * (hi as int), 16);
  }

  lemma ReadIff(bits: seq<bool>, n: nat, k: nat)
    requires n < Pow2(k) && |bits| == k
    ensures Value(bits) == n <==> bits == Read(n, k)
  {
    ReadOfValue(bits);
    ReadValue(n, k);
  }

  /** The CRC of `body` is the little-endian pair (lo, hi) exactly when the register over body + [lo, hi] is zero. */
  lemma TrailerCancels(body: seq<Byte>, lo: Byte, hi: Byte)
    ensures Crc(body + [lo, hi]) == ZERO <==> CrcValue(body) == (lo as int) + 256 * (hi as int)
  {
    CrcWithTrailer(body, lo, hi);
    FeedCancels(Crc(body), Read(lo, 8) + Read(hi, 8));
    ValueOfPair(Crc(body), lo, hi);
  }

  /** A frame is accepted iff it is long enough and the CRC over the whole frame, trailer included, is zero. */
  lemma AcceptedIff(frame: seq<Byte>)
    ensures DecodeRtuFrame(frame).Frame? <==> |frame| >= 4 && Crc(frame) == ZERO
    ensures DecodeRtuFrame(frame).Frame? ==> [DecodeRtuFrame(frame).address] + DecodeRtuFrame(frame).pdu <= frame
  {
    if |frame| >= MIN_FRAME_LENGTH {
      var body, lo, hi := frame[..|frame| - 2], frame[|frame| - 2], frame[|frame| - 1];
      assert frame == body + [lo, hi];
      TrailerCancels(body, lo, hi);
    }
  }

  lemma CrcValueBound(data: seq<Byte>)
    ensures CrcValue(data) < 65536
  {
    ValueBound(Crc(data));
    Powers();
  }

  lemma {:induction false} ValueBound(bits: seq<bool>)
    ensures Value(bits) < Pow2(|bits|)
  {
    if bits != [] {
      ValueBound(bits[1..]);
    }
  }

  /** Decoding an encoded frame gives back its address and PDU; only the empty PDU is lost, as too short. */
  lemma DecodeAfterEncode(address: Byte, pdu: seq<Byte>)
    ensures var wire := EncodeRtuFrame(address, pdu);
            wire.Wire? && DecodeRtuFrame(wire.frame) == if pdu == [] then TooShort else Frame(address, pdu)
  {
    var body := [address] + pdu;
    CrcValueBound(body);
    TwoBytes(CrcValue(body));
    var frame := EncodeRtuFrame(address, pdu).frame;
    assert frame[..|frame| - 2] == body;
  }

  lemma TwoBytes(n: nat)
    requires n < 65536
    ensures n % 256 + 256 * (n / 256 % 256) == n
  {
  }

  /** Every accepted frame is the encoding of what it decodes to. */
  lemma EncodeAfterDecode(frame: seq<Byte>)
    requires DecodeRtuFrame(frame).Frame?
    ensures EncodeRtuFrame(DecodeRtuFrame(frame).address, DecodeRtuFrame(frame).pdu) == Wire(frame)
  {
    var body := frame[..|frame| - 2];
    assert [body[0]] + body[1..] == body;
    assert frame == body + [frame[|frame| - 2], frame[|frame| - 1]];
  }

  // ---------- error detection ----------

  /** The bit positions in which two byte strings of one length differ. */
  function Difference(f: seq<Byte>, g: seq<Byte>): seq<bool>
    requires |f| == |g|
  {
    XorSeq(Bits(f), Bits(g))
  }

  /** Two byte strings of one length have equal registers iff their difference alone leaves zero. */
  lemma DifferenceSyndrome(f: seq<Byte>, g: seq<Byte>)
    requires |f| == |g|
    ensures Crc(f) == Crc(g) <==> Feed(ZERO, Difference(f, g)) == ZERO
  {
    assert XorSeq(ONES, ONES) == ZERO;
    FeedLinear(ONES, ONES, Bits(f), Bits(g));
    XorIsZero(Crc(f), Crc(g));
  }

  lemma {:induction false} BitsInjective(f: seq<Byte>, g: seq<Byte>)
    requires |f| == |g| && Bits(f) == Bits(g)
    ensures f == g
  {
    if f != [] {
      var n := |f| - 1;
      assert Bits(f[..n]) == Bits(f)[..8 * n] == Bits(g)[..8 * n] == Bits(g[..n]);
      BitsInjective(f[..n], g[..n]);
      assert Read(f[n], 8) == Bits(f)[8 * n..] == Bits(g)[8 * n..] == Read(g[n], 8);
      Powers();
      ReadValue(f[n], 8);
      ReadValue(g[n], 8);
      assert f == f[..n] + [f[n]] && g == g[..n] + [g[n]];
    }
  }

  lemma WindowSyndrome(i: nat, w: seq<bool>, tail: nat)
    requires |w| == 16
    ensures Feed(ZERO, Zeros(i) + w + Zeros(tail)) == ZERO <==> w == ZERO
  {
    FeedAppend(ZERO, Zeros(i) + w, Zeros(tail));
    FeedAppend(ZERO, Zeros(i), w);
    FeedZeros(ZERO, i);
    ShiftsKernel(ZERO, i);
    FeedZeros(Feed(ZERO, w), tail);
    ShiftsKernel(Feed(ZERO, w), tail);
    FeedCancels(ZERO, w);
  }

  /** A nonzero error confined to 16 consecutive bits leaves a nonzero register. */
  lemma BurstSyndrome(e: seq<bool>, i: nat, k: nat)
    requires i + 16 <= |e| && k < |e| && e[k]
    requires forall k | 0 <= k < |e| :: e[k] ==> i <= k < i + 16
    ensures Feed(ZERO, e) != ZERO
  {
    var w := e[i..i + 16];
    assert e == Zeros(i) + w + Zeros(|e| - i - 16);
    WindowSyndrome(i, w, |e| - i - 16);
    assert w[k - i];
  }

  /** Any change of an accepted frame within 16 consecutive bits, trailer included, is rejected. */
  lemma BurstRejected(f: seq<Byte>, g: seq<Byte>, i: nat)
    requires DecodeRtuFrame(f).Frame? && |g| == |f| && f != g
    requires i + 16 <= 8 * |f|
    requires forall k | 0 <= k < 8 * |f| :: Bits(f)[k] != Bits(g)[k] ==> i <= k < i + 16
    ensures DecodeRtuFrame(g) == CrcMismatch
  {
    AcceptedIff(f);
    AcceptedIff(g);
    DifferenceSyndrome(f, g);
    if Bits(f) == Bits(g) {
      BitsInjective(f, g);
    }
    var k :| 0 <= k < 8 * |f| && Bits(f)[k] != Bits(g)[k];
    BurstSyndrome(Difference(f, g), i, k);
  }

  lemma {:induction false} BitsAt(f: seq<Byte>, j: nat)
    requires j < |f|
    ensures Bits(f)[8 * j..8 * j + 8] == Read(f[j], 8)
  {
    var n := |f| - 1;
    assert Bits(f) == Bits(f[..n]) + Read(f[n], 8);
    if j < n {
      BitsAt(f[..n], j);
      assert Bits(f)[8 * j..8 * j + 8] == Bits(f[..n])[8 * j..8 * j + 8];
    }
  }

  /** In particular, every change confined to two adjacent bytes is rejected. */
  lemma TwoAdjacentBytesRejected(f: seq<Byte>, g: seq<Byte>, j: nat)
    requires DecodeRtuFrame(f).Frame? && |g| == |f| && f != g
    requires j + 2 <= |f|
    requires forall k | 0 <= k < |f| :: f[k] != g[k] ==> j <= k < j + 2
    ensures DecodeRtuFrame(g) == CrcMismatch
  {
    forall k | 0 <= k < 8 * |f| && Bits(f)[k] != Bits(g)[k]
      ensures 8 * j <= k < 8 * j + 16
    {
      BitsAt(f, k / 8);
      BitsAt(g, k / 8);
      assert Bits(f)[k] == Bits(f)[8 * (k / 8)..8 * (k / 8) + 8][k % 8];
      assert Bits(g)[k] == Bits(g)[8 * (k / 8)..8 * (k / 8) + 8][k % 8];
    }
    BurstRejected(f, g, 8 * j);
  }

  /** Whether a bit string has an odd number of ones. */
  function Odd(bits: seq<bool>): bool {
    if bits == [] then false else bits[0] != Odd(bits[1..])
  }

  lemma {:induction false} OddXor(a: seq<bool>, b: seq<bool>)
    requires |a| == |b|
    ensures Odd(XorSeq(a, b)) == (Odd(a) != Odd(b))
  {
    if a != [] {
      OddXor(a[1..], b[1..]);
      assert XorSeq(a, b)[1..] == XorSeq(a[1..], b[1..]);
    }
  }

  lemma {:induction false} OddAppend(a: seq<bool>, b: seq<bool>)
    ensures Odd(a + b) == (Odd(a) != Odd(b))
  {
    if a == [] {
      assert a + b == b;
    } else {
      OddAppend(a[1..], b);
      assert (a + b)[1..] == a[1..] + b;
    }
  }

  lemma TapsOdd()
    ensures Odd(TAPS)
  {
    assert TAPS[..8] == [true] + Zeros(7);
    assert TAPS[8..] == Zeros(5) + [true, false, true];
    OddZeros(7);
    OddAppend([true], Zeros(7));
    OddZeros(5);
    OddAppend(Zeros(5), [true, false, true]);
    OddAppend(TAPS[..8], TAPS[8..]);
    assert TAPS == TAPS[..8] + TAPS[8..];
  }

  lemma {:induction false} OddZeros(n: nat)
    ensures !Odd(Zeros(n))
  {
    if n > 0 {
      assert Zeros(n)[1..] == Zeros(n - 1);
      OddZeros(n - 1);
    }
  }

  /** The generator has an even number of terms, so a shift keeps the parity of the register. */
  lemma ShiftParity(r: Register)
    ensures Odd(Shift(r)) == Odd(r)
  {
    OddAppend(r[1..], [false]);
    if r[0] {
      TapsOdd();
      OddXor(Slide(r), TAPS);
    }
  }

  lemma {:induction false} FeedParity(r: Register, bits: seq<bool>)
    ensures Odd(Feed(r, bits)) == (Odd(r) != Odd(bits))
    decreases |bits|
  {
    if bits != [] {
      var r' := r[0 := r[0] != bits[0]];
      assert r'[1..] == r[1..];
      ShiftParity(r');
      FeedParity(Shift(r'), bits[1..]);
    }
  }

  /** Every odd number of bit flips, anywhere in a frame of any length, is rejected. */
  lemma OddFlipsRejected(f: seq<Byte>, g: seq<Byte>)
    requires DecodeRtuFrame(f).Frame? && |g| == |f|
    requires Odd(Difference(f, g))
    ensures DecodeRtuFrame(g) == CrcMismatch
  {
    AcceptedIff(f);
    AcceptedIff(g);
    DifferenceSyndrome(f, g);
    FeedParity(ZERO, Difference(f, g));
    OddZeros(16);
  }

  // ---------- the register as polynomial division ----------

  /** Coefficients of x^16 + x^15 + x^2 + 1, highest power first. */
  const GENERATOR: seq<bool> :=
    [true, true, false, false, false, false, false, false, false,
     false, false, false, false, false, true, false, true]

  /** Schoolbook division: cancel the leading bit with the generator until 16 bits remain. */
  function Remainder(dividend: seq<bool>): (r: Register)
    requires |dividend| >= 16
    decreases |dividend|
  {
    if |dividend| == 16 then dividend
    else if dividend[0] then Remainder(XorSeq(dividend[..17], GENERATOR)[1..] + dividend[17..])
    else Remainder(dividend[1..])
  }

  /** The message times x^16, with the initial register added to its leading 16 bits. */
  function Dividend(r: Register, message: seq<bool>): (d: seq<bool>)
    ensures |d| == |message| + 16
  {
    XorSeq(message + Zeros(16), r + Zeros(|message|))
  }

  lemma DividendStep(r: Register, message: seq<bool>)
    requires message != []
    ensures Remainder(Dividend(r, message))
         == Remainder(Dividend(Shift(r[0 := r[0] != message[0]]), message[1..]))
  {
    var d, r', rest := Dividend(r, message), r[0 := r[0] != message[0]], message[1..];
    assert GENERATOR == [true] + TAPS;
    assert d[0] == r'[0];
    var next := if d[0] then XorSeq(d[..17], GENERATOR)[1..] + d[17..] else d[1..];
    var goal := Dividend(Shift(r'), rest);
    forall k | 0 <= k < |next|
      ensures next[k] == goal[k]
    {
      assert d[k + 1] == ((message + Zeros(16))[k + 1] != (r + Zeros(|message|))[k + 1]);
      assert (message + Zeros(16))[k + 1] == (rest + Zeros(16))[k];
      if k < 16 {
        assert Slide(r')[k] == (r + Zeros(|message|))[k + 1];
      }
    }
    assert next == goal;
  }

  /** The CRC register is the remainder of long division by the generator. */
  lemma {:induction false} RegisterIsRemainder(r: Register, message: seq<bool>)
    ensures Feed(r, message) == Remainder(Dividend(r, message))
    decreases |message|
  {
    if message == [] {
      assert Dividend(r, message) == r;
    } else {
      DividendStep(r, message);
      RegisterIsRemainder(Shift(r[0 := r[0] != message[0]]), message[1..]);
    }
  }

  // ---------- the CRC without the register ----------

  /** The bits with the first `n` of them inverted. */
  function Inverted(bits: seq<bool>, n: nat): (r: seq<bool>)
    ensures |r| == |bits| && forall i | 0 <= i < |r| :: r[i] == (bits[i] != (i < n))
  {
    seq(|bits|, i requires 0 <= i < |bits| => bits[i] != (i < n))
  }

  /**
   The program's CRC of any data: append 16 zero bits, invert the first 16 bits, and take the remainder of dividing by
   the generator.
   */
  lemma CrcIsRemainder(data: seq<Byte>)
    ensures CrcValue(data) == Value(Remainder(Inverted(Bits(data) + Zeros(16), 16)))
  {
    RegisterIsRemainder(ONES, Bits(data));
    DividendInverts(Bits(data));
  }

  lemma DividendInverts(message: seq<bool>)
    ensures Dividend(ONES, message) == Inverted(message + Zeros(16), 16)
  {
    var d, e := Dividend(ONES, message), Inverted(message + Zeros(16), 16);
    forall i | 0 <= i < |d|
      ensures d[i] == e[i]
    {
      assert (ONES + Zeros(|message|))[i] == (i < 16);
    }
  }

  lemma {:induction false} BitsOfZeros(data: seq<Byte>)
    requires forall i | 0 <= i < |data| :: data[i] == 0
    ensures Bits(data) == Zeros(8 * |data|)
  {
    if data != [] {
      BitsOfZeros(data[..|data| - 1]);
      ReadPadded(0, 0, 8);
      assert Read(0, 0) + Zeros(8) == Zeros(8);
    }
  }

  /** A line stuck at zero never yields an acceptable frame. */
  lemma ZeroFrameRejected(frame: seq<Byte>)
    requires forall i | 0 <= i < |frame| :: frame[i] == 0
    ensures !DecodeRtuFrame(frame).Frame?
  {
    AcceptedIff(frame);
    BitsOfZeros(frame);
    FeedZeros(ONES, 8 * |frame|);
    ShiftsKernel(ONES, 8 * |frame|);
    assert ONES[0] && !ZERO[0];
  }

  lemma {:induction false} BitsCons(b: Byte, data: seq<Byte>)
    ensures Bits([b] + data) == Read(b, 8) + Bits(data)
  {
    var whole := [b] + data;
    if data == [] {
      assert whole == [b] && whole[..0] == [];
      NoneAround(Read(b, 8));
    } else {
      var n := |data| - 1;
      BitsCons(b, data[..n]);
      assert whole[..n + 1] == [b] + data[..n] && whole[n + 1] == data[n];
      Associates(Read(b, 8), Bits(data[..n]), Read(data[n], 8));
    }
  }

  lemma NoneAround(a: seq<bool>)
    ensures a + [] == a == [] + a
  {
  }

  lemma Associates(a: seq<bool>, b: seq<bool>, c: seq<bool>)
    ensures (a + b) + c == a + (b + c)
  {
  }

  /** Away from the taps, a shift only moves bits down. */
  lemma {:induction false} ShiftsMoveDown(r: Register, n: nat, i: nat)
    requires 1 <= i && i + n <= 13
    ensures Shifts(r, n)[i] == r[i + n]
    decreases n
  {
    if n > 0 {
      ShiftsMoveDown(Shift(r), n - 1, i);
      assert !TAPS[i + n - 1];
    }
  }

  lemma OnesMove()
    ensures Shifts(ONES, 8) != ONES
  {
    var r := Shift(ONES);
    assert Shifts(ONES, 8) == Shifts(r, 7);
    ShiftsMoveDown(r, 7, 6);
    assert !r[13] && ONES[6];
  }

  /** Different registers stay different whatever is fed to both. */
  lemma FeedInjective(x: Register, y: Register, m: seq<bool>)
    ensures Feed(x, m) == Feed(y, m) <==> x == y
  {
    FeedLinear(x, y, m, m);
    assert XorSeq(m, m) == Zeros(|m|);
    FeedZeros(XorSeq(x, y), |m|);
    ShiftsKernel(XorSeq(x, y), |m|);
    XorIsZero(Feed(x, m), Feed(y, m));
    XorIsZero(x, y);
  }

  /** A zero byte lost from or added to the front of any data always changes the CRC. */
  lemma LeadingZeroMatters(data: seq<Byte>)
    ensures CrcValue([0] + data) != CrcValue(data)
  {
    BitsCons(0, data);
    ReadPadded(0, 0, 8);
    assert Read(0, 8) == Zeros(8);
    FeedAppend(ONES, Zeros(8), Bits(data));
    FeedZeros(ONES, 8);
    OnesMove();
    FeedInjective(Shifts(ONES, 8), ONES, Bits(data));
    ReadOfValue(Crc(data));
    ReadOfValue(Crc([0] + data));
  }
}
