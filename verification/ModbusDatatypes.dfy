/**
 Multi-register Modbus values: how a 16-, 32- or 64-bit quantity is laid out over 16-bit registers
 under the four combinations of word order and byte order.

 A floating-point value is represented by its IEEE byte string, most significant byte first; the
 arithmetic meaning of that string is not modelled.
 */
module ModbusDatatypes {
  import opened Basics

  /** The data type names of the configuration; `Other` is any name the type table does not list. */
  datatype DataType = UInt16 | Int16 | UInt32 | Int32 | Float32 | UInt64 | Int64 | Float64 | Other(name: string)

  datatype Kind = Unsigned | Signed | Float
  datatype TypeSpec = TypeSpec(kind: Kind, count: nat)
  datatype Order = Big | Little
  datatype Value = Integer(n: int) | Ieee(raw: seq<Byte>)
  datatype Error = UnknownType | TooFewRegisters | OutOfRange

  predicate IsRegister(r: int) {
    0 <= r < 65536
  }

  predicate Registers(rs: seq<int>) {
    forall i | 0 <= i < |rs| :: IsRegister(rs[i])
  }

  function Spec(dataType: DataType): (s: Option<TypeSpec>)
    ensures s.Some? ==> s.value.count in {1, 2, 4}
  {
    match dataType
    case UInt16 => Some(TypeSpec(Unsigned, 1))
    case Int16 => Some(TypeSpec(Signed, 1))
    case UInt32 => Some(TypeSpec(Unsigned, 2))
    case Int32 => Some(TypeSpec(Signed, 2))
    case Float32 => Some(TypeSpec(Float, 2))
    case UInt64 => Some(TypeSpec(Unsigned, 4))
    case Int64 => Some(TypeSpec(Signed, 4))
    case Float64 => Some(TypeSpec(Float, 4))
    case Other(_) => None
  }

  function RegisterCount(dataType: DataType): Result<nat, Error> {
    match Spec(dataType)
    case None => Err(UnknownType)
    case Some(spec) => Ok(spec.count)
  }

  /** The value reported for a tag that could not be read: zero of the tag's kind. */
  function Placeholder(dataType: DataType): Value {
    match Spec(dataType)
    case Some(TypeSpec(Float, count)) => Ieee(seq(2 * count, _ => 0))
    case _ => Integer(0)
  }

  // ---------- byte strings, most significant byte first ----------

  function Pow256(k: nat): (r: nat)
    ensures r >= 1
  {
    if k == 0 then 1 else 256 * Pow256(k - 1)
  }

  function ToNat(raw: seq<Byte>): nat {
    if raw == [] then 0 else 256 * ToNat(raw[..|raw| - 1]) + raw[|raw| - 1]
  }

  function ToBytes(n: nat, k: nat): (raw: seq<Byte>)
    ensures |raw| == k
  {
    if k == 0 then [] else ToBytes(n / 256, k - 1) + [n % 256]
  }

  lemma {:induction false} NatOfBytes(n: nat, k: nat)
    requires n < Pow256(k)
    ensures ToNat(ToBytes(n, k)) == n
    decreases k
  {
    if k > 0 {
      NatOfBytes(n / 256, k - 1);
      assert ToBytes(n, k)[..k - 1] == ToBytes(n / 256, k - 1);
    }
  }

  lemma {:induction false} BytesOfNat(raw: seq<Byte>)
    ensures ToNat(raw) < Pow256(|raw|) && ToBytes(ToNat(raw), |raw|) == raw
  {
    if raw != [] {
      var front, last: int := raw[..|raw| - 1], raw[|raw| - 1];
      BytesOfNat(front);
      DivMod256(ToNat(front), last);
      assert raw == front + [raw[|raw| - 1]];
    }
  }

  /** Whether the type can hold `n`: the test behind the packing error. */
  predicate InRange(n: int, spec: TypeSpec) {
    var full := Pow256(2 * spec.count);
    match spec.kind
    case Unsigned => 0 <= n < full
    case Signed => 0 <= 2 * n + full < 2 * full
    case Float => false
  }

  predicate Fits(v: Value, spec: TypeSpec) {
    match v
    case Integer(n) => InRange(n, spec)
    case Ieee(raw) => spec.kind.Float? && |raw| == 2 * spec.count
  }

  function Pack(v: Value, spec: TypeSpec): (raw: seq<Byte>)
    requires Fits(v, spec)
    ensures |raw| == 2 * spec.count && |raw| % 2 == 0
  {
    match v
    case Integer(n) => ToBytes(if n < 0 then n + Pow256(2 * spec.count) else n, 2 * spec.count)
    case Ieee(raw) => raw
  }

  function Unpack(raw: seq<Byte>, spec: TypeSpec): Value
    requires |raw| == 2 * spec.count
  {
    match spec.kind
    case Unsigned => Integer(ToNat(raw))
    case Signed =>
      var full := Pow256(|raw|);
      Integer(if 2 * ToNat(raw) < full then ToNat(raw) else ToNat(raw) - full)
    case Float => Ieee(raw)
  }

  lemma UnpackPack(v: Value, spec: TypeSpec)
    requires Fits(v, spec)
    ensures Unpack(Pack(v, spec), spec) == v
  {
    if v.Integer? {
      var full := Pow256(2 * spec.count);
      NatOfBytes(if v.n < 0 then v.n + full else v.n, 2 * spec.count);
    }
  }

  lemma PackUnpack(raw: seq<Byte>, spec: TypeSpec)
    requires |raw| == 2 * spec.count
    ensures Fits(Unpack(raw, spec), spec) && Pack(Unpack(raw, spec), spec) == raw
  {
    BytesOfNat(raw);
  }

  // ---------- bytes and registers ----------

  function WordBytes(w: int, order: Order): (b: seq<Byte>)
    ensures |b| == 2
  {
    var masked := w % 65536;
    if order == Big then [masked / 256, masked % 256] else [masked % 256, masked / 256]
  }

  function WordOf(first: Byte, second: Byte, order: Order): (w: int)
    ensures IsRegister(w)
  {
    if order == Big then 256 * (first as int) + second else first + 256 * (second as int)
  }

  function JoinWords(words: seq<int>, order: Order): (raw: seq<Byte>)
    ensures |raw| == 2 * |words|
  {
    if words == [] then [] else WordBytes(words[0], order) + JoinWords(words[1..], order)
  }

  function SplitWords(raw: seq<Byte>, order: Order): (words: seq<int>)
    requires |raw| % 2 == 0
    ensures |words| == |raw| / 2 && Registers(words)
  {
    if raw == [] then [] else [WordOf(raw[0], raw[1], order)] + SplitWords(raw[2..], order)
  }

  lemma DivMod256(q: int, r: int)
    requires 0 <= q && 0 <= r < 256
    ensures (256 * q + r) / 256 == q && (256 * q + r) % 256 == r
  {
  }

  lemma MaskIdentity(w: int)
    requires IsRegister(w)
    ensures w % 65536 == w
  {
  }

  lemma WordRoundTrip(first: Byte, second: Byte, order: Order)
    ensures WordBytes(WordOf(first, second, order), order) == [first, second]
  {
    MaskIdentity(WordOf(first, second, order));
    DivMod256(first, second);
    DivMod256(second, first);
  }

  lemma {:induction false} SplitJoin(words: seq<int>, order: Order)
    requires Registers(words)
    ensures SplitWords(JoinWords(words, order), order) == words
  {
    if words != [] {
      SplitJoin(words[1..], order);
      assert JoinWords(words, order)[2..] == JoinWords(words[1..], order);
    }
  }

  lemma {:induction false} JoinSplit(raw: seq<Byte>, order: Order)
    requires |raw| % 2 == 0
    ensures JoinWords(SplitWords(raw, order), order) == raw
    decreases |raw|
  {
    if raw != [] {
      JoinSplit(raw[2..], order);
      WordRoundTrip(raw[0], raw[1], order);
      assert SplitWords(raw, order)[1..] == SplitWords(raw[2..], order);
      assert [raw[0], raw[1]] + raw[2..] == raw;
    }
  }

  function Ordered(words: seq<int>, order: Order): (r: seq<int>)
    ensures |r| == |words|
  {
    if order == Little then Reverse(words) else words
  }

  lemma OrderedTwice(words: seq<int>, order: Order)
    ensures Ordered(Ordered(words, order), order) == words
    ensures Registers(words) ==> Registers(Ordered(words, order))
  {
    ReverseTwice(words);
  }

  /** Combine registers, in address order, into one value; extra trailing registers are ignored. */
  function Decode(registers: seq<int>, dataType: DataType, wordOrder: Order, byteOrder: Order): Result<Value, Error> {
    match Spec(dataType)
    case None => Err(UnknownType)
    case Some(spec) =>
      if |registers| < spec.count then Err(TooFewRegisters)
      else Ok(Unpack(JoinWords(Ordered(registers[..spec.count], wordOrder), byteOrder), spec))
  }

  function Encode(v: Value, dataType: DataType, wordOrder: Order, byteOrder: Order): Result<seq<int>, Error> {
    match Spec(dataType)
    case None => Err(UnknownType)
    case Some(spec) =>
      if !Fits(v, spec) then Err(OutOfRange)
      else Ok(Ordered(SplitWords(Pack(v, spec), byteOrder), wordOrder))
  }

  // ---------- the promised laws ----------

  /** Every value the type can hold survives encoding, in all four orders; every other value is refused. */
  lemma DecodeAfterEncode(v: Value, dataType: DataType, wordOrder: Order, byteOrder: Order, trailing: seq<int>)
    requires Spec(dataType).Some?
    ensures var spec, e := Spec(dataType).value, Encode(v, dataType, wordOrder, byteOrder);
            if Fits(v, spec) then
              e.Ok? && |e.value| == spec.count && Registers(e.value) && Decode(e.value + trailing, dataType, wordOrder, byteOrder) == Ok(v)
            else
              e == Err(OutOfRange)
  {
    var spec := Spec(dataType).value;
    if Fits(v, spec) {
      BackToValue(v, spec, wordOrder, byteOrder);
      var registers := Ordered(SplitWords(Pack(v, spec), byteOrder), wordOrder);
      assert (registers + trailing)[..spec.count] == registers;
    }
  }

  lemma BackToValue(v: Value, spec: TypeSpec, wordOrder: Order, byteOrder: Order)
    requires Fits(v, spec)
    ensures
      var registers := Ordered(SplitWords(Pack(v, spec), byteOrder), wordOrder);
      && |registers| == spec.count && Registers(registers)
      && Unpack(JoinWords(Ordered(registers, wordOrder), byteOrder), spec) == v
  {
    OrderedTwice(SplitWords(Pack(v, spec), byteOrder), wordOrder);
    JoinSplit(Pack(v, spec), byteOrder);
    UnpackPack(v, spec);
  }

  /** Every register list of the right length survives decoding, in all four orders. */
  lemma EncodeAfterDecode(registers: seq<int>, dataType: DataType, wordOrder: Order, byteOrder: Order)
    requires Spec(dataType).Some? && Registers(registers)
    ensures var spec, d := Spec(dataType).value, Decode(registers, dataType, wordOrder, byteOrder);
            if |registers| < spec.count then
              d == Err(TooFewRegisters)
            else
              d.Ok? && Encode(d.value, dataType, wordOrder, byteOrder) == Ok(registers[..spec.count])
  {
    var spec := Spec(dataType).value;
    if |registers| >= spec.count {
      BackToRegisters(registers[..spec.count], spec, wordOrder, byteOrder);
    }
  }

  lemma BackToRegisters(used: seq<int>, spec: TypeSpec, wordOrder: Order, byteOrder: Order)
    requires Registers(used) && |used| == spec.count
    ensures
      var v := Unpack(JoinWords(Ordered(used, wordOrder), byteOrder), spec);
      Fits(v, spec) && Ordered(SplitWords(Pack(v, spec), byteOrder), wordOrder) == used
  {
    var words := Ordered(used, wordOrder);
    OrderedTwice(used, wordOrder);
    PackUnpack(JoinWords(words, byteOrder), spec);
    SplitJoin(words, byteOrder);
  }

  lemma FourBytes(a: Byte, b: Byte, c: Byte, d: Byte)
    ensures ToNat([a, b, c, d]) == ((256 * (a as int) + b) * 256 + c) * 256 + d
    ensures Pow256(4) == 0x1_0000_0000
  {
    var raw := [a, b, c, d];
    assert raw[..3] == [a, b, c] && [a, b, c][..2] == [a, b] && [a, b][..1] == [a];
    assert ToNat([a]) == a;
    assert ToNat([a, b]) == 256 * ToNat([a]) + b;
    assert ToNat([a, b, c]) == 256 * ToNat([a, b]) + c;
  }

  lemma TwoWords(a: Byte, b: Byte, c: Byte, d: Byte, order: Order)
    ensures SplitWords([a, b, c, d], order)
         == if order == Big then [256 * (a as int) + b, 256 * (c as int) + d]
            else [a + 256 * (b as int), c + 256 * (d as int)]
  {
    assert [a, b, c, d][2..] == [c, d] && [c, d][2..] == [];
  }

  lemma ReversePair(x: int, y: int)
    ensures Reverse([x, y]) == [y, x]
  {
  }

  /** The four documented layouts of a 32-bit quantity with bytes a, b, c, d: ABCD, CDAB, BADC, DCBA. */
  lemma FourLayouts(a: Byte, b: Byte, c: Byte, d: Byte, n: int)
    requires n == ((256 * (a as int) + b) * 256 + c) * 256 + d
    ensures Encode(Integer(n), UInt32, Big, Big) == Ok([256 * (a as int) + b, 256 * (c as int) + d])
    ensures Encode(Integer(n), UInt32, Little, Big) == Ok([256 * (c as int) + d, 256 * (a as int) + b])
    ensures Encode(Integer(n), UInt32, Big, Little) == Ok([a + 256 * (b as int), c + 256 * (d as int)])
    ensures Encode(Integer(n), UInt32, Little, Little) == Ok([c + 256 * (d as int), a + 256 * (b as int)])
  {
    FourBytes(a, b, c, d);
    BytesOfNat([a, b, c, d]);
    assert Pack(Integer(n), TypeSpec(Unsigned, 2)) == [a, b, c, d];
    TwoWords(a, b, c, d, Big);
    TwoWords(a, b, c, d, Little);
    ReversePair(256 * (a as int) + b, 256 * (c as int) + d);
    ReversePair(a + 256 * (b as int), c + 256 * (d as int));
  }

  // ---------- what the numbers are ----------

  /** Registers read as digits to the base 65536, most significant first. */
  function Horner(words: seq<int>): int {
    if words == [] then 0 else 65536 * Horner(words[..|words| - 1]) + words[|words| - 1]
  }

  lemma {:induction false} JoinSnoc(words: seq<int>, w: int, order: Order)
    ensures JoinWords(words + [w], order) == JoinWords(words, order) + WordBytes(w, order)
  {
    if words == [] {
      assert words + [w] == [w] && [w][1..] == [];
    } else {
      JoinSnoc(words[1..], w, order);
      assert (words + [w])[1..] == words[1..] + [w];
    }
  }

  lemma ToNatPair(raw: seq<Byte>, hi: Byte, lo: Byte)
    ensures ToNat(raw + [hi, lo]) == 65536 * ToNat(raw) + 256 * (hi as int) + lo
  {
    var longer := raw + [hi];
    assert raw + [hi, lo] == longer + [lo];
    assert (longer + [lo])[..|longer|] == longer && longer[..|raw|] == raw;
    assert ToNat(longer) == 256 * ToNat(raw) + hi;
  }

  lemma {:induction false} JoinIsHorner(words: seq<int>)
    requires Registers(words)
    ensures ToNat(JoinWords(words, Big)) == Horner(words)
  {
    if words != [] {
      var front, last := words[..|words| - 1], words[|words| - 1];
      assert words == front + [last] && IsRegister(words[|words| - 1]);
      JoinIsHorner(front);
      JoinSnoc(front, last, Big);
      MaskIdentity(last);
      ToNatPair(JoinWords(front, Big), last / 256, last % 256);
    }
  }

  /** The leading register tells whether the whole number is in the upper half. */
  lemma {:induction false} HornerHalf(words: seq<int>)
    requires Registers(words) && words != []
    ensures 0 <= Horner(words) < Pow256(2 * |words|) && (2 * Horner(words) < Pow256(2 * |words|) <==> words[0] < 0x8000)
  {
    var n := |words| - 1;
    var front := words[..n];
    assert Pow256(2 * |words|) == 256 * Pow256(2 * n + 1) == 65536 * Pow256(2 * n);
    assert IsRegister(words[n]);
    if n > 0 {
      HornerHalf(front);
    } else {
      assert front == [];
    }
  }

  /** The kind and the number of registers that a data type's name says. */
  function KindOf(dataType: DataType): Kind {
    if dataType.Int16? || dataType.Int32? || dataType.Int64? then Signed
    else if dataType.Float32? || dataType.Float64? then Float
    else Unsigned
  }

  function Width(dataType: DataType): nat {
    if dataType.UInt16? || dataType.Int16? then 1
    else if dataType.UInt32? || dataType.Int32? || dataType.Float32? then 2
    else if dataType.UInt64? || dataType.Int64? || dataType.Float64? then 4
    else 0
  }

  /**
   What big-endian registers stand for: the digits of an unsigned number to the base 65536; those of a signed one, less
   the full range when the sign bit is set; the bytes of a floating-point one in order.
   */
  function Meaning(words: seq<int>, kind: Kind): Value
    requires words != []
  {
    match kind
    case Unsigned => Integer(Horner(words))
    case Signed => Integer(if words[0] < 0x8000 then Horner(words) else Horner(words) - Pow256(2 * |words|))
    case Float => Ieee(JoinWords(words, Big))
  }

  lemma UnpackMeans(words: seq<int>, spec: TypeSpec)
    requires Registers(words) && words != [] && |words| == spec.count
    ensures Unpack(JoinWords(words, Big), spec) == Meaning(words, spec.kind)
  {
    JoinIsHorner(words);
    HornerHalf(words);
  }

  lemma SpecOfName(dataType: DataType)
    ensures Spec(dataType) == if dataType.Other? then None else Some(TypeSpec(KindOf(dataType), Width(dataType)))
  {
  }

  lemma DecodeWhole(words: seq<int>, dataType: DataType, wordOrder: Order, byteOrder: Order, spec: TypeSpec)
    requires Spec(dataType) == Some(spec) && |words| == spec.count
    ensures Decode(words, dataType, wordOrder, byteOrder) == Ok(Unpack(JoinWords(Ordered(words, wordOrder), byteOrder), spec))
  {
    assert words[..|words|] == words;
  }

  /** The value of every data type, from its big-endian registers. */
  lemma NumericValue(words: seq<int>, dataType: DataType)
    requires Registers(words) && words != [] && |words| == Width(dataType)
    ensures Decode(words, dataType, Big, Big) == Ok(Meaning(words, KindOf(dataType)))
  {
    SpecOfName(dataType);
    NumericOf(words, dataType, TypeSpec(KindOf(dataType), Width(dataType)));
  }

  lemma NumericOf(words: seq<int>, dataType: DataType, spec: TypeSpec)
    requires Spec(dataType) == Some(spec) && Registers(words) && words != [] && |words| == spec.count
    ensures Decode(words, dataType, Big, Big) == Ok(Meaning(words, spec.kind))
  {
    DecodeWhole(words, dataType, Big, Big, spec);
    UnpackMeans(words, spec);
  }

  function SwapBytes(w: int): int {
    256 * (w % 256) + w / 256
  }

  /** The registers put most significant first: words reversed, or bytes swapped, or both, as configured. */
  function Normal(words: seq<int>, wordOrder: Order, byteOrder: Order): (r: seq<int>)
    ensures |r| == |words|
  {
    seq(|words|, i requires 0 <= i < |words| =>
      var w := words[if wordOrder == Little then |words| - 1 - i else i];
      if byteOrder == Little then SwapBytes(w) else w)
  }

  lemma {:induction false} JoinSwapped(words: seq<int>, swapped: seq<int>)
    requires Registers(words) && |swapped| == |words| && forall i | 0 <= i < |words| :: swapped[i] == SwapBytes(words[i])
    ensures JoinWords(words, Little) == JoinWords(swapped, Big)
  {
    if words != [] {
      assert IsRegister(words[0]);
      DivMod256(words[0] % 256, words[0] / 256);
      MaskIdentity(words[0]);
      MaskIdentity(swapped[0]);
      JoinSwapped(words[1..], swapped[1..]);
    }
  }

  /** The two order settings do nothing but that. */
  lemma OrdersMean(words: seq<int>, dataType: DataType, wordOrder: Order, byteOrder: Order)
    requires Registers(words) && |words| == Width(dataType)
    ensures Decode(words, dataType, wordOrder, byteOrder) == Decode(Normal(words, wordOrder, byteOrder), dataType, Big, Big)
  {
    SpecOfName(dataType);
    if !dataType.Other? {
      var spec := TypeSpec(KindOf(dataType), Width(dataType));
      DecodeWhole(words, dataType, wordOrder, byteOrder, spec);
      DecodeWhole(Normal(words, wordOrder, byteOrder), dataType, Big, Big, spec);
      JoinNormal(words, wordOrder, byteOrder);
    }
  }

  lemma JoinNormal(words: seq<int>, wordOrder: Order, byteOrder: Order)
    requires Registers(words)
    ensures JoinWords(Ordered(words, wordOrder), byteOrder) == JoinWords(Ordered(Normal(words, wordOrder, byteOrder), Big), Big)
  {
    var ordered, normal := Ordered(words, wordOrder), Normal(words, wordOrder, byteOrder);
    OrderedTwice(words, wordOrder);
    if byteOrder == Little {
      JoinSwapped(ordered, normal);
    } else {
      assert normal == ordered;
    }
  }
}
