/** Signed and unsigned, big- and little-endian encodings of integers of a given bit length. */
module IntegerCodec {
  import opened Outcomes
  import opened Bits
  import opened Values
  import opened IntegerWidth
  import opened Octets

  // ----- byte buffers -----

  /** `to_signed_bytes_be`: the shortest two's complement byte string. */
  function SignedBytesBe(v: int): (data: seq<Byte>)
    ensures |data| == BitsToBytes(Bitsize(v))
  {
    BytesBe(v, BitsToBytes(Bitsize(v)))
  }

  /** `to_bytes_be`: the shortest byte string, one byte for zero. */
  function UnsignedBytesBe(v: nat): (data: seq<Byte>)
    ensures |data| == if v == 0 then 1 else BitsToBytes(BitLength(v))
  {
    BytesBe(v, if v == 0 then 1 else BitsToBytes(BitLength(v)))
  }

  function FillByte(negative: bool): Byte {
    if negative then 0xFF else 0
  }

  function Filled(n: nat, negative: bool): seq<Byte> {
    seq(n, _ => FillByte(negative))
  }

  function ExtendBe(buffer: seq<Byte>, bits: nat, negative: bool): seq<Byte> {
    var n := BitsToBytes(bits);
    if n > |buffer| then Filled(n - |buffer|, negative) + buffer else buffer
  }

  function ExtendLe(buffer: seq<Byte>, bits: nat, negative: bool): seq<Byte> {
    var n := BitsToBytes(bits);
    if n > |buffer| then buffer + Filled(n - |buffer|, negative) else buffer
  }

  /** `BuilderData::with_raw`: the first bits of a buffer. */
  function WithRaw(buffer: seq<Byte>, bits: nat): Result<seq<bool>> {
    if bits <= 8 * |buffer| then Ok(BitsOf(buffer)[..bits]) else Err(FatalError)
  }

  lemma {:induction false} BytesSplit(n: int, j: nat, k: nat)
    ensures BytesBe(n, j + k) == BytesBe(n / Pow2(8 * k), j) + BytesBe(n, k)
    decreases k
  {
    if k > 0 {
      BytesSplit(n / 256, j, k - 1);
      Pow2Add(8, 8 * (k - 1));
      Pow2Of8();
      DivDiv(n, 256, Pow2(8 * (k - 1)));
      assert 8 + 8 * (k - 1) == 8 * k;
    }
  }

  /** The digits of 0 and of -1 are the two fill bytes. */
  lemma {:induction false} SignBytes(n: nat)
    ensures BytesBe(0, n) == Filled(n, false) && BytesBe(-1, n) == Filled(n, true)
    decreases n
  {
    if n > 0 {
      SignBytes(n - 1);
    }
  }

  lemma SmallOverPower(v: int, k: nat)
    requires FitsSigned(v, k)
    ensures v / Pow2(k) == if v < 0 then -1 else 0
  {
    hide Pow2;
    Pow2Monotonic(k - 1, k);
    if v < 0 {
      DivModUnique(v, Pow2(k), -1, v + Pow2(k));
    } else {
      DivModUnique(v, Pow2(k), 0, v);
    }
  }

  lemma ReversedExtended(n: nat, negative: bool, data: seq<Byte>)
    ensures Reversed(Filled(n, negative) + data) == Reversed(data) + Filled(n, negative)
  {}

  /** Putting fill bytes in front is sign extension. */
  lemma Extended(v: int, n: nat, k: nat, negative: bool)
    requires k <= n && v / Pow2(8 * k) == if negative then -1 else 0
    ensures ExtendBe(BytesBe(v, k), 8 * n, negative) == BytesBe(v, n)
    ensures ExtendLe(Reversed(BytesBe(v, k)), 8 * n, negative) == Reversed(BytesBe(v, n))
  {
    hide Pow2, BytesBe, Reversed, Filled;
    BytesSplit(v, n - k, k);
    SignBytes(n - k);
    ReversedExtended(n - k, negative, BytesBe(v, k));
  }

  /** The extended shortest string is the full-length one. */
  lemma ExtendedSigned(v: int, n: nat)
    requires FitsSigned(v, 8 * n)
    ensures ExtendBe(SignedBytesBe(v), 8 * n, v < 0) == BytesBe(v, n)
    ensures ExtendLe(Reversed(SignedBytesBe(v)), 8 * n, v < 0) == Reversed(BytesBe(v, n))
  {
    hide Pow2, Bitsize, BytesBe, Reversed, Filled;
    var k := BitsToBytes(Bitsize(v));
    BitsizeIff(v, 8 * n);
    BitsizeIff(v, 8 * k);
    SmallOverPower(v, 8 * k);
    Extended(v, n, k, v < 0);
  }

  lemma ExtendedUnsigned(v: nat, n: nat)
    requires v < Pow2(8 * n) && n >= 1
    ensures ExtendBe(UnsignedBytesBe(v), 8 * n, false) == BytesBe(v, n)
    ensures ExtendLe(Reversed(UnsignedBytesBe(v)), 8 * n, false) == Reversed(BytesBe(v, n))
  {
    hide Pow2, BitLength, BytesBe, Reversed, Filled;
    var k := if v == 0 then 1 else BitsToBytes(BitLength(v));
    BitLengthIff(v, 8 * n);
    BitLengthIff(v, 8 * k);
    BitLengthBounds(v);
    DivModUnique(v, Pow2(8 * k), 0, v);
    Extended(v, n, k, false);
  }

  // ----- big-endian -----

  /** How far a value is shifted so that its bits start at a byte boundary. */
  function Pad(bits: nat): nat {
    8 * BitsToBytes(bits) - bits
  }

  lemma ShiftedFits(v: int, bits: nat)
    requires FitsSigned(v, bits)
    ensures FitsSigned(v * Pow2(Pad(bits)), 8 * BitsToBytes(bits))
    ensures v * Pow2(Pad(bits)) / Pow2(Pad(bits)) == v
    ensures v * Pow2(Pad(bits)) < 0 <==> v < 0
  {
    hide Pow2;
    var p := Pow2(Pad(bits));
    Pow2Add(bits - 1, Pad(bits));
    ScaledRange(v, p, Pow2(bits - 1));
    DivModUnique(v * p, p, v, 0);
  }

  lemma ScaledRange(v: int, p: int, h: int)
    requires p >= 1 && -h <= v < h
    ensures -(h * p) <= v * p < h * p && (v * p < 0 <==> v < 0)
  {}

  /** The top bits of a shifted value are the bits of the value. */
  lemma TopBits(w: int, bits: nat)
    ensures BitsOf(BytesBe(w, BitsToBytes(bits)))[..bits] == ToBits(w / Pow2(Pad(bits)), bits)
  {
    hide Pow2;
    BitsOfBytes(w, BitsToBytes(bits));
    ToBitsSplit(w, bits, Pad(bits));
  }

  lemma PadIs(bits: nat)
    ensures Pad(bits) == if bits % 8 == 0 then 0 else 8 - bits % 8
    ensures 8 * BitsToBytes(bits) == bits + Pad(bits) && BitsToBytes(8 * BitsToBytes(bits)) == BitsToBytes(bits)
    ensures bits >= 1 ==> BitsToBytes(bits) >= 1
  {}

  lemma PowerZero()
    ensures Pow2(0) == 1
  {}

  lemma ExtendWhole(buffer: seq<Byte>, bits: nat, negative: bool)
    ensures ExtendBe(buffer, bits, negative) == ExtendBe(buffer, 8 * BitsToBytes(bits), negative)
    ensures ExtendLe(buffer, bits, negative) == ExtendLe(buffer, 8 * BitsToBytes(bits), negative)
  {}

  /** The shifted value, extended and cut, is the bits of the value. */
  lemma EncodesSigned(v: int, bits: nat)
    requires FitsSigned(v, bits)
    ensures
      var value := v * Pow2(Pad(bits));
      WithRaw(ExtendBe(SignedBytesBe(value), bits, value < 0), bits) == Ok(ToBits(v, bits))
  {
    hide Pow2, Bitsize, ToBits, BitsOf, BytesBe, ExtendBe, Pad, FitsSigned, BitsToBytes, SignedBytesBe;
    var value := v * Pow2(Pad(bits));
    ShiftedFits(v, bits);
    ExtendedSigned(value, BitsToBytes(bits));
    ExtendWhole(SignedBytesBe(value), bits, value < 0);
    TopBits(value, bits);
    PadIs(bits);
  }

  /** `SignedIntegerBigEndianEncoding::try_serialize`. */
  method SerializeSignedBe(v: IntegerData, bits: nat) returns (r: Result<seq<bool>>)
    ensures v.NaN? ==> r == Err(IntegerOverflow)
    ensures v.Value? ==> r == if FitsSigned(v.v, bits) then Ok(ToBits(v.v, bits)) else Err(RangeCheckError)
  {
    hide Pow2, Bitsize, ToBits, ExtendBe, Pad, FitsSigned, SignedBytesBe, WithRaw;
    if v.NaN? {
      return Err(IntegerOverflow);
    }
    BitsizeIff(v.v, bits);
    if Bitsize(v.v) > bits {
      return Err(RangeCheckError);
    }
    var value := v.v;
    PadIs(bits);
    PowerZero();
    EncodesSigned(v.v, bits);
    var excess := bits % 8;
    if excess != 0 {
      value := value * Pow2(8 - excess);
    }
    var buffer := SignedBytesBe(value);
    buffer := ExtendBe(buffer, bits, value < 0);
    r := WithRaw(buffer, bits);
  }

  lemma DecodesSigned(data: seq<Byte>, pad: nat)
    requires pad < 8 * |data|
    ensures SignedBe(data) / Pow2(pad) == FromBitsSigned(BitsOf(data)[..8 * |data| - pad])
    ensures FitsSigned(SignedBe(data) / Pow2(pad), 8 * |data| - pad)
  {
    hide Pow2, FromBitsSigned, BitsOf;
    var bits, kept := BitsOf(data), 8 * |data| - pad;
    SignedPrefix(bits, kept);
    SignedRange(bits[..kept]);
  }

  lemma NoBytes()
    ensures SignedBe([]) == 0 && FitsSigned(0, 257) && FromBitsSigned([]) == 0 && BitsOf([]) == []
  {}

  lemma FitsWider(v: int, bits: nat, more: nat)
    requires FitsSigned(v, bits) && bits <= more
    ensures FitsSigned(v, more)
  {
    hide Pow2;
    Pow2Monotonic(bits - 1, more - 1);
  }

  /**
   * `SignedIntegerBigEndianEncoding::deserialize`: the signed value of all but the padding bits;
   * a value out of range is a fault.
   */
  method DeserializeSignedBe(data: seq<Byte>, bits: nat) returns (r: Result<IntegerData>)
    requires 8 * |data| >= bits
    ensures 8 * |data| >= Pad(bits)
    ensures
      var v := FromBitsSigned(BitsOf(data)[..8 * |data| - Pad(bits)]);
      r == if FitsSigned(v, 257) then Ok(Value(v)) else Err(Panic)
    ensures |data| == BitsToBytes(bits) ==> 8 * |data| - Pad(bits) == bits
    ensures |data| == BitsToBytes(bits) && bits <= 257 ==> r.Ok?
  {
    hide Pow2, Bitsize, SignedBe, FromBitsSigned, BitsOf, Pad, FitsSigned;
    var value := SignedBe(data);
    PadIs(bits);
    PowerZero();
    NoBytes();
    if data != [] {
      DecodesSigned(data, Pad(bits));
    }
    var excess := bits % 8;
    if excess != 0 {
      value := value / Pow2(8 - excess);
    }
    BitsizeIff(value, 257);
    if |data| == BitsToBytes(bits) && 1 <= bits <= 257 {
      FitsWider(value, bits, 257);
    }
    r := if Bitsize(value) < 258 then Ok(Value(value)) else Err(Panic);
  }

  lemma EncodesUnsigned(v: int, bits: nat)
    requires 0 <= v < Pow2(bits)
    ensures v * Pow2(Pad(bits)) >= 0
    ensures
      var value: nat := v * Pow2(Pad(bits));
      WithRaw(ExtendBe(UnsignedBytesBe(value), bits, false), bits) == Ok(ToBits(v, bits))
  {
    hide Pow2, BitLength, ToBits, BitsOf, BytesBe, ExtendBe, Pad, BitsToBytes, UnsignedBytesBe;
    UnsignedShifted(v, bits);
    var value: nat := v * Pow2(Pad(bits));
    PadIs(bits);
    if bits == 0 {
      NothingIsNothing(v);
    } else {
      ExtendedUnsigned(value, BitsToBytes(bits));
      ExtendWhole(UnsignedBytesBe(value), bits, false);
      TopBits(value, bits);
    }
  }

  /** `UnsignedIntegerBigEndianEncoding::try_serialize`. */
  method SerializeUnsignedBe(v: IntegerData, bits: nat) returns (r: Result<seq<bool>>)
    ensures v.NaN? ==> r == Err(RangeCheckError)
    ensures v.Value? ==> r == if 0 <= v.v < Pow2(bits) then Ok(ToBits(v.v, bits)) else Err(RangeCheckError)
  {
    hide Pow2, BitLength, ToBits, ExtendBe, Pad, UnsignedBytesBe, WithRaw;
    if v.NaN? || v.v < 0 {
      return Err(RangeCheckError);
    }
    BitLengthIff(v.v, bits);
    if BitLength(v.v) > bits {
      return Err(RangeCheckError);
    }
    var value: nat := v.v;
    PadIs(bits);
    PowerZero();
    EncodesUnsigned(v.v, bits);
    var excess := bits % 8;
    if excess != 0 {
      value := v.v * Pow2(8 - excess);
    }
    var buffer := UnsignedBytesBe(value);
    buffer := ExtendBe(buffer, bits, false);
    r := WithRaw(buffer, bits);
  }

  lemma NothingIsNothing(v: int)
    requires 0 <= v < Pow2(0)
    ensures v == 0 && ToBits(v, 0) == []
  {}

  lemma UnsignedShifted(v: int, bits: nat)
    requires 0 <= v < Pow2(bits)
    ensures 0 <= v * Pow2(Pad(bits)) < Pow2(8 * BitsToBytes(bits))
    ensures v * Pow2(Pad(bits)) / Pow2(Pad(bits)) == v
  {
    hide Pow2;
    Pow2Add(bits, Pad(bits));
    ScaledRange(v, Pow2(Pad(bits)), Pow2(bits));
    DivModUnique(v * Pow2(Pad(bits)), Pow2(Pad(bits)), v, 0);
  }

  lemma DecodesUnsigned(data: seq<Byte>, pad: nat)
    requires pad <= 8 * |data|
    ensures ValueBe(data) / Pow2(pad) == FromBits(BitsOf(data)[..8 * |data| - pad]) < Pow2(8 * |data| - pad)
  {
    hide Pow2, FromBits, ValueBe, BitsOf;
    ValueIsBits(data);
    UnsignedPrefix(BitsOf(data), 8 * |data| - pad);
    FromBitsBound(BitsOf(data)[..8 * |data| - pad]);
  }

  /** `UnsignedIntegerBigEndianEncoding::deserialize`. */
  method DeserializeUnsignedBe(data: seq<Byte>, bits: nat) returns (r: Result<IntegerData>)
    requires 8 * |data| >= bits
    ensures 8 * |data| >= Pad(bits)
    ensures
      var v := FromBits(BitsOf(data)[..8 * |data| - Pad(bits)]);
      r == if FitsSigned(v, 257) then Ok(Value(v)) else Err(Panic)
    ensures |data| == BitsToBytes(bits) ==> 8 * |data| - Pad(bits) == bits
    ensures |data| == BitsToBytes(bits) && bits <= 256 ==> r.Ok?
  {
    hide Pow2, Bitsize, FromBits, BitsOf, Pad, ValueBe;
    var value := ValueBe(data);
    PadIs(bits);
    DecodesUnsigned(data, Pad(bits));
    PowerZero();
    var excess := bits % 8;
    if excess != 0 {
      value := value / Pow2(8 - excess);
    }
    BitsizeIff(value, 257);
    if |data| == BitsToBytes(bits) && bits <= 256 {
      Pow2Monotonic(bits, 256);
    }
    r := if Bitsize(value) < 258 then Ok(Value(value)) else Err(Panic);
  }

  /** Big-endian round trips: what was stored in the first bits is what is read. */
  lemma BigEndianRoundTrip(v: int, bits: nat, data: seq<Byte>)
    requires |data| == BitsToBytes(bits) && BitsOf(data)[..bits] == ToBits(v, bits)
    ensures FitsSigned(v, bits) ==> FromBitsSigned(BitsOf(data)[..bits]) == v
    ensures 0 <= v < Pow2(bits) ==> FromBits(BitsOf(data)[..bits]) == v
  {
    if bits >= 1 {
      SignedFromToBits(v, bits);
    }
    UnsignedFromToBits(v, bits);
  }

  // ----- little-endian -----

  /** The bytes of v, least significant first. */
  function BytesLe(v: int, n: nat): seq<Byte> {
    Reversed(BytesBe(v, n))
  }

  /** `SignedIntegerLittleEndianEncoding::try_serialize`. */
  method SerializeSignedLe(v: IntegerData, bits: nat) returns (r: Result<seq<bool>>)
    ensures v.NaN? ==> r == Err(IntegerOverflow)
    ensures v.Value? ==>
      r == if FitsSigned(v.v, bits) then Ok(BitsOf(BytesLe(v.v, BitsToBytes(bits)))[..bits]) else Err(RangeCheckError)
  {
    hide Pow2, Bitsize, BitsOf, BytesBe, Filled, Reversed;
    if v.NaN? {
      return Err(IntegerOverflow);
    }
    BitsizeIff(v.v, bits);
    if Bitsize(v.v) > bits {
      return Err(RangeCheckError);
    }
    var bytes := Reversed(SignedBytesBe(v.v));
    BitsizeIff(v.v, 8 * BitsToBytes(bits));
    ExtendedSigned(v.v, BitsToBytes(bits));
    bytes := ExtendLe(bytes, bits, v.v < 0);
    r := WithRaw(bytes, bits);
  }

  /** `UnsignedIntegerLittleEndianEncoding::try_serialize`. */
  method SerializeUnsignedLe(v: IntegerData, bits: nat) returns (r: Result<seq<bool>>)
    ensures v.NaN? ==> r == Err(IntegerOverflow)
    ensures v.Value? ==>
      r == if 0 <= v.v < Pow2(bits) then Ok(BitsOf(BytesLe(v.v, BitsToBytes(bits)))[..bits]) else Err(RangeCheckError)
  {
    hide Pow2, BitLength, BitsOf, BytesBe, Filled, Reversed;
    if v.NaN? {
      return Err(IntegerOverflow);
    }
    if v.v < 0 {
      return Err(RangeCheckError);
    }
    BitLengthIff(v.v, bits);
    if BitLength(v.v) > bits {
      return Err(RangeCheckError);
    }
    var buffer := Reversed(UnsignedBytesBe(v.v));
    var size := BitsToBytes(bits);
    if bits == 0 {
      return Ok([]);
    }
    Pow2Monotonic(bits, 8 * size);
    ExtendedUnsigned(v.v, size);
    buffer := ExtendLe(buffer, bits, false);
    r := WithRaw(buffer, bits);
  }

  /** `from_signed_bytes_le`. */
  function SignedLe(data: seq<Byte>): int {
    SignedBe(Reversed(data))
  }

  /** `from_bytes_le`. */
  function ValueLe(data: seq<Byte>): nat {
    ValueBe(Reversed(data))
  }

  /** Whole bytes read back as the value. */
  lemma LittleEndianRoundTrip(v: int, n: nat)
    ensures FitsSigned(v, 8 * n) ==> SignedLe(BytesLe(v, n)) == v
    ensures 0 <= v < Pow2(8 * n) ==> ValueLe(BytesLe(v, n)) == v
  {
    hide Pow2, FromBits, FromBitsSigned, ToBits, BytesBe, BitsOf, ValueBe, Reversed;
    ReversedTwice(BytesBe(v, n));
    BitsOfBytes(v, n);
    ValueIsBits(BytesBe(v, n));
    UnsignedFromToBits(v, 8 * n);
    if n >= 1 {
      SignedFromToBits(v, 8 * n);
    }
  }

  /** Reading inverts writing the other way round as well: a byte string is the bytes of what it reads as. */
  lemma LittleEndianOfRead(data: seq<Byte>)
    ensures BytesLe(SignedLe(data), |data|) == data && BytesLe(ValueLe(data), |data|) == data
  {
    hide ToBits, FromBits, FromBitsSigned, BytesBe, BitsOf, ValueBe, Reversed;
    var be := Reversed(data);
    ReversedTwice(data);
    BitsOfBytes(SignedLe(data), |data|);
    BitsOfBytes(ValueLe(data), |data|);
    ToBitsOfSigned(BitsOf(be));
    ValueIsBits(be);
    ToFromBits(BitsOf(be));
    BitsOfInjective(BytesBe(SignedLe(data), |data|), be);
    BitsOfInjective(BytesBe(ValueLe(data), |data|), be);
  }

  lemma SignedWidth(data: seq<Byte>)
    ensures data != [] ==> FitsSigned(SignedBe(data), 8 * |data|)
    ensures data == [] ==> SignedBe(data) == 0
  {
    hide Pow2, FromBitsSigned, BitsOf;
    if data == [] {
      NoBytes();
    } else {
      SignedRange(BitsOf(data));
    }
  }

  /**
   * `SignedIntegerLittleEndianEncoding::deserialize`: the number whose bytes these are; a value
   * out of range is a fault, which up to 32 bytes cannot happen.
   */
  method DeserializeSignedLe(data: seq<Byte>, bits: nat) returns (r: Result<IntegerData>)
    requires 8 * |data| >= bits
    ensures r == if FitsSigned(SignedLe(data), 257) then Ok(Value(SignedLe(data))) else Err(Panic)
    ensures r.Ok? ==> BytesLe(r.value.v, |data|) == data
    ensures |data| <= 32 ==> r.Ok?
  {
    hide Pow2, Bitsize, SignedBe, FitsSigned, BytesLe, Reversed;
    var value := SignedLe(data);
    LittleEndianOfRead(data);
    SignedWidth(Reversed(data));
    NoBytes();
    if 1 <= |data| <= 32 {
      FitsWider(value, 8 * |data|, 257);
    }
    BitsizeIff(value, 257);
    r := if Bitsize(value) < 258 then Ok(Value(value)) else Err(Panic);
  }

  /**
   * `UnsignedIntegerLittleEndianEncoding::deserialize`: the number whose bytes these are. Where
   * the other decoders fault, on a value out of range, this one returns zero.
   */
  method DeserializeUnsignedLe(data: seq<Byte>, bits: nat) returns (r: IntegerData)
    requires 8 * |data| >= bits
    ensures r == if FitsSigned(ValueLe(data), 257) then Value(ValueLe(data)) else Value(0)
    ensures BytesLe(r.v, |data|) == data <==> FitsSigned(ValueLe(data), 257)
    ensures |data| <= 32 ==> BytesLe(r.v, |data|) == data
  {
    hide Pow2, Bitsize, FromBits, BitsOf, ValueBe, BytesBe, Reversed;
    var value := ValueLe(data);
    LittleEndianOfRead(data);
    ValueIsBits(Reversed(data));
    LittleEndianRoundTrip(0, |data|);
    if |data| <= 32 {
      Pow2Monotonic(8 * |data|, 256);
    }
    BitsizeIff(value, 257);
    r := if Bitsize(value) < 258 then Value(value) else Value(0);
  }

  /** The least number too long for 257 bits, in 33 bytes: the signed decoder faults on it, the unsigned one reads 0. */
  lemma TooLongToRead()
    ensures
      var data := BytesLe(Pow2(256), 33);
      && |data| == 33
      && ValueLe(data) == SignedLe(data) == Pow2(256) && ValueLe(data) != 0
      && !FitsSigned(ValueLe(data), 257)
  {
    hide Pow2, BytesBe, SignedBe, ValueBe;
    Pow2Monotonic(0, 256);
    Pow2Monotonic(256, 263);
    Pow2Monotonic(256, 264);
    LittleEndianRoundTrip(Pow2(256), 33);
  }

  /** Byte strings of one length that read as the same number are the same. */
  lemma ReadingIsInjective(a: seq<Byte>, b: seq<Byte>)
    requires |a| == |b|
    ensures SignedBe(a) == SignedBe(b) <==> a == b
    ensures ValueBe(a) == ValueBe(b) <==> a == b
  {
    hide ToBits, FromBits, FromBitsSigned;
    ToBitsOfSigned(BitsOf(a));
    ToBitsOfSigned(BitsOf(b));
    ValueIsBits(a);
    ValueIsBits(b);
    ToFromBits(BitsOf(a));
    ToFromBits(BitsOf(b));
    if BitsOf(a) == BitsOf(b) {
      BitsOfInjective(a, b);
    }
  }

  /** A byte with its lowest k bits cleared. */
  function Cleared(b: Byte, k: nat): (c: Byte)
    ensures c <= b && (c == b <==> b % Pow2(k) == 0)
  {
    ModAtMost(b, Pow2(k));
    b - b % Pow2(k)
  }

  lemma ModAtMost(n: int, d: int)
    requires n >= 0 && d >= 1
    ensures 0 <= n % d <= n
  {}

  /** The low bits of a byte are lost when only its first bits are kept. */
  lemma KeptBits(b: Byte, c: Byte, keep: nat)
    requires keep <= 8 && ToBits(c, 8) == ToBits(b, 8)[..keep] + ToBits(0, 8 - keep)
    ensures c == Cleared(b, 8 - keep)
  {
    hide ToBits, FromBits;
    var k := 8 - keep;
    Pow2Of8();
    UnsignedFromToBits(c, 8);
    UnsignedFromToBits(b, 8);
    UnsignedFromToBits(0, k);
    UnsignedPrefix(ToBits(b, 8), keep);
    FromBitsConcat(ToBits(b, 8)[..keep], ToBits(0, k));
    DivModBack(b, Pow2(k));
  }

  /** `data` holds the first bits of a buffer, all but the last 8 - keep, filled up with zeros. */
  predicate CutShort(full: seq<Byte>, data: seq<Byte>, keep: nat) {
    && |full| == |data| >= 1
    && keep <= 8
    && BitsOf(data) == BitsOf(full)[..8 * (|full| - 1) + keep] + ToBits(0, 8 - keep)
  }

  lemma LastByteBits(data: seq<Byte>)
    requires |data| >= 1
    ensures BitsOf(data)[..8 * (|data| - 1)] == BitsOf(data[..|data| - 1])
    ensures BitsOf(data)[8 * (|data| - 1)..] == ToBits(data[|data| - 1], 8)
  {}

  lemma CutParts(x: seq<bool>, y: seq<bool>, m: nat, keep: nat, z: seq<bool>)
    requires |x| == m + 8 && keep <= 8 && y == x[..m + keep] + z
    ensures y[..m] == x[..m] && y[m..] == x[m..][..keep] + z
  {}

  /** Only the last byte suffers. */
  lemma CutLastByte(full: seq<Byte>, data: seq<Byte>, keep: nat)
    requires CutShort(full, data, keep)
    ensures data == full[..|full| - 1] + [Cleared(full[|full| - 1], 8 - keep)]
  {
    hide ToBits, BitsOf, Cleared;
    var n := |full| - 1;
    LastByteBits(full);
    LastByteBits(data);
    CutParts(BitsOf(full), BitsOf(data), 8 * n, keep, ToBits(0, 8 - keep));
    BitsOfInjective(data[..n], full[..n]);
    KeptBits(full[n], data[n], keep);
  }

  /** The most significant byte of v in n bytes. */
  function TopByte(v: int, n: nat): Byte
    requires n >= 1
  {
    BytesLe(v, n)[n - 1]
  }

  /**
   * Little-endian lengths that are not whole bytes: the value reads back if and only if the
   * bits of its most significant byte that do not fit happen to be zero.
   */
  lemma PartialLittleEndian(v: int, n: nat, keep: nat, data: seq<Byte>)
    requires n >= 1 && CutShort(BytesLe(v, n), data, keep)
    ensures FitsSigned(v, 8 * n) ==> (SignedLe(data) == v <==> TopByte(v, n) % Pow2(8 - keep) == 0)
    ensures 0 <= v < Pow2(8 * n) ==> (ValueLe(data) == v <==> TopByte(v, n) % Pow2(8 - keep) == 0)
  {
    hide Pow2, ToBits, BitsOf, BytesBe, SignedBe, ValueBe, FitsSigned, Reversed, CutShort;
    var full := BytesLe(v, n);
    CutSize(full, data, keep);
    CutLastByte(full, data, keep);
    assert full == full[..n - 1] + [full[n - 1]];
    assert data[n - 1] == Cleared(full[n - 1], 8 - keep);
    ReadingIsInjective(Reversed(data), Reversed(full));
    LittleEndianRoundTrip(v, n);
    ReversedTwice(data);
    ReversedTwice(full);
  }

  /** Four bits for 1: the store accepts the value, keeps the wrong end of its byte, and reads 0. */
  lemma FourBitsOfOne()
    ensures FitsSigned(1, 4) && BytesLe(1, 1) == [1] && CutShort(BytesLe(1, 1), [0], 4)
    ensures TopByte(1, 1) % Pow2(4) != 0 && SignedLe([0]) == 0 && ValueLe([0]) == 0
  {
    hide ToBits, BitsOf, BytesBe, Reversed, SignedBe, ValueBe, Pow2;
    Pow2OfFour();
    OneByte(1);
    OneByte(0);
    ToBitsSplit(1, 4, 4);
    ToBitsSplit(0, 4, 4);
    LittleEndianRoundTrip(0, 1);
    Pow2Of8();
  }

  lemma Pow2OfFour()
    ensures Pow2(3) == 8 && Pow2(4) == 16 && Pow2(7) == 128
  {}

  lemma OneByte(b: Byte)
    ensures BytesBe(b, 1) == [b] && BytesLe(b, 1) == [b] && BitsOf([b]) == ToBits(b, 8)
  {
    hide ToBits, Pow2;
    FirstByte(b);
    assert [b][..0] == [] && BitsOf([b][..0]) == [];
    assert Reversed([b]) == [b];
  }

  lemma FirstByte(b: Byte)
    ensures BytesBe(b, 1) == [b]
  {
    assert BytesBe(b / 256, 0) == [];
    assert BytesBe(b, 1) == BytesBe(b / 256, 0) + [b % 256];
  }

  lemma CutSize(full: seq<Byte>, data: seq<Byte>, keep: nat)
    requires CutShort(full, data, keep)
    ensures |full| == |data| >= 1 && keep <= 8
  {}
}
