/** The integer literal of PUSHINT: two's complement on 32-bit digits and the octet-stream decoder. */
module PushInt {
  import opened Outcomes
  import opened Bits
  import opened Octets

  const BASE: int := 0x1_0000_0000

  type Digit = x: int | 0 <= x < BASE

  /** The number 32-bit digits stand for, least significant first. */
  function LeValue(digits: seq<Digit>): nat {
    if digits == [] then 0 else digits[0] + BASE * LeValue(digits[1..])
  }

  lemma Pow2Of32()
    ensures Pow2(32) == BASE
  {
    Pow2Of8();
    Pow2Add(8, 8);
    Pow2Add(16, 16);
  }

  lemma NextBase(n: nat)
    ensures Pow2(32 * (n + 1)) == Pow2(32 * n) * BASE
  {
    hide Pow2;
    Pow2Of32();
    Pow2Add(32 * n, 32);
  }

  lemma {:induction false} LeValueAppend(s: seq<Digit>, d: Digit)
    ensures LeValue(s + [d]) == LeValue(s) + Pow2(32 * |s|) * d
  {
    hide Pow2;
    if s == [] {
      assert Pow2(0) == 1 by { PowZero(); }
      assert s + [d] == [d];
      assert [d][1..] == [];
    } else {
      assert (s + [d])[1..] == s[1..] + [d];
      LeValueAppend(s[1..], d);
      var m := |s| - 1;
      NextBase(m);
      Distribute(BASE, LeValue(s[1..]), Pow2(32 * m), d);
    }
  }

  lemma PowZero()
    ensures Pow2(0) == 1
  {}

  lemma Distribute(b: int, x: int, p: int, d: int)
    ensures b * (x + p * d) == b * x + (p * b) * d
  {}

  lemma {:induction false} LeValueBound(s: seq<Digit>)
    ensures LeValue(s) < Pow2(32 * |s|)
  {
    hide Pow2;
    PowZero();
    if s != [] {
      LeValueBound(s[1..]);
      NextBase(|s| - 1);
      MulMonotonic(BASE, LeValue(s[1..]) + 1, Pow2(32 * (|s| - 1)));
    }
  }

  // ----- two's complement -----

  /** The complement of n modulo p, without dividing. */
  function Complement(n: nat, p: nat): nat
    requires n < p
  {
    if n == 0 then 0 else p - n
  }

  lemma ComplementIsNegation(n: nat, p: nat)
    requires n < p
    ensures Complement(n, p) == (p - n) % p
  {}

  /** One digit of the loop: invert, and add the carry while it lasts. */
  lemma ComplementDigit(low: nat, p: nat, d: Digit)
    requires low < p
    ensures 0 <= low + p * d < p * BASE
    ensures
      var flipped := BASE - 1 - d;
      var next := if low == 0 then (flipped + 1) % BASE else flipped;
      && Complement(low, p) + p * next == Complement(low + p * d, p * BASE)
      && (low + p * d == 0 <==> low == 0 && next == 0)
  {
    MulMonotonic(p, d + 1, BASE);
    MulMonotonic(p, 0, d);
    MulDistributes(p, d, 1);
    MulDistributes(p, BASE - d, d);
    MulDistributes(p, BASE - 1 - d, d + 1);
    if d > 0 {
      MulMonotonic(p, 1, d);
    }
  }

  /** `twos_complement`: replaces the digits of n by those of -n modulo 2^(32 k), in place. */
  method TwosComplement(digits: array<Digit>)
    modifies digits
    ensures LeValue(digits[..]) == (Pow2(32 * digits.Length) - LeValue(old(digits[..]))) % Pow2(32 * digits.Length)
  {
    hide Pow2, LeValue;
    var carry := true;
    var i := 0;
    ghost var was := digits[..];
    ghost var p := 1;
    LeValueEmpty();
    while i < digits.Length
      invariant 0 <= i <= digits.Length
      invariant p == Pow2(32 * i) >= 1
      invariant digits[i..] == was[i..]
      invariant LeValue(was[..i]) < p
      invariant LeValue(digits[..i]) == Complement(LeValue(was[..i]), p)
      invariant carry <==> LeValue(was[..i]) == 0
    {
      ghost var done, low, d := digits[..i], LeValue(was[..i]), digits[i];
      digits[i] := BASE - 1 - digits[i];
      if carry {
        digits[i] := (digits[i] + 1) % BASE;
        carry := digits[i] == 0;
      }
      ComplementDigit(low, p, d);
      assert was[i] == d;
      assert was[..i + 1] == was[..i] + [d] && digits[..i + 1] == done + [digits[i]];
      LeValueAppend(was[..i], d);
      LeValueAppend(done, digits[i]);
      NextBase(i);
      p := p * BASE;
      i := i + 1;
    }
    assert was[..i] == was && digits[..i] == digits[..];
    ComplementIsNegation(LeValue(was), p);
  }

  lemma LeValueEmpty()
    ensures LeValue([]) == 0 && Pow2(0) == 1 && Pow2(32 * 0) == 1
  {}

  // ----- the octet stream -----

  /** The three lowest bits of a byte, signed. */
  function Head(first: Byte): int {
    if first % 8 >= 4 then first % 8 - 8 else first % 8
  }

  /** The signed number in the last three bits of the first byte and the next p - 1 bytes. */
  function Signed(stream: seq<Byte>, p: nat): int
    requires 1 <= p <= |stream|
  {
    if p == 1 then Head(stream[0]) else 256 * Signed(stream, p - 1) + stream[p - 1]
  }

  lemma SignedConcat(a: seq<bool>, b: seq<bool>)
    requires a != []
    ensures FromBitsSigned(a + b) == FromBitsSigned(a) * Pow2(|b|) + FromBits(b)
  {
    hide Pow2, FromBits;
    FromBitsConcat(a, b);
    if a[0] {
      Pow2Add(|a|, |b|);
      SubtractScaled(FromBits(a), Pow2(|a|), Pow2(|b|));
    }
  }

  lemma SubtractScaled(x: int, y: int, p: int)
    ensures (x - y) * p == x * p - y * p
  {}

  lemma HeadBits(first: Byte)
    ensures FromBitsSigned(ToBits(first, 8)[5..]) == Head(first)
  {
    hide ToBits, FromBitsSigned;
    ToBitsSplit(first, 5, 3);
    assert ToBits(first, 8)[5..] == ToBits(first, 3);
    assert Pow2(3) == 8 && Pow2(2) == 4;
    var h := Head(first);
    var m := (first - h) / 8;
    assert h + m * Pow2(3) == first;
    ToBitsPeriodic(h, 3, m);
    SignedFromToBits(h, 3);
  }

  /** Its bits are the bits of the stream from the sixth on. */
  lemma {:induction false} SignedIsBits(stream: seq<Byte>, p: nat)
    requires 1 <= p <= |stream|
    ensures Signed(stream, p) == FromBitsSigned(BitsOf(stream[..p])[5..])
  {
    hide ToBits, FromBitsSigned, FromBits, Pow2;
    var data := stream[..p];
    var last := data[p - 1];
    assert BitsOf(data) == BitsOf(data[..p - 1]) + ToBits(last, 8);
    if p == 1 {
      assert data[..0] == [];
      assert BitsOf(data) == ToBits(last, 8);
      HeadBits(stream[0]);
    } else {
      var init := stream[..p - 1];
      assert data[..p - 1] == init;
      SignedIsBits(stream, p - 1);
      var a := BitsOf(init)[5..];
      assert BitsOf(data)[5..] == a + ToBits(last, 8);
      SignedConcat(a, ToBits(last, 8));
      Pow2Of8();
      UnsignedFromToBits(last, 8);
    }
  }

  /** The number of 32-bit digits that p bytes take. */
  function DigitsFor(p: nat): nat {
    (p + 3) / 4
  }

  lemma {:induction false} SignedBound(stream: seq<Byte>, p: nat)
    requires 1 <= p <= |stream|
    ensures Head(stream[0]) >= 0 ==> 0 <= Signed(stream, p) < Pow2(8 * p)
    ensures Head(stream[0]) < 0 ==> -Pow2(8 * p) < Signed(stream, p) < 0
  {
    hide Pow2;
    Pow2Of8();
    if p > 1 {
      SignedBound(stream, p - 1);
      Pow2Add(8 * (p - 1), 8);
    }
  }

  lemma ShiftIn(n: int, p: int, w: int, b: int)
    requires p >= 1 && b >= 1 && 0 <= w < b
    ensures (b * n + w) % (b * p) == b * (n % p) + w
  {
    assert n == p * (n / p) + n % p;
    MixedRadix(b, p, n / p, n % p, w);
    DivModUnique(b * n + w, b * p, n / p, b * (n % p) + w);
  }

  /** A byte shifted into a 32-bit digit keeps the low 32 bits of the whole. */
  lemma ByteShiftedIn(n: int, b: Byte)
    ensures (n % BASE) * 256 % BASE + b == (256 * n + b) % BASE
  {
    assert BASE == 256 * 0x100_0000;
    ShiftIn(n, 0x100_0000, b, 256);
    ModMod(n);
  }

  lemma ModMod(n: int)
    ensures (n % BASE) * 256 % BASE == 256 * (n % 0x100_0000)
  {}

  function Word(stream: seq<Byte>, pos: nat): Digit
    requires pos + 4 <= |stream|
  {
    var a: int, b: int, c: int, d: int := stream[pos], stream[pos + 1], stream[pos + 2], stream[pos + 3];
    ((a * 256 + b) * 256 + c) * 256 + d
  }

  lemma FourBytes(stream: seq<Byte>, pos: nat)
    requires 1 <= pos && pos + 4 <= |stream|
    ensures Signed(stream, pos + 4) == BASE * Signed(stream, pos) + Word(stream, pos)
  {
    assert Signed(stream, pos + 1) == 256 * Signed(stream, pos) + stream[pos];
    assert Signed(stream, pos + 2) == 256 * Signed(stream, pos + 1) + stream[pos + 1];
    assert Signed(stream, pos + 3) == 256 * Signed(stream, pos + 2) + stream[pos + 2];
    assert Signed(stream, pos + 4) == 256 * Signed(stream, pos + 3) + stream[pos + 3];
  }

  /** The first, possibly incomplete digit. */
  method ReadTopDigit(stream: seq<Byte>, upper: nat) returns (value: Digit)
    requires 1 <= upper <= 4 && upper <= |stream|
    ensures value == Signed(stream, upper) % BASE
  {
    var greatest3bits: int := stream[0] % 8;
    if greatest3bits < 4 {
      value := greatest3bits;
    } else {
      value := 0xFFFF_FFF8 + greatest3bits;
      DivModUnique(Head(stream[0]), BASE, -1, value);
    }
    for i := 1 to upper
      invariant value == Signed(stream, i) % BASE
    {
      ByteShiftedIn(Signed(stream, i), stream[i]);
      value := value * 256 % BASE + stream[i];
    }
  }

  /** The remaining digits, four bytes each, most significant first. */
  method ReadDigits(stream: seq<Byte>, upper: nat, top: Digit, digits: array<Digit>) returns (pos: nat)
    requires digits.Length >= 1 && 1 <= upper && upper + 4 * (digits.Length - 1) <= |stream|
    requires top == Signed(stream, upper) % BASE
    modifies digits
    ensures pos == upper + 4 * (digits.Length - 1)
    ensures LeValue(digits[..]) == Signed(stream, pos) % Pow2(32 * digits.Length)
  {
    hide Pow2, LeValue, Signed, Word;
    var last := digits.Length - 1;
    digits[last] := top;
    pos := upper;
    var i := last;
    LeValueOne(top);
    assert digits[last..] == [top];
    while i > 0
      invariant 0 <= i <= last && pos == upper + 4 * (last - i)
      invariant LeValue(digits[i..]) == Signed(stream, pos) % Pow2(32 * (digits.Length - i))
    {
      ghost var rest := digits[i..];
      var value := Word(stream, pos);
      DigitAdded(stream, pos, value, rest);
      i := i - 1;
      digits[i] := value;
      assert digits[i..] == [value] + rest;
      pos := pos + 4;
    }
    assert digits[0..] == digits[..];
  }

  lemma DigitAdded(stream: seq<Byte>, pos: nat, value: Digit, rest: seq<Digit>)
    requires 1 <= pos && pos + 4 <= |stream| && value == Word(stream, pos)
    requires LeValue(rest) == Signed(stream, pos) % Pow2(32 * |rest|)
    ensures LeValue([value] + rest) == Signed(stream, pos + 4) % Pow2(32 * (|rest| + 1))
  {
    hide Pow2, LeValue, Signed, Word;
    LeValueCons(value, rest);
    FourBytes(stream, pos);
    ShiftIn(Signed(stream, pos), Pow2(32 * |rest|), value, BASE);
    NextBase(|rest|);
  }

  lemma LeValueOne(d: Digit)
    ensures LeValue([d]) == d && Pow2(32 * 1) == BASE
  {
    hide Pow2;
    assert [d][1..] == [];
    Pow2Of32();
  }

  lemma LeValueCons(d: Digit, rest: seq<Digit>)
    ensures LeValue([d] + rest) == d + BASE * LeValue(rest)
  {}

  /** Sign and magnitude of a two's complement number. */
  lemma SignedFromDigits(v: int, p: int, n: int)
    requires p >= 1 && n == v % p
    ensures 0 <= v < p ==> n == v
    ensures -p < v < 0 ==> -((p - n) % p) == v
  {}

  /**
   * `from_big_endian_octet_stream`: reads l + 3 bytes, l being the first five bits, and returns
   * the signed value of the 8 l + 19 bits that follow them.
   */
  method FromBigEndianOctetStream(stream: seq<Byte>) returns (r: Result<(int, nat)>)
    ensures r.Err? <==> stream == [] || |stream| < stream[0] / 8 + 3
    ensures r.Err? ==> r.code == InvalidOpcode
    ensures r.Ok? ==>
      var length := stream[0] / 8 + 3;
      r.value == (FromBitsSigned(BitsOf(stream[..length])[5..]), length)
  {
    hide Pow2, LeValue, BitsOf, FromBitsSigned, Signed, DigitsFor;
    if stream == [] {
      return Err(InvalidOpcode);
    }
    var byteLen := stream[0] / 8 + 3;
    if |stream| < byteLen {
      return Err(InvalidOpcode);
    }
    var digitCount := DigitsFor(byteLen);
    var digits := new Digit[digitCount](_ => 0);
    var upper := if byteLen % 4 == 0 then 4 else byteLen % 4;
    Layout(byteLen);
    var top := ReadTopDigit(stream, upper);
    var pos := ReadDigits(stream, upper, top, digits);
    DecodedValue(stream, byteLen, digitCount, LeValue(digits[..]));
    if stream[0] % 8 >= 4 {
      TwosComplement(digits);
      return Ok((-Magnitude(digits), pos));
    } else {
      return Ok((Magnitude(digits), pos));
    }
  }

  /** The first digit takes the bytes that do not fill a digit of their own. */
  lemma Layout(length: nat)
    requires length >= 1
    ensures
      var upper, count := if length % 4 == 0 then 4 else length % 4, DigitsFor(length);
      1 <= upper <= 4 && count >= 1 && upper <= length && upper + 4 * (count - 1) == length && length <= 4 * count
  {}

  lemma DecodedValue(stream: seq<Byte>, length: nat, count: nat, n: nat)
    requires 1 <= length <= |stream| && length <= 4 * count
    requires n == Signed(stream, length) % Pow2(32 * count)
    ensures
      var v := FromBitsSigned(BitsOf(stream[..length])[5..]);
      var p := Pow2(32 * count);
      if stream[0] % 8 >= 4 then -((p - n) % p) == v else n == v
  {
    hide Pow2, BitsOf, FromBitsSigned, Signed;
    SignedIsBits(stream, length);
    SignedBound(stream, length);
    Pow2Monotonic(8 * length, 32 * count);
    SignedFromDigits(Signed(stream, length), Pow2(32 * count), n);
  }

  function Magnitude(digits: array<Digit>): int
    reads digits
  {
    LeValue(digits[..])
  }

  /** The signed number is what its first p bytes say, shifted, plus what the next k bytes say. */
  lemma {:induction false} SignedSplit(stream: seq<Byte>, p: nat, k: nat)
    requires 1 <= p && p + k <= |stream|
    ensures
      var low := Signed(stream, p + k) - Signed(stream, p) * Pow2(8 * k);
      0 <= low < Pow2(8 * k)
    decreases k
  {
    hide Pow2;
    PowZero();
    if k > 0 {
      var s, q := Signed(stream, p), Pow2(8 * (k - 1));
      SignedSplit(stream, p, k - 1);
      Pow2Of8();
      Pow2Add(8 * (k - 1), 8);
      MulAssociates(s, q, 256);
      assert Signed(stream, p + k) == 256 * Signed(stream, p + k - 1) + stream[p + k - 1];
    }
  }

  lemma TopDecides(s: int, q: int, low: int)
    requires 0 <= low < q
    ensures -q <= s * q + low < q <==> s == 0 || s == -1
  {
    if s >= 1 {
      MulMonotonic(q, 1, s);
    } else if s <= -2 {
      MulMonotonic(q, s, -2);
    }
  }

  /**
   * A literal fits 257 bits if and only if l is at most 29, or its bytes before the last 32 are
   * nothing but sign: 0 for a nonnegative literal and -1 for a negative one.
   */
  lemma LiteralFitsIff(stream: seq<Byte>, l: nat)
    requires stream != [] && l == stream[0] / 8 && |stream| >= l + 3
    ensures
      var v := FromBitsSigned(BitsOf(stream[..l + 3])[5..]);
      -Pow2(256) <= v < Pow2(256) <==> l <= 29 || Signed(stream, l - 29) == 0 || Signed(stream, l - 29) == -1
  {
    hide Pow2, FromBitsSigned, Signed, BitsOf;
    if l <= 29 {
      ShortLiteral(stream, l);
    } else {
      SignedIsBits(stream, l + 3);
      TopBytesDecide(stream, l - 29);
    }
  }

  lemma TopBytesDecide(stream: seq<Byte>, p: nat)
    requires 1 <= p && p + 32 <= |stream|
    ensures -Pow2(256) <= Signed(stream, p + 32) < Pow2(256) <==> Signed(stream, p) == 0 || Signed(stream, p) == -1
  {
    hide Pow2, Signed;
    SignedSplit(stream, p, 32);
    TopDecides(Signed(stream, p), Pow2(256), Signed(stream, p + 32) - Signed(stream, p) * Pow2(256));
  }

  lemma ShortLiteral(stream: seq<Byte>, l: nat)
    requires |stream| >= l + 3 && l <= 29
    ensures -Pow2(256) <= FromBitsSigned(BitsOf(stream[..l + 3])[5..]) < Pow2(256)
  {
    hide Pow2, FromBitsSigned, BitsOf;
    var bits := BitsOf(stream[..l + 3])[5..];
    SignedRange(bits);
    Pow2Monotonic(|bits| - 1, 256);
  }

  /** A literal of 30 whose first value bits are 011 is out of range, whatever follows. */
  lemma LongLiteral(stream: seq<Byte>)
    requires |stream| == 33 && stream[0] == 30 * 8 + 3
    ensures FromBitsSigned(BitsOf(stream)[5..]) >= Pow2(256)
  {
    hide Pow2, FromBitsSigned, BitsOf;
    assert stream[..33] == stream;
    SignedIsBits(stream, 33);
    SignedSplit(stream, 1, 32);
    MulMonotonic(Pow2(256), 1, Signed(stream, 1));
  }
}
