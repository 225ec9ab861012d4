/** The 64-bit FNV-1a hash (section 2 of draft-eastlake-fnv) that fingerprints are written with, as 16 hex digits. */
module Fnv {
  const WRAP := 0x1_0000_0000_0000_0000
  type u64 = x: nat | x < 0x1_0000_0000_0000_0000
  type byte = x: nat | x < 256

  const OFFSET_BASIS: u64 := 0xcbf29ce484222325
  const PRIME: u64 := 0x100000001b3
  /** The multiplicative inverse of the prime modulo 2^64, which exists because the prime is odd. */
  const PRIME_INVERSE: u64 := 0xce965057aff6957b

  /** Exclusive or of two numbers, bit by bit from the lowest. */
  function XorBits(x: nat, y: nat): nat {
    if x == 0 && y == 0 then 0 else 2 * XorBits(x / 2, y / 2) + (x + y) % 2
  }

  function Xor(hash: u64, b: byte): u64 {
    XorFits(hash, b);
    XorBits(hash, b)
  }

  function WrappingMul(x: u64, y: u64): u64 {
    x * y % WRAP
  }

  function Mix(hash: u64, b: byte): u64 {
    WrappingMul(Xor(hash, b), PRIME)
  }

  /** The hash of s continued from a state. */
  function HashFrom(hash: u64, s: seq<byte>): u64 {
    if s == [] then hash else Mix(HashFrom(hash, s[..|s| - 1]), s[|s| - 1])
  }

  const DIGITS := "0123456789abcdef"

  function Hex(value: nat, width: nat): string {
    if width == 0 then "" else Hex(value / 16, width - 1) + [DIGITS[value % 16]]
  }

  function HashText(s: seq<byte>): string {
    Hex(HashFrom(OFFSET_BASIS, s), 16)
  }

  /** The hash as the program computes it; all text is 16 characters long. */
  method StableHexHash(value: seq<byte>) returns (text: string)
    ensures text == HashText(value)
  {
    var hash := OFFSET_BASIS;
    for i := 0 to |value|
      invariant hash == HashFrom(OFFSET_BASIS, value[..i])
    {
      assert value[..i + 1][..i] == value[..i];
      hash := Xor(hash, value[i]);
      hash := WrappingMul(hash, PRIME);
    }
    assert value[..|value|] == value;
    text := Hex(hash, 16);
  }

  // ----- The step is injective -----

  /** The state before a step, from the state after it. */
  function Unmix(hash: u64, b: byte): u64 {
    Xor(WrappingMul(hash, PRIME_INVERSE), b)
  }

  lemma MultipleOfWrap(x: u64, m: int)
    ensures (x + m * WRAP) % WRAP == x
  {}

  /** Multiplying by p and then by q comes back to x if p * q is 1 modulo 2^64. */
  lemma InverseUndoes(x: u64, p: u64, q: u64, t: nat)
    requires p * q == 1 + t * WRAP
    ensures WrappingMul(WrappingMul(x, p), q) == x
  {
    var k, r := x * p / WRAP, x * p % WRAP;
    calc {
      r * q;
      (x * p - k * WRAP) * q;
      x * p * q - k * WRAP * q;
      { assert x * p * q == x * (p * q) && k * WRAP * q == k * q * WRAP; }
      x * (1 + t * WRAP) - k * q * WRAP;
      { assert x * (t * WRAP) == x * t * WRAP; }
      x + (x * t - k * q) * WRAP;
    }
    MultipleOfWrap(x, x * t - k * q);
  }

  lemma InverseUndoesPrime(x: u64)
    ensures WrappingMul(WrappingMul(x, PRIME), PRIME_INVERSE) == x
    ensures WrappingMul(WrappingMul(x, PRIME_INVERSE), PRIME) == x
  {
    hide WrappingMul;
    assert PRIME * PRIME_INVERSE == 1 + 0xce9650590f * WRAP;
    InverseUndoes(x, PRIME, PRIME_INVERSE, 0xce9650590f);
    InverseUndoes(x, PRIME_INVERSE, PRIME, 0xce9650590f);
  }

  function Power2(n: nat): nat {
    if n == 0 then 1 else 2 * Power2(n - 1)
  }

  lemma {:induction false} Power2Adds(m: nat, n: nat)
    ensures Power2(m + n) == Power2(m) * Power2(n)
  {
    if m > 0 {
      Power2Adds(m - 1, n);
    }
  }

  lemma {:induction false} XorBounded(x: nat, y: nat, n: nat)
    requires x < Power2(n) && y < Power2(n)
    ensures XorBits(x, y) < Power2(n)
  {
    if n > 0 {
      XorBounded(x / 2, y / 2, n - 1);
    }
  }

  lemma Power2Of8()
    ensures Power2(8) == 256
  {}

  lemma Power2Of64()
    ensures Power2(64) == WRAP
  {
    hide Power2;
    Power2Of8();
    Power2Adds(8, 8);
    Power2Adds(16, 16);
    Power2Adds(32, 32);
  }

  lemma XorFits(hash: u64, b: byte)
    ensures XorBits(hash, b) < WRAP
  {
    hide Power2, XorBits;
    Power2Of64();
    XorBounded(hash, b, 64);
  }

  lemma XorStep(x: nat, y: nat)
    ensures XorBits(x, y) == 2 * XorBits(x / 2, y / 2) + (x + y) % 2
  {}

  lemma Halves(half: nat, low: nat, b: nat)
    ensures (2 * half + low) / 2 == half + low / 2
    ensures (2 * half + low + b) % 2 == (low + b) % 2
  {}

  lemma ParityTwice(x: nat, y: nat)
    ensures ((x + y) % 2 + y) % 2 == x % 2
  {}

  lemma XorTwiceStep(x: nat, y: nat)
    requires XorBits(XorBits(x / 2, y / 2), y / 2) == x / 2
    ensures XorBits(XorBits(x, y), y) == x
  {
    hide XorBits;
    var half, bit := XorBits(x / 2, y / 2), (x + y) % 2;
    XorStep(x, y);
    XorStep(2 * half + bit, y);
    Halves(half, bit, y);
    ParityTwice(x, y);
  }

  lemma {:induction false} XorTwice(x: nat, y: nat)
    ensures XorBits(XorBits(x, y), y) == x
  {
    hide XorBits;
    if x > 0 || y > 0 {
      XorTwice(x / 2, y / 2);
      XorTwiceStep(x, y);
    } else {
      XorZero(0);
    }
  }

  lemma {:induction false} XorCommutes(x: nat, y: nat)
    ensures XorBits(x, y) == XorBits(y, x)
  {
    if x > 0 || y > 0 {
      XorCommutes(x / 2, y / 2);
    }
  }

  lemma XorUndoesXor(hash: u64, b: byte)
    ensures Xor(Xor(hash, b), b) == hash
  {
    XorTwice(hash, b);
  }

  lemma UnmixUndoesMix(hash: u64, b: byte)
    ensures Unmix(Mix(hash, b), b) == hash
    ensures Mix(Unmix(hash, b), b) == hash
  {
    hide Xor, WrappingMul;
    InverseUndoesPrime(Xor(hash, b));
    XorUndoesXor(hash, b);
    XorUndoesXor(WrappingMul(hash, PRIME_INVERSE), b);
    InverseUndoesPrime(hash);
  }

  /** The state before hashing s, from the state after it. */
  function Rewind(hash: u64, s: seq<byte>): u64
    decreases |s|
  {
    if s == [] then hash else Rewind(Unmix(hash, s[|s| - 1]), s[..|s| - 1])
  }

  /** For a fixed text the hash is a bijection of states. */
  lemma {:induction false} RewindUndoesHash(hash: u64, s: seq<byte>)
    ensures Rewind(HashFrom(hash, s), s) == hash
    ensures HashFrom(Rewind(hash, s), s) == hash
    decreases |s|
  {
    hide Mix, Unmix;
    if s != [] {
      var front, last := s[..|s| - 1], s[|s| - 1];
      UnmixUndoesMix(HashFrom(hash, front), last);
      UnmixUndoesMix(hash, last);
      RewindUndoesHash(hash, front);
      RewindUndoesHash(Unmix(hash, last), front);
    }
  }

  lemma DifferentBytesMixApart(hash: u64, b: byte, c: byte)
    requires b != c
    ensures Mix(hash, b) != Mix(hash, c)
  {
    InverseUndoesPrime(Xor(hash, b));
    InverseUndoesPrime(Xor(hash, c));
    assert Xor(hash, b) != Xor(hash, c) by { DifferentBytesXorApart(hash, b, c); }
  }

  lemma DifferentBytesXorApart(hash: u64, b: byte, c: byte)
    requires b != c
    ensures Xor(hash, b) != Xor(hash, c)
  {
    hide XorBits;
    XorCommutes(hash, b);
    XorCommutes(hash, c);
    XorTwice(b, hash);
    XorTwice(c, hash);
  }

  lemma {:induction false} HashJoins(hash: u64, a: seq<byte>, b: seq<byte>)
    ensures HashFrom(hash, a + b) == HashFrom(HashFrom(hash, a), b)
  {
    hide Mix;
    if b == [] {
      assert a + b == a;
    } else {
      assert (a + b)[..|a + b| - 1] == a + b[..|b| - 1];
      HashJoins(hash, a, b[..|b| - 1]);
    }
  }

  // ----- The text is injective -----

  function DigitValue(c: char): nat {
    if '0' <= c <= '9' then c as nat - '0' as nat
    else if 'a' <= c <= 'f' then c as nat - 'a' as nat + 10
    else 16
  }

  lemma DigitReadsBack(d: nat)
    requires d < 16
    ensures DigitValue(DIGITS[d]) == d
  {}

  function HexValue(text: string): nat {
    if text == "" then 0 else 16 * HexValue(text[..|text| - 1]) + DigitValue(text[|text| - 1])
  }

  function Sixteens(width: nat): nat {
    if width == 0 then 1 else 16 * Sixteens(width - 1)
  }

  /** Reading the digits gives the number back, and there are exactly as many digits as asked for. */
  lemma {:induction false} HexReadsBack(value: nat, width: nat)
    requires value < Sixteens(width)
    ensures |Hex(value, width)| == width
    ensures HexValue(Hex(value, width)) == value
    ensures forall i :: 0 <= i < width ==> Hex(value, width)[i] in DIGITS
  {
    if width > 0 {
      HexReadsBack(value / 16, width - 1);
      var text := Hex(value, width);
      assert text[..|text| - 1] == Hex(value / 16, width - 1);
      DigitReadsBack(value % 16);
    }
  }

  lemma SixteensOfSixteen()
    ensures Sixteens(16) == 0x1_0000_0000_0000_0000
  {
    assert Sixteens(8) == 0x1_0000_0000;
    assert Sixteens(12) == 0x1_0000_0000_0000;
  }

  lemma HashTextShape(s: seq<byte>)
    ensures |HashText(s)| == 16
    ensures HexValue(HashText(s)) == HashFrom(OFFSET_BASIS, s)
    ensures forall i :: 0 <= i < 16 ==> HashText(s)[i] in DIGITS
  {
    hide HashFrom, Sixteens;
    SixteensOfSixteen();
    HexReadsBack(HashFrom(OFFSET_BASIS, s), 16);
  }

  // ----- The main result -----

  /** Texts of equal length that differ in exactly one byte never have the same hash text. */
  lemma OneByteChangesHash(a: seq<byte>, b: seq<byte>, i: nat)
    requires |a| == |b| && i < |a| && a[i] != b[i]
    requires forall k :: 0 <= k < |a| && k != i ==> a[k] == b[k]
    ensures HashText(a) != HashText(b)
  {
    hide Mix, Hex, HexValue, HashText, Rewind;
    var front, back := a[..i], a[i + 1..];
    assert a == front + [a[i]] + back && b == front + [b[i]] + back;
    var before := HashFrom(OFFSET_BASIS, front);
    HashJoins(OFFSET_BASIS, front + [a[i]], back);
    HashJoins(OFFSET_BASIS, front + [b[i]], back);
    OneMoreByte(front, a[i]);
    OneMoreByte(front, b[i]);
    DifferentBytesMixApart(before, a[i], b[i]);
    RewindUndoesHash(Mix(before, a[i]), back);
    RewindUndoesHash(Mix(before, b[i]), back);
    assert HashFrom(OFFSET_BASIS, a) != HashFrom(OFFSET_BASIS, b);
    HashTextShape(a);
    HashTextShape(b);
  }

  lemma OneMoreByte(front: seq<byte>, last: byte)
    ensures HashFrom(OFFSET_BASIS, front + [last]) == Mix(HashFrom(OFFSET_BASIS, front), last)
  {
    assert (front + [last])[..|front|] == front;
  }

  /** The published hash of the one-letter text "a". */
  lemma PublishedHash()
    ensures HashFrom(OFFSET_BASIS, [0x61]) == 0xaf63dc4c8601ec8c
  {
    hide Xor;
    OneMoreByte([], 0x61);
    assert [] + [0x61 as byte] == [0x61];
    LetterXor();
  }

  lemma LetterXor()
    ensures Xor(OFFSET_BASIS, 0x61) == 0xcbf29ce484222344
  {
    XorHigh(0xcbf29ce4842223, 0x25, 0x61);
    SmallXor();
  }

  lemma SmallXor()
    ensures XorBits(0x25, 0x61) == 0x44
  {
    assert XorBits(0x2, 0x6) == 0x4;
  }

  /** A byte meets the eight low bits only. */
  lemma XorHigh(high: nat, low: byte, b: byte)
    ensures XorBits(256 * high + low, b) == 256 * high + XorBits(low, b)
  {
    XorAbove(high, low, b, 8);
  }

  lemma {:induction false} XorAbove(high: nat, low: nat, b: nat, n: nat)
    requires low < Power2(n) && b < Power2(n)
    ensures XorBits(Power2(n) * high + low, b) == Power2(n) * high + XorBits(low, b)
  {
    hide XorBits;
    if n == 0 {
      XorZero(high);
      XorZero(0);
    } else {
      var half := Power2(n - 1) * high;
      Halves(half, low, b);
      assert Power2(n) * high == 2 * half;
      XorAbove(high, low / 2, b / 2, n - 1);
      XorStep(2 * half + low, b);
      XorStep(low, b);
    }
  }

  lemma {:induction false} XorZero(x: nat)
    ensures XorBits(x, 0) == x
  {
    if x > 0 {
      XorZero(x / 2);
    }
  }
}
