/** The base64 encoder of the node, against section 4 of RFC 4648. */
module Base64 {
  import opened Wrappers

  type Byte = bv8

  const TABLE := "ABCDEFGHIJKLMNOPQRSTUVWXYZ" + "abcdefghijklmnopqrstuvwxyz" + "0123456789" + "+/"

  function Symbol(value: bv8): char
    requires value < 64
  {
    BelowSixtyFour(value);
    TABLE[value as int]
  }

  lemma BelowSixtyFour(value: bv8)
    ensures value < 64 ==> value as int < 64
  {}

  // ----- The standard: six bits of the zero-extended bit string per symbol -----

  /** Bit j of a byte, counted from the most significant one. */
  function ByteBit(x: Byte, j: nat): (bit: bv8)
    ensures bit <= 1
  {
    if j == 0 then (x >> 7) & 1
    else if j == 1 then (x >> 6) & 1
    else if j == 2 then (x >> 5) & 1
    else if j == 3 then (x >> 4) & 1
    else if j == 4 then (x >> 3) & 1
    else if j == 5 then (x >> 2) & 1
    else if j == 6 then (x >> 1) & 1
    else x & 1
  }

  /** Byte q of the message, and zero past its end. */
  function ByteAt(bytes: seq<Byte>, q: nat): Byte {
    if q < |bytes| then bytes[q] else 0
  }

  /** Bit i of the message, counted from the most significant bit of the first byte; zero past the end. */
  function Bit(bytes: seq<Byte>, i: nat): (bit: bv8)
    ensures bit <= 1
  {
    ByteBit(ByteAt(bytes, i / 8), i % 8)
  }

  function Pack(b0: bv8, b1: bv8, b2: bv8, b3: bv8, b4: bv8, b5: bv8): (value: bv8)
    requires b0 <= 1 && b1 <= 1 && b2 <= 1 && b3 <= 1 && b4 <= 1 && b5 <= 1
    ensures value < 64
  {
    (b0 << 5) | (b1 << 4) | (b2 << 3) | (b3 << 2) | (b4 << 1) | b5
  }

  /** The six bits from 6 * k on, as a number. */
  function Sextet(bytes: seq<Byte>, k: nat): (value: bv8)
    ensures value < 64
  {
    Pack(Bit(bytes, 6 * k), Bit(bytes, 6 * k + 1), Bit(bytes, 6 * k + 2),
         Bit(bytes, 6 * k + 3), Bit(bytes, 6 * k + 4), Bit(bytes, 6 * k + 5))
  }

  function EncodedLength(n: nat): nat {
    (n + 2) / 3 * 4
  }

  /** Symbol k: the next six bits while the message lasts, then padding up to a whole group of four. */
  function SymbolAt(bytes: seq<Byte>, k: nat): char {
    if 6 * k < 8 * |bytes| then Symbol(Sextet(bytes, k)) else '='
  }

  function Encode(bytes: seq<Byte>): string {
    seq(EncodedLength(|bytes|), k requires 0 <= k => SymbolAt(bytes, k))
  }

  /** The alphabet of RFC 4648, section 4: upper case, lower case, digits, plus and slash. */
  lemma AlphabetOrder(value: bv8)
    requires value < 64
    ensures var v, c := value as int, Symbol(value) as int;
            if v < 26 then c == 'A' as int + v
            else if v < 52 then c == 'a' as int + (v - 26)
            else if v < 62 then c == '0' as int + (v - 52)
            else if v == 62 then c == '+' as int
            else c == '/' as int
  {
    var v := value as int;
    assert 0 <= v < 64;
  }

  /** Whether place k of an encoding of n bytes, m symbols long, must be padding. */
  predicate MustPad(n: nat, m: nat, k: nat) {
    || (n % 3 == 1 && k + 2 >= m)
    || (n % 3 == 2 && k + 1 == m)
  }

  /**
   * Four symbols for every three bytes or part of three. Padding fills only the last two places, and exactly as many
   * as the length modulo three asks for.
   */
  lemma PaddingPlaces(bytes: seq<Byte>)
    ensures |Encode(bytes)| == (|bytes| + 2) / 3 * 4
    ensures forall k :: 0 <= k < |Encode(bytes)| ==> (Encode(bytes)[k] == '=' <==> MustPad(|bytes|, |Encode(bytes)|, k))
  {
    hide Sextet, Symbol, Value;
    forall k | 0 <= k < |Encode(bytes)| ensures Encode(bytes)[k] == '=' <==> MustPad(|bytes|, |Encode(bytes)|, k) {
      SymbolValue(Sextet(bytes, k));
    }
  }

  // ----- Sextets of whole groups: the masks and shifts of the encoder -----

  lemma BitOfGroup(bytes: seq<Byte>, q: nat, m: nat, j: nat)
    requires j < 8
    ensures Bit(bytes, 24 * q + 8 * m + j) == ByteBit(ByteAt(bytes, 3 * q + m), j)
  {
    assert (24 * q + 8 * m + j) / 8 == 3 * q + m && (24 * q + 8 * m + j) % 8 == j;
  }

  lemma FirstSextet(bytes: seq<Byte>, q: nat)
    ensures Sextet(bytes, 4 * q) == ByteAt(bytes, 3 * q) >> 2
  {
    hide Bit, ByteBit, ByteAt, Pack;
    assert 6 * (4 * q) == 24 * q;
    BitOfGroup(bytes, q, 0, 0);
    BitOfGroup(bytes, q, 0, 1);
    BitOfGroup(bytes, q, 0, 2);
    BitOfGroup(bytes, q, 0, 3);
    BitOfGroup(bytes, q, 0, 4);
    BitOfGroup(bytes, q, 0, 5);
    PackBits(ByteAt(bytes, 3 * q), 0);
  }

  lemma SecondSextet(bytes: seq<Byte>, q: nat)
    ensures Sextet(bytes, 4 * q + 1) == ((ByteAt(bytes, 3 * q) & 3) << 4) | (ByteAt(bytes, 3 * q + 1) >> 4)
  {
    hide Bit, ByteBit, ByteAt, Pack;
    assert 6 * (4 * q + 1) == 24 * q + 6;
    BitOfGroup(bytes, q, 0, 6);
    BitOfGroup(bytes, q, 0, 7);
    BitOfGroup(bytes, q, 1, 0);
    BitOfGroup(bytes, q, 1, 1);
    BitOfGroup(bytes, q, 1, 2);
    BitOfGroup(bytes, q, 1, 3);
    PackBits(ByteAt(bytes, 3 * q), ByteAt(bytes, 3 * q + 1));
  }

  lemma ThirdSextet(bytes: seq<Byte>, q: nat)
    ensures Sextet(bytes, 4 * q + 2) == ((ByteAt(bytes, 3 * q + 1) & 15) << 2) | (ByteAt(bytes, 3 * q + 2) >> 6)
  {
    hide Bit, ByteBit, ByteAt, Pack;
    assert 6 * (4 * q + 2) == 24 * q + 12;
    BitOfGroup(bytes, q, 1, 4);
    BitOfGroup(bytes, q, 1, 5);
    BitOfGroup(bytes, q, 1, 6);
    BitOfGroup(bytes, q, 1, 7);
    BitOfGroup(bytes, q, 2, 0);
    BitOfGroup(bytes, q, 2, 1);
    PackBits(ByteAt(bytes, 3 * q + 1), ByteAt(bytes, 3 * q + 2));
  }

  lemma FourthSextet(bytes: seq<Byte>, q: nat)
    ensures Sextet(bytes, 4 * q + 3) == ByteAt(bytes, 3 * q + 2) & 63
  {
    hide Bit, ByteBit, ByteAt, Pack;
    assert 6 * (4 * q + 3) == 24 * q + 18;
    BitOfGroup(bytes, q, 2, 2);
    BitOfGroup(bytes, q, 2, 3);
    BitOfGroup(bytes, q, 2, 4);
    BitOfGroup(bytes, q, 2, 5);
    BitOfGroup(bytes, q, 2, 6);
    BitOfGroup(bytes, q, 2, 7);
    PackBits(ByteAt(bytes, 3 * q + 2), 0);
  }

  lemma PackBits(x: Byte, y: Byte)
    ensures Pack(ByteBit(x, 0), ByteBit(x, 1), ByteBit(x, 2), ByteBit(x, 3), ByteBit(x, 4), ByteBit(x, 5)) == x >> 2
    ensures Pack(ByteBit(x, 6), ByteBit(x, 7), ByteBit(y, 0), ByteBit(y, 1), ByteBit(y, 2), ByteBit(y, 3)) == ((x & 3) << 4) | (y >> 4)
    ensures Pack(ByteBit(x, 4), ByteBit(x, 5), ByteBit(x, 6), ByteBit(x, 7), ByteBit(y, 0), ByteBit(y, 1)) == ((x & 15) << 2) | (y >> 6)
    ensures Pack(ByteBit(x, 2), ByteBit(x, 3), ByteBit(x, 4), ByteBit(x, 5), ByteBit(x, 6), ByteBit(x, 7)) == x & 63
  {}

  // ----- Groups are independent of each other -----

  /** A prefix of whole groups is encoded independently of what follows. */
  lemma EncodeConcat(a: seq<Byte>, b: seq<Byte>)
    requires |a| % 3 == 0
    ensures Encode(a + b) == Encode(a) + Encode(b)
  {
    hide SymbolAt;
    var whole := Encode(a + b);
    assert |Encode(a)| == |a| / 3 * 4;
    assert |whole| == |Encode(a)| + |Encode(b)|;
    forall k: nat | k < |whole| ensures whole[k] == (Encode(a) + Encode(b))[k] {
      if k < |Encode(a)| {
        PrefixSymbol(a, b, k);
      } else {
        SuffixSymbol(a, b, k - |Encode(a)|);
        assert |a| / 3 * 4 + (k - |Encode(a)|) == k;
      }
    }
  }

  lemma PrefixBit(a: seq<Byte>, b: seq<Byte>, i: nat)
    requires i < 8 * |a|
    ensures Bit(a + b, i) == Bit(a, i)
  {
    assert ByteAt(a + b, i / 8) == ByteAt(a, i / 8);
  }

  lemma PrefixSymbol(a: seq<Byte>, b: seq<Byte>, k: nat)
    requires |a| % 3 == 0 && k < |a| / 3 * 4
    ensures SymbolAt(a + b, k) == SymbolAt(a, k)
  {
    hide Bit, Symbol, Pack;
    assert 6 * k + 5 < 8 * |a|;
    PrefixBit(a, b, 6 * k);
    PrefixBit(a, b, 6 * k + 1);
    PrefixBit(a, b, 6 * k + 2);
    PrefixBit(a, b, 6 * k + 3);
    PrefixBit(a, b, 6 * k + 4);
    PrefixBit(a, b, 6 * k + 5);
  }

  lemma SuffixBit(a: seq<Byte>, b: seq<Byte>, i: nat)
    ensures Bit(a + b, 8 * |a| + i) == Bit(b, i)
  {
    hide ByteBit;
    assert (8 * |a| + i) / 8 == |a| + i / 8;
    assert (8 * |a| + i) % 8 == i % 8;
    assert ByteAt(a + b, |a| + i / 8) == ByteAt(b, i / 8);
  }

  lemma SuffixSymbol(a: seq<Byte>, b: seq<Byte>, k: nat)
    requires |a| % 3 == 0
    ensures SymbolAt(a + b, |a| / 3 * 4 + k) == SymbolAt(b, k)
  {
    hide Bit, Symbol, Pack;
    assert 6 * (|a| / 3 * 4 + k) == 8 * |a| + 6 * k;
    SuffixBit(a, b, 6 * k);
    SuffixBit(a, b, 6 * k + 1);
    SuffixBit(a, b, 6 * k + 2);
    SuffixBit(a, b, 6 * k + 3);
    SuffixBit(a, b, 6 * k + 4);
    SuffixBit(a, b, 6 * k + 5);
  }

  // ----- One group -----

  function SymbolOrPad(present: bool, value: bv8): char
    requires value < 64
  {
    if present then Symbol(value) else '='
  }

  lemma SextetsFit(x: Byte, y: Byte)
    ensures x >> 2 < 64 && ((x & 3) << 4) | (y >> 4) < 64 && ((x & 15) << 2) | (y >> 6) < 64 && x & 63 < 64
  {}

  /** The four symbols of a group of up to three bytes, missing bytes read as zero. */
  function GroupSymbols(n: nat, x: Byte, y: Byte, z: Byte): string {
    SextetsFit(x, y);
    SextetsFit(y, z);
    SextetsFit(z, 0);
    [Symbol(x >> 2), Symbol(((x & 3) << 4) | (y >> 4)),
     SymbolOrPad(n > 1, ((y & 15) << 2) | (z >> 6)), SymbolOrPad(n > 2, z & 63)]
  }

  lemma GroupSymbolsAt(group: seq<Byte>, k: nat)
    requires 1 <= |group| <= 3 && k < 4
    ensures SymbolAt(group, k) == GroupSymbols(|group|, ByteAt(group, 0), ByteAt(group, 1), ByteAt(group, 2))[k]
  {
    hide Sextet, Symbol, ByteAt;
    FirstSextet(group, 0);
    SecondSextet(group, 0);
    ThirdSextet(group, 0);
    FourthSextet(group, 0);
  }

  lemma EncodeGroup(group: seq<Byte>)
    requires 1 <= |group| <= 3
    ensures Encode(group) == GroupSymbols(|group|, ByteAt(group, 0), ByteAt(group, 1), ByteAt(group, 2))
  {
    hide SymbolAt, Symbol, SymbolOrPad, ByteAt;
    GroupSymbolsAt(group, 0);
    GroupSymbolsAt(group, 1);
    GroupSymbolsAt(group, 2);
    GroupSymbolsAt(group, 3);
    assert |Encode(group)| == 4;
  }

  lemma EncodeEmpty()
    ensures Encode([]) == ""
  {}

  lemma ExtendEncoding(bytes: seq<Byte>, index: nat, next: nat)
    requires index <= next <= |bytes| && index % 3 == 0
    ensures Encode(bytes[..index]) + Encode(bytes[index..next]) == Encode(bytes[..next])
  {
    hide Encode;
    EncodeConcat(bytes[..index], bytes[index..next]);
    assert bytes[..index] + bytes[index..next] == bytes[..next];
  }

  /** The encoder as the node runs it. */
  method Base64Encode(bytes: seq<Byte>) returns (output: string)
    ensures output == Encode(bytes)
  {
    hide Encode, GroupSymbols;
    output := "";
    var index := 0;
    EncodeEmpty();
    while index < |bytes|
      invariant 0 <= index
      invariant index < |bytes| ==> index % 3 == 0
      invariant output == Encode(bytes[..if index < |bytes| then index else |bytes|])
    {
      ghost var next := if index + 3 < |bytes| then index + 3 else |bytes|;
      var first := bytes[index];
      var second := if index + 1 < |bytes| then Some(bytes[index + 1]) else None;
      var third := if index + 2 < |bytes| then Some(bytes[index + 2]) else None;
      var symbols := PushGroup(first, second, third);
      output := output + symbols;
      GroupIs(bytes[index..next], symbols, first, OrZero(second), OrZero(third));
      ExtendEncoding(bytes, index, next);
      index := index + 3;
    }
    assert bytes[..|bytes|] == bytes;
  }

  lemma GroupIs(group: seq<Byte>, symbols: string, x: Byte, y: Byte, z: Byte)
    requires 1 <= |group| <= 3
    requires x == group[0] && y == (if |group| > 1 then group[1] else 0) && z == (if |group| > 2 then group[2] else 0)
    requires symbols == GroupSymbols(|group|, x, y, z)
    ensures symbols == Encode(group)
  {
    hide Encode, GroupSymbols, ByteAt;
    EncodeGroup(group);
    GroupBytes(group);
  }

  /** The four symbols that one round of the loop pushes. */
  method PushGroup(first: Byte, second: Option<Byte>, third: Option<Byte>) returns (pushed: string)
    requires third.Some? ==> second.Some?
    ensures pushed == GroupSymbols(if second.None? then 1 else if third.None? then 2 else 3, first, OrZero(second), OrZero(third))
  {
    hide Symbol;
    SextetsFit(first, OrZero(second));
    SextetsFit(OrZero(second), OrZero(third));
    SextetsFit(OrZero(third), 0);
    pushed := [Symbol(first >> 2)];
    pushed := pushed + [Symbol(((first & 3) << 4) | (OrZero(second) >> 4))];
    match second {
      case Some(byte) => pushed := pushed + [Symbol(((byte & 15) << 2) | (OrZero(third) >> 6))];
      case None => pushed := pushed + ['='];
    }
    match third {
      case Some(byte) => pushed := pushed + [Symbol(byte & 63)];
      case None => pushed := pushed + ['='];
    }
  }

  function OrZero(byte: Option<Byte>): Byte {
    if byte.Some? then byte.value else 0
  }

  // ----- Decoding -----

  /** The place of a symbol in the alphabet. */
  function Place(c: char): (place: Option<int>)
    ensures place.Some? ==> 0 <= place.value < 64
  {
    if 'A' <= c <= 'Z' then Some(c as int - 65)
    else if 'a' <= c <= 'z' then Some(c as int - 71)
    else if '0' <= c <= '9' then Some(c as int + 4)
    else if c == '+' then Some(62)
    else if c == '/' then Some(63)
    else None
  }

  lemma TableAt(i: int)
    requires 0 <= i < 64
    ensures TABLE[i] as int == if i < 26 then i + 65 else if i < 52 then i + 71 else if i < 62 then i - 4 else if i == 62 then 43 else 47
  {}

  lemma PlaceOfTable(i: int)
    requires 0 <= i < 64
    ensures Place(TABLE[i]) == Some(i) && TABLE[i] != '='
  {
    TableAt(i);
  }

  lemma TableOfPlace(c: char)
    requires Place(c).Some?
    ensures TABLE[Place(c).value] == c
  {
    TableAt(Place(c).value);
  }

  function SmallByte(i: int): (v: bv8)
    requires 0 <= i < 64
    ensures v < 64 && v as int == i
  {
    i as bv8
  }

  lemma SmallByteOf(v: bv8)
    requires 0 <= v as int < 64
    ensures SmallByte(v as int) == v
  {}

  /** The inverse of `Symbol`. */
  function Value(c: char): (v: Option<bv8>)
    ensures v.Some? ==> v.value < 64
  {
    match Place(c)
    case None => None
    case Some(i) => Some(SmallByte(i))
  }

  lemma SymbolValue(v: bv8)
    requires v < 64
    ensures Value(Symbol(v)) == Some(v) && Symbol(v) != '='
  {
    hide Place, SmallByte;
    BelowSixtyFour(v);
    PlaceOfTable(v as int);
    SmallByteOf(v);
  }

  lemma ValueSymbol(c: char)
    requires Value(c).Some?
    ensures Symbol(Value(c).value) == c
  {
    hide Place, SmallByte;
    TableOfPlace(c);
  }

  lemma PadHasNoValue()
    ensures Value('=') == None
  {}

  /** Four symbols to the bytes they stand for; unused bits must be zero. */
  function DecodeGroup(g: string): (r: Option<seq<Byte>>)
    requires |g| == 4
    ensures r.Some? ==> 1 <= |r.value| <= 3
  {
    var a, b, c, d := Value(g[0]), Value(g[1]), Value(g[2]), Value(g[3]);
    if a.None? || b.None? then None
    else if c.Some? && d.Some? then
      Some([(a.value << 2) | (b.value >> 4), (b.value << 4) | (c.value >> 2), (c.value << 6) | d.value])
    else if c.Some? && g[3] == '=' && c.value & 3 == 0 then
      Some([(a.value << 2) | (b.value >> 4), (b.value << 4) | (c.value >> 2)])
    else if g[2] == '=' && g[3] == '=' && b.value & 15 == 0 then
      Some([(a.value << 2) | (b.value >> 4)])
    else None
  }

  /** A decoder: groups of four symbols, of which only the last may be padded. */
  function Decode(s: string): Option<seq<Byte>> {
    if s == [] then Some([])
    else if |s| < 4 || DecodeGroup(s[..4]).None? then None
    else
      var front := DecodeGroup(s[..4]).value;
      if |front| < 3 then
        if |s| == 4 then Some(front) else None
      else
        match Decode(s[4..])
        case None => None
        case Some(rest) => Some(front + rest)
  }

  lemma SplitAndJoin(x: Byte, y: Byte, z: Byte)
    ensures var a, b, c, d := x >> 2, ((x & 3) << 4) | (y >> 4), ((y & 15) << 2) | (z >> 6), z & 63;
            && (a << 2) | (b >> 4) == x && (b << 4) | (c >> 2) == y && (c << 6) | d == z
            && (z == 0 ==> c & 3 == 0) && (y == 0 ==> b & 15 == 0)
  {}

  lemma JoinAndSplit(a: bv8, b: bv8, c: bv8, d: bv8)
    requires a < 64 && b < 64 && c < 64 && d < 64
    ensures var x, y, z := (a << 2) | (b >> 4), (b << 4) | (c >> 2), (c << 6) | d;
            x >> 2 == a && ((x & 3) << 4) | (y >> 4) == b && ((y & 15) << 2) | (z >> 6) == c && z & 63 == d
  {}

  lemma JoinAndSplitTwo(a: bv8, b: bv8, c: bv8)
    requires a < 64 && b < 64 && c < 64 && c & 3 == 0
    ensures var x, y: bv8, z: bv8 := (a << 2) | (b >> 4), (b << 4) | (c >> 2), 0;
            x >> 2 == a && ((x & 3) << 4) | (y >> 4) == b && ((y & 15) << 2) | (z >> 6) == c
  {}

  lemma JoinAndSplitOne(a: bv8, b: bv8)
    requires a < 64 && b < 64 && b & 15 == 0
    ensures var x, y: bv8 := (a << 2) | (b >> 4), 0;
            x >> 2 == a && ((x & 3) << 4) | (y >> 4) == b
  {}

  lemma DecodeEncodedGroup(group: seq<Byte>)
    requires 1 <= |group| <= 3
    ensures |Encode(group)| == 4 && DecodeGroup(Encode(group)) == Some(group)
  {
    hide Encode, ByteAt, DecodeGroup;
    var x, y, z := ByteAt(group, 0), ByteAt(group, 1), ByteAt(group, 2);
    EncodeGroup(group);
    GroupBytes(group);
    DecodeGroupSymbols(|group|, x, y, z);
    assert group == [x, y, z][..|group|];
  }

  lemma DecodeGroupSymbols(n: nat, x: Byte, y: Byte, z: Byte)
    requires 1 <= n <= 3 && (n <= 2 ==> z == 0) && (n <= 1 ==> y == 0)
    ensures DecodeGroup(GroupSymbols(n, x, y, z)) == Some([x, y, z][..n])
  {
    hide Symbol, Value;
    SextetsFit(x, y);
    SextetsFit(y, z);
    SextetsFit(z, 0);
    var a, b, c, d := x >> 2, ((x & 3) << 4) | (y >> 4), ((y & 15) << 2) | (z >> 6), z & 63;
    SymbolValue(a);
    SymbolValue(b);
    SymbolValue(c);
    SymbolValue(d);
    PadHasNoValue();
    SplitAndJoin(x, y, z);
    if n == 1 {
      assert [x, y, z][..n] == [x];
    } else if n == 2 {
      assert [x, y, z][..n] == [x, y];
    } else {
      assert [x, y, z][..n] == [x, y, z];
    }
  }

  /** Decoding inverts encoding for every byte string. */
  lemma {:induction false} DecodeEncode(bytes: seq<Byte>)
    ensures Decode(Encode(bytes)) == Some(bytes)
  {
    hide DecodeGroup, SymbolAt;
    if bytes != [] {
      var next := if |bytes| > 3 then 3 else |bytes|;
      var group, rest := bytes[..next], bytes[next..];
      assert bytes == group + rest;
      DecodeEncodedGroup(group);
      if |bytes| > 3 {
        EncodeConcat(group, rest);
        DecodeEncode(rest);
        assert Encode(bytes)[..4] == Encode(group) && Encode(bytes)[4..] == Encode(rest);
      } else {
        assert bytes == group;
        assert Encode(bytes)[..4] == Encode(bytes);
        if |bytes| == 3 {
          assert Encode(bytes)[4..] == [];
        }
      }
    }
  }

  lemma EncodeDecodedGroup(g: string)
    requires |g| == 4 && DecodeGroup(g).Some?
    ensures Encode(DecodeGroup(g).value) == g
  {
    hide Encode, Symbol, Value, ByteAt;
    var group := DecodeGroup(g).value;
    EncodeGroup(group);
    GroupBytes(group);
    var a, b := Value(g[0]).value, Value(g[1]).value;
    var c := if Value(g[2]).Some? then Value(g[2]).value else 0;
    var d := if Value(g[3]).Some? then Value(g[3]).value else 0;
    JoinAndSplit(a, b, c, d);
    ValueSymbol(g[0]);
    ValueSymbol(g[1]);
    if |group| == 1 {
      JoinAndSplitOne(a, b);
    } else if |group| == 2 {
      JoinAndSplitTwo(a, b, c);
      ValueSymbol(g[2]);
    } else {
      ValueSymbol(g[2]);
      ValueSymbol(g[3]);
    }
  }

  lemma GroupBytes(group: seq<Byte>)
    requires 1 <= |group| <= 3
    ensures ByteAt(group, 0) == group[0]
    ensures ByteAt(group, 1) == if |group| > 1 then group[1] else 0
    ensures ByteAt(group, 2) == if |group| > 2 then group[2] else 0
  {}

  /** The decoder accepts nothing but encodings: each accepted text is the encoding of what it decodes to. */
  lemma {:induction false} EncodeDecode(s: string)
    requires Decode(s).Some?
    ensures Encode(Decode(s).value) == s
  {
    hide DecodeGroup, Encode;
    if s == [] {
      EncodeEmpty();
    } else {
      var front := DecodeGroup(s[..4]).value;
      EncodeDecodedGroup(s[..4]);
      if |front| == 3 {
        EncodeDecode(s[4..]);
        EncodeConcat(front, Decode(s[4..]).value);
        assert s == s[..4] + s[4..];
      } else {
        assert s == s[..4];
      }
    }
  }

  /** The test vectors "f", "fo" and "foo" of RFC 4648, section 10. */
  lemma PublishedVectors()
    ensures Encode([0x66]) == "Zg==" && Encode([0x66, 0x6f]) == "Zm8=" && Encode([0x66, 0x6f, 0x6f]) == "Zm9v"
  {
    hide Symbol;
    EncodeGroup([0x66]);
    EncodeGroup([0x66, 0x6f]);
    EncodeGroup([0x66, 0x6f, 0x6f]);
    PublishedSymbols();
  }

  lemma PublishedSymbols()
    ensures Symbol(25) == 'Z' && Symbol(32) == 'g' && Symbol(38) == 'm' && Symbol(60) == '8' && Symbol(61) == '9' && Symbol(47) == 'v'
  {
    AlphabetOrder(25);
    AlphabetOrder(32);
    AlphabetOrder(38);
    AlphabetOrder(60);
    AlphabetOrder(61);
    AlphabetOrder(47);
  }
}
