/**
 Binary header values: the base64 and Huffman coder of src/core/transport/chttp2/bin_encoder.c, and the
 base64 reader of hpack_parser.c.

 A left shift is a multiplication by a power of two, and an `|` of values without common bits is a sum.
 */
module HpackBinary {
  import opened Common

  // ---------- Base64 ----------

  type Symbol = s: int | 0 <= s < 64

  const ILLEGAL := 255
  const PADDING := 64

  // The four six-bit groups of three bytes.
  function Group1(a: Byte): Symbol { a / 4 }
  function Group2(a: Byte, b: Byte): Symbol { a % 4 * 16 + b / 16 }
  function Group3(b: Byte, c: Byte): Symbol { b % 16 * 4 + c / 64 }
  function Group4(c: Byte): Symbol { c % 64 }

  // The three bytes of four six-bit groups.
  function Byte1(s: Symbol, t: Symbol): Byte { s * 4 + t / 16 }
  function Byte2(t: Symbol, u: Symbol): Byte { t % 16 * 16 + u / 4 }
  function Byte3(u: Symbol, w: Symbol): Byte { u % 4 * 64 + w }

  lemma BytesOfGroups(a: Byte, b: Byte, c: Byte)
    ensures Byte1(Group1(a), Group2(a, b)) == a
    ensures Byte2(Group2(a, b), Group3(b, c)) == b
    ensures Byte3(Group3(b, c), Group4(c)) == c
  {
  }

  lemma GroupsOfBytes(s: Symbol, t: Symbol, u: Symbol, w: Symbol)
    ensures Group1(Byte1(s, t)) == s
    ensures Group2(Byte1(s, t), Byte2(t, u)) == t
    ensures Group3(Byte2(t, u), Byte3(u, w)) == u
    ensures Group4(Byte3(u, w)) == w
  {
  }

  lemma GroupsIff(s: Symbol, t: Symbol, u: Symbol, w: Symbol, a: Byte, b: Byte, c: Byte)
    ensures a == Byte1(s, t) && b == Byte2(t, u) && c == Byte3(u, w) <==>
            s == Group1(a) && t == Group2(a, b) && u == Group3(b, c) && w == Group4(c)
  {
    hide Byte1, Byte2, Byte3, Group1, Group2, Group3, Group4;
    BytesOfGroups(a, b, c);
    GroupsOfBytes(s, t, u, w);
  }

  /** The six-bit groups of a value; the last one is filled up with zeros. */
  function Symbols(v: seq<Byte>): seq<Symbol> {
    if |v| == 0 then []
    else if |v| == 1 then [Group1(v[0]), Group2(v[0], 0)]
    else if |v| == 2 then [Group1(v[0]), Group2(v[0], v[1]), Group3(v[1], 0)]
    else [Group1(v[0]), Group2(v[0], v[1]), Group3(v[1], v[2]), Group4(v[2])] + Symbols(v[3..])
  }

  /** The bytes of six-bit groups; None if a group stands alone or the last one has bits to spare. */
  function Joined(s: seq<Symbol>): Option<seq<Byte>> {
    if |s| == 0 then Some([])
    else if |s| == 1 then None
    else if |s| == 2 then if s[1] % 16 != 0 then None else Some([Byte1(s[0], s[1])])
    else if |s| == 3 then if s[2] % 4 != 0 then None else Some([Byte1(s[0], s[1]), Byte2(s[1], s[2])])
    else
      var rest := Joined(s[4..]);
      if rest.None? then None else Some([Byte1(s[0], s[1]), Byte2(s[1], s[2]), Byte3(s[2], s[3])] + rest.value)
  }

  /** The alphabet, in ASCII. */
  function Letter(s: Symbol): Byte {
    if s < 26 then 'A' as int + s
    else if s < 52 then 'a' as int + s - 26
    else if s < 62 then '0' as int + s - 52
    else if s == 62 then '+' as int else '/' as int
  }

  /** inverse_base64. */
  function Inverse(b: Byte): nat {
    if 'A' as int <= b <= 'Z' as int then b - 'A' as int
    else if 'a' as int <= b <= 'z' as int then b - 'a' as int + 26
    else if '0' as int <= b <= '9' as int then b - '0' as int + 52
    else if b == '+' as int then 62
    else if b == '/' as int then 63
    else if b == '=' as int then PADDING
    else ILLEGAL
  }

  function Letters(s: seq<Symbol>): (r: seq<Byte>)
    ensures |r| == |s|
  {
    seq(|s|, i requires 0 <= i < |s| => Letter(s[i]))
  }

  predicate Legal(text: seq<Byte>) {
    forall i :: 0 <= i < |text| ==> Inverse(text[i]) != ILLEGAL
  }

  /** What the letters of a text stand for; padding is skipped wherever it is. */
  function Meant(text: seq<Byte>): seq<Symbol> {
    if text == [] then [] else
      var n := |text| - 1;
      var bits := Inverse(text[n]);
      if bits < 64 then Meant(text[..n]) + [bits] else Meant(text[..n])
  }

  /** What the parser makes of the characters of a binary value. */
  function ReadBase64(text: seq<Byte>): Option<seq<Byte>> {
    if Legal(text) then Joined(Meant(text)) else None
  }

  /** Base64 has one spelling for each value: reading accepts no other. */
  lemma {:induction false} JoinedIff(s: seq<Symbol>, v: seq<Byte>)
    ensures Joined(s) == Some(v) <==> s == Symbols(v)
    decreases |s| + |v|
  {
    if |s| >= 4 && |v| >= 3 {
      JoinedIff(s[4..], v[3..]);
      QuartetIff(s, v);
    } else if |s| >= 4 {
      if Joined(s[4..]).Some? {
        assert |Joined(s).value| >= 3;
      }
    } else if |v| >= 3 {
      assert |Symbols(v)| >= 4;
    } else {
      TailIff(s, v);
    }
  }

  lemma PairIff(s: Symbol, t: Symbol, a: Byte)
    ensures t % 16 == 0 && a == Byte1(s, t) <==> s == Group1(a) && t == Group2(a, 0)
  {
    GroupsIff(s, t, 0, 0, a, 0, 0);
  }

  lemma TripleIff(s: Symbol, t: Symbol, u: Symbol, a: Byte, b: Byte)
    ensures u % 4 == 0 && a == Byte1(s, t) && b == Byte2(t, u) <==>
            s == Group1(a) && t == Group2(a, b) && u == Group3(b, 0)
  {
    GroupsIff(s, t, u, 0, a, b, 0);
  }

  lemma {:induction false} TailIff(s: seq<Symbol>, v: seq<Byte>)
    requires |s| < 4 && |v| < 3
    ensures Joined(s) == Some(v) <==> s == Symbols(v)
  {
    hide Byte1, Byte2, Group1, Group2, Group3;
    if |s| == 2 && |v| == 1 {
      PairIff(s[0], s[1], v[0]);
      assert s == [s[0], s[1]] && v == [v[0]];
    } else if |s| == 3 && |v| == 2 {
      TripleIff(s[0], s[1], s[2], v[0], v[1]);
      assert s == [s[0], s[1], s[2]] && v == [v[0], v[1]];
    }
  }

  lemma {:induction false} QuartetIff(s: seq<Symbol>, v: seq<Byte>)
    requires |s| >= 4 && |v| >= 3 && (Joined(s[4..]) == Some(v[3..]) <==> s[4..] == Symbols(v[3..]))
    ensures Joined(s) == Some(v) <==> s == Symbols(v)
  {
    hide Byte1, Byte2, Byte3, Group1, Group2, Group3, Group4;
    GroupsIff(s[0], s[1], s[2], s[3], v[0], v[1], v[2]);
    assert v == [v[0], v[1], v[2]] + v[3..] && s == [s[0], s[1], s[2], s[3]] + s[4..];
    if Joined(s) == Some(v) {
      assert v[3..] == Joined(s[4..]).value;
    }
    if s == Symbols(v) {
      assert s[4..] == Symbols(v[3..]);
    }
  }

  lemma {:induction false} MeantLetters(s: seq<Symbol>)
    ensures Legal(Letters(s)) && Meant(Letters(s)) == s
  {
    if s != [] {
      var n := |s| - 1;
      MeantLetters(s[..n]);
      assert Letters(s)[..n] == Letters(s[..n]);
    }
  }

  /** A value that is spelled in base64 is read as it was. */
  lemma {:induction false} Base64RoundTrip(v: seq<Byte>)
    ensures ReadBase64(Letters(Symbols(v))) == Some(v)
  {
    MeantLetters(Symbols(v));
    JoinedIff(Symbols(v), v);
  }

  // ---------- Bits ----------

  type Bit = b: int | 0 <= b < 2

  function Pow2(n: nat): (p: nat)
    ensures p > 0
  {
    if n == 0 then 1 else 2 * Pow2(n - 1)
  }

  function Number(bits: seq<Bit>): (v: nat)
    ensures v < Pow2(|bits|)
  {
    if bits == [] then 0 else 2 * Number(bits[..|bits| - 1]) + bits[|bits| - 1]
  }

  /** The low n bits of a number. */
  function Digits(v: nat, n: nat): (bits: seq<Bit>)
    ensures |bits| == n
  {
    if n == 0 then [] else Digits(v / 2, n - 1) + [v % 2]
  }

  lemma {:induction false} NumberDigits(v: nat, n: nat)
    requires v < Pow2(n)
    ensures Number(Digits(v, n)) == v
  {
    if n > 0 {
      NumberDigits(v / 2, n - 1);
      assert Digits(v, n)[..n - 1] == Digits(v / 2, n - 1);
    }
  }

  lemma {:induction false} PowSum(m: nat, n: nat)
    ensures Pow2(m + n) == Pow2(m) * Pow2(n)
  {
    if n > 0 {
      PowSum(m, n - 1);
    }
  }

  lemma Doubled(x: nat, p: nat, y: nat, z: nat)
    ensures 2 * (x * p + y) + z == x * (2 * p) + (2 * y + z)
  {
  }

  lemma {:induction false} NumberSum(a: seq<Bit>, b: seq<Bit>)
    ensures Number(a + b) == Number(a) * Pow2(|b|) + Number(b)
  {
    if b == [] {
      assert a + b == a;
    } else {
      var n := |b| - 1;
      NumberSum(a, b[..n]);
      assert (a + b)[..|a| + n] == a + b[..n];
      Doubled(Number(a), Pow2(n), Number(b[..n]), b[n]);
    }
  }

  function Ones(n: nat): (bits: seq<Bit>)
    ensures |bits| == n
  {
    seq(n, _ => 1)
  }

  lemma {:induction false} NumberOnes(n: nat)
    ensures Number(Ones(n)) == Pow2(n) - 1
  {
    if n > 0 {
      NumberOnes(n - 1);
      assert Ones(n)[..n - 1] == Ones(n - 1);
    }
  }

  // ---------- Huffman ----------

  datatype Code = Code(bits: nat, length: nat)

  /** huff_alphabet: the Huffman codes of the base64 letters. */
  function CodeOf(s: Symbol): Code {
    match s
    case 0 => Code(0x21, 6) case 1 => Code(0x5d, 7) case 2 => Code(0x5e, 7) case 3 => Code(0x5f, 7)
    case 4 => Code(0x60, 7) case 5 => Code(0x61, 7) case 6 => Code(0x62, 7) case 7 => Code(0x63, 7)
    case 8 => Code(0x64, 7) case 9 => Code(0x65, 7) case 10 => Code(0x66, 7) case 11 => Code(0x67, 7)
    case 12 => Code(0x68, 7) case 13 => Code(0x69, 7) case 14 => Code(0x6a, 7) case 15 => Code(0x6b, 7)
    case 16 => Code(0x6c, 7) case 17 => Code(0x6d, 7) case 18 => Code(0x6e, 7) case 19 => Code(0x6f, 7)
    case 20 => Code(0x70, 7) case 21 => Code(0x71, 7) case 22 => Code(0x72, 7) case 23 => Code(0xfc, 8)
    case 24 => Code(0x73, 7) case 25 => Code(0xfd, 8) case 26 => Code(0x3, 5) case 27 => Code(0x23, 6)
    case 28 => Code(0x4, 5) case 29 => Code(0x24, 6) case 30 => Code(0x5, 5) case 31 => Code(0x25, 6)
    case 32 => Code(0x26, 6) case 33 => Code(0x27, 6) case 34 => Code(0x6, 5) case 35 => Code(0x74, 7)
    case 36 => Code(0x75, 7) case 37 => Code(0x28, 6) case 38 => Code(0x29, 6) case 39 => Code(0x2a, 6)
    case 40 => Code(0x7, 5) case 41 => Code(0x2b, 6) case 42 => Code(0x76, 7) case 43 => Code(0x2c, 6)
    case 44 => Code(0x8, 5) case 45 => Code(0x9, 5) case 46 => Code(0x2d, 6) case 47 => Code(0x77, 7)
    case 48 => Code(0x78, 7) case 49 => Code(0x79, 7) case 50 => Code(0x7a, 7) case 51 => Code(0x7b, 7)
    case 52 => Code(0x0, 5) case 53 => Code(0x1, 5) case 54 => Code(0x2, 5) case 55 => Code(0x19, 6)
    case 56 => Code(0x1a, 6) case 57 => Code(0x1b, 6) case 58 => Code(0x1c, 6) case 59 => Code(0x1d, 6)
    case 60 => Code(0x1e, 6) case 61 => Code(0x1f, 6) case 62 => Code(0x7fb, 11) case _ => Code(0x18, 6)
  }

  function CodeBits(s: Symbol): (bits: seq<Bit>)
    ensures |bits| == CodeOf(s).length
  {
    Digits(CodeOf(s).bits, CodeOf(s).length)
  }

  function Stream(s: seq<Symbol>): seq<Bit> {
    if s == [] then [] else Stream(s[..|s| - 1]) + CodeBits(s[|s| - 1])
  }

  /** Bits filled up with ones to whole bytes. */
  function Filled(bits: seq<Bit>): (r: seq<Bit>)
    ensures |bits| <= |r| < |bits| + 8 && |r| % 8 == 0
  {
    bits + Ones((8 - |bits| % 8) % 8)
  }

  function ByteAt(bits: seq<Bit>, k: nat): Byte
    requires 8 * k + 8 <= |bits|
  {
    assert Pow2(8) == 256;
    Number(bits[8 * k..8 * k + 8])
  }

  function Packed(bits: seq<Bit>): seq<Byte> {
    var filled := Filled(bits);
    seq(|filled| / 8, k requires 0 <= k < |filled| / 8 => ByteAt(filled, k))
  }

  /** What goes on the wire for a binary value. */
  function Compressed(v: seq<Byte>): seq<Byte> {
    Packed(Stream(Symbols(v)))
  }

  lemma {:induction false} CodesFit(s: Symbol)
    ensures 5 <= CodeOf(s).length <= 11 && CodeOf(s).bits < Pow2(CodeOf(s).length)
    ensures if s == 62 then CodeOf(s).length == 11 else CodeOf(s).length <= 8
  {
    assert Pow2(5) == 32 && Pow2(6) == 64 && Pow2(7) == 128 && Pow2(8) == 256 && Pow2(11) == 2048;
  }

  // ---------- Compressed values that are not flagged as such ----------

  predicate StartsWith(b: Byte, c: Code) {
    match c.length
    case 5 => b / 8 == c.bits
    case 6 => b / 4 == c.bits
    case 7 => b / 2 == c.bits
    case _ => b == c.bits
  }

  lemma CodeFirst(c: Code, b: Byte, rest: nat)
    requires 5 <= c.length <= 8 && rest < Pow2(8 - c.length) && b == c.bits * Pow2(8 - c.length) + rest
    ensures StartsWith(b, c)
  {
    assert Pow2(0) == 1 && Pow2(1) == 2 && Pow2(2) == 4 && Pow2(3) == 8;
    hide Pow2;
  }

  /** A byte that starts with the code of a letter is not that letter. */
  lemma {:induction false} NotItself(s: Symbol, b: Byte)
    requires CodeOf(s).length <= 8 && StartsWith(b, CodeOf(s))
    ensures Inverse(b) != s
  {
  }

  lemma {:induction false} StreamAt(s: seq<Symbol>, i: nat)
    requires i < |s|
    ensures var from, code := |Stream(s[..i])|, CodeBits(s[i]);
            from + |code| <= |Stream(s)| && Stream(s)[from..from + |code|] == code
  {
    hide CodeBits;
    var n := |s| - 1;
    if i < n {
      StreamAt(s[..n], i);
      assert s[..n][..i] == s[..i];
    }
  }

  lemma {:induction false} TopBit(bits: seq<Bit>, k: nat)
    requires 8 * k + 8 <= |bits| && bits[8 * k] == 1
    ensures Inverse(ByteAt(bits, k)) == ILLEGAL
  {
    var rest := bits[8 * k + 1..8 * k + 8];
    assert bits[8 * k..8 * k + 8] == [1] + rest;
    NumberSum([1], rest);
    assert Number([1]) == 1 && Pow2(7) == 128;
  }

  lemma {:induction false} OnesAreDigits(n: nat)
    ensures Digits(Pow2(n) - 1, n) == Ones(n)
  {
    if n > 0 {
      OnesAreDigits(n - 1);
    }
  }

  lemma PlusCode()
    ensures CodeOf(62) == Code(0x7fb, 11)
  {
  }

  lemma {:induction false} PlusBits()
    ensures |CodeBits(62)| == 11 && CodeBits(62)[..8] == Ones(8)
  {
    hide CodeOf;
    PlusCode();
    OnesAreDigits(8);
    Pow8();
    assert Digits(0x7fb, 11) == Digits(0x3fd, 10) + [1];
    assert Digits(0x3fd, 10) == Digits(0x1fe, 9) + [1];
    assert Digits(0x1fe, 9) == Digits(0xff, 8) + [0];
  }

  /** The code of `+` is the one long code: it makes some byte that is not a base64 letter. */
  lemma {:induction false} PlusIsIllegal(s: seq<Symbol>, i: nat)
    requires i < |s| && s[i] == 62
    ensures !Legal(Packed(Stream(s)))
  {
    hide CodeBits, Stream;
    StreamAt(s, i);
    PlusBits();
    var from := |Stream(s[..i])|;
    var k := (from + 7) / 8;
    var bits := Filled(Stream(s));
    assert from <= 8 * k < from + 8;
    assert bits[8 * k] == Stream(s)[from..from + 11][8 * k - from] == CodeBits(62)[..8][8 * k - from] == 1;
    TopBit(bits, k);
    assert Inverse(Packed(Stream(s))[k]) == ILLEGAL;
  }

  lemma {:induction false} NoLongCodes(s: seq<Symbol>)
    requires 62 !in s
    ensures |Stream(s)| <= 8 * |s|
  {
    if s != [] {
      NoLongCodes(s[..|s| - 1]);
      CodesFit(s[|s| - 1]);
    }
  }

  lemma {:induction false} MeantFirst(text: seq<Byte>)
    requires text != []
    ensures Inverse(text[0]) < 64 ==> Meant(text) != [] && Meant(text)[0] == Inverse(text[0])
    ensures Inverse(text[0]) >= 64 ==> |Meant(text)| < |text|
    ensures |Meant(text)| <= |text|
  {
    hide Inverse;
    var n := |text| - 1;
    if n > 0 {
      MeantFirst(text[..n]);
    } else {
      assert Meant(text[..n]) == [];
    }
  }

  lemma ByteFirst(bits: seq<Bit>)
    requires |bits| >= 8
    ensures ByteAt(bits, 0) == Number(bits[..8])
  {
    hide Number;
  }

  lemma {:induction false} FirstBits(s: seq<Symbol>)
    requires s != [] && CodeOf(s[0]).length <= 8
    ensures var bits, code := Filled(Stream(s)), CodeBits(s[0]);
            8 <= |bits| && bits[..8] == code + bits[|code|..8]
  {
    hide CodeOf, Stream, Digits;
    StreamAt(s, 0);
    StreamOfNothing();
    CodesFit(s[0]);
    var bits, code := Filled(Stream(s)), CodeBits(s[0]);
    assert bits[..|code|] == Stream(s)[..|code|] == code;
  }

  lemma {:induction false} FirstByte(s: seq<Symbol>)
    requires s != [] && CodeOf(s[0]).length <= 8
    ensures Packed(Stream(s)) != []
    ensures StartsWith(Packed(Stream(s))[0], CodeOf(s[0]))
  {
    hide CodeOf, Stream, StartsWith, Filled, Number, Pow2, Digits;
    FirstBits(s);
    CodesFit(s[0]);
    var bits, code := Filled(Stream(s)), CodeBits(s[0]);
    var rest := bits[|code|..8];
    ByteFirst(bits);
    NumberSum(code, rest);
    NumberDigits(CodeOf(s[0]).bits, |code|);
    CodeFirst(CodeOf(s[0]), ByteAt(bits, 0), Number(rest));
  }

  lemma StreamOfNothing()
    ensures Stream([]) == []
  {
  }

  lemma {:induction false} PackedMeansOther(s: seq<Symbol>)
    requires s != [] && Legal(Packed(Stream(s)))
    ensures Meant(Packed(Stream(s))) != s
  {
    hide Packed, Stream, Inverse, Meant, CodeOf, StartsWith;
    if i: nat :| i < |s| && s[i] == 62 {
      PlusIsIllegal(s, i);
    } else {
      CodesFit(s[0]);
      FirstByte(s);
      NotItself(s[0], Packed(Stream(s))[0]);
      MeantFirst(Packed(Stream(s)));
      NoLongCodes(s);
      PackedSize(Stream(s));
    }
  }

  /** A compressed value that is read as if it were not is never read as what it was, unless it is empty. */
  lemma {:induction false} MisreadIff(v: seq<Byte>)
    ensures ReadBase64(Compressed(v)) == Some(v) <==> v == []
  {
    hide Joined, Packed, Stream, Inverse, Meant;
    JoinedIff(Meant(Compressed(v)), v);
    if v == [] {
      PackedNothing();
    } else if Legal(Compressed(v)) {
      PackedMeansOther(Symbols(v));
    }
  }

  lemma PackedNothing()
    ensures Packed(Stream([])) == [] && Meant([]) == []
  {
  }

  lemma PackedSize(bits: seq<Bit>)
    ensures |Packed(bits)| == (|bits| + 7) / 8
  {
  }

  lemma {:induction false} OneByte(v: Byte, first: Byte, second: Byte)
    requires var (s, t) := (CodeBits(Group1(v)), CodeBits(Group2(v, 0)));
             8 < |s + t| <= 16 && s + t + Ones(16 - |s + t|) == Digits(first, 8) + Digits(second, 8)
    ensures Compressed([v]) == [first, second]
  {
    hide CodeOf, Digits, Group1, Group2, Number;
    var s, t := Group1(v), Group2(v, 0);
    StreamOfNothing();
    assert [s, t][..1] == [s] && [s][..0] == [];
    assert Stream([s, t]) == CodeBits(s) + CodeBits(t);
    var bits := Filled(Stream([s, t]));
    assert bits == Digits(first, 8) + Digits(second, 8);
    Pow8();
    NumberDigits(first, 8);
    NumberDigits(second, 8);
    assert bits[0..8] == Digits(first, 8) && bits[8..16] == Digits(second, 8);
  }

  lemma Pow8()
    ensures Pow2(8) == 256
  {
  }

  lemma CodeExamples()
    ensures CodeOf(0) == Code(0x21, 6) && CodeOf(55) == Code(0x19, 6) && CodeOf(16) == Code(0x6c, 7)
  {
  }

  lemma {:induction false} DigitsSum(a: nat, m: nat, b: nat, n: nat)
    requires b < Pow2(n)
    ensures Digits(a, m) + Digits(b, n) == Digits(a * Pow2(n) + b, m + n)
  {
    if n > 0 {
      DigitsSum(a, m, b / 2, n - 1);
      Doubled(a, Pow2(n - 1), b / 2, b % 2);
      var v := a * Pow2(n) + b;
      assert v == 2 * (a * Pow2(n - 1) + b / 2) + b % 2;
      assert v / 2 == a * Pow2(n - 1) + b / 2 && v % 2 == b % 2;
      assert Digits(a, m) + Digits(b, n) == Digits(a, m) + Digits(b / 2, n - 1) + [b % 2];
    }
  }

  lemma {:induction false} OtherDigits()
    ensures Digits(0x19, 6) + Digits(0x6c, 7) + Ones(3) == Digits(0x67, 8) + Digits(0x67, 8)
  {
    assert Pow2(3) == 8 && Pow2(7) == 128 && Pow2(8) == 256;
    hide Digits;
    OnesAreDigits(3);
    DigitsSum(0x19, 6, 0x6c, 7);
    DigitsSum(0x19 * 128 + 0x6c, 13, 7, 3);
    DigitsSum(0x67, 8, 0x67, 8);
  }

  /** A value that is refused, and one that is taken for another. */
  lemma {:induction false} MisreadExamples()
    ensures ReadBase64(Compressed([0])) == None
    ensures Compressed([0xdd]) == [0x67, 0x67] && ReadBase64(Compressed([0xdd])) == Some([0x82])
  {
    hide CodeOf, Digits, Compressed;
    CodeExamples();
    ZeroIsRefused();
    OtherDigits();
    OneByte(0xdd, 0x67, 0x67);
    assert Meant([0x67, 0x67]) == [32, 32];
  }

  lemma {:induction false} ZeroIsRefused()
    ensures ReadBase64(Compressed([0])) == None
  {
    hide CodeOf, Packed, Stream;
    CodeExamples();
    FirstByte([0, 0]);
    assert Inverse(Compressed([0])[0]) == ILLEGAL;
  }

  // ---------- Compressed values that are flagged ----------

  /** The letter whose code the bits of an 11-bit window start with. */
  function Owner(w: nat): Option<Symbol> {
    if w < 0x280 then Some(Owner5(w / 64))
    else if 0x300 <= w < 0x5c0 then Owner6(w / 32)
    else if 0x5d0 <= w < 0x7c0 then Some(Owner7(w / 16))
    else if 0x7e0 <= w < 0x7e8 then Some(23)
    else if 0x7e8 <= w < 0x7f0 then Some(25)
    else if w == 0x7fb then Some(62)
    else None
  }

  function Owner5(c: nat): Symbol
    requires c < 10
  {
    match c
    case 0 => 52 case 1 => 53 case 2 => 54 case 3 => 26 case 4 => 28
    case 5 => 30 case 6 => 34 case 7 => 40 case 8 => 44 case _ => 45
  }

  function Owner6(c: nat): Option<Symbol>
    requires 0x18 <= c < 0x2e
  {
    match c
    case 0x18 => Some(63) case 0x20 => None     case 0x21 => Some(0)  case 0x22 => None     case 0x23 => Some(27)
    case 0x24 => Some(29) case 0x25 => Some(31) case 0x26 => Some(32) case 0x27 => Some(33) case 0x28 => Some(37)
    case 0x29 => Some(38) case 0x2a => Some(39) case 0x2b => Some(41) case 0x2c => Some(43) case 0x2d => Some(46)
    case _ => Some(c - 0x19 + 55)
  }

  function Owner7(c: nat): Symbol
    requires 0x5d <= c < 0x7c
  {
    if c < 0x73 then c - 0x5d + 1
    else
      match c
      case 0x73 => 24 case 0x74 => 35 case 0x75 => 36 case 0x76 => 42 case _ => c - 0x77 + 47
  }

  predicate Opens(w: nat, c: Code) {
    match c.length
    case 5 => w / 64 == c.bits
    case 6 => w / 32 == c.bits
    case 7 => w / 16 == c.bits
    case 8 => w / 8 == c.bits
    case _ => w == c.bits
  }

  lemma {:induction false} OwnerOfUpper(s: Symbol, w: nat)
    requires s < 26 && Opens(w, CodeOf(s))
    ensures Owner(w) == Some(s)
  {
  }

  lemma {:induction false} OwnerOfLower(s: Symbol, w: nat)
    requires 26 <= s < 52 && Opens(w, CodeOf(s))
    ensures Owner(w) == Some(s)
  {
  }

  lemma {:induction false} OwnerOfOther(s: Symbol, w: nat)
    requires 52 <= s && Opens(w, CodeOf(s))
    ensures Owner(w) == Some(s)
  {
  }

  /** Every window that opens with the code of a letter belongs to that letter. */
  lemma {:induction false} OwnerOfCode(s: Symbol, w: nat)
    requires Opens(w, CodeOf(s))
    ensures Owner(w) == Some(s)
  {
    hide Owner, Opens, CodeOf;
    if s < 26 {
      OwnerOfUpper(s, w);
    } else if s < 52 {
      OwnerOfLower(s, w);
    } else {
      OwnerOfOther(s, w);
    }
  }

  lemma WindowOpens(c: Code, w: nat, rest: nat)
    requires 5 <= c.length <= 8 || c.length == 11
    requires rest < Pow2(11 - c.length) && w == c.bits * Pow2(11 - c.length) + rest
    ensures Opens(w, c)
  {
    assert Pow2(0) == 1 && Pow2(3) == 8 && Pow2(4) == 16 && Pow2(5) == 32 && Pow2(6) == 64;
    hide Pow2;
  }

  function Window(bits: seq<Bit>): nat {
    Number((bits + Ones(11))[..11])
  }

  /** The base64 letters that bits spell, up to a filling of less than a byte; None if they spell anything else. */
  function Letterwise(bits: seq<Bit>): Option<seq<Symbol>>
    decreases |bits|
  {
    if |bits| < 8 && bits == Ones(|bits|) then Some([]) else
      var s := Owner(Window(bits));
      if s.None? || |CodeBits(s.value)| > |bits| || |CodeBits(s.value)| == 0 then None else
        var rest := Letterwise(bits[|CodeBits(s.value)|..]);
        if rest.None? then None else Some([s.value] + rest.value)
  }

  function Unpacked(bytes: seq<Byte>): (bits: seq<Bit>)
    ensures |bits| == 8 * |bytes|
  {
    if bytes == [] then [] else Digits(bytes[0], 8) + Unpacked(bytes[1..])
  }

  /** What the parser makes of Huffman coded bytes, for letters of the base64 alphabet. */
  function Inflated(bytes: seq<Byte>): Option<seq<Byte>> {
    var s := Letterwise(Unpacked(bytes));
    if s.None? then None else Some(Letters(s.value))
  }

  lemma {:induction false} DigitsNumber(bits: seq<Bit>)
    ensures Digits(Number(bits), |bits|) == bits
  {
    if bits != [] {
      DigitsNumber(bits[..|bits| - 1]);
    }
  }

  lemma ByteLater(bits: seq<Bit>, k: nat)
    requires 8 * k + 16 <= |bits|
    ensures ByteAt(bits[8..], k) == ByteAt(bits, k + 1)
  {
    hide Number;
    assert bits[8..][8 * k..8 * k + 8] == bits[8 * k + 8..8 * k + 16];
  }

  lemma {:induction false} UnpackedBytes(bits: seq<Bit>, bytes: seq<Byte>)
    requires |bits| == 8 * |bytes| && forall k :: 0 <= k < |bytes| ==> bytes[k] == ByteAt(bits, k)
    ensures Unpacked(bytes) == bits
  {
    hide Number, Digits, ByteAt;
    if bytes != [] {
      DigitsNumber(bits[..8]);
      ByteFirst(bits);
      var rest := bits[8..];
      forall k | 0 <= k < |bytes| - 1 ensures bytes[1..][k] == ByteAt(rest, k) {
        ByteLater(bits, k);
      }
      UnpackedBytes(rest, bytes[1..]);
    }
  }

  lemma {:induction false} StreamFirst(s: seq<Symbol>)
    requires s != []
    ensures Stream(s) == CodeBits(s[0]) + Stream(s[1..])
  {
    hide CodeBits;
    StreamOfNothing();
    var n := |s| - 1;
    if n > 0 {
      StreamFirst(s[..n]);
      assert s[..n][1..] == s[1..][..n - 1];
    }
  }

  lemma {:induction false} WindowOfCode(s: Symbol, rest: seq<Bit>)
    ensures Owner(Window(CodeBits(s) + rest)) == Some(s)
  {
    hide CodeOf, Owner, Opens;
    CodesFit(s);
    var code := CodeBits(s);
    var tail := (rest + Ones(11))[..11 - |code|];
    assert (code + rest + Ones(11))[..11] == code + tail;
    NumberSum(code, tail);
    NumberDigits(CodeOf(s).bits, |code|);
    WindowOpens(CodeOf(s), Window(code + rest), Number(tail));
    OwnerOfCode(s, Window(code + rest));
  }

  /** No code is a filling. */
  lemma {:induction false} NotFilling(s: Symbol, rest: seq<Bit>)
    requires |CodeBits(s) + rest| < 8
    ensures CodeBits(s) + rest != Ones(|CodeBits(s) + rest|)
  {
    hide CodeOf, Owner;
    var bits := CodeBits(s) + rest;
    WindowOfCode(s, rest);
    if bits == Ones(|bits|) {
      assert (bits + Ones(11))[..11] == Ones(11);
      NumberOnes(11);
      NoOwner();
    }
  }

  lemma NoOwner()
    ensures Owner(Pow2(11) - 1) == None
  {
    assert Pow2(11) == 2048;
  }

  lemma {:induction false} LetterwiseStream(s: seq<Symbol>, filling: nat)
    requires filling < 8
    ensures Letterwise(Stream(s) + Ones(filling)) == Some(s)
  {
    hide CodeOf, Owner, Window, Stream;
    if s == [] {
      StreamOfNothing();
    } else {
      var code, more := CodeBits(s[0]), Stream(s[1..]) + Ones(filling);
      StreamFirst(s);
      assert Stream(s) + Ones(filling) == code + more;
      CodesFit(s[0]);
      WindowOfCode(s[0], more);
      if |code + more| < 8 {
        NotFilling(s[0], more);
      }
      LetterwiseStream(s[1..], filling);
      assert (code + more)[|code|..] == more && [s[0]] + s[1..] == s;
    }
  }

  /** A compressed value that is flagged is read as it was. */
  lemma {:induction false} CompressedRoundTrip(v: seq<Byte>)
    ensures Inflated(Compressed(v)) == Some(Letters(Symbols(v)))
    ensures ReadBase64(Inflated(Compressed(v)).value) == Some(v)
  {
    hide Symbols, Stream, Letterwise, Letters, Unpacked;
    var bits := Stream(Symbols(v));
    UnpackedBytes(Filled(bits), Compressed(v));
    LetterwiseStream(Symbols(v), (8 - |bits| % 8) % 8);
    Base64RoundTrip(v);
  }
}
