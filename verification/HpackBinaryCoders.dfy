/**
 The coders of binary header values as the source runs them: huff_out of
 src/core/transport/chttp2/bin_encoder.c, which collects bits in a 32-bit word, and the base64 states of
 hpack_parser.c, which take their input in pieces.
 */
module HpackBinaryCoders {
  import opened Common
  import opened HpackBinary

  const WORD := 0x1_0000_0000  // the number of values of a gpr_uint32

  // ---------- Arithmetic ----------

  lemma AtLeastOnce(d: int, p: nat)
    ensures d >= 1 ==> d * p >= p
    ensures d <= -1 ==> d * p <= 0 - p
  {
  }

  lemma DivMod(x: int, p: nat, q: int, r: nat)
    requires x == q * p + r && r < p
    ensures x / p == q && x % p == r
  {
    var d := q - x / p;
    assert d * p == x % p - r;
    AtLeastOnce(d, p);
  }

  lemma Word()
    ensures Pow2(32) == WORD
  {
    hide Pow2;
    PowSum(16, 16);
    PowSum(8, 8);
    Pow8();
  }

  /** Cutting a sum off at a multiple of p does not change it modulo p. */
  lemma ModMod(x: nat, p: nat, m: nat)
    requires p > 0 && m > 0
    ensures x % (m * p) % p == x % p
  {
    var w := m * p;
    var q := x / w;
    assert x == q * w + x % w;
    var r := x % w;
    assert r == r / p * p + r % p;
    assert x == (q * m + r / p) * p + r % p by {
      assert q * (m * p) == q * m * p;
    }
    DivMod(x, p, q * m + r / p, r % p);
  }

  lemma Regroup(q: int, p: int, k: int, h: int)
    ensures (q * p + h) * k == q * (p * k) + h * k
  {
  }

  lemma ShiftUp(temp: nat, p: nat, k: nat, c: nat)
    requires p > 0 && c < k
    ensures p * k > 0 && (temp * k + c) % (p * k) == temp % p * k + c
  {
    var q, h := temp / p, temp % p;
    Regroup(q, p, k, h);
    AtLeastOnce(p - h, k);
    Regroup(1, p - h, k, h);
    DivMod(temp * k + c, p * k, q, h * k + c);
  }

  lemma ShiftCut(temp: nat, p: nat, k: nat, c: nat, m: nat, w: nat)
    requires p > 0 && m > 0 && c < k && w == m * (p * k)
    ensures p * k > 0 && w > 0 && (temp * k + c) % w % (p * k) == temp % p * k + c
  {
    ShiftUp(temp, p, k, c);
    ModMod(temp * k + c, p * k, m);
  }

  /** A code shifted into the word, whose low bits are those that are held. */
  lemma ShiftIn(temp: nat, held: seq<Bit>, code: seq<Bit>)
    requires temp % Pow2(|held|) == Number(held) && |held| + |code| <= 32
    ensures (temp * Pow2(|code|) + Number(code)) % WORD % Pow2(|held + code|) == Number(held + code)
  {
    hide Pow2, Number;
    NumberSum(held, code);
    PowSum(|held|, |code|);
    PowSum(32 - |held| - |code|, |held| + |code|);
    Word();
    ShiftCut(temp, Pow2(|held|), Pow2(|code|), Number(code), Pow2(32 - |held| - |code|), WORD);
  }

  lemma ShiftDown(temp: nat, p: nat, h: nat, low: nat)
    requires low < p && h < 256 && temp % (256 * p) == h * p + low
    ensures temp / p % 256 == h && temp % p == low
  {
    var q := temp / (256 * p);
    assert temp == q * (256 * p) + (h * p + low);
    Regroup(q, 256, p, h);
    DivMod(temp, p, q * 256 + h, low);
    DivMod(q * 256 + h, 256, q, h);
  }

  /** The first byte of those that are held. */
  lemma ShiftOut(temp: nat, held: seq<Bit>)
    requires |held| >= 8 && temp % Pow2(|held|) == Number(held)
    ensures temp / Pow2(|held| - 8) % 256 == Number(held[..8])
    ensures temp % Pow2(|held| - 8) == Number(held[8..])
  {
    hide Pow2, Number;
    Pow8();
    PowSum(8, |held| - 8);
    NumberSum(held[..8], held[8..]);
    assert held[..8] + held[8..] == held;
    ShiftDown(temp, Pow2(|held| - 8), Number(held[..8]), Number(held[8..]));
  }

  // ---------- The encoder ----------

  /** huff_out: the bits so far are whole bytes in `out`, and `tempLength` more in the low bits of `temp`. */
  class HuffOut {
    var temp: nat
    var tempLength: nat
    var out: seq<Byte>
    ghost var bits: seq<Bit>

    ghost predicate Valid()
      reads this
    {
      && temp < WORD && |bits| == 8 * |out| + tempLength
      && temp % Pow2(tempLength) == Number(bits[8 * |out|..])
      && forall k :: 0 <= k < |out| ==> out[k] == ByteAt(bits, k)
    }

    constructor ()
      ensures Valid() && bits == [] && tempLength == 0
    {
      temp, tempLength, out, bits := 0, 0, [], [];
    }

    /** enc_flush_some. */
    method FlushSome()
      requires Valid()
      modifies this
      ensures Valid() && tempLength <= 8 && bits == old(bits)
    {
      hide Pow2, Number;
      while tempLength > 8
        invariant Valid() && bits == old(bits)
      {
        ghost var held := bits[8 * |out|..];
        ShiftOut(temp, held);
        assert held[8..] == bits[8 * (|out| + 1)..] && held[..8] == bits[8 * |out|..8 * |out| + 8];
        tempLength := tempLength - 8;
        out := out + [temp / Pow2(tempLength) % 256];
      }
    }

    method Shift(code: nat, length: nat, ghost more: seq<Bit>)
      requires Valid() && length == |more| && code == Number(more) && tempLength + length <= 32
      modifies this
      ensures Valid() && tempLength <= 8 && bits == old(bits) + more
    {
      hide Pow2, Number;
      ghost var held := bits[8 * |out|..];
      ShiftIn(temp, held, more);
      assert (bits + more)[8 * |out|..] == held + more;
      StillBytes(out, bits, more);
      temp, tempLength, bits := (temp * Pow2(length) + code) % WORD, tempLength + length, bits + more;
      FlushSome();
    }

    /** enc_add1. */
    method Add1(a: Symbol)
      requires Valid() && tempLength <= 8
      modifies this
      ensures Valid() && tempLength <= 8 && bits == old(bits) + CodeBits(a)
    {
      hide CodeOf, Pow2, Number;
      CodesFit(a);
      NumberDigits(CodeOf(a).bits, CodeOf(a).length);
      Shift(CodeOf(a).bits, CodeOf(a).length, CodeBits(a));
    }

    /** enc_add2. */
    method Add2(a: Symbol, b: Symbol)
      requires Valid() && tempLength <= 8
      modifies this
      ensures Valid() && tempLength <= 8 && bits == old(bits) + CodeBits(a) + CodeBits(b)
    {
      hide CodeOf, Pow2, Number, CodeBits;
      var sa, sb := CodeOf(a), CodeOf(b);
      PairNumber(a, b);
      assert bits + CodeBits(a) + CodeBits(b) == bits + (CodeBits(a) + CodeBits(b));
      Shift(sa.bits * Pow2(sb.length) + sb.bits, sa.length + sb.length, CodeBits(a) + CodeBits(b));
    }

    method AddTriplet(a: Byte, b: Byte, c: Byte)
      requires Valid() && tempLength <= 8
      modifies this
      ensures Valid() && tempLength <= 8 && bits == old(bits) + TripletBits(a, b, c)
    {
      hide CodeBits, Group1, Group2, Group3, Group4, Valid;
      Add2(Group1(a), Group2(a, b));
      Add2(Group3(b, c), Group4(c));
    }

    method AddTail(v: seq<Byte>)
      requires Valid() && tempLength <= 8 && |v| < 3
      modifies this
      ensures Valid() && tempLength <= 8 && bits == old(bits) + Stream(Symbols(v))
    {
      hide CodeBits, Stream, Symbols, Group1, Group2, Group3, Group4, Valid;
      StreamTail(v);
      if |v| == 1 {
        Add2(Group1(v[0]), Group2(v[0], 0));
      } else if |v| == 2 {
        Add2(Group1(v[0]), Group2(v[0], v[1]));
        Add1(Group3(v[1], 0));
      }
    }

    /** The end of the output: the last bits are filled up with ones. */
    method Finished() returns (output: seq<Byte>)
      requires Valid() && tempLength <= 8
      ensures output == Packed(bits)
    {
      hide LastByte, Packed, ByteAt, Pow2, Number;
      PackedEnd(out, bits, temp);
      output := out;
      if tempLength > 0 {
        output := output + [LastByte(temp, tempLength)];
      }
    }
  }

  lemma PairNumber(a: Symbol, b: Symbol)
    ensures Number(CodeBits(a) + CodeBits(b)) == CodeOf(a).bits * Pow2(CodeOf(b).length) + CodeOf(b).bits
    ensures CodeOf(a).length <= 11 && CodeOf(b).length <= 11
  {
    hide CodeOf, Pow2, Number;
    CodesFit(a);
    CodesFit(b);
    NumberDigits(CodeOf(a).bits, CodeOf(a).length);
    NumberDigits(CodeOf(b).bits, CodeOf(b).length);
    NumberSum(CodeBits(a), CodeBits(b));
  }

  lemma StillBytes(out: seq<Byte>, bits: seq<Bit>, more: seq<Bit>)
    requires 8 * |out| <= |bits| && forall k :: 0 <= k < |out| ==> out[k] == ByteAt(bits, k)
    ensures forall k :: 0 <= k < |out| ==> out[k] == ByteAt(bits + more, k)
  {
    hide Number;
    forall k | 0 <= k < |out| ensures out[k] == ByteAt(bits + more, k) {
      assert (bits + more)[8 * k..8 * k + 8] == bits[8 * k..8 * k + 8];
    }
  }

  function LastByte(temp: nat, n: nat): nat
    requires n <= 8
  {
    temp * Pow2(8 - n) % 256 + (Pow2(8 - n) - 1)
  }

  /** The last byte: what is held, above ones. */
  lemma LastByteHolds(temp: nat, held: seq<Bit>)
    requires 0 < |held| <= 8 && temp % Pow2(|held|) == Number(held)
    ensures LastByte(temp, |held|) == Number(held + Ones(8 - |held|)) < 256
  {
    hide Number, Pow2;
    var n := 8 - |held|;
    Pow8();
    NumberOnes(n);
    NumberSum(held, Ones(n));
    PowSum(|held|, n);
    ShiftUp(temp, Pow2(|held|), Pow2(n), 0);
  }

  lemma {:induction false} StreamTwo(a: Symbol, b: Symbol, rest: seq<Symbol>)
    ensures Stream([a, b] + rest) == CodeBits(a) + CodeBits(b) + Stream(rest)
  {
    hide CodeBits, Stream;
    StreamFirst([a, b] + rest);
    StreamFirst([b] + rest);
    assert ([a, b] + rest)[1..] == [b] + rest && ([b] + rest)[1..] == rest;
  }

  function TripletBits(a: Byte, b: Byte, c: Byte): seq<Bit> {
    CodeBits(Group1(a)) + CodeBits(Group2(a, b)) + CodeBits(Group3(b, c)) + CodeBits(Group4(c))
  }

  lemma {:induction false} StreamTriplet(v: seq<Byte>)
    requires |v| >= 3
    ensures Stream(Symbols(v)) == TripletBits(v[0], v[1], v[2]) + Stream(Symbols(v[3..]))
  {
    hide CodeBits, Stream, Group1, Group2, Group3, Group4;
    var rest := Symbols(v[3..]);
    StreamTwo(Group1(v[0]), Group2(v[0], v[1]), [Group3(v[1], v[2]), Group4(v[2])] + rest);
    StreamTwo(Group3(v[1], v[2]), Group4(v[2]), rest);
    assert Symbols(v) == [Group1(v[0]), Group2(v[0], v[1])] + ([Group3(v[1], v[2]), Group4(v[2])] + rest);
  }

  lemma {:induction false} StreamTail(v: seq<Byte>)
    ensures |v| == 0 ==> Stream(Symbols(v)) == []
    ensures |v| == 1 ==> Stream(Symbols(v)) == CodeBits(Group1(v[0])) + CodeBits(Group2(v[0], 0))
    ensures |v| == 2 ==> Stream(Symbols(v)) == CodeBits(Group1(v[0])) + CodeBits(Group2(v[0], v[1])) + CodeBits(Group3(v[1], 0))
  {
    hide CodeBits, Stream, Group1, Group2, Group3, Group4;
    StreamOfNothing();
    if |v| == 1 {
      StreamTwo(Group1(v[0]), Group2(v[0], 0), []);
      assert Symbols(v) == [Group1(v[0]), Group2(v[0], 0)] + [];
    } else if |v| == 2 {
      StreamTwo(Group1(v[0]), Group2(v[0], v[1]), [Group3(v[1], 0)]);
      StreamFirst([Group3(v[1], 0)]);
      assert [Group3(v[1], 0)][1..] == [];
      assert Symbols(v) == [Group1(v[0]), Group2(v[0], v[1])] + [Group3(v[1], 0)];
    }
  }

  /** All bits in whole bytes: the last ones are filled up with ones. */
  lemma PackedEnd(out: seq<Byte>, bits: seq<Bit>, temp: nat)
    requires var n := |bits| - 8 * |out|; 0 <= n <= 8 && temp % Pow2(n) == Number(bits[8 * |out|..])
    requires forall k :: 0 <= k < |out| ==> out[k] == ByteAt(bits, k)
    ensures var n := |bits| - 8 * |out|;
            && (n == 0 ==> Packed(bits) == out)
            && (n > 0 ==> LastByte(temp, n) < 256 && Packed(bits) == out + [LastByte(temp, n)])
  {
    hide Pow2, Number, LastByte, ByteAt;
    var n := |bits| - 8 * |out|;
    var filled := Filled(bits);
    StillBytes(out, bits, Ones((8 - |bits| % 8) % 8));
    if n > 0 {
      LastByteHolds(temp, bits[8 * |out|..]);
      assert filled[8 * |out|..] == bits[8 * |out|..] + Ones(8 - n);
      ByteEnd(filled, |out|);
    }
  }

  lemma ByteEnd(bits: seq<Bit>, k: nat)
    requires |bits| == 8 * k + 8
    ensures ByteAt(bits, k) == Number(bits[8 * k..])
  {
    hide Number;
    assert bits[8 * k..8 * k + 8] == bits[8 * k..];
  }

  /** grpc_chttp2_base64_encode_and_huffman_compress. */
  method EncodeAndCompress(input: seq<Byte>) returns (output: seq<Byte>)
    ensures output == Compressed(input)
  {
    hide TripletBits, Stream, Symbols, Pow2, Number, HuffOut.Valid;
    var out := new HuffOut();
    var i := 0;
    while |input| - i >= 3
      invariant fresh(out) && out.Valid() && out.tempLength <= 8 && i <= |input|
      invariant out.bits + Stream(Symbols(input[i..])) == Stream(Symbols(input))
    {
      StreamTriplet(input[i..]);
      assert input[i..][3..] == input[i + 3..];
      out.AddTriplet(input[i], input[i + 1], input[i + 2]);
      i := i + 3;
    }
    out.AddTail(input[i..]);
    output := out.Finished();
  }

  /** The output fits into the space for it: no code is longer than 11 bits. */
  lemma {:induction false} OutputFits(v: seq<Byte>)
    ensures |Compressed(v)| <= (11 * |Symbols(v)| + 7) / 8
    ensures |Symbols(v)| == |v| / 3 * 4 + (if |v| % 3 == 0 then 0 else |v| % 3 + 1)
  {
    hide Stream, Packed, Symbols;
    StreamFits(Symbols(v));
    PackedSize(Stream(Symbols(v)));
    SymbolCount(v);
  }

  lemma {:induction false} StreamFits(s: seq<Symbol>)
    ensures |Stream(s)| <= 11 * |s|
  {
    hide CodeOf;
    if s != [] {
      StreamFits(s[..|s| - 1]);
      CodesFit(s[|s| - 1]);
    }
  }

  lemma {:induction false} SymbolCount(v: seq<Byte>)
    ensures |Symbols(v)| == |v| / 3 * 4 + (if |v| % 3 == 0 then 0 else |v| % 3 + 1)
  {
    hide Group1, Group2, Group3, Group4;
    if |v| >= 3 {
      SymbolCount(v[3..]);
    }
  }

  // ---------- The parser ----------

  lemma JoinedNothing()
    ensures Joined([]) == Some([])
  {
  }

  lemma JoinedOnce(s: seq<Symbol>)
    requires |s| >= 4
    ensures var rest := Joined(s[4..]);
            Joined(s) == if rest.None? then None
                         else Some([Byte1(s[0], s[1]), Byte2(s[1], s[2]), Byte3(s[2], s[3])] + rest.value)
  {
  }

  lemma {:induction false} JoinedMore(s: seq<Symbol>, t: seq<Symbol>)
    requires |s| % 4 == 0
    ensures Joined(s).Some?
    ensures Joined(s + t) == if Joined(t).None? then None else Some(Joined(s).value + Joined(t).value)
  {
    hide Joined, Byte1, Byte2, Byte3;
    if s == [] {
      JoinedNothing();
      assert s + t == t;
      if Joined(t).Some? {
        assert [] + Joined(t).value == Joined(t).value;
      }
    } else {
      JoinedMore(s[4..], t);
      assert (s + t)[4..] == s[4..] + t;
      JoinedOnce(s);
      JoinedOnce(s + t);
      if Joined(t).Some? {
        var three := [Byte1(s[0], s[1]), Byte2(s[1], s[2]), Byte3(s[2], s[3])];
        assert three + (Joined(s[4..]).value + Joined(t).value) == three + Joined(s[4..]).value + Joined(t).value;
      }
    }
  }

  function BufferOf(s: nat, t: nat, u: nat, w: nat): nat {
    s * 0x40000 + t * 0x1000 + u * 0x40 + w
  }

  // The bytes of a buffer of 24 bits.
  function Top(buffer: nat): Byte { buffer / 0x10000 % 256 }
  function Middle(buffer: nat): Byte { buffer / 0x100 % 256 }
  function Low(buffer: nat): Byte { buffer % 256 }

  lemma BufferSum(s: Symbol, t: Symbol, u: Symbol, w: Symbol)
    ensures BufferOf(s, t, u, w) == Byte1(s, t) as int * 0x10000 + Byte2(t, u) as int * 0x100 + Byte3(u, w)
  {
    var t1, t0, u1, u0 := t / 16, t % 16, u / 4, u % 4;
    assert t == 16 * t1 + t0 && u == 4 * u1 + u0;
  }

  /** The bytes of a full buffer. */
  lemma BufferBytes(s: Symbol, t: Symbol, u: Symbol, w: Symbol)
    ensures var bits := BufferOf(s, t, u, w);
            Top(bits) == Byte1(s, t) && Middle(bits) == Byte2(t, u) && Low(bits) == Byte3(u, w)
  {
    hide BufferOf, Byte1, Byte2, Byte3;
    BufferSum(s, t, u, w);
    var bits := BufferOf(s, t, u, w);
    var a: int, b: int, c: int := Byte1(s, t), Byte2(t, u), Byte3(u, w);
    DivMod(bits, 0x10000, a, b * 0x100 + c);
    DivMod(bits, 0x100, a * 0x100 + b, c);
    DivMod(a * 0x100 + b, 0x100, a, b);
  }

  /** The base64 states of the parser: `state` groups are in the buffer, the rest has become bytes. */
  class Base64Parser {
    var state: nat
    var buffer: nat
    var str: seq<Byte>
    ghost var symbols: seq<Symbol>

    ghost predicate Valid()
      reads this
    {
      Holds(symbols, state, buffer, str)
    }

    constructor ()
      ensures Valid() && symbols == []
    {
      state, buffer, str, symbols := 0, 0, [], [];
    }

    /** One character, in the state that the switch jumps to. */
    method Take(bits: Symbol)
      requires Valid()
      modifies this
      ensures Valid() && symbols == old(symbols) + [bits]
    {
      hide Holds, Top, Middle, Low;
      HoldsState(symbols, state, buffer, str);
      if state == 3 {
        HoldsWhole(symbols, buffer, str, bits);
        buffer, state := buffer + bits, 0;
        str := str + [Top(buffer), Middle(buffer), Low(buffer)];
      } else {
        HoldsMore(symbols, state, buffer, str, bits);
        if state == 0 {
          buffer, state := bits * 0x40000, 1;
        } else if state == 1 {
          buffer, state := buffer + bits * 0x1000, 2;
        } else {
          buffer, state := buffer + bits * 0x40, 3;
        }
      }
      symbols := symbols + [bits];
    }

    /** append_string, on one piece of the input. */
    method AppendString(piece: seq<Byte>) returns (ok: bool)
      requires Valid()
      modifies this
      ensures ok <==> Legal(piece)
      ensures ok ==> Valid() && symbols == old(symbols) + Meant(piece)
    {
      hide Valid, Inverse;
      for i := 0 to |piece|
        invariant Valid() && Legal(piece[..i]) && symbols == old(symbols) + Meant(piece[..i])
      {
        var bits := Inverse(piece[i]);
        assert piece[..i + 1][..i] == piece[..i];
        if bits == ILLEGAL { return false; }
        InverseRange(piece[i]);
        if bits != PADDING {
          Take(bits);
        }
      }
      assert piece[..|piece|] == piece;
      return true;
    }

    /** finish_str. */
    method FinishStr() returns (ok: bool)
      requires Valid()
      modifies this`str
      ensures ok <==> Joined(symbols).Some?
      ensures ok ==> str == Joined(symbols).value
    {
      hide Holds, Joined, Top, Middle;
      HoldsEnd(symbols, state, buffer, str);
      match state {
        case 0 =>
        case 1 =>
          return false;
        case 2 =>
          if buffer % 0x10000 != 0 { return false; }
          str := str + [Top(buffer)];
        case _ =>
          if buffer % 0x100 != 0 { return false; }
          str := str + [Top(buffer), Middle(buffer)];
      }
      return true;
    }
  }

  ghost predicate Buffered(held: seq<Symbol>, buffer: nat) {
    match |held|
    case 0 => true
    case 1 => buffer == BufferOf(held[0], 0, 0, 0)
    case 2 => buffer == BufferOf(held[0], held[1], 0, 0)
    case 3 => buffer == BufferOf(held[0], held[1], held[2], 0)
    case _ => false
  }

  ghost predicate Holds(symbols: seq<Symbol>, state: nat, buffer: nat, str: seq<Byte>) {
    && state < 4 && |symbols| >= state && (|symbols| - state) % 4 == 0
    && Joined(symbols[..|symbols| - state]) == Some(str)
    && Buffered(symbols[|symbols| - state..], buffer)
  }

  lemma HoldsState(symbols: seq<Symbol>, state: nat, buffer: nat, str: seq<Byte>)
    requires Holds(symbols, state, buffer, str)
    ensures state < 4
  {
  }

  lemma BufferMore(held: seq<Symbol>, buffer: nat, bits: Symbol)
    requires Buffered(held, buffer)
    ensures |held| == 0 ==> Buffered(held + [bits], bits * 0x40000)
    ensures |held| == 1 ==> Buffered(held + [bits], buffer + bits * 0x1000)
    ensures |held| == 2 ==> Buffered(held + [bits], buffer + bits * 0x40)
    ensures |held| == 3 ==> buffer + bits == BufferOf(held[0], held[1], held[2], bits)
  {
  }

  lemma HoldsMore(symbols: seq<Symbol>, state: nat, buffer: nat, str: seq<Byte>, bits: Symbol)
    requires Holds(symbols, state, buffer, str)
    ensures state == 0 ==> Holds(symbols + [bits], 1, bits * 0x40000, str)
    ensures state == 1 ==> Holds(symbols + [bits], 2, buffer + bits * 0x1000, str)
    ensures state == 2 ==> Holds(symbols + [bits], 3, buffer + bits * 0x40, str)
  {
    hide Joined, Buffered, BufferOf;
    var n := |symbols| - state;
    BufferMore(symbols[n..], buffer, bits);
    assert (symbols + [bits])[..n] == symbols[..n] && (symbols + [bits])[n..] == symbols[n..] + [bits];
  }

  lemma HoldsWhole(symbols: seq<Symbol>, buffer: nat, str: seq<Byte>, bits: Symbol)
    requires Holds(symbols, 3, buffer, str)
    ensures var b := buffer + bits; Holds(symbols + [bits], 0, b, str + [Top(b), Middle(b), Low(b)])
  {
    hide Joined, BufferOf, Top, Middle, Low;
    var n := |symbols| - 3;
    BufferMore(symbols[n..], buffer, bits);
    Quartet(symbols[..n], symbols[n..] + [bits]);
    var all := symbols + [bits];
    assert all[..|all|] == all == symbols[..n] + (symbols[n..] + [bits]) && all[|all|..] == [];
  }

  lemma HoldsEnd(symbols: seq<Symbol>, state: nat, buffer: nat, str: seq<Byte>)
    requires Holds(symbols, state, buffer, str)
    ensures state < 4
    ensures state == 0 ==> Joined(symbols) == Some(str)
    ensures state == 1 ==> Joined(symbols) == None
    ensures state == 2 ==> Joined(symbols) == if buffer % 0x10000 != 0 then None else Some(str + [Top(buffer)])
    ensures state == 3 ==> Joined(symbols) == if buffer % 0x100 != 0 then None
                                              else Some(str + [Top(buffer), Middle(buffer)])
  {
    hide Joined, BufferOf, Top, Middle;
    var n := |symbols| - state;
    var held := symbols[n..];
    assert symbols[..n] + held == symbols && str + [] == str;
    JoinedMore(symbols[..n], held);
    if state < 2 {
      JoinedFew(held);
    } else if state == 2 {
      JoinedTwo(held, buffer);
    } else {
      JoinedThree(held, buffer);
    }
  }

  lemma InverseRange(b: Byte)
    ensures Inverse(b) <= PADDING || Inverse(b) == ILLEGAL
  {
  }

  lemma JoinedFour(s: seq<Symbol>)
    requires |s| == 4
    ensures Joined(s) == Some([Byte1(s[0], s[1]), Byte2(s[1], s[2]), Byte3(s[2], s[3])])
  {
    hide Byte1, Byte2, Byte3;
    assert s[4..] == [];
    JoinedNothing();
    JoinedOnce(s);
    var three := [Byte1(s[0], s[1]), Byte2(s[1], s[2]), Byte3(s[2], s[3])];
    assert three + [] == three;
  }

  lemma Quartet(done: seq<Symbol>, four: seq<Symbol>)
    requires |done| % 4 == 0 && |four| == 4
    ensures var bits := BufferOf(four[0], four[1], four[2], four[3]);
            && Joined(done).Some?
            && Joined(done + four) == Some(Joined(done).value + [Top(bits), Middle(bits), Low(bits)])
  {
    hide Joined, Byte1, Byte2, Byte3, BufferOf, Top, Middle, Low;
    BufferBytes(four[0], four[1], four[2], four[3]);
    JoinedFour(four);
    JoinedMore(done, four);
  }

  lemma JoinedFew(s: seq<Symbol>)
    ensures |s| == 0 ==> Joined(s) == Some([])
    ensures |s| == 1 ==> Joined(s) == None
  {
  }

  lemma JoinedTwo(s: seq<Symbol>, buffer: nat)
    requires |s| == 2 && buffer == BufferOf(s[0], s[1], 0, 0)
    ensures Joined(s) == if buffer % 0x10000 != 0 then None else Some([Top(buffer)])
  {
    hide BufferOf, Byte1, Top;
    BufferBytes(s[0], s[1], 0, 0);
    BufferSum(s[0], s[1], 0, 0);
    DivMod(buffer, 0x10000, Byte1(s[0], s[1]), Byte2(s[1], 0) as int * 0x100);
  }

  lemma JoinedThree(s: seq<Symbol>, buffer: nat)
    requires |s| == 3 && buffer == BufferOf(s[0], s[1], s[2], 0)
    ensures Joined(s) == if buffer % 0x100 != 0 then None else Some([Top(buffer), Middle(buffer)])
  {
    hide BufferOf, Byte1, Byte2, Top, Middle;
    BufferBytes(s[0], s[1], s[2], 0);
    BufferSum(s[0], s[1], s[2], 0);
    DivMod(buffer, 0x100, Byte1(s[0], s[1]) as int * 0x100 + Byte2(s[1], s[2]), Byte3(s[2], 0));
  }

  function Flattened(pieces: seq<seq<Byte>>): seq<Byte> {
    if pieces == [] then [] else Flattened(pieces[..|pieces| - 1]) + pieces[|pieces| - 1]
  }

  lemma FlattenedOne(text: seq<Byte>)
    ensures Flattened([text]) == text
  {
    assert [text][..0] == [];
  }

  lemma {:induction false} MeantMore(text: seq<Byte>, more: seq<Byte>)
    ensures Meant(text + more) == Meant(text) + Meant(more)
  {
    hide Inverse;
    if more == [] {
      assert text + more == text;
    } else {
      var n := |more| - 1;
      MeantMore(text, more[..n]);
      assert (text + more)[..|text| + n] == text + more[..n];
    }
  }

  /** A binary value is read the same in whatever pieces it arrives. */
  method ParseBinary(pieces: seq<seq<Byte>>) returns (r: Option<seq<Byte>>)
    ensures r == ReadBase64(Flattened(pieces))
  {
    hide Meant, Joined, Inverse, Base64Parser.Valid;
    var parser := new Base64Parser();
    PackedNothing();
    for i := 0 to |pieces|
      invariant fresh(parser) && parser.Valid() && Legal(Flattened(pieces[..i])) && parser.symbols == Meant(Flattened(pieces[..i]))
    {
      var ok := parser.AppendString(pieces[i]);
      assert pieces[..i + 1][..i] == pieces[..i];
      if !ok {
        LegalMore(Flattened(pieces[..i]), pieces[i]);
        StillIllegal(pieces, i + 1);
        return None;
      }
      LegalMore(Flattened(pieces[..i]), pieces[i]);
      MeantMore(Flattened(pieces[..i]), pieces[i]);
    }
    assert pieces[..|pieces|] == pieces;
    var ok := parser.FinishStr();
    r := if ok then Some(parser.str) else None;
  }

  lemma LegalMore(text: seq<Byte>, more: seq<Byte>)
    ensures Legal(text + more) <==> Legal(text) && Legal(more)
  {
    hide Inverse;
    if Legal(text + more) {
      forall i | 0 <= i < |text| ensures Inverse(text[i]) != ILLEGAL { assert text[i] == (text + more)[i]; }
      forall i | 0 <= i < |more| ensures Inverse(more[i]) != ILLEGAL { assert more[i] == (text + more)[|text| + i]; }
    }
  }

  lemma {:induction false} StillIllegal(pieces: seq<seq<Byte>>, n: nat)
    requires n <= |pieces| && !Legal(Flattened(pieces[..n]))
    ensures !Legal(Flattened(pieces))
  {
    hide Legal;
    if n == |pieces| {
      assert pieces[..n] == pieces;
    } else {
      var m := |pieces| - 1;
      assert pieces[..m][..n] == pieces[..n];
      StillIllegal(pieces[..m], n);
      LegalMore(Flattened(pieces[..m]), pieces[m]);
    }
  }
}
