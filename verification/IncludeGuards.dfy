/**
 The include guard of a generated C++ header: FilenameIdentifier and GetHeaderPrologue of
 src/compiler/cpp_generator.cc.  File names are byte strings, and isalnum is that of the C locale.
 */
module IncludeGuards {
  import opened Common

  predicate IsAlnum(c: Byte) {
    0x30 <= c <= 0x39 || 0x41 <= c <= 0x5a || 0x61 <= c <= 0x7a
  }

  const UNDERSCORE: Byte := 0x5f

  function HexDigit(n: nat): (c: Byte)
    requires n < 16
  {
    if n < 10 then 0x30 + n else 0x57 + n
  }

  function Escaped(c: Byte): seq<Byte> {
    if IsAlnum(c) then [c] else [UNDERSCORE, HexDigit(c / 16), HexDigit(c % 16)]
  }

  function Identifier(filename: seq<Byte>): seq<Byte> {
    if filename == [] then [] else Escaped(filename[0]) + Identifier(filename[1..])
  }

  method FilenameIdentifier(filename: seq<Byte>) returns (result: seq<Byte>)
    ensures result == Identifier(filename)
  {
    hide Identifier;
    result := [];
    Whole(filename);
    for i := 0 to |filename|
      invariant result + Identifier(filename[i..]) == Identifier(filename)
    {
      var c := filename[i];
      OneMore(filename, i, result);
      if IsAlnum(c) {
        result := result + [c];
      } else {
        result := result + [UNDERSCORE, HexDigit(c / 16), HexDigit(c % 16)];
      }
    }
    AtEnd(filename, result);
  }

  lemma Whole(filename: seq<Byte>)
    ensures [] + Identifier(filename[0..]) == Identifier(filename)
  {
    assert filename[0..] == filename;
  }

  lemma OneMore(filename: seq<Byte>, i: nat, result: seq<Byte>)
    requires i < |filename|
    ensures result + Identifier(filename[i..]) == (result + Escaped(filename[i])) + Identifier(filename[i + 1..])
  {
    hide Escaped;
    var c, rest := filename[i], Identifier(filename[i + 1..]);
    assert filename[i..][1..] == filename[i + 1..];
    assert Identifier(filename[i..]) == Escaped(c) + rest;
    assert result + (Escaped(c) + rest) == (result + Escaped(c)) + rest;
  }

  lemma AtEnd(filename: seq<Byte>, result: seq<Byte>)
    ensures result + Identifier(filename[|filename|..]) == result
  {
    assert filename[|filename|..] == [];
  }

  function HexValue(c: Byte): int {
    if c <= 0x39 then c - 0x30 else c - 0x57
  }

  /** Reads an identifier back. */
  function Unescaped(id: seq<Byte>): seq<int> {
    if id == [] then []
    else if id[0] == UNDERSCORE && |id| >= 3 then [16 * HexValue(id[1]) + HexValue(id[2])] + Unescaped(id[3..])
    else [id[0]] + Unescaped(id[1..])
  }

  lemma {:induction false} IdentifierReadsBack(filename: seq<Byte>)
    ensures Unescaped(Identifier(filename)) == filename
  {
    if filename != [] {
      var c, rest := filename[0], filename[1..];
      IdentifierReadsBack(rest);
      assert (Escaped(c) + Identifier(rest))[|Escaped(c)|..] == Identifier(rest);
      assert filename == [c] + rest;
    }
  }

  /** The result can stand inside a C identifier. */
  lemma {:induction false} IdentifierAlphabet(filename: seq<Byte>)
    ensures forall c <- Identifier(filename) :: IsAlnum(c) || c == UNDERSCORE
  {
    if filename != [] {
      IdentifierAlphabet(filename[1..]);
    }
  }

  const GRPC_: seq<Byte> := [0x47, 0x52, 0x50, 0x43, 0x5f]
  const INCLUDED: seq<Byte> := [0x5f, 0x5f, 0x49, 0x4e, 0x43, 0x4c, 0x55, 0x44, 0x45, 0x44]

  function Guard(filename: seq<Byte>): seq<Byte> {
    GRPC_ + Identifier(filename) + INCLUDED
  }

  /** Headers of different files never share a guard, so including one never hides another. */
  lemma GuardsAreDistinct(f: seq<Byte>, g: seq<Byte>)
    ensures Guard(f) == Guard(g) <==> f == g
  {
    if Guard(f) == Guard(g) {
      assert |Identifier(f)| == |Identifier(g)|;
      assert Identifier(f) == Guard(f)[|GRPC_|..|GRPC_| + |Identifier(f)|];
      assert Identifier(g) == Guard(g)[|GRPC_|..|GRPC_| + |Identifier(f)|];
      IdentifierReadsBack(f);
      IdentifierReadsBack(g);
    }
  }
}
