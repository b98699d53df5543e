/**
 The dynamic table of HPACK: the reference it is meant to follow, and the ring buffer of
 src/core/transport/chttp2/hpack_table.c that implements it in the decoder.

 A header is a key and a value; equal ones are one interned object in the source.
 */
module HpackTable {
  import opened Common

  datatype Header = Header(key: string, value: seq<Byte>)

  const LAST_STATIC_ENTRY := 61
  const MAX_BYTES := 4096
  const ENTRY_OVERHEAD := 32
  const MAX_TABLE_COUNT := 128  // MAX_BYTES in entries of ENTRY_OVERHEAD bytes

  function Size(h: Header): nat {
    ENTRY_OVERHEAD + |h.key| + |h.value|
  }

  // ---------- The reference: a list, oldest entry first ----------

  function Bytes(table: seq<Header>): nat {
    if table == [] then 0 else Size(table[0]) + Bytes(table[1..])
  }

  /** The oldest entries go until there is room. */
  function Evicted(table: seq<Header>, room: nat): (kept: seq<Header>)
    ensures |kept| <= |table|
  {
    if table == [] || Bytes(table) + room <= MAX_BYTES then table else Evicted(table[1..], room)
  }

  /** Adding an entry, even one too large for an empty table. */
  function Added(table: seq<Header>, h: Header): seq<Header> {
    if Size(h) > MAX_BYTES then [] else Evicted(table, Size(h)) + [h]
  }

  /** What an index on the wire stands for: static entries, then dynamic ones, newest first. */
  function Lookup(statics: seq<Header>, table: seq<Header>, index: nat): Option<Header>
    requires |statics| == LAST_STATIC_ENTRY
  {
    if index == 0 then None
    else if index <= LAST_STATIC_ENTRY then Some(statics[index - 1])
    else if index - LAST_STATIC_ENTRY <= |table| then Some(table[|table| - (index - LAST_STATIC_ENTRY)])
    else None
  }

  /** Eviction keeps the newest entries, as many as fit. */
  lemma {:induction false} EvictedIsLongestSuffix(table: seq<Header>, room: nat)
    requires room <= MAX_BYTES
    ensures exists n: nat :: && n <= |table| && Evicted(table, room) == table[n..] && Bytes(table[n..]) + room <= MAX_BYTES
                             && forall k: nat :: k < n ==> Bytes(table[k..]) + room > MAX_BYTES
  {
    hide Bytes;
    if table == [] {
      assert table[0..] == table && Bytes(table[0..]) == 0 by { EmptyBytes(); }
    } else if Bytes(table) + room <= MAX_BYTES {
      assert table[0..] == table;
    } else {
      EvictedIsLongestSuffix(table[1..], room);
      var n: nat :| && n <= |table[1..]| && Evicted(table[1..], room) == table[1..][n..] && Bytes(table[1..][n..]) + room <= MAX_BYTES
                    && forall k: nat :: k < n ==> Bytes(table[1..][k..]) + room > MAX_BYTES;
      assert table[1..][n..] == table[n + 1..];
      forall k: nat | k < n + 1 ensures Bytes(table[k..]) + room > MAX_BYTES {
        if k == 0 {
          assert table[0..] == table;
        } else {
          assert table[1..][k - 1..] == table[k..];
        }
      }
      assert Evicted(table, room) == table[n + 1..];
    }
  }

  lemma EmptyBytes()
    ensures Bytes([]) == 0
  {
  }

  lemma {:induction false} EvictedFits(table: seq<Header>, room: nat)
    requires room <= MAX_BYTES
    ensures Bytes(Evicted(table, room)) + room <= MAX_BYTES
  {
    if table != [] && Bytes(table) + room > MAX_BYTES {
      EvictedFits(table[1..], room);
    }
  }

  lemma {:induction false} BytesAppend(table: seq<Header>, h: Header)
    ensures Bytes(table + [h]) == Bytes(table) + Size(h)
  {
    if table == [] {
      assert table + [h] == [h] && [h][1..] == [];
    } else {
      BytesAppend(table[1..], h);
      assert (table + [h])[1..] == table[1..] + [h];
    }
  }

  lemma {:induction false} CountBound(table: seq<Header>)
    ensures ENTRY_OVERHEAD * |table| <= Bytes(table)
  {
    if table != [] { CountBound(table[1..]); }
  }

  lemma AddedFits(table: seq<Header>, h: Header)
    ensures Bytes(Added(table, h)) <= MAX_BYTES
  {
    if Size(h) <= MAX_BYTES {
      EvictedFits(table, Size(h));
      BytesAppend(Evicted(table, Size(h)), h);
    }
  }

  // ---------- Rings ----------

  /** The items lie in the cells from `start` on, around the end. */
  ghost predicate Ring<T(!new)>(cells: seq<T>, start: nat, items: seq<T>) {
    && |cells| == MAX_TABLE_COUNT && |items| <= MAX_TABLE_COUNT
    && forall i :: 0 <= i < |items| ==> cells[(start + i) % MAX_TABLE_COUNT] == items[i]
  }

  lemma RingDrop<T(!new)>(cells: seq<T>, start: nat, items: seq<T>)
    requires Ring(cells, start, items) && items != []
    ensures cells[start % MAX_TABLE_COUNT] == items[0] && Ring(cells, start + 1, items[1..])
  {
    assert cells[(start + 0) % MAX_TABLE_COUNT] == items[0];
    forall i | 0 <= i < |items[1..]| ensures cells[(start + 1 + i) % MAX_TABLE_COUNT] == items[1..][i] {
      assert start + 1 + i == start + (i + 1);
    }
  }

  lemma OtherCell(start: nat, i: nat, k: nat)
    requires i < k < MAX_TABLE_COUNT
    ensures (start + i) % MAX_TABLE_COUNT != (start + k) % MAX_TABLE_COUNT
  {
  }

  lemma RingAppend<T(!new)>(cells: seq<T>, start: nat, items: seq<T>, x: T)
    requires Ring(cells, start, items) && |items| < MAX_TABLE_COUNT
    ensures Ring(cells[(start + |items|) % MAX_TABLE_COUNT := x], start, items + [x])
  {
    var n := |items|;
    var more := cells[(start + n) % MAX_TABLE_COUNT := x];
    forall i | 0 <= i < n ensures more[(start + i) % MAX_TABLE_COUNT] == (items + [x])[i] {
      OtherCell(start, i, n);
    }
  }

  lemma WrapAround(a: nat, b: nat)
    ensures (a % MAX_TABLE_COUNT + b) % MAX_TABLE_COUNT == (a + b) % MAX_TABLE_COUNT
  {
  }

  lemma RingReduce<T(!new)>(cells: seq<T>, start: nat, items: seq<T>)
    requires Ring(cells, start, items)
    ensures Ring(cells, start % MAX_TABLE_COUNT, items)
  {
    forall i | 0 <= i < |items| ensures cells[(start % MAX_TABLE_COUNT + i) % MAX_TABLE_COUNT] == items[i] {
      WrapAround(start, i);
    }
  }

  // ---------- grpc_chttp2_hptbl ----------

  class Table {
    const statics: seq<Header>
    const ents: array<Header>
    var firstEnt: nat
    var lastEnt: nat
    var numEnts: nat
    var memUsed: nat
    ghost var contents: seq<Header>

    ghost predicate Valid()
      reads this, ents
    {
      && |statics| == LAST_STATIC_ENTRY && ents.Length == MAX_TABLE_COUNT
      && firstEnt < MAX_TABLE_COUNT && numEnts == |contents| && memUsed == Bytes(contents) <= MAX_BYTES
      && lastEnt == (firstEnt + numEnts) % MAX_TABLE_COUNT
      && Ring(ents[..], firstEnt, contents)
    }

    constructor (statics: seq<Header>)
      requires |statics| == LAST_STATIC_ENTRY
      ensures Valid() && fresh(ents) && contents == [] && this.statics == statics
    {
      this.statics := statics;
      ents := new Header[MAX_TABLE_COUNT];
      firstEnt, lastEnt, numEnts, memUsed := 0, 0, 0, 0;
      contents := [];
    }

    method Find(index: nat) returns (r: Option<Header>)
      requires Valid() && index > 0
      ensures r == Lookup(statics, contents, index)
    {
      if index <= LAST_STATIC_ENTRY {
        return Some(statics[index - 1]);
      }
      var i := index - (LAST_STATIC_ENTRY + 1);
      if i < numEnts {
        var offset := (numEnts - 1 - i + firstEnt) % MAX_TABLE_COUNT;
        assert ents[..][(firstEnt + (numEnts - 1 - i)) % MAX_TABLE_COUNT] == contents[numEnts - 1 - i];
        return Some(ents[offset]);
      }
      return None;
    }

    method Evict1()
      requires Valid() && numEnts > 0
      modifies this`firstEnt, this`numEnts, this`memUsed, this`contents
      ensures Valid() && contents == old(contents)[1..]
    {
      hide Ring;
      RingDrop(ents[..], firstEnt, contents);
      RingReduce(ents[..], firstEnt + 1, contents[1..]);
      var first := ents[firstEnt];
      assert first == ents[..][firstEnt % MAX_TABLE_COUNT];
      WrapAround(firstEnt + 1, numEnts - 1);
      memUsed := memUsed - Size(first);
      firstEnt := (firstEnt + 1) % MAX_TABLE_COUNT;
      numEnts := numEnts - 1;
      contents := contents[1..];
    }

    method EvictAll()
      requires Valid()
      modifies this`firstEnt, this`numEnts, this`memUsed, this`contents
      ensures Valid() && contents == []
    {
      while numEnts > 0
        invariant Valid()
        decreases numEnts
      {
        Evict1();
      }
    }

    method MakeRoom(room: nat)
      requires Valid() && room <= MAX_BYTES
      modifies this`firstEnt, this`numEnts, this`memUsed, this`contents
      ensures Valid() && contents == Evicted(old(contents), room) && memUsed + room <= MAX_BYTES
    {
      hide Ring, Bytes;
      EmptyBytes();
      while room > MAX_BYTES - memUsed
        invariant Valid() && Evicted(contents, room) == Evicted(old(contents), room)
        decreases numEnts
      {
        Evict1();
      }
    }

    /** Copies an entry in, once there is room for it. */
    method Append(h: Header)
      requires Valid() && memUsed + Size(h) <= MAX_BYTES
      modifies this`lastEnt, this`numEnts, this`memUsed, this`contents, ents
      ensures Valid() && contents == old(contents) + [h]
    {
      hide Ring, Bytes;
      CountBound(contents);
      RingAppend(ents[..], firstEnt, contents, h);
      BytesAppend(contents, h);
      WrapAround(firstEnt + numEnts, 1);
      ghost var cells := ents[..];
      ents[lastEnt] := h;
      assert ents[..] == cells[lastEnt := h];
      lastEnt := (lastEnt + 1) % MAX_TABLE_COUNT;
      numEnts := numEnts + 1;
      memUsed := memUsed + Size(h);
      contents := contents + [h];
    }

    method Add(h: Header)
      requires Valid()
      modifies this, ents
      ensures Valid() && contents == Added(old(contents), h)
    {
      hide Ring, Bytes, Evicted;
      if Size(h) > MAX_BYTES {
        EvictAll();
      } else {
        MakeRoom(Size(h));
        Append(h);
      }
    }
  }
}
