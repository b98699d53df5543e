/**
 The HPACK encoder of src/core/transport/chttp2/stream_encoder.c against the decoder of
 hpack_table.c and hpack_parser.c: what is in the decoder's table, as the encoder sees it, and what
 the decoder makes of each instruction.

 The hash of a header only chooses a counter of the popularity filter and two places in each hash
 table, so any choice of these is allowed.  An instruction is what the emit functions write, before its
 indices and lengths become bytes.
 */
module HpackCompressor {
  import opened Common
  import opened HpackBinary
  import opened HpackTable
  import HpackBinaryCoders

  const NUM_VALUES := 256
  const MAX_DECODER_SPACE_USAGE := 512
  const ONE_ON_ADD_PROBABILITY := 128
  const WORD := 0x1_0000_0000  // the number of values of a gpr_uint32

  // ---------- Instructions ----------

  datatype Name = ByIndex(index: nat) | Spelled(key: string)

  /** A value on the wire: its bytes, and whether the length says that they are Huffman coded. */
  datatype Value = Value(bytes: seq<Byte>, huffman: bool)

  datatype Instruction = Indexed(index: nat) | Literal(add: bool, name: Name, value: Value)

  predicate IsBinary(key: string) {
    |key| >= 5 && key[|key| - 4..] == "-bin"
  }

  /** The bytes of a value: those of a binary header are put into base64 and Huffman coded. */
  function Wire(h: Header): seq<Byte> {
    if IsBinary(h.key) then Compressed(h.value) else h.value
  }

  /** An instruction for a header says that its value is Huffman coded when it is not, or the reverse. */
  predicate Misflagged(ins: Instruction, h: Header) {
    ins.Literal? && ins.value.huffman != IsBinary(h.key)
  }

  predicate Adds(ins: Instruction) {
    ins.Literal? && ins.add
  }

  function Grown(table: seq<Header>, ins: Instruction, h: Header): seq<Header> {
    if Adds(ins) then Added(table, h) else table
  }

  // ---------- The decoder ----------

  /** What the parser takes a value for, or None on an error. */
  function ReadValue(key: string, v: Value): Option<seq<Byte>> {
    var chars := if v.huffman then Inflated(v.bytes) else Some(v.bytes);
    if chars.None? || !IsBinary(key) then chars else ReadBase64(chars.value)
  }

  /** A value arrives if it is flagged as it is coded or is empty, and never otherwise.  (A plain value is never
      flagged.) */
  lemma {:induction false} ValueArrivesIff(h: Header, huffman: bool)
    requires huffman ==> IsBinary(h.key)
    ensures ReadValue(h.key, Value(Wire(h), huffman)) == Some(h.value) <==> huffman == IsBinary(h.key) || h.value == []
  {
    hide IsBinary, Compressed, ReadBase64, Inflated;
    if huffman {
      CompressedRoundTrip(h.value);
    } else {
      MisreadIff(h.value);
    }
  }

  function ReadName(statics: seq<Header>, table: seq<Header>, name: Name): Option<string>
    requires |statics| == LAST_STATIC_ENTRY
  {
    match name
    case Spelled(key) => Some(key)
    case ByIndex(i) =>
      var h := Lookup(statics, table, i);
      if h.None? then None else Some(h.value.key)
  }

  function Read(statics: seq<Header>, table: seq<Header>, ins: Instruction): Option<Header>
    requires |statics| == LAST_STATIC_ENTRY
  {
    match ins
    case Indexed(i) => Lookup(statics, table, i)
    case Literal(_, name, v) =>
      var key := ReadName(statics, table, name);
      if key.None? then None else
        var text := ReadValue(key.value, v);
        if text.None? then None else Some(Header(key.value, text.value))
  }

  /** The decoder: its table, and whether an error has jammed it. */
  datatype Reader = Reader(table: seq<Header>, jammed: bool)

  function ReadNext(statics: seq<Header>, r: Reader, ins: Instruction): (Option<Header>, Reader)
    requires |statics| == LAST_STATIC_ENTRY
  {
    if r.jammed then (None, r) else
      var h := Read(statics, r.table, ins);
      if h.None? then (None, r.(jammed := true)) else (h, r.(table := Grown(r.table, ins, h.value)))
  }

  class Decoder {
    const table: Table
    var jammed: bool

    ghost predicate Valid()
      reads this, table, table.ents
    {
      table.Valid()
    }

    ghost function View(): Reader
      reads this, table
    {
      Reader(table.contents, jammed)
    }

    constructor (statics: seq<Header>)
      requires |statics| == LAST_STATIC_ENTRY
      ensures Valid() && fresh(table) && fresh(table.ents) && View() == Reader([], false) && table.statics == statics
    {
      table := new Table(statics);
      jammed := false;
    }

    method FindOrNone(i: nat) returns (h: Option<Header>)
      requires Valid()
      ensures h == Lookup(table.statics, table.contents, i)
    {
      if i == 0 { return None; }
      h := table.Find(i);
    }

    /** The name and value of an instruction, by the table as it is.  An index without an entry is an error
        here; the source does not look. */
    method Parse(ins: Instruction) returns (r: Option<Header>)
      requires Valid()
      ensures r == Read(table.statics, table.contents, ins)
    {
      hide IsBinary, Inflated, ReadBase64;
      match ins
      case Indexed(i) =>
        r := FindOrNone(i);
      case Literal(_, name, v) =>
        var key: string;
        match name {
          case Spelled(k) =>
            key := k;
          case ByIndex(i) =>
            var named := FindOrNone(i);
            if named.None? { return None; }
            key := named.value.key;
        }
        var text := if v.huffman then Inflated(v.bytes) else Some(v.bytes);
        if text.Some? && IsBinary(key) {
          HpackBinaryCoders.FlattenedOne(text.value);
          text := HpackBinaryCoders.ParseBinary([text.value]);
        }
        if text.None? { return None; }
        r := Some(Header(key, text.value));
    }

    /** The finish functions of the parser, and on_hdr. */
    method Receive(ins: Instruction) returns (r: Option<Header>)
      requires Valid()
      modifies this, table, table.ents
      ensures Valid() && (r, View()) == ReadNext(table.statics, old(View()), ins)
    {
      hide Read, Added;
      if jammed { return None; }
      r := Parse(ins);
      if r.None? {
        jammed := true;
      } else if Adds(ins) {
        table.Add(r.value);
      }
    }
  }

  // ---------- Hash tables with two places for each entry ----------

  datatype Hashed<T> = Hashed(entries: seq<Option<T>>, indices: seq<nat>) {
    predicate Sized() { |entries| == |indices| == NUM_VALUES }
  }

  /** When x was added, if that is known and it is still in the decoder's table. */
  function Hit<T(==)>(t: Hashed<T>, x: T, s2: nat, s3: nat, tail: nat): Option<nat>
    requires t.Sized() && s2 < NUM_VALUES && s3 < NUM_VALUES
  {
    if t.entries[s2] == Some(x) && t.indices[s2] > tail then Some(t.indices[s2])
    else if t.entries[s3] == Some(x) && t.indices[s3] > tail then Some(t.indices[s3])
    else None
  }

  /** The place x takes: its own, else a free one, else that of the older entry. */
  function Place<T(==)>(t: Hashed<T>, x: T, s2: nat, s3: nat): (s: nat)
    requires t.Sized() && s2 < NUM_VALUES && s3 < NUM_VALUES
    ensures s < NUM_VALUES
  {
    if t.entries[s2] == Some(x) then s2
    else if t.entries[s3] == Some(x) then s3
    else if t.entries[s2].None? then s2
    else if t.entries[s3].None? then s3
    else if t.indices[s2] < t.indices[s3] then s2 else s3
  }

  function Stored<T(==)>(t: Hashed<T>, x: T, s2: nat, s3: nat, index: nat): (t': Hashed<T>)
    requires t.Sized() && s2 < NUM_VALUES && s3 < NUM_VALUES
    ensures t'.Sized()
  {
    var s := Place(t, x, s2, s3);
    Hashed(t.entries[s := Some(x)], t.indices[s := index])
  }

  /** An entry whose index is newer than `tail` is in the decoder's table, at that place. */
  ghost predicate Points<T(!new)>(t: Hashed<T>, tail: nat, names: seq<T>) {
    t.Sized() && forall s :: 0 <= s < NUM_VALUES && t.entries[s].Some? && t.indices[s] > tail ==>
                               t.indices[s] - tail <= |names| && names[t.indices[s] - tail - 1] == t.entries[s].value
  }

  lemma PointsDrop<T(!new)>(t: Hashed<T>, tail: nat, names: seq<T>)
    requires Points(t, tail, names) && names != []
    ensures Points(t, tail + 1, names[1..])
  {
  }

  /** What is stored points at the new entry.  An index that wraps around looks old and is never used. */
  lemma PointsStore<T(!new)>(t: Hashed<T>, tail: nat, names: seq<T>, x: T, s2: nat, s3: nat)
    requires Points(t, tail, names) && s2 < NUM_VALUES && s3 < NUM_VALUES && tail < WORD && |names| < MAX_TABLE_COUNT
    ensures Points(Stored(t, x, s2, s3, (tail + |names| + 1) % WORD), tail, names + [x])
  {
    var index := (tail + |names| + 1) % WORD;
    assert index == tail + |names| + 1 || index <= tail;
  }

  /** A hit is in the decoder's table. */
  lemma HitIsRight<T(!new)>(t: Hashed<T>, x: T, s2: nat, s3: nat, tail: nat, names: seq<T>)
    requires Points(t, tail, names) && s2 < NUM_VALUES && s3 < NUM_VALUES && Hit(t, x, s2, s3, tail).Some?
    ensures var i := Hit(t, x, s2, s3, tail).value;
            tail < i <= tail + |names| && names[i - tail - 1] == x
  {
  }

  // ---------- The popularity filter ----------

  datatype Filter = Filter(counts: seq<nat>, sum: nat)

  function Sum(counts: seq<nat>): nat {
    if counts == [] then 0 else Sum(counts[..|counts| - 1]) + counts[|counts| - 1]
  }

  function Halved(counts: seq<nat>): (r: seq<nat>)
    ensures |r| == |counts|
  {
    seq(|counts|, i requires 0 <= i < |counts| => counts[i] / 2)
  }

  /** Counts one more header; when a count is full all of them are halved. */
  function Counted(f: Filter, i: nat): Filter
    requires i < |f.counts|
  {
    var counts := f.counts[i := f.counts[i] + 1];
    if counts[i] < 255 then Filter(counts, f.sum + 1) else Filter(Halved(counts), Sum(Halved(counts)))
  }

  predicate Popular(f: Filter, i: nat)
    requires i < |f.counts|
  {
    f.counts[i] >= f.sum / ONE_ON_ADD_PROBABILITY
  }

  /** The counts fit into a byte with room for one more, and the sum is theirs. */
  ghost predicate FilterOk(f: Filter) {
    |f.counts| == NUM_VALUES && f.sum == Sum(f.counts) && forall i :: 0 <= i < NUM_VALUES ==> f.counts[i] < 255
  }

  lemma {:induction false} SumUpdate(counts: seq<nat>, i: nat, c: nat)
    requires i < |counts|
    ensures Sum(counts[i := c]) == Sum(counts) - counts[i] + c
  {
    var n := |counts| - 1;
    if i == n {
      assert counts[i := c][..n] == counts[..n];
    } else {
      SumUpdate(counts[..n], i, c);
      assert counts[i := c][..n] == counts[..n][i := c];
    }
  }

  lemma CountedOk(f: Filter, i: nat)
    requires FilterOk(f) && i < NUM_VALUES
    ensures FilterOk(Counted(f, i))
  {
    SumUpdate(f.counts, i, f.counts[i] + 1);
    hide Sum;
  }

  // ---------- The encoder, on values ----------

  /** `table` is the decoder's table, if the decoder follows. */
  datatype Encoder = Encoder(tail: nat, table: seq<Header>, elems: Hashed<Header>, keys: Hashed<string>, filter: Filter)

  /** A header to send, with the counter and the places that its hashes choose. */
  datatype Job = Job(header: Header, counter: nat, elem2: nat, elem3: nat, key2: nat, key3: nat) {
    predicate Ok() {
      && header.key != "" && counter < NUM_VALUES
      && elem2 < NUM_VALUES && elem3 < NUM_VALUES && key2 < NUM_VALUES && key3 < NUM_VALUES
    }
  }

  function Keys(table: seq<Header>): (r: seq<string>)
    ensures |r| == |table|
  {
    seq(|table|, i requires 0 <= i < |table| => table[i].key)
  }

  predicate Sized(e: Encoder) {
    e.elems.Sized() && e.keys.Sized() && |e.filter.counts| == NUM_VALUES
  }

  ghost predicate Ok(e: Encoder) {
    && e.tail < WORD && Bytes(e.table) <= MAX_BYTES && FilterOk(e.filter)
    && Points(e.elems, e.tail, e.table) && Points(e.keys, e.tail, Keys(e.table))
  }

  function NewEncoder(): Encoder {
    Encoder(0, [], Hashed(seq(NUM_VALUES, _ => None), seq(NUM_VALUES, _ => 0)),
            Hashed(seq(NUM_VALUES, _ => None), seq(NUM_VALUES, _ => 0)), Filter(seq(NUM_VALUES, _ => 0), 0))
  }

  function ElemHit(e: Encoder, job: Job): Option<nat>
    requires Sized(e) && job.Ok()
  {
    Hit(e.elems, job.header, job.elem2, job.elem3, e.tail)
  }

  function KeyHit(e: Encoder, job: Job): Option<nat>
    requires Sized(e) && job.Ok()
  {
    Hit(e.keys, job.header.key, job.key2, job.key3, e.tail)
  }

  /** dynidx, in 32 bits: the wire index of an element by the time it was added. */
  function DynIdx(e: Encoder, index: nat): nat {
    (1 + LAST_STATIC_ENTRY + e.tail + |e.table| - index) % WORD
  }

  predicate ShouldAdd(e: Encoder, job: Job)
    requires Sized(e) && job.Ok()
  {
    Size(job.header) < MAX_DECODER_SPACE_USAGE && Popular(Counted(e.filter, job.counter), job.counter)
  }

  /** The instruction for a header. */
  function Plan(e: Encoder, job: Job): Instruction
    requires Sized(e) && job.Ok()
  {
    var h := job.header;
    if ElemHit(e, job).Some? then Indexed(DynIdx(e, ElemHit(e, job).value))
    else if KeyHit(e, job).Some?
    then Literal(ShouldAdd(e, job), ByIndex(DynIdx(e, KeyHit(e, job).value)), Value(Wire(h), false))
    else Literal(ShouldAdd(e, job), Spelled(h.key), Value(Wire(h), IsBinary(h.key)))
  }

  /** add_elem; None when the index of the tail overflows, which an assert turns into an abort. */
  function WithElem(e: Encoder, job: Job): (r: Option<Encoder>)
    requires Sized(e) && job.Ok()
    ensures r.Some? ==> Sized(r.value)
  {
    var h := job.header;
    var kept := Evicted(e.table, Size(h));
    var tail := e.tail + |e.table| - |kept|;
    var index := (e.tail + |e.table| + 1) % WORD;
    if tail >= WORD then None
    else Some(Encoder(tail, kept + [h], Stored(e.elems, h, job.elem2, job.elem3, index),
                      Stored(e.keys, h.key, job.key2, job.key3, index), e.filter))
  }

  function Counting(e: Encoder, job: Job): (r: Encoder)
    requires Sized(e) && job.Ok()
    ensures Sized(r)
  {
    e.(filter := Counted(e.filter, job.counter))
  }

  /** The encoder after a header. */
  function Next(e: Encoder, job: Job): (r: Option<Encoder>)
    requires Sized(e) && job.Ok()
    ensures r.Some? ==> Sized(r.value)
  {
    if Adds(Plan(e, job)) then WithElem(Counting(e, job), job) else Some(Counting(e, job))
  }

  /** The encoder goes on while its indices are far from the overflow. */
  lemma NextGoesOn(e: Encoder, job: Job)
    requires Sized(e) && job.Ok() && e.tail + |e.table| < WORD
    ensures Next(e, job).Some?
    ensures Next(e, job).value.tail + |Next(e, job).value.table| <= e.tail + |e.table| + 1
  {
    hide Plan, Stored, Counted;
  }

  // ---------- What an instruction stands for ----------

  predicate InTable(index: nat, table: seq<Header>) {
    LAST_STATIC_ENTRY < index <= LAST_STATIC_ENTRY + |table|
  }

  function Position(index: nat, table: seq<Header>): (p: nat)
    requires InTable(index, table)
    ensures p < |table|
  {
    |table| - (index - LAST_STATIC_ENTRY)
  }

  /** That an instruction stands for a header, given the decoder's table. */
  predicate Says(ins: Instruction, table: seq<Header>, h: Header) {
    match ins
    case Indexed(i) => InTable(i, table) && table[Position(i, table)] == h
    case Literal(_, name, v) =>
      && v.bytes == Wire(h) && (v.huffman ==> IsBinary(h.key))
      && match name
         case Spelled(key) => key == h.key
         case ByIndex(i) => InTable(i, table) && table[Position(i, table)].key == h.key
  }

  /** The wire index of an element that the decoder has points at that element. */
  lemma DynIdxPoints(e: Encoder, i: nat)
    requires e.tail < i <= e.tail + |e.table| && |e.table| <= MAX_TABLE_COUNT
    ensures InTable(DynIdx(e, i), e.table) && Position(DynIdx(e, i), e.table) == i - e.tail - 1
  {
    var index := 1 + LAST_STATIC_ENTRY + e.tail + |e.table| - i;
    assert LAST_STATIC_ENTRY < index <= LAST_STATIC_ENTRY + |e.table|;
    assert index % WORD == index;
  }

  lemma OkSized(e: Encoder)
    requires Ok(e)
    ensures Sized(e) && |e.table| <= MAX_TABLE_COUNT
  {
    CountBound(e.table);
    hide Bytes;
  }

  lemma PlanSays(e: Encoder, job: Job)
    requires Ok(e) && job.Ok()
    ensures Sized(e) && Says(Plan(e, job), e.table, job.header)
  {
    OkSized(e);
    hide Bytes, Hit, IsBinary, ShouldAdd, FilterOk, Wire;
    if ElemHit(e, job).Some? {
      HitIsRight(e.elems, job.header, job.elem2, job.elem3, e.tail, e.table);
      DynIdxPoints(e, ElemHit(e, job).value);
    } else if KeyHit(e, job).Some? {
      HitIsRight(e.keys, job.header.key, job.key2, job.key3, e.tail, Keys(e.table));
      DynIdxPoints(e, KeyHit(e, job).value);
    }
  }

  /** The flag is wrong exactly for a binary header that is sent by the index of its key. */
  lemma MisflaggedIff(e: Encoder, job: Job)
    requires Sized(e) && job.Ok()
    ensures Misflagged(Plan(e, job), job.header) <==> IsBinary(job.header.key) && ElemHit(e, job).None? && KeyHit(e, job).Some?
  {
    hide IsBinary, ShouldAdd, DynIdx, Hit, Wire;
  }

  lemma {:induction false} PointsEvicted(e: Encoder, table: seq<Header>, tail: nat, room: nat)
    requires Points(e.elems, tail, table) && Points(e.keys, tail, Keys(table))
    ensures var kept := Evicted(table, room);
            && |kept| <= |table|
            && Points(e.elems, tail + |table| - |kept|, kept) && Points(e.keys, tail + |table| - |kept|, Keys(kept))
    decreases |table|
  {
    hide Points, Bytes;
    if table != [] && Bytes(table) + room > MAX_BYTES {
      PointsDrop(e.elems, tail, table);
      PointsDrop(e.keys, tail, Keys(table));
      KeysDrop(table);
      PointsEvicted(e, table[1..], tail + 1, room);
    }
  }

  lemma KeysDrop(table: seq<Header>)
    requires table != []
    ensures Keys(table[1..]) == Keys(table)[1..]
  {
  }

  lemma KeysAppend(table: seq<Header>, h: Header)
    ensures Keys(table + [h]) == Keys(table) + [h.key]
  {
  }

  lemma WithElemPoints(e: Encoder, job: Job, kept: seq<Header>, tail: nat)
    requires Sized(e) && job.Ok() && tail < WORD && |kept| < MAX_TABLE_COUNT
    requires Points(e.elems, tail, kept) && Points(e.keys, tail, Keys(kept))
    ensures var h, index := job.header, (tail + |kept| + 1) % WORD;
            && Points(Stored(e.elems, h, job.elem2, job.elem3, index), tail, kept + [h])
            && Points(Stored(e.keys, h.key, job.key2, job.key3, index), tail, Keys(kept + [h]))
  {
    hide Points, Stored, Keys;
    KeysAppend(kept, job.header);
    PointsStore(e.elems, tail, kept, job.header, job.elem2, job.elem3);
    PointsStore(e.keys, tail, Keys(kept), job.header.key, job.key2, job.key3);
  }

  lemma WithElemFits(table: seq<Header>, h: Header)
    requires Size(h) <= MAX_BYTES
    ensures var kept := Evicted(table, Size(h));
            |kept| < MAX_TABLE_COUNT && Bytes(kept + [h]) <= MAX_BYTES
  {
    var kept := Evicted(table, Size(h));
    EvictedFits(table, Size(h));
    BytesAppend(kept, h);
    CountBound(kept);
    hide Bytes, Evicted;
  }

  lemma WithElemOk(e: Encoder, job: Job)
    requires Ok(e) && job.Ok() && Size(job.header) < MAX_DECODER_SPACE_USAGE && Sized(e) && WithElem(e, job).Some?
    ensures Ok(WithElem(e, job).value) && WithElem(e, job).value.table == Added(e.table, job.header)
  {
    hide Points, Bytes, Evicted, FilterOk, Keys, Stored, Sized;
    var h := job.header;
    var kept := Evicted(e.table, Size(h));
    PointsEvicted(e, e.table, e.tail, Size(h));
    WithElemFits(e.table, h);
    WithElemPoints(e, job, kept, e.tail + |e.table| - |kept|);
  }

  /** Every step of the encoder keeps its picture of the decoder's table. */
  lemma NextOk(e: Encoder, job: Job)
    requires Ok(e) && job.Ok() && Sized(e) && Next(e, job).Some?
    ensures Ok(Next(e, job).value) && Next(e, job).value.table == Grown(e.table, Plan(e, job), job.header)
  {
    CountedOk(e.filter, job.counter);
    hide Bytes, Points, WithElem, FilterOk, Counted, ElemHit, KeyHit, Popular;
    if Adds(Plan(e, job)) {
      assert ShouldAdd(e, job);
      OkSized(Counting(e, job));
      WithElemOk(Counting(e, job), job);
    }
  }

  lemma NewEncoderOk()
    ensures Ok(NewEncoder()) && Sized(NewEncoder())
  {
    ZeroSum(NewEncoder().filter.counts);
  }

  lemma {:induction false} ZeroSum(counts: seq<nat>)
    requires forall i :: 0 <= i < |counts| ==> counts[i] == 0
    ensures Sum(counts) == 0
  {
    if counts != [] {
      ZeroSum(counts[..|counts| - 1]);
    }
  }

  // ---------- Whole connections ----------

  datatype Session = Session(encoder: Encoder, sent: seq<Instruction>)

  /** What the encoder sends for a sequence of headers; None when it aborts on the way, by the overflow or
      because a key is empty. */
  function Sent(jobs: seq<Job>): (s: Option<Session>)
    ensures s.Some? ==> Sized(s.value.encoder) && |s.value.sent| == |jobs|
  {
    if jobs == [] then Some(Session(NewEncoder(), [])) else
      var n := |jobs| - 1;
      var before := Sent(jobs[..n]);
      if before.None? || !jobs[n].Ok() then None else
        var e := before.value.encoder;
        var next := Next(e, jobs[n]);
        if next.None? then None else Some(Session(next.value, before.value.sent + [Plan(e, jobs[n])]))
  }

  datatype Reading = Reading(reader: Reader, received: seq<Option<Header>>)

  /** What the decoder makes of a sequence of instructions. */
  function Received(statics: seq<Header>, sent: seq<Instruction>): Reading
    requires |statics| == LAST_STATIC_ENTRY
  {
    if sent == [] then Reading(Reader([], false), []) else
      var n := |sent| - 1;
      var before := Received(statics, sent[..n]);
      var (h, reader) := ReadNext(statics, before.reader, sent[n]);
      Reading(reader, before.received + [h])
  }

  function Headers(jobs: seq<Job>): (r: seq<Option<Header>>)
    ensures |r| == |jobs|
  {
    seq(|jobs|, i requires 0 <= i < |jobs| => Some(jobs[i].header))
  }

  /** An instruction whose value does not arrive. */
  predicate Misread(ins: Instruction, h: Header) {
    Misflagged(ins, h) && h.value != []
  }

  predicate Clean(sent: seq<Instruction>, jobs: seq<Job>)
    requires |sent| == |jobs|
  {
    forall i :: 0 <= i < |sent| ==> !Misread(sent[i], jobs[i].header)
  }

  /** The decoder takes an instruction for what it stands for, unless it misreads its value. */
  lemma {:induction false} ReadsWhatItSays(statics: seq<Header>, table: seq<Header>, ins: Instruction, h: Header)
    requires |statics| == LAST_STATIC_ENTRY && Says(ins, table, h)
    ensures Read(statics, table, ins) == Some(h) <==> !Misread(ins, h)
  {
    hide IsBinary, Wire, ReadValue;
    if ins.Literal? {
      ValueArrivesIff(h, ins.value.huffman);
    }
  }

  lemma {:induction false} SentOk(jobs: seq<Job>)
    requires Sent(jobs).Some?
    ensures Ok(Sent(jobs).value.encoder)
  {
    if jobs == [] {
      NewEncoderOk();
    } else {
      var n := |jobs| - 1;
      hide Ok, Next, Plan, NewEncoder;
      SentOk(jobs[..n]);
      NextOk(Sent(jobs[..n]).value.encoder, jobs[n]);
    }
  }

  /** No connection aborts before it has sent 2^32 - 1 headers. */
  lemma {:induction false} NoAbort(jobs: seq<Job>)
    requires |jobs| < WORD && forall i :: 0 <= i < |jobs| ==> jobs[i].Ok()
    ensures Sent(jobs).Some? && Sent(jobs).value.encoder.tail + |Sent(jobs).value.encoder.table| <= |jobs|
  {
    if jobs != [] {
      var n := |jobs| - 1;
      NoAbort(jobs[..n]);
      hide Plan, NewEncoder;
      NextGoesOn(Sent(jobs[..n]).value.encoder, jobs[n]);
    }
  }

  lemma {:induction false} CleanMore(sent: seq<Instruction>, jobs: seq<Job>, ins: Instruction, job: Job)
    requires |sent| == |jobs|
    ensures Clean(sent + [ins], jobs + [job]) <==> Clean(sent, jobs) && !Misread(ins, job.header)
  {
    hide Misread;
    if Clean(sent + [ins], jobs + [job]) {
      assert forall i :: 0 <= i < |sent| ==> sent[i] == (sent + [ins])[i] && jobs[i] == (jobs + [job])[i];
      assert (sent + [ins])[|sent|] == ins && (jobs + [job])[|jobs|] == job;
    }
  }

  lemma {:induction false} HeadersMore(jobs: seq<Job>, received: seq<Option<Header>>, r: Option<Header>)
    requires jobs != [] && |received| == |jobs| - 1
    ensures var n := |jobs| - 1;
            received + [r] == Headers(jobs) <==> received == Headers(jobs[..n]) && r == Some(jobs[n].header)
  {
    var n := |jobs| - 1;
    var whole := Headers(jobs);
    assert whole == Headers(jobs[..n]) + [Some(jobs[n].header)];
    if received + [r] == whole {
      assert received == whole[..n] && r == whole[n];
    }
  }

  lemma {:induction false} ReceivedSize(statics: seq<Header>, sent: seq<Instruction>)
    requires |statics| == LAST_STATIC_ENTRY
    ensures |Received(statics, sent).received| == |sent|
  {
    hide ReadNext;
    if sent != [] {
      ReceivedSize(statics, sent[..|sent| - 1]);
    }
  }

  /** One more header, from end to end. */
  lemma {:induction false} OneMoreArrives(statics: seq<Header>, e: Encoder, r: Reader, job: Job)
    requires |statics| == LAST_STATIC_ENTRY && Ok(e) && Sized(e) && job.Ok() && Next(e, job).Some? && r == Reader(e.table, false)
    ensures var (h, r') := ReadNext(statics, r, Plan(e, job));
            && (h == Some(job.header) <==> !Misread(Plan(e, job), job.header))
            && (h == Some(job.header) ==> r' == Reader(Next(e, job).value.table, false))
  {
    hide Ok, Says, Plan, Next, Read, Grown, Misread;
    PlanSays(e, job);
    NextOk(e, job);
    ReadsWhatItSays(statics, e.table, Plan(e, job), job.header);
  }

  /** For every sequence of headers and everything the hashes choose: every header arrives, and the two
      tables stay equal, exactly if no value is misread. */
  lemma {:induction false} ArrivesIff(statics: seq<Header>, jobs: seq<Job>)
    requires |statics| == LAST_STATIC_ENTRY && Sent(jobs).Some?
    ensures var s := Sent(jobs).value;
            var r := Received(statics, s.sent);
            && (r.received == Headers(jobs) <==> Clean(s.sent, jobs))
            && (Clean(s.sent, jobs) ==> r.reader == Reader(s.encoder.table, false))
  {
    hide Plan, Next, Ok, ReadNext, Clean, Headers, Misread, NewEncoder;
    var s := Sent(jobs).value;
    if jobs == [] {
      NothingArrives(statics);
    } else {
      var n := |jobs| - 1;
      var before := Sent(jobs[..n]).value;
      var e, ins := before.encoder, Plan(before.encoder, jobs[n]);
      assert s.sent == before.sent + [ins] && s.sent[..n] == before.sent && jobs == jobs[..n] + [jobs[n]];
      ArrivesIff(statics, jobs[..n]);
      SentOk(jobs[..n]);
      CleanMore(before.sent, jobs[..n], ins, jobs[n]);
      var r := Received(statics, before.sent);
      ReceivedSize(statics, before.sent);
      var (h, reader) := ReadNext(statics, r.reader, ins);
      assert Received(statics, s.sent) == Reading(reader, r.received + [h]);
      HeadersMore(jobs, r.received, h);
      if Clean(before.sent, jobs[..n]) {
        OneMoreArrives(statics, e, r.reader, jobs[n]);
      }
    }
  }

  lemma NothingArrives(statics: seq<Header>)
    requires |statics| == LAST_STATIC_ENTRY
    ensures Sent([]) == Some(Session(NewEncoder(), [])) && NewEncoder().table == []
    ensures Received(statics, []) == Reading(Reader([], false), []) && Headers([]) == [] && Clean([], [])
  {
  }

  // ---------- When nothing is misflagged ----------

  /** Header i has a binary key that goes by its index: at that moment the encoder knows the key to be in
      the decoder's table, but not the header. */
  predicate KeyByIndex(jobs: seq<Job>, i: nat)
    requires i < |jobs| && jobs[i].Ok()
  {
    var before := Sent(jobs[..i]);
    before.Some? && IsBinary(jobs[i].header.key) &&
    ElemHit(before.value.encoder, jobs[i]).None? && KeyHit(before.value.encoder, jobs[i]).Some?
  }

  lemma {:induction false} SentAt(jobs: seq<Job>, i: nat)
    requires i < |jobs| && Sent(jobs).Some?
    ensures jobs[i].Ok() && Sent(jobs[..i]).Some?
    ensures Sent(jobs).value.sent[i] == Plan(Sent(jobs[..i]).value.encoder, jobs[i])
  {
    hide Next, Plan, NewEncoder;
    var n := |jobs| - 1;
    if i < n {
      SentAt(jobs[..n], i);
      assert jobs[..n][..i] == jobs[..i];
    }
  }

  /** The exact condition: every header arrives if and only if no binary key with a value goes by its index. */
  lemma {:induction false} ArrivesIffNoKeyByIndex(statics: seq<Header>, jobs: seq<Job>)
    requires |statics| == LAST_STATIC_ENTRY && Sent(jobs).Some?
    ensures forall i :: 0 <= i < |jobs| ==> jobs[i].Ok()
    ensures Received(statics, Sent(jobs).value.sent).received == Headers(jobs) <==>
            forall i :: 0 <= i < |jobs| && KeyByIndex(jobs, i) ==> jobs[i].header.value == []
  {
    hide Sent, Received, Plan, Misflagged, ElemHit, KeyHit, IsBinary, Headers;
    ArrivesIff(statics, jobs);
    var sent := Sent(jobs).value.sent;
    forall i | 0 <= i < |jobs| ensures jobs[i].Ok() && (Misflagged(sent[i], jobs[i].header) <==> KeyByIndex(jobs, i)) {
      SentAt(jobs, i);
      MisflaggedIff(Sent(jobs[..i]).value.encoder, jobs[i]);
    }
  }

  /** No binary key is used twice. */
  predicate BinaryKeysOnce(jobs: seq<Job>) {
    forall i, k :: 0 <= i < k < |jobs| && IsBinary(jobs[i].header.key) ==> jobs[i].header.key != jobs[k].header.key
  }

  lemma {:induction false} EvictedSubset(table: seq<Header>, room: nat)
    ensures forall h <- Evicted(table, room) :: h in table
  {
    if table != [] && Bytes(table) + room > MAX_BYTES {
      EvictedSubset(table[1..], room);
    }
  }

  lemma {:induction false} GrownSubset(table: seq<Header>, ins: Instruction, h: Header)
    ensures forall g <- Grown(table, ins, h) :: g == h || g in table
  {
    EvictedSubset(table, Size(h));
    hide Evicted;
  }

  /** Every entry of the decoder's table was sent. */
  lemma {:induction false} EntryWasSent(jobs: seq<Job>, g: Header)
    requires Sent(jobs).Some? && g in Sent(jobs).value.encoder.table
    ensures exists i :: 0 <= i < |jobs| && jobs[i].header == g
  {
    if jobs != [] {
      var n := |jobs| - 1;
      var e := Sent(jobs[..n]).value.encoder;
      SentOk(jobs[..n]);
      NextOk(e, jobs[n]);
      hide Ok, Next, Plan, NewEncoder;
      GrownSubset(e.table, Plan(e, jobs[n]), jobs[n].header);
      if g != jobs[n].header {
        EntryWasSent(jobs[..n], g);
        var i :| 0 <= i < n && jobs[..n][i].header == g;
        assert jobs[i].header == g;
      }
    }
  }

  lemma {:induction false} KeyHitIsRight(e: Encoder, job: Job) returns (g: Header)
    requires Ok(e) && Sized(e) && job.Ok() && KeyHit(e, job).Some?
    ensures g in e.table && g.key == job.header.key
  {
    hide Hit, Bytes, FilterOk;
    HitIsRight(e.keys, job.header.key, job.key2, job.key3, e.tail, Keys(e.table));
    g := e.table[KeyHit(e, job).value - e.tail - 1];
  }

  /** A key that is sent by its index was sent before. */
  lemma {:induction false} IndexedKeyWasSent(jobs: seq<Job>, job: Job)
    requires Sent(jobs).Some? && job.Ok() && KeyHit(Sent(jobs).value.encoder, job).Some?
    ensures exists i :: 0 <= i < |jobs| && jobs[i].header.key == job.header.key
  {
    hide Sent, Ok, KeyHit;
    var e := Sent(jobs).value.encoder;
    SentOk(jobs);
    var g := KeyHitIsRight(e, job);
    EntryWasSent(jobs, g);
    var i :| 0 <= i < |jobs| && jobs[i].header == g;
    assert jobs[i].header.key == job.header.key;
  }

  lemma {:induction false} OnceMeansClean(jobs: seq<Job>)
    requires Sent(jobs).Some? && BinaryKeysOnce(jobs)
    ensures Clean(Sent(jobs).value.sent, jobs)
  {
    hide Plan, Next, Misflagged, NewEncoder, KeyHit, ElemHit, IsBinary;
    if jobs != [] {
      var n := |jobs| - 1;
      var before := Sent(jobs[..n]).value;
      var ins := Plan(before.encoder, jobs[n]);
      assert BinaryKeysOnce(jobs[..n]);
      OnceMeansClean(jobs[..n]);
      CleanMore(before.sent, jobs[..n], ins, jobs[n]);
      assert jobs == jobs[..n] + [jobs[n]];
      MisflaggedIff(before.encoder, jobs[n]);
      if KeyHit(before.encoder, jobs[n]).Some? {
        IndexedKeyWasSent(jobs[..n], jobs[n]);
        var i :| 0 <= i < n && jobs[..n][i].header.key == jobs[n].header.key;
        assert jobs[i].header.key == jobs[n].header.key;
      }
    }
  }

  // ---------- The failing case ----------

  lemma {:induction false} FreshMisses(job: Job)
    requires job.Ok()
    ensures var e := NewEncoder();
            Sized(e) && ElemHit(e, job).None? && KeyHit(e, job).None? && Counted(e.filter, job.counter).counts[job.counter] == 1
            && Counted(e.filter, job.counter).sum == 1
  {
  }

  /** The first header is spelled out and added, if it is not too large. */
  lemma {:induction false} FirstIsAdded(job: Job)
    requires job.Ok() && Size(job.header) < MAX_DECODER_SPACE_USAGE
    ensures var e := NewEncoder();
            && Sized(e) && Plan(e, job) == Literal(true, Spelled(job.header.key), Value(Wire(job.header), IsBinary(job.header.key)))
            && Next(e, job).Some? && Next(e, job).value.table == [job.header] && Next(e, job).value.tail == 0
            && Next(e, job).value.elems == Stored(e.elems, job.header, job.elem2, job.elem3, 1)
            && Next(e, job).value.keys == Stored(e.keys, job.header.key, job.key2, job.key3, 1)
  {
    FreshMisses(job);
    hide ElemHit, KeyHit, Counted, IsBinary, Stored, Wire;
  }

  /** For every binary key and any two values: the second goes out with the wrong flag, and it arrives exactly
      if it is empty. */
  lemma {:induction false} SecondValueIsMisread(statics: seq<Header>, first: Job, second: Job)
    requires |statics| == LAST_STATIC_ENTRY && first.Ok() && second.Ok() && Size(first.header) < MAX_DECODER_SPACE_USAGE
    requires IsBinary(first.header.key) && second.header.key == first.header.key && second.header.value != first.header.value
    requires second.key2 == first.key2 && second.key3 == first.key3
    ensures Sent([first, second]).Some?
    ensures var sent := Sent([first, second]).value.sent;
            var r := Received(statics, sent).received;
            && Misflagged(sent[1], second.header)
            && |r| == 2 && r[0] == Some(first.header)
            && (r[1] == Some(second.header) <==> second.header.value == [])
  {
    hide Plan, Next, NewEncoder, Ok, IsBinary, Sized, Sent, Says, Read;
    var jobs := [first, second];
    SentTwo(first, second);
    var sent := Sent(jobs).value.sent;
    ReadsWhatItSays(statics, [], sent[0], first.header);
    ReadsWhatItSays(statics, [first.header], sent[1], second.header);
    AddedFirst(first.header);
    ReceivedTwo(statics, sent);
  }

  lemma {:induction false} SentTwo(first: Job, second: Job)
    requires first.Ok() && second.Ok() && Size(first.header) < MAX_DECODER_SPACE_USAGE
    requires IsBinary(first.header.key) && second.header.key == first.header.key && second.header.value != first.header.value
    requires second.key2 == first.key2 && second.key3 == first.key3
    ensures Sent([first, second]).Some?
    ensures var sent := Sent([first, second]).value.sent;
            && Says(sent[0], [], first.header) && Adds(sent[0]) && !Misflagged(sent[0], first.header)
            && Says(sent[1], [first.header], second.header) && Misflagged(sent[1], second.header)
  {
    hide Plan, Next, NewEncoder, Ok, IsBinary, Sized, Sent, Wire;
    var e0 := NewEncoder();
    FirstIsAdded(first);
    var e1 := Next(e0, first).value;
    SecondHits(e1, first, second);
    MisflaggedIff(e1, second);
    NewEncoderOk();
    NextOk(e0, first);
    PlanSays(e1, second);
    NextGoesOn(e1, second);
    SentNothing();
    SentMore([], first);
    SentMore([first], second);
    assert [] + [first] == [first] && [first] + [second] == [first, second];
  }

  lemma {:induction false} SentNothing()
    ensures Sent([]) == Some(Session(NewEncoder(), []))
  {
  }

  lemma {:induction false} SentMore(jobs: seq<Job>, job: Job)
    ensures var s := Sent(jobs);
            Sent(jobs + [job]) ==
            if s.None? || !job.Ok() || Next(s.value.encoder, job).None? then None
            else Some(Session(Next(s.value.encoder, job).value, s.value.sent + [Plan(s.value.encoder, job)]))
  {
    hide Next, Plan, NewEncoder;
    assert (jobs + [job])[..|jobs|] == jobs;
  }

  lemma {:induction false} ReceivedTwo(statics: seq<Header>, sent: seq<Instruction>)
    requires |statics| == LAST_STATIC_ENTRY && |sent| == 2
    ensures var (h, r) := ReadNext(statics, Reader([], false), sent[0]);
            Received(statics, sent).received == [h, ReadNext(statics, r, sent[1]).0]
  {
    hide ReadNext;
    assert sent[..1][..0] == [];
    assert Received(statics, sent[..1][..0]) == Reading(Reader([], false), []);
  }

  lemma {:induction false} SecondHits(e1: Encoder, first: Job, second: Job)
    requires first.Ok() && second.Ok() && second.key2 == first.key2 && second.key3 == first.key3
    requires second.header.key == first.header.key && second.header != first.header
    requires e1.tail == 0 && Sized(e1)
    requires e1.elems == Stored(NewEncoder().elems, first.header, first.elem2, first.elem3, 1)
    requires e1.keys == Stored(NewEncoder().keys, first.header.key, first.key2, first.key3, 1)
    ensures ElemHit(e1, second).None? && KeyHit(e1, second).Some?
  {
  }

  lemma {:induction false} AddedFirst(h: Header)
    requires Size(h) <= MAX_BYTES
    ensures Added([], h) == [h]
  {
  }

  // ---------- The encoder object ----------

  function Sizes(table: seq<Header>): (r: seq<nat>)
    ensures |r| == |table|
  {
    seq(|table|, i requires 0 <= i < |table| => Size(table[i]))
  }

  lemma SizesDrop(table: seq<Header>)
    requires table != []
    ensures Sizes(table[1..]) == Sizes(table)[1..]
  {
  }

  lemma SizesAppend(table: seq<Header>, h: Header)
    ensures Sizes(table + [h]) == Sizes(table) + [Size(h)]
  {
  }

  /** The 32-bit index and the index itself use the same cell. */
  lemma SameCell(index: nat)
    requires index < 2 * WORD
    ensures index % WORD % MAX_TABLE_COUNT == index % MAX_TABLE_COUNT
  {
    if index >= WORD {
      assert index % WORD == index - WORD;
    }
  }

  class Compressor {
    const filterElems: array<nat>
    var filterElemsSum: nat
    var tailRemoteIndex: nat
    var tableElems: nat
    var tableSize: nat
    const tableElemSize: array<nat>
    var elems: Hashed<Header>
    var keys: Hashed<string>
    ghost var table: seq<Header>

    ghost function View(): Encoder
      reads this, filterElems
    {
      Encoder(tailRemoteIndex, table, elems, keys, Filter(filterElems[..], filterElemsSum))
    }

    /** The counters and the ring of sizes describe the table. */
    ghost predicate Counts()
      reads this, tableElemSize
    {
      && tableElemSize.Length == MAX_TABLE_COUNT && tailRemoteIndex < WORD
      && tableElems == |table| && tableSize == Bytes(table) <= MAX_BYTES
      && Ring(tableElemSize[..], tailRemoteIndex + 1, Sizes(table))
    }

    ghost predicate Valid()
      reads this, tableElemSize, filterElems
    {
      Counts() && tableElemSize != filterElems && filterElems.Length == NUM_VALUES && Sized(View())
    }

    constructor ()
      ensures Valid() && View() == NewEncoder() && fresh(tableElemSize) && fresh(filterElems)
    {
      filterElems := new nat[NUM_VALUES](_ => 0);
      filterElemsSum, tailRemoteIndex, tableElems, tableSize := 0, 0, 0, 0;
      tableElemSize := new nat[MAX_TABLE_COUNT];
      elems := Hashed(seq(NUM_VALUES, _ => None), seq(NUM_VALUES, _ => 0));
      keys := Hashed(seq(NUM_VALUES, _ => None), seq(NUM_VALUES, _ => 0));
      table := [];
      new;
      assert filterElems[..] == NewEncoder().filter.counts;
    }

    /** inc_filter. */
    method IncFilter(idx: nat)
      requires idx < filterElems.Length
      modifies this`filterElemsSum, filterElems
      ensures Filter(filterElems[..], filterElemsSum) == Counted(old(Filter(filterElems[..], filterElemsSum)), idx)
    {
      ghost var was := filterElems[..];
      filterElems[idx] := filterElems[idx] + 1;
      ghost var more := filterElems[..];
      assert more == was[idx := was[idx] + 1];
      if filterElems[idx] < 255 {
        filterElemsSum := filterElemsSum + 1;
      } else {
        filterElemsSum := 0;
        for i := 0 to filterElems.Length
          invariant filterElemsSum == Sum(Halved(more)[..i])
          invariant forall k :: 0 <= k < filterElems.Length ==> filterElems[k] == if k < i then more[k] / 2 else more[k]
        {
          filterElems[i] := filterElems[i] / 2;
          assert Halved(more)[..i + 1][..i] == Halved(more)[..i];
          filterElemsSum := filterElemsSum + filterElems[i];
        }
        assert filterElems[..] == Halved(more) && Halved(more)[..|more|] == Halved(more);
      }
    }

    /** Drops one element, or aborts when its index overflows; the other asserts hold. */
    method Drop1() returns (aborted: bool)
      requires Counts() && tableElems > 0
      modifies this`tailRemoteIndex, this`tableElems, this`tableSize, this`table
      ensures aborted <==> old(tailRemoteIndex) + 1 == WORD
      ensures !aborted ==> Counts() && table == old(table)[1..] && tailRemoteIndex == old(tailRemoteIndex) + 1
    {
      hide Ring;
      RingDrop(tableElemSize[..], tailRemoteIndex + 1, Sizes(table));
      SizesDrop(table);
      var tail := (tailRemoteIndex + 1) % WORD;
      if tail == 0 { return true; }
      tailRemoteIndex := tail;
      var size := tableElemSize[tailRemoteIndex % MAX_TABLE_COUNT];
      assert size == tableElemSize[..][tailRemoteIndex % MAX_TABLE_COUNT] == Size(table[0]);
      assert tableSize >= size;
      tableSize := tableSize - size;
      tableElems := tableElems - 1;
      table := table[1..];
      return false;
    }

    /** Drops what the decoder will evict. */
    method MakeRoom(size: nat) returns (aborted: bool)
      requires Counts() && size <= MAX_BYTES
      modifies this`tailRemoteIndex, this`tableElems, this`tableSize, this`table
      ensures var kept := Evicted(old(table), size);
              var tail := old(tailRemoteIndex) + |old(table)| - |kept|;
              && (aborted <==> tail >= WORD)
              && (!aborted ==> Counts() && table == kept && tailRemoteIndex == tail && tableSize + size <= MAX_BYTES)
    {
      hide Ring, Bytes;
      EmptyBytes();
      while tableSize + size > MAX_BYTES
        invariant Counts() && Evicted(table, size) == Evicted(old(table), size)
        invariant tailRemoteIndex + |table| == old(tailRemoteIndex) + |old(table)|
        decreases tableElems
      {
        assert Evicted(table, size) == Evicted(table[1..], size);
        aborted := Drop1();
        if aborted { return; }
      }
      return false;
    }

    /** Accounts for one more element. */
    method Append(h: Header, newIndex: nat)
      requires Counts() && tableSize + Size(h) <= MAX_BYTES && newIndex == (tailRemoteIndex + tableElems + 1) % WORD
      modifies this`tableElems, this`tableSize, this`table, tableElemSize
      ensures Counts() && table == old(table) + [h]
    {
      hide Ring, Bytes;
      CountBound(table);
      assert tableElems < MAX_TABLE_COUNT;
      SameCell(tailRemoteIndex + tableElems + 1);
      RingAppend(tableElemSize[..], tailRemoteIndex + 1, Sizes(table), Size(h));
      BytesAppend(table, h);
      SizesAppend(table, h);
      ghost var cells := tableElemSize[..];
      tableElemSize[newIndex % MAX_TABLE_COUNT] := Size(h);
      assert tableElemSize[..] == cells[newIndex % MAX_TABLE_COUNT := Size(h)];
      tableSize := tableSize + Size(h);
      tableElems := tableElems + 1;
      table := table + [h];
    }

    /** add_elem. */
    method AddElem(job: Job) returns (aborted: bool)
      requires Valid() && job.Ok() && Size(job.header) <= MAX_BYTES
      modifies this, tableElemSize
      ensures aborted <==> WithElem(old(View()), job).None?
      ensures !aborted ==> Valid() && View() == WithElem(old(View()), job).value
    {
      hide Ring, Bytes, Evicted, Stored;
      var h := job.header;
      var newIndex := (tailRemoteIndex + tableElems + 1) % WORD;
      aborted := MakeRoom(Size(h));
      if aborted { return; }
      Append(h, newIndex);
      elems := Stored(elems, h, job.elem2, job.elem3, newIndex);
      keys := Stored(keys, h.key, job.key2, job.key3, newIndex);
    }

    /** hpack_enc. */
    method Encode(job: Job) returns (aborted: bool, ins: Instruction)
      requires Valid() && job.Ok()
      modifies this, tableElemSize, filterElems
      ensures ins == Plan(old(View()), job)
      ensures aborted <==> Next(old(View()), job).None?
      ensures !aborted ==> Valid() && View() == Next(old(View()), job).value
    {
      hide Ring, Bytes, WithElem, Counted, Hit, IsBinary, Popular, Compressed;
      ghost var e := View();
      IncFilter(job.counter);
      assert View() == Counting(e, job);
      var h := job.header;
      aborted := false;
      var hit := Hit(elems, h, job.elem2, job.elem3, tailRemoteIndex);
      if hit.Some? {
        return false, Indexed((1 + LAST_STATIC_ENTRY + tailRemoteIndex + tableElems - hit.value) % WORD);
      }
      var shouldAdd := Size(h) < MAX_DECODER_SPACE_USAGE && Popular(Filter(filterElems[..], filterElemsSum), job.counter);
      var bytes := h.value;
      if IsBinary(h.key) {
        bytes := HpackBinaryCoders.EncodeAndCompress(h.value);
      }
      var keyHit := Hit(keys, h.key, job.key2, job.key3, tailRemoteIndex);
      if keyHit.Some? {
        var index := (1 + LAST_STATIC_ENTRY + tailRemoteIndex + tableElems - keyHit.value) % WORD;
        ins := Literal(shouldAdd, ByIndex(index), Value(bytes, false));
      } else {
        ins := Literal(shouldAdd, Spelled(h.key), Value(bytes, IsBinary(h.key)));
      }
      if shouldAdd {
        aborted := AddElem(job);
      }
    }
  }

  /** Both ends of a connection, as objects: they do what the functions above say, so what is proved of
      those holds of them. */
  method Transfer(statics: seq<Header>, jobs: seq<Job>)
    returns (aborted: bool, sent: seq<Instruction>, received: seq<Option<Header>>)
    requires |statics| == LAST_STATIC_ENTRY && forall i :: 0 <= i < |jobs| ==> jobs[i].Ok()
    ensures aborted <==> Sent(jobs).None?
    ensures !aborted ==> sent == Sent(jobs).value.sent && received == Received(statics, sent).received
  {
    hide Next, Plan, NewEncoder, ReadNext, Ring, Bytes, Sent, Received, Sized;
    var encoder := new Compressor();
    var decoder := new Decoder(statics);
    aborted, sent, received := false, [], [];
    SentNothing();
    ReceivedNothing(statics);
    for n := 0 to |jobs|
      invariant fresh(encoder) && fresh(encoder.tableElemSize) && fresh(encoder.filterElems)
      invariant fresh(decoder) && fresh(decoder.table) && fresh(decoder.table.ents) && decoder.table.statics == statics
      invariant encoder.Valid() && decoder.Valid() && !aborted && |sent| == n
      invariant Sent(jobs[..n]) == Some(Session(encoder.View(), sent))
      invariant Received(statics, sent) == Reading(decoder.View(), received)
    {
      SentMore(jobs[..n], jobs[n]);
      assert jobs[..n + 1] == jobs[..n] + [jobs[n]];
      var ins;
      aborted, ins := encoder.Encode(jobs[n]);
      if aborted {
        SentStops(jobs, n + 1);
        return;
      }
      ReceivedMore(statics, sent, ins);
      var h := decoder.Receive(ins);
      sent, received := sent + [ins], received + [h];
    }
    assert jobs[..|jobs|] == jobs;
  }

  lemma {:induction false} ReceivedNothing(statics: seq<Header>)
    requires |statics| == LAST_STATIC_ENTRY
    ensures Received(statics, []) == Reading(Reader([], false), [])
  {
  }

  lemma {:induction false} SentStops(jobs: seq<Job>, n: nat)
    requires n <= |jobs| && Sent(jobs[..n]).None?
    ensures Sent(jobs).None?
  {
    if n == |jobs| {
      assert jobs[..n] == jobs;
    } else {
      assert jobs[..|jobs| - 1][..n] == jobs[..n];
      SentStops(jobs[..|jobs| - 1], n);
    }
  }

  lemma {:induction false} ReceivedMore(statics: seq<Header>, sent: seq<Instruction>, ins: Instruction)
    requires |statics| == LAST_STATIC_ENTRY
    ensures var r := Received(statics, sent);
            var (h, reader) := ReadNext(statics, r.reader, ins);
            Received(statics, sent + [ins]) == Reading(reader, r.received + [h])
  {
    hide ReadNext;
    assert (sent + [ins])[..|sent|] == sent;
  }
}
