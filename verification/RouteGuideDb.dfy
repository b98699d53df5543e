/**
 The feature database parser of examples/cpp/route_guide/helper.cc: a cursor over the text with all
 white space removed, a failure flag, and numbers read with std::stol.
 */
module RouteGuideDb {
  import opened Common

  datatype Feature = Feature(latitude: int, longitude: int, name: string)

  /** What becomes of ParseDb: a list, an error message and an empty list, or the exception that
      std::stol throws. */
  datatype Outcome = Parsed(features: seq<Feature>) | Failed | Threw

  // ---------- Characters and numbers ----------

  /** isspace in the C locale. */
  predicate IsSpace(c: char) {
    c == ' ' || 9 <= c as int <= 13
  }

  predicate IsDigit(c: char) {
    '0' <= c <= '9'
  }

  /** db_.erase(std::remove_if(begin, end, isspace), end). */
  function Strip(s: string): string {
    if s == "" then "" else
      var rest := Strip(s[..|s| - 1]);
      if IsSpace(s[|s| - 1]) then rest else rest + [s[|s| - 1]]
  }

  const LONG_MAX := 0x7fff_ffff_ffff_ffff

  function DigitRun(s: string): (k: nat)
    ensures k <= |s| && (forall i :: 0 <= i < k ==> IsDigit(s[i])) && (k < |s| ==> !IsDigit(s[k]))
  {
    if s == "" || !IsDigit(s[0]) then 0 else
      var k := DigitRun(s[1..]);
      assert forall i :: 0 < i < k + 1 ==> s[i] == s[1..][i - 1];
      k + 1
  }

  function Value(s: string): nat
    requires forall i :: 0 <= i < |s| ==> IsDigit(s[i])
  {
    if s == "" then 0 else
      assert IsDigit(s[|s| - 1]);
      10 * Value(s[..|s| - 1]) + (s[|s| - 1] as int - '0' as int)
  }

  /** std::stol on text without white space: an optional sign and the longest run of digits, the rest
      ignored; None stands for the exceptions invalid_argument and out_of_range. */
  function Stol(s: string): Option<int> {
    var signed := s != "" && (s[0] == '-' || s[0] == '+');
    var body := if signed then s[1..] else s;
    var k := DigitRun(body);
    if k == 0 then None else
      var v: int := Value(body[..k]);
      var n := if signed && s[0] == '-' then -v else v;
      if -LONG_MAX - 1 <= n <= LONG_MAX then Some(n) else None
  }

  /** set_latitude and set_longitude take an int32. */
  function ToInt32(x: int): int {
    (x + 0x8000_0000) % 0x1_0000_0000 - 0x8000_0000
  }

  // ---------- The grammar of one entry ----------

  const HEAD := "{\"location\":{\"latitude\":"
  const MIDDLE := ",\"longitude\":"
  const TAIL := "},\"name\":\""

  predicate MatchesAt(db: string, pos: nat, prefix: string)
    requires pos <= |db|
  {
    |prefix| <= |db| - pos && db[pos..pos + |prefix|] == prefix
  }

  predicate EndsNumber(c: char) {
    c == ',' || c == '}'
  }

  /** The end of the number token that starts at pos. */
  function NumberEnd(db: string, pos: nat): (q: nat)
    requires pos <= |db|
    ensures pos <= q <= |db| && (forall i :: pos <= i < q ==> !EndsNumber(db[i])) && (q < |db| ==> EndsNumber(db[q]))
    decreases |db| - pos
  {
    if pos == |db| || EndsNumber(db[pos]) then pos else NumberEnd(db, pos + 1)
  }

  /** The position of the quote that closes the name that starts at pos, or the end. */
  function NameEnd(db: string, pos: nat): (q: nat)
    requires pos <= |db|
    ensures pos <= q <= |db| && (forall i :: pos <= i < q ==> db[i] != '"') && (q < |db| ==> db[q] == '"')
    decreases |db| - pos
  {
    if pos == |db| || db[pos] == '"' then pos else NameEnd(db, pos + 1)
  }

  datatype Step = Good(feature: Feature, next: nat) | Bad | Thrown

  /** One entry at pos, with the two characters that close it. */
  function ParseEntry(db: string, pos: nat): (s: Step)
    requires pos <= |db|
    ensures s.Good? ==> pos < s.next <= |db|
  {
    if !MatchesAt(db, pos, HEAD) then Bad else ParseLatitude(db, pos + |HEAD|)
  }

  function ParseLatitude(db: string, pos: nat): (s: Step)
    requires pos <= |db|
    ensures s.Good? ==> pos < s.next <= |db|
  {
    var q := NumberEnd(db, pos);
    var lat := Stol(db[pos..q]);
    if lat.None? then Thrown
    else if !MatchesAt(db, q, MIDDLE) then Bad else
      ParseLongitude(db, q + |MIDDLE|, ToInt32(lat.value))
  }

  function ParseLongitude(db: string, pos: nat, latitude: int): (s: Step)
    requires pos <= |db|
    ensures s.Good? ==> pos < s.next <= |db|
  {
    var q := NumberEnd(db, pos);
    var lon := Stol(db[pos..q]);
    if lon.None? then Thrown
    else if !MatchesAt(db, q, TAIL) then Bad else
      ParseName(db, q + |TAIL|, latitude, ToInt32(lon.value))
  }

  function ParseName(db: string, pos: nat, latitude: int, longitude: int): (s: Step)
    requires pos <= |db|
    ensures s.Good? ==> pos < s.next <= |db|
  {
    var q := NameEnd(db, pos);
    if q + 1 >= |db| then Bad
    else if MatchesAt(db, q + 1, "},") || (q + 3 == |db| && db[q + 2] == ']')
    then Good(Feature(latitude, longitude, db[pos..q]), q + 3)
    else Bad
  }

  function ParseEntries(db: string, pos: nat): Outcome
    requires pos <= |db|
    decreases |db| - pos
  {
    if pos == |db| then Parsed([]) else
      match ParseEntry(db, pos)
      case Bad => Failed
      case Thrown => Threw
      case Good(f, next) =>
        var rest := ParseEntries(db, next);
        if rest.Parsed? then Parsed([f] + rest.features) else rest
  }

  /** ParseDb.  A text of at most one character is never looked at. */
  function Parse(text: string): Outcome {
    var db := Strip(text);
    if |db| <= 1 then Parsed([])
    else if db[0] != '[' then Failed
    else ParseEntries(db, 1)
  }

  function Joined(parts: seq<string>): string {
    if parts == [] then "" else Joined(parts[..|parts| - 1]) + parts[|parts| - 1]
  }

  lemma {:induction false} JoinedPrefix(parts: seq<string>, i: nat)
    requires i <= |parts|
    ensures Joined(parts[..i]) <= Joined(parts)
  {
    var n := |parts|;
    if i == n {
      assert parts[..i] == parts;
    } else {
      JoinedPrefix(parts[..n - 1], i);
      assert parts[..n - 1][..i] == parts[..i];
    }
  }

  lemma MatchJoin(db: string, pos: nat, a: string, b: string)
    requires pos <= |db| && MatchesAt(db, pos, a)
    ensures MatchesAt(db, pos, a + b) <==> MatchesAt(db, pos + |a|, b)
  {
    var n, m := pos + |a|, pos + |a| + |b|;
    if m <= |db| {
      assert db[pos..m] == db[pos..n] + db[n..m];
      SameTails(a, db[n..m], b);
    }
  }

  lemma SameTails(a: string, b: string, c: string)
    ensures a + b == a + c <==> b == c
  {
    if a + b == a + c {
      assert b == (a + b)[|a|..] && c == (a + c)[|a|..];
    }
  }

  lemma PrefixMatches(db: string, pos: nat, a: string, ab: string)
    requires pos <= |db| && a <= ab
    ensures MatchesAt(db, pos, ab) ==> MatchesAt(db, pos, a)
  {
    if MatchesAt(db, pos, ab) {
      assert db[pos..pos + |a|] == db[pos..pos + |ab|][..|a|];
    }
  }

  lemma JoinedThree(a: string, b: string, c: string)
    ensures Joined([a, b, c]) == a + b + c
  {
    assert [a, b, c][..2] == [a, b] && [a, b][..1] == [a] && [a][..0] == [];
    assert Joined([a]) == a;
    assert Joined([a, b]) == a + b;
  }

  lemma JoinedHead()
    ensures Joined(["{", "\"location\":", "{", "\"latitude\":"]) == HEAD
  {
    var parts := ["{", "\"location\":", "{", "\"latitude\":"];
    assert parts[..3] == ["{", "\"location\":", "{"];
    JoinedThree("{", "\"location\":", "{");
  }

  lemma JoinedMiddle()
    ensures Joined([",", "\"longitude\":"]) == MIDDLE
  {
    var parts := [",", "\"longitude\":"];
    assert parts[..1] == [","] && [","][..0] == [];
    assert Joined([","]) == ",";
  }

  lemma JoinedTail()
    ensures Joined(["},", "\"name\":", "\""]) == TAIL
  {
    JoinedThree("},", "\"name\":", "\"");
  }

  // ---------- The parser object ----------

  class Parser {
    const db: string
    var current: nat
    var failed: bool

    /** The cursor leaves the text only on failure, and by then nothing reads the text any more. */
    ghost predicate Valid()
      reads this
    {
      !failed ==> current <= |db|
    }

    constructor (text: string)
      ensures Valid() && db == Strip(text)
      ensures current == 1 && (failed <==> !MatchesAt(Strip(text), 0, "["))
    {
      var stripped := Strip(text);
      db := stripped;
      current := 0;
      failed := false;
      new;
      var eq := Match("[");
      if !eq {
        failed := true;
      }
    }

    method Finished() returns (b: bool)
      ensures b <==> current >= |db|
    {
      return current >= |db|;
    }

    /** db_.substr(current_, n) needs current_ <= db_.size(). */
    method Match(prefix: string) returns (eq: bool)
      requires current <= |db|
      modifies this`current
      ensures eq <==> MatchesAt(db, old(current), prefix)
      ensures current == old(current) + |prefix|
    {
      var n := if |prefix| <= |db| - current then |prefix| else |db| - current;
      eq := db[current..current + n] == prefix;
      current := current + |prefix|;
    }

    method ReadLong() returns (l: Option<int>)
      requires current <= |db|
      modifies this`current
      ensures current == NumberEnd(db, old(current)) && l == Stol(db[old(current)..current])
    {
      var start := current;
      while current != |db| && db[current] != ',' && db[current] != '}'
        invariant start <= current <= |db| && NumberEnd(db, current) == NumberEnd(db, start)
        decreases |db| - current
      {
        current := current + 1;
      }
      l := Stol(db[start..current]);
    }

    /** Match of several prefixes in a row, stopping at the first that differs. */
    method MatchAll(prefixes: seq<string>) returns (eq: bool)
      requires current <= |db|
      modifies this`current
      ensures eq <==> MatchesAt(db, old(current), Joined(prefixes))
      ensures eq ==> current == old(current) + |Joined(prefixes)| <= |db|
    {
      var start := current;
      for i := 0 to |prefixes|
        invariant current <= |db| && MatchesAt(db, start, Joined(prefixes[..i]))
        invariant current == start + |Joined(prefixes[..i])|
      {
        assert prefixes[..i + 1][..i] == prefixes[..i];
        MatchJoin(db, start, Joined(prefixes[..i]), prefixes[i]);
        var more := Match(prefixes[i]);
        if !more {
          JoinedPrefix(prefixes, i + 1);
          PrefixMatches(db, start, Joined(prefixes[..i + 1]), Joined(prefixes));
          return false;
        }
      }
      assert prefixes[..|prefixes|] == prefixes;
      return true;
    }

    method TryParseOne() returns (r: Step)
      requires Valid()
      modifies this
      ensures Valid()
      ensures r == if old(failed) || old(current) >= |db| then Bad else ParseEntry(db, old(current))
      ensures r.Good? ==> !failed && current == r.next
      ensures r.Bad? ==> failed
    {
      var done := Finished();
      if failed || done { failed := true; return Bad; }
      hide MatchesAt, ParseLatitude, Joined;
      JoinedHead();
      var eq := MatchAll(["{", "\"location\":", "{", "\"latitude\":"]);
      if !eq { failed := true; return Bad; }
      r := ReadLatitude();
    }

    method ReadLatitude() returns (r: Step)
      requires current <= |db| && !failed
      modifies this
      ensures Valid() && r == ParseLatitude(db, old(current))
      ensures r.Good? ==> !failed && current == r.next
      ensures r.Bad? ==> failed
    {
      hide MatchesAt, NumberEnd, Stol, ParseLongitude, ToInt32, Joined;
      var lat := ReadLong();
      if lat.None? { return Thrown; }
      JoinedMiddle();
      var eq := MatchAll([",", "\"longitude\":"]);
      if !eq { failed := true; return Bad; }
      r := ReadLongitude(ToInt32(lat.value));
    }

    method ReadLongitude(latitude: int) returns (r: Step)
      requires current <= |db| && !failed
      modifies this
      ensures Valid() && r == ParseLongitude(db, old(current), latitude)
      ensures r.Good? ==> !failed && current == r.next
      ensures r.Bad? ==> failed
    {
      hide MatchesAt, NumberEnd, Stol, ParseName, ToInt32, Joined;
      var lon := ReadLong();
      if lon.None? { return Thrown; }
      JoinedTail();
      var eq := MatchAll(["},", "\"name\":", "\""]);
      if !eq { failed := true; return Bad; }
      r := ReadName(latitude, ToInt32(lon.value));
    }

    method ReadName(latitude: int, longitude: int) returns (r: Step)
      requires current <= |db| && !failed
      modifies this
      ensures Valid() && r == ParseName(db, old(current), latitude, longitude)
      ensures r.Good? ==> !failed && current == r.next
      ensures r.Bad? ==> failed
    {
      var start := current;
      while current != |db|
        invariant start <= current <= |db| && !failed && NameEnd(db, current) == NameEnd(db, start)
        decreases |db| - current
      {
        current := current + 1;
        if db[current - 1] == '"' { break; }
      }
      if current == |db| { failed := true; return Bad; }
      var name := db[start..current - 1];
      var eq := Match("},");
      if !eq {
        // db_[size()] is the terminating zero.
        if current - 1 < |db| && db[current - 1] == ']' && current == |db| {
          return Good(Feature(latitude, longitude, name), current);
        }
        failed := true;
        return Bad;
      }
      return Good(Feature(latitude, longitude, name), current);
    }
  }

  /** ParseDb itself. */
  method ParseDb(text: string) returns (outcome: Outcome)
    ensures outcome == Parse(text)
  {
    hide ParseEntry;
    StripIdempotent(text);
    var parser := new Parser(Strip(text));
    var features := [];
    ghost var db := parser.db;
    ghost var whole := Parse(text);
    while true
      invariant parser.Valid() && parser.db == db == Strip(text)
      invariant parser.current < |db| && parser.failed ==> whole == Failed
      invariant parser.current >= |db| || !parser.failed ==> whole == After(features, db, parser.current)
      decreases if parser.current <= |db| then |db| - parser.current else 0
    {
      var done := parser.Finished();
      if done { return Parsed(features); }
      var r := parser.TryParseOne();
      match r {
        case Bad => return Failed;
        case Thrown => return Threw;
        case Good(f, _) => features := features + [f];
      }
    }
  }

  /** The outcome when `features` have been read and the cursor is at pos. */
  function After(features: seq<Feature>, db: string, pos: nat): Outcome {
    if pos >= |db| then Parsed(features) else
      var rest := ParseEntries(db, pos);
      if rest.Parsed? then Parsed(features + rest.features) else rest
  }

  lemma {:induction false} StripIdempotent(s: string)
    ensures Strip(Strip(s)) == Strip(s)
  {
    if s != "" {
      var rest := s[..|s| - 1];
      StripIdempotent(rest);
      if !IsSpace(s[|s| - 1]) {
        assert Strip(s)[..|Strip(s)| - 1] == Strip(rest);
      }
    }
  }

  // ---------- The accepted language ----------

  /** The three free fields of an entry, as written. */
  datatype Entry = Entry(lat: string, lon: string, name: string)

  predicate ValidNumber(token: string) {
    (forall c <- token :: !EndsNumber(c)) && Stol(token).Some?
  }

  predicate ValidEntry(e: Entry) {
    ValidNumber(e.lat) && ValidNumber(e.lon) && '"' !in e.name
  }

  function NameText(name: string): string {
    name + "\""
  }

  function LongitudeText(e: Entry): string {
    e.lon + (TAIL + NameText(e.name))
  }

  function LatitudeText(e: Entry): string {
    e.lat + (MIDDLE + LongitudeText(e))
  }

  /** An entry up to the quote that closes its name. */
  function Text(e: Entry): string {
    HEAD + LatitudeText(e)
  }

  function FeatureOf(e: Entry): Feature
    requires ValidEntry(e)
  {
    Feature(ToInt32(Stol(e.lat).value), ToInt32(Stol(e.lon).value), e.name)
  }

  /** The last entry may be closed by a brace and a comma, or by any character and a bracket. */
  predicate IsEnd(end: string) {
    end == "}," || (|end| == 2 && end[1] == ']')
  }

  /** The entries of a document, one after the other. */
  function Body(es: seq<Entry>, end: string): string {
    if es == [] then "" else Text(es[0]) + if |es| == 1 then end else "}," + Body(es[1..], end)
  }

  ghost predicate Document(db: string, es: seq<Entry>, end: string) {
    es != [] && IsEnd(end) && (forall e <- es :: ValidEntry(e)) && db == "[" + Body(es, end)
  }

  function Features(es: seq<Entry>): seq<Feature>
    requires forall e <- es :: ValidEntry(e)
  {
    seq(|es|, i requires 0 <= i < |es| => FeatureOf(es[i]))
  }

  lemma NumberEndIs(db: string, p: nat, token: string)
    requires p <= |db| && MatchesAt(db, p, token) && (forall c <- token :: !EndsNumber(c))
    requires p + |token| < |db| && EndsNumber(db[p + |token|])
    ensures NumberEnd(db, p) == p + |token| && db[p..NumberEnd(db, p)] == token
  {
    var q := NumberEnd(db, p);
    forall i | p <= i < p + |token| ensures !EndsNumber(db[i]) {
      assert db[i] == db[p..p + |token|][i - p] == token[i - p];
    }
  }

  lemma NameEndIs(db: string, p: nat, name: string)
    requires p <= |db| && MatchesAt(db, p, NameText(name)) && '"' !in name
    ensures NameEnd(db, p) == p + |name| < |db| && db[p..NameEnd(db, p)] == name
  {
    var n := |name|;
    var t := db[p..p + n + 1];
    assert t == NameText(name);
    forall i | p <= i < p + n ensures db[i] != '"' {
      assert db[i] == t[i - p] == name[i - p];
    }
    assert db[p + n] == t[n] == '"';
    assert db[p..p + n] == t[..n] == name;
  }

  /** Matching a text is matching its two halves in turn. */
  lemma Split(db: string, pos: nat, a: string, b: string)
    requires pos <= |db|
    ensures MatchesAt(db, pos, a + b) <==> MatchesAt(db, pos, a) && MatchesAt(db, pos + |a|, b)
  {
    PrefixMatches(db, pos, a, a + b);
    if MatchesAt(db, pos, a) {
      MatchJoin(db, pos, a, b);
    }
  }

  predicate Closed(db: string, pos: nat) {
    pos + 2 <= |db| && (db[pos..pos + 2] == "}," || (pos + 2 == |db| && db[pos + 1] == ']'))
  }

  lemma NameParses(db: string, pos: nat, latitude: int, longitude: int, name: string)
    requires pos <= |db| && '"' !in name && MatchesAt(db, pos, NameText(name)) && Closed(db, pos + |name| + 1)
    ensures ParseName(db, pos, latitude, longitude) == Good(Feature(latitude, longitude, name), pos + |name| + 3)
  {
    NameEndIs(db, pos, name);
  }

  lemma FirstChar(db: string, pos: nat, text: string)
    requires pos <= |db| && text != "" && MatchesAt(db, pos, text)
    ensures pos < |db| && db[pos] == text[0]
  {
    assert db[pos] == db[pos..pos + |text|][0];
  }

  lemma LongitudeParses(db: string, pos: nat, latitude: int, e: Entry)
    requires pos <= |db| && ValidEntry(e) && MatchesAt(db, pos, LongitudeText(e)) && Closed(db, pos + |LongitudeText(e)|)
    ensures ParseLongitude(db, pos, latitude) ==
            Good(Feature(latitude, ToInt32(Stol(e.lon).value), e.name), pos + |LongitudeText(e)| + 2)
  {
    hide MatchesAt, ParseName, Stol, ToInt32, Closed;
    Split(db, pos, e.lon, TAIL + NameText(e.name));
    var q := pos + |e.lon|;
    Fits(db, pos, e.lon);
    Split(db, q, TAIL, NameText(e.name));
    FirstChar(db, q, TAIL);
    NumberEndIs(db, pos, e.lon);
    Fits(db, q, TAIL);
    NameParses(db, q + |TAIL|, latitude, ToInt32(Stol(e.lon).value), e.name);
  }

  lemma Fits(db: string, pos: nat, text: string)
    requires pos <= |db| && MatchesAt(db, pos, text)
    ensures pos + |text| <= |db|
  {
  }

  lemma EntryParses(db: string, pos: nat, e: Entry)
    requires pos <= |db| && ValidEntry(e) && MatchesAt(db, pos, Text(e)) && Closed(db, pos + |Text(e)|)
    ensures ParseEntry(db, pos) == Good(FeatureOf(e), pos + |Text(e)| + 2)
  {
    hide MatchesAt, ParseLongitude, Stol, ToInt32, Closed, LongitudeText;
    Split(db, pos, HEAD, LatitudeText(e));
    Fits(db, pos, HEAD);
    var p := pos + |HEAD|;
    Split(db, p, e.lat, MIDDLE + LongitudeText(e));
    Fits(db, p, e.lat);
    var q := p + |e.lat|;
    Split(db, q, MIDDLE, LongitudeText(e));
    FirstChar(db, q, MIDDLE);
    NumberEndIs(db, p, e.lat);
    Fits(db, q, MIDDLE);
    LongitudeParses(db, q + |MIDDLE|, ToInt32(Stol(e.lat).value), e);
  }

  /** Whatever ParseName accepts is a name and its closing. */
  lemma ParsedName(db: string, pos: nat, latitude: int, longitude: int) returns (name: string)
    requires pos <= |db| && ParseName(db, pos, latitude, longitude).Good?
    ensures '"' !in name && MatchesAt(db, pos, NameText(name)) && Closed(db, pos + |NameText(name)|)
    ensures ParseName(db, pos, latitude, longitude) ==
            Good(Feature(latitude, longitude, name), pos + |NameText(name)| + 2)
  {
    var q := NameEnd(db, pos);
    name := db[pos..q];
    NameMatches(db, pos, q);
  }

  lemma NumberMatches(db: string, p: nat)
    requires p <= |db|
    ensures var q := NumberEnd(db, p); MatchesAt(db, p, db[p..q]) && forall c <- db[p..q] :: !EndsNumber(c)
  {
  }

  lemma ParsedLongitude(db: string, pos: nat, latitude: int) returns (lon: string, name: string)
    requires pos <= |db| && ParseLongitude(db, pos, latitude).Good?
    ensures var e := Entry("", lon, name);
            && ValidNumber(lon) && '"' !in name && MatchesAt(db, pos, LongitudeText(e)) && Closed(db, pos + |LongitudeText(e)|)
            && ParseLongitude(db, pos, latitude) ==
               Good(Feature(latitude, ToInt32(Stol(lon).value), name), pos + |LongitudeText(e)| + 2)
  {
    hide MatchesAt, ParseName, Stol, ToInt32, Closed;
    var q := NumberEnd(db, pos);
    lon := db[pos..q];
    NumberMatches(db, pos);
    Fits(db, q, TAIL);
    name := ParsedName(db, q + |TAIL|, latitude, ToInt32(Stol(lon).value));
    Split(db, q, TAIL, NameText(name));
    Split(db, pos, lon, TAIL + NameText(name));
  }

  /** Whatever ParseEntry accepts is an entry. */
  lemma ParsedEntry(db: string, pos: nat) returns (e: Entry)
    requires pos <= |db| && ParseEntry(db, pos).Good?
    ensures ValidEntry(e) && ParseEntry(db, pos).feature == FeatureOf(e)
    ensures MatchesAt(db, pos, Text(e)) && Closed(db, pos + |Text(e)|) && ParseEntry(db, pos).next == pos + |Text(e)| + 2
  {
    hide MatchesAt, ParseLongitude, Stol, ToInt32, Closed;
    Fits(db, pos, HEAD);
    var p := pos + |HEAD|;
    var q := NumberEnd(db, p);
    var lat := db[p..q];
    NumberMatches(db, p);
    Fits(db, q, MIDDLE);
    var lon, name := ParsedLongitude(db, q + |MIDDLE|, ToInt32(Stol(lat).value));
    e := Entry(lat, lon, name);
    assert LongitudeText(e) == LongitudeText(Entry("", lon, name));
    hide LongitudeText;
    Split(db, q, MIDDLE, LongitudeText(e));
    Split(db, p, lat, MIDDLE + LongitudeText(e));
    Split(db, pos, HEAD, LatitudeText(e));
  }

  lemma NameMatches(db: string, n: nat, m: nat)
    requires n <= m < |db| && db[m] == '"'
    ensures MatchesAt(db, n, NameText(db[n..m]))
  {
    assert db[n..m + 1] == db[n..m] + [db[m]];
  }

  /** Completeness: a document is parsed into its entries. */
  lemma {:induction false} BodyParses(db: string, pos: nat, es: seq<Entry>, end: string)
    requires pos <= |db| && es != [] && IsEnd(end) && (forall e <- es :: ValidEntry(e)) && db[pos..] == Body(es, end)
    ensures ParseEntries(db, pos) == Parsed(Features(es))
    decreases |es|
  {
    hide ParseEntry, Text, ValidEntry, FeatureOf, MatchesAt;
    var t := Text(es[0]);
    var rest := if |es| == 1 then end else "}," + Body(es[1..], end);
    var next := pos + |t| + 2;
    TextThenRest(db, pos, t, rest);
    if |es| == 1 {
      EntryParses(db, pos, es[0]);
      assert next == |db| && Features(es) == [FeatureOf(es[0])];
    } else {
      var more := Body(es[1..], end);
      assert rest[..2] == "}," && rest[2..] == more;
      EntryParses(db, pos, es[0]);
      BodyNotEmpty(es[1..], end);
      BodyParses(db, next, es[1..], end);
      assert Features(es) == [FeatureOf(es[0])] + Features(es[1..]);
    }
  }

  lemma TextThenRest(db: string, pos: nat, t: string, rest: string)
    requires pos <= |db| && db[pos..] == t + rest && |rest| >= 2
    ensures var next := pos + |t| + 2;
            && next <= |db| && MatchesAt(db, pos, t)
            && db[pos + |t|..next] == rest[..2] && db[next..] == rest[2..]
  {
    var n := |t|;
    assert db[pos..pos + n] == db[pos..][..n] == t;
    assert db[pos + n..pos + n + 2] == db[pos..][n..n + 2] == rest[..2];
    assert db[pos + n + 2..] == db[pos..][n + 2..] == rest[2..];
  }

  lemma BodyNotEmpty(es: seq<Entry>, end: string)
    requires es != []
    ensures Body(es, end) != ""
  {
  }

  /** Soundness: whatever ParseEntries accepts is a sequence of entries. */
  lemma {:induction false} ParsedBody(db: string, pos: nat) returns (es: seq<Entry>, end: string)
    requires pos < |db| && ParseEntries(db, pos).Parsed?
    ensures es != [] && IsEnd(end) && (forall e <- es :: ValidEntry(e)) && db[pos..] == Body(es, end)
    ensures ParseEntries(db, pos) == Parsed(Features(es))
    decreases |db| - pos
  {
    hide ParseEntry, Text, ValidEntry, FeatureOf;
    var e := ParsedEntry(db, pos);
    var t := Text(e);
    var next := pos + |t| + 2;
    assert db[pos..] == db[pos..pos + |t|] + db[pos + |t|..next] + db[next..];
    if next == |db| {
      es, end := [e], db[pos + |t|..next];
      assert Features(es) == [FeatureOf(e)];
    } else {
      es, end := ParsedBody(db, next);
      assert [e] + es != [] && ([e] + es)[1..] == es;
      assert Features([e] + es) == [FeatureOf(e)] + Features(es);
      es := [e] + es;
    }
  }

  /** The parser reads a non-empty list exactly from the documents of the grammar, and then it reads
      their entries; every shorter text is taken for an empty list. */
  lemma AcceptedLanguage(text: string)
    ensures (Parse(text).Parsed? && Parse(text).features != []) <==> exists es, end :: Document(Strip(text), es, end)
    ensures forall es, end :: Document(Strip(text), es, end) ==> Parse(text) == Parsed(Features(es))
    ensures Parse(text) == Parsed([]) <==> |Strip(text)| <= 1
  {
    hide ParseEntry, Body, ValidEntry, FeatureOf;
    var db := Strip(text);
    if Parse(text).Parsed? && |db| > 1 {
      var es, end := ParsedBody(db, 1);
      assert db == "[" + db[1..];
      assert Document(Strip(text), es, end) && |Features(es)| == |es|;
    }
    forall es, end | Document(Strip(text), es, end)
      ensures Parse(text) == Parsed(Features(es)) && |Features(es)| == |es| > 0
    {
      assert db[1..] == Body(es, end);
      BodyNotEmpty(es, end);
      BodyParses(db, 1, es, end);
    }
    assert (exists es, end :: Document(Strip(text), es, end)) ==> Parse(text).Parsed? && Parse(text).features != [];
  }

  // ---------- Round trip ----------

  function Digit(d: nat): char
    requires d < 10
  {
    ('0' as int + d) as char
  }

  function Decimal(n: nat): string {
    if n < 10 then [Digit(n)] else Decimal(n / 10) + [Digit(n % 10)]
  }

  function Number(n: int): string {
    if n < 0 then "-" + Decimal(-n) else Decimal(n)
  }

  lemma {:induction false} DecimalValue(n: nat)
    ensures Decimal(n) != "" && (forall i :: 0 <= i < |Decimal(n)| ==> IsDigit(Decimal(n)[i])) && Value(Decimal(n)) == n
  {
    if n >= 10 {
      DecimalValue(n / 10);
      var s := Decimal(n);
      assert s[..|s| - 1] == Decimal(n / 10);
    } else {
      assert Decimal(n)[..0] == "";
    }
  }

  lemma NumberReadsBack(n: int)
    requires -0x8000_0000 <= n < 0x8000_0000
    ensures ValidNumber(Number(n)) && Stol(Number(n)) == Some(n) && ToInt32(n) == n
    ensures Strip(Number(n)) == Number(n)
  {
    var m: nat := if n < 0 then -n else n;
    DecimalValue(m);
    var d := Decimal(m);
    Int32Fixes(n);
    hide Decimal, Value, Stol, ToInt32, Strip, EndsNumber, IsDigit, IsSpace;
    StolDigits(d);
    NumberChars(Number(n)) by {
      assert forall c <- d :: IsDigit(c);
    }
    StripNothing(Number(n));
  }

  lemma NumberChars(s: string)
    requires forall c <- s :: c == '-' || IsDigit(c)
    ensures forall c <- s :: !EndsNumber(c) && !IsSpace(c)
  {
  }

  lemma StolDigits(d: string)
    requires d != "" && (forall i :: 0 <= i < |d| ==> IsDigit(d[i])) && Value(d) <= LONG_MAX
    ensures Stol(d) == Some(Value(d)) && Stol("-" + d) == Some(0 - Value(d))
  {
    hide Value;
    assert DigitRun(d) == |d| && d[..|d|] == d;
    assert IsDigit(d[0]);
    assert ("-" + d)[1..] == d;
  }

  lemma Int32Fixes(n: int)
    requires -0x8000_0000 <= n < 0x8000_0000
    ensures ToInt32(n) == n
  {
  }

  /** A feature as an entry of the documented form. */
  function Written(f: Feature): Entry {
    Entry(Number(f.latitude), Number(f.longitude), f.name)
  }

  function WrittenAll(fs: seq<Feature>): seq<Entry> {
    seq(|fs|, i requires 0 <= i < |fs| => Written(fs[i]))
  }

  /** The documented form, without optional white space. */
  function Print(fs: seq<Feature>): string {
    "[" + Body(WrittenAll(fs), "}]")
  }

  predicate Printable(f: Feature) {
    && -0x8000_0000 <= f.latitude < 0x8000_0000 && -0x8000_0000 <= f.longitude < 0x8000_0000
    && '"' !in f.name
  }

  function Stripped(f: Feature): Feature {
    f.(name := Strip(f.name))
  }

  function StrippedAll(fs: seq<Feature>): seq<Feature> {
    seq(|fs|, i requires 0 <= i < |fs| => Stripped(fs[i]))
  }

  lemma {:induction false} StripConcat(a: string, b: string)
    ensures Strip(a + b) == Strip(a) + Strip(b)
  {
    if b == "" {
      assert a + b == a;
    } else {
      assert (a + b)[..|a + b| - 1] == a + b[..|b| - 1];
      StripConcat(a, b[..|b| - 1]);
    }
  }

  lemma {:induction false} StripNothing(s: string)
    requires forall c <- s :: !IsSpace(c)
    ensures Strip(s) == s
  {
    if s != "" {
      StripNothing(s[..|s| - 1]);
    }
  }

  lemma {:induction false} StripKeepsOut(s: string, c: char)
    requires c !in s
    ensures c !in Strip(s)
  {
    if s != "" {
      StripKeepsOut(s[..|s| - 1], c);
    }
  }

  lemma StripThree(a: string, b: string, c: string)
    requires Strip(a) == a && Strip(b) == b
    ensures Strip(a + (b + c)) == a + (b + Strip(c))
  {
    hide Strip;
    StripConcat(b, c);
    StripConcat(a, b + c);
  }

  lemma StripConstants()
    ensures Strip(HEAD) == HEAD && Strip(MIDDLE) == MIDDLE && Strip(TAIL) == TAIL
    ensures Strip("\"") == "\"" && Strip("},") == "}," && Strip("}]") == "}]" && Strip("[") == "["
  {
    hide Strip;
    StripNothing(HEAD);
    StripNothing(MIDDLE);
    StripNothing(TAIL);
    StripNothing("\"");
    StripNothing("},");
    StripNothing("}]");
    StripNothing("[");
  }

  lemma StripText(f: Feature)
    requires Printable(f)
    ensures Strip(Text(Written(f))) == Text(Written(Stripped(f)))
  {
    StripConstants();
    NumberReadsBack(f.latitude);
    NumberReadsBack(f.longitude);
    hide Strip, Number, Stol, ValidNumber;
    var e := Written(f);
    StripConcat(e.name, "\"");
    StripThree(e.lon, TAIL, NameText(e.name));
    StripThree(e.lat, MIDDLE, LongitudeText(e));
    StripConcat(HEAD, LatitudeText(e));
  }

  lemma {:induction false} StripBody(fs: seq<Feature>)
    requires fs != [] && forall f <- fs :: Printable(f)
    ensures Strip(Body(WrittenAll(fs), "}]")) == Body(WrittenAll(StrippedAll(fs)), "}]")
  {
    hide Strip, Text, Written, Printable, Stripped;
    var es, ss := WrittenAll(fs), WrittenAll(StrippedAll(fs));
    StripText(fs[0]);
    StripConstants();
    assert es[0] == Written(fs[0]) && ss[0] == Written(Stripped(fs[0]));
    if |fs| == 1 {
      StripConcat(Text(es[0]), "}]");
    } else {
      assert es[1..] == WrittenAll(fs[1..]) && ss[1..] == WrittenAll(StrippedAll(fs[1..]));
      StripBody(fs[1..]);
      StripConcat("},", Body(es[1..], "}]"));
      StripConcat(Text(es[0]), "}," + Body(es[1..], "}]"));
    }
  }

  /** Printing a non-empty list and parsing it, with white space added or removed anywhere, gives the
      list back with the white space gone from the names. */
  lemma RoundTrip(fs: seq<Feature>, text: string)
    requires fs != [] && (forall f <- fs :: Printable(f)) && Strip(text) == Strip(Print(fs))
    ensures Parse(text) == Parsed(StrippedAll(fs))
  {
    hide Strip, Parse, Print, Document, ValidEntry, Printable, Features, StrippedAll, WrittenAll;
    PrintedEntries(fs);
    PrintedDocument(fs);
    AcceptedLanguage(text);
  }

  lemma PrintedEntries(fs: seq<Feature>)
    requires forall f <- fs :: Printable(f)
    ensures var es := WrittenAll(StrippedAll(fs));
            (forall e <- es :: ValidEntry(e)) && Features(es) == StrippedAll(fs)
  {
    hide Written, Stripped, FeatureOf, Printable, ValidEntry;
    var es := WrittenAll(StrippedAll(fs));
    forall i | 0 <= i < |fs| ensures ValidEntry(es[i]) && FeatureOf(es[i]) == Stripped(fs[i]) {
      WrittenIsValid(fs[i]);
    }
  }

  lemma PrintedDocument(fs: seq<Feature>)
    requires fs != [] && forall f <- fs :: Printable(f)
    ensures Document(Strip(Print(fs)), WrittenAll(StrippedAll(fs)), "}]")
  {
    hide Strip, ValidEntry, Body, Printable;
    PrintedEntries(fs);
    StripBody(fs);
    StripConstants();
    StripConcat("[", Body(WrittenAll(fs), "}]"));
  }

  lemma WrittenIsValid(f: Feature)
    requires Printable(f)
    ensures var e := Written(Stripped(f)); ValidEntry(e) && FeatureOf(e) == Stripped(f)
  {
    NumberReadsBack(f.latitude);
    NumberReadsBack(f.longitude);
    StripKeepsOut(f.name, '"');
  }
}
