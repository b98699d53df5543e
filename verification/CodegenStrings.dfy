/**
 String helpers of the code generators: src/compiler/generator_helpers.h,
 src/compiler/ruby_generator_string-inl.h and src/compiler/cpp_generator_helpers.h.
 */
module CodegenStrings {
  import opened Common

  // ---------- std::string::find ----------

  predicate OccursAt(s: string, i: nat, pattern: string) {
    i + |pattern| <= |s| && s[i..i + |pattern|] == pattern
  }

  /** s.find(pattern, pos): the first occurrence that starts at pos or later. */
  function Find(s: string, pattern: string, pos: nat): (r: Option<nat>)
    requires pos <= |s|
    ensures r.Some? ==> pos <= r.value && r.value + |pattern| <= |s|
    decreases |s| - pos
  {
    if OccursAt(s, pos, pattern) then Some(pos)
    else if pos == |s| then None
    else Find(s, pattern, pos + 1)
  }

  lemma {:induction false} FindIsFirst(s: string, pattern: string, pos: nat)
    requires pos <= |s|
    ensures var r := Find(s, pattern, pos);
            && (r.Some? ==> OccursAt(s, r.value, pattern))
            && forall i :: pos <= i && (r.Some? ==> i < r.value) ==> !OccursAt(s, i, pattern)
    decreases |s| - pos
  {
    if !OccursAt(s, pos, pattern) && pos < |s| {
      FindIsFirst(s, pattern, pos + 1);
    }
  }

  // ---------- Replacing ----------

  /** Every occurrence of `from`, scanning from the left and never looking at inserted text again. */
  function Replaced(s: string, from: string, to: string): string
    requires from != ""
    decreases |s|
  {
    match Find(s, from, 0)
    case None => s
    case Some(i) => s[..i] + to + Replaced(s[i + |from|..], from, to)
  }

  function ReplacedOnce(s: string, from: string, to: string): string {
    match Find(s, from, 0)
    case None => s
    case Some(i) => s[..i] + to + s[i + |from|..]
  }

  lemma {:induction false} FindShifts(done: string, rest: string, pattern: string, pos: nat)
    requires pos <= |rest|
    ensures Find(done + rest, pattern, |done| + pos) ==
            match Find(rest, pattern, pos) case None => None case Some(i) => Some(|done| + i)
    decreases |rest| - pos
  {
    var s := done + rest;
    assert OccursAt(s, |done| + pos, pattern) <==> OccursAt(rest, pos, pattern) by {
      if pos + |pattern| <= |rest| {
        assert s[|done| + pos..|done| + pos + |pattern|] == rest[pos..pos + |pattern|];
      }
    }
    if !OccursAt(rest, pos, pattern) && pos < |rest| {
      FindShifts(done, rest, pattern, pos + 1);
    }
  }

  /** The text of a replacement loop once it is done: what is before pos stays, the rest is replaced. */
  function Outcome(r: string, pos: nat, from: string, to: string): string
    requires from != "" && pos <= |r|
  {
    r[..pos] + Replaced(r[pos..], from, to)
  }

  /** r.replace(k, from.size(), to). */
  function Spliced(r: string, k: nat, from: string, to: string): string
    requires k + |from| <= |r|
  {
    r[..k] + to + r[k + |from|..]
  }

  lemma SplicedParts(r: string, k: nat, from: string, to: string)
    requires k + |from| <= |r|
    ensures var after := Spliced(r, k, from, to);
            && |after| == |r| - |from| + |to|
            && after[..k + |to|] == r[..k] + to && after[k + |to|..] == r[k + |from|..]
  {
  }

  lemma FindFrom(r: string, from: string, pos: nat)
    requires pos <= |r|
    ensures Find(r, from, pos) == match Find(r[pos..], from, 0) case None => None case Some(i) => Some(pos + i)
  {
    assert r == r[..pos] + r[pos..];
    FindShifts(r[..pos], r[pos..], from, 0);
  }

  lemma Assoc(a: string, b: string, c: string, d: string)
    ensures a + (b + c + d) == a + b + c + d
  {
  }

  lemma ReplacedUnfold(s: string, from: string, to: string)
    requires from != ""
    ensures Find(s, from, 0).None? ==> Replaced(s, from, to) == s
    ensures Find(s, from, 0).Some? ==>
      var i := Find(s, from, 0).value;
      i + |from| <= |s| && Replaced(s, from, to) == s[..i] + to + Replaced(s[i + |from|..], from, to)
  {
    hide Find;
  }

  lemma NothingLeft(r: string, pos: nat, from: string, to: string)
    requires from != "" && pos <= |r| && Find(r, from, pos).None?
    ensures Outcome(r, pos, from, to) == r
  {
    hide *;
    FindFrom(r, from, pos);
    ReplacedUnfold(r[pos..], from, to);
    OutcomeOf(r, pos, r[..pos], r[pos..], from, to);
    assert r == r[..pos] + r[pos..];
  }

  /** One round of a replacement loop leaves the outcome as it was. */
  lemma Round(r: string, pos: nat, from: string, to: string, k: nat)
    requires from != "" && pos <= |r| && Find(r, from, pos) == Some(k)
    ensures k + |from| <= |r| && k + |to| <= |Spliced(r, k, from, to)|
    ensures Outcome(Spliced(r, k, from, to), k + |to|, from, to) == Outcome(r, pos, from, to)
  {
    hide *;
    FindFrom(r, from, pos);
    var done, rest := r[..pos], r[pos..];
    ReplacedUnfold(rest, from, to);
    OutcomeOf(r, pos, done, rest, from, to);
    var i := k - pos;
    assert Find(rest, from, 0) == Some(i);
    var tail := r[k + |from|..];
    Slices(r, pos, i, |from|);
    assert Replaced(rest, from, to) == rest[..i] + to + Replaced(tail, from, to);
    SplicedOutcome(r, k, from, to);
    Assoc(done, rest[..i], to, Replaced(tail, from, to));
  }

  lemma SplicedOutcome(r: string, k: nat, from: string, to: string)
    requires from != "" && k + |from| <= |r|
    ensures k + |to| <= |Spliced(r, k, from, to)|
    ensures Outcome(Spliced(r, k, from, to), k + |to|, from, to) == r[..k] + to + Replaced(r[k + |from|..], from, to)
  {
    hide *;
    SplicedParts(r, k, from, to);
    OutcomeOf(Spliced(r, k, from, to), k + |to|, r[..k] + to, r[k + |from|..], from, to);
  }

  lemma OutcomeOf(r: string, pos: nat, done: string, rest: string, from: string, to: string)
    requires from != "" && pos <= |r| && r[..pos] == done && r[pos..] == rest
    ensures Outcome(r, pos, from, to) == done + Replaced(rest, from, to)
  {
  }

  lemma Slices(r: string, pos: nat, i: nat, n: nat)
    requires pos + i + n <= |r|
    ensures r[..pos] + r[pos..][..i] == r[..pos + i] && r[pos..][i + n..] == r[pos + i + n..]
  {
  }

  /** Nothing is read yet. */
  lemma AtStart(s: string, from: string, to: string)
    requires from != ""
    ensures Outcome(s, 0, from, to) == Replaced(s, from, to)
  {
    assert s[0..] == s;
  }

  /** StringReplace.  With replace_all an empty `from` would loop for ever. */
  method StringReplace(str: string, from: string, to: string, replaceAll: bool) returns (r: string)
    requires replaceAll ==> from != ""
    ensures r == if replaceAll then Replaced(str, from, to) else ReplacedOnce(str, from, to)
  {
    hide Outcome, Replaced, Find;
    r := str;
    var pos := 0;
    if replaceAll { AtStart(str, from, to); }
    while true
      invariant 0 <= pos <= |r|
      invariant replaceAll ==> Outcome(r, pos, from, to) == Replaced(str, from, to)
      invariant !replaceAll ==> r == str && pos == 0
      decreases |r| - pos
    {
      var found := Find(r, from, pos);
      if found.None? {
        if replaceAll { NothingLeft(r, pos, from, to); }
        return;
      }
      if replaceAll { Round(r, pos, from, to, found.value); }
      r := r[..found.value] + to + r[found.value + |from|..];
      pos := found.value + |to|;
      if !replaceAll { return; }
    }
  }

  /** ReplaceAll of the Ruby generator: a different loop with the same outcome. */
  method ReplaceAll(s: string, search: string, replace: string) returns (r: string)
    requires search != ""
    ensures r == Replaced(s, search, replace)
  {
    hide Outcome, Replaced, Find;
    r := s;
    var pos := 0;
    AtStart(s, search, replace);
    while true
      invariant 0 <= pos <= |r|
      invariant Outcome(r, pos, search, replace) == Replaced(s, search, replace)
      decreases |r| - pos
    {
      var found := Find(r, search, pos);
      if found.None? {
        NothingLeft(r, pos, search, replace);
        return;
      }
      Round(r, pos, search, replace, found.value);
      r := r[..found.value] + replace + r[found.value + |search|..];
      pos := found.value + |replace|;
    }
  }

  // ---------- Tokens ----------

  /** input.find_first_of(delimiters, pos), or the end of the input. */
  function TokenEnd(s: string, delimiters: string, pos: nat): (q: nat)
    requires pos <= |s|
    ensures pos <= q <= |s| && (q < |s| ==> s[q] in delimiters)
    decreases |s| - pos
  {
    if pos == |s| || s[pos] in delimiters then pos else TokenEnd(s, delimiters, pos + 1)
  }

  lemma {:induction false} TokenEndIsFirst(s: string, delimiters: string, pos: nat)
    requires pos <= |s|
    ensures forall i :: pos <= i < TokenEnd(s, delimiters, pos) ==> s[i] !in delimiters
    decreases |s| - pos
  {
    if pos < |s| && s[pos] !in delimiters {
      TokenEndIsFirst(s, delimiters, pos + 1);
    }
  }

  /** The text cut at every delimiter. */
  function Tokens(s: string, delimiters: string): (ts: seq<string>)
    ensures ts != []
    decreases |s|
  {
    var q := TokenEnd(s, delimiters, 0);
    if q == |s| then [s] else [s[..q]] + Tokens(s[q + 1..], delimiters)
  }

  lemma {:induction false} TokenEndShifts(s: string, delimiters: string, start: nat, pos: nat)
    requires start <= pos <= |s|
    ensures TokenEnd(s, delimiters, pos) == start + TokenEnd(s[start..], delimiters, pos - start)
    decreases |s| - pos
  {
    if pos < |s| && s[pos] !in delimiters {
      TokenEndShifts(s, delimiters, start, pos + 1);
    }
  }

  lemma AssocTokens(a: seq<string>, b: seq<string>, c: seq<string>)
    ensures a + (b + c) == (a + b) + c && a + [] == a
  {
  }

  /** The tokens of a suffix: the first one, and those after the next delimiter. */
  lemma TokensStep(s: string, delimiters: string, start: nat)
    requires start <= |s|
    ensures var q := TokenEnd(s, delimiters, start);
            && (q == |s| ==> Tokens(s[start..], delimiters) == [s[start..q]])
            && (q < |s| ==> Tokens(s[start..], delimiters) == [s[start..q]] + Tokens(s[q + 1..], delimiters))
  {
    hide *;
    var q := TokenEnd(s, delimiters, start);
    var rest := s[start..];
    TokenEndShifts(s, delimiters, start, start);
    assert TokenEnd(rest, delimiters, 0) == q - start;
    if q < |s| {
      MoreTokens(rest, delimiters);
      SuffixSlices(s, start, q);
    } else {
      OneToken(rest, delimiters);
      assert s[start..q] == rest;
    }
  }

  lemma OneToken(s: string, delimiters: string)
    requires TokenEnd(s, delimiters, 0) == |s|
    ensures Tokens(s, delimiters) == [s]
  {
  }

  lemma MoreTokens(s: string, delimiters: string)
    requires TokenEnd(s, delimiters, 0) < |s|
    ensures var q := TokenEnd(s, delimiters, 0);
            Tokens(s, delimiters) == [s[..q]] + Tokens(s[q + 1..], delimiters)
  {
  }

  lemma SuffixSlices(s: string, start: nat, q: nat)
    requires start <= q < |s|
    ensures s[start..][..q - start] == s[start..q] && s[start..][q - start + 1..] == s[q + 1..]
  {
  }

  method Tokenize(input: string, delimiters: string) returns (tokens: seq<string>)
    ensures tokens == Tokens(input, delimiters)
  {
    hide Tokens, TokenEnd;
    tokens := [];
    var last := 0;
    AllTokens(input, delimiters);
    while true
      invariant last <= |input| && tokens + Tokens(input[last..], delimiters) == Tokens(input, delimiters)
      decreases |input| - last
    {
      var pos := TokenEnd(input, delimiters, last);
      TokensStep(input, delimiters, last);
      if pos == |input| {
        tokens := tokens + [input[last..pos]];
        return;
      }
      AssocTokens(tokens, [input[last..pos]], Tokens(input[pos + 1..], delimiters));
      tokens := tokens + [input[last..pos]];
      last := pos + 1;
    }
  }

  lemma AllTokens(input: string, delimiters: string)
    ensures [] + Tokens(input[0..], delimiters) == Tokens(input, delimiters)
  {
    hide Tokens;
    assert input[0..] == input;
  }

  /** Tokens, without an empty last one. */
  function Pieces(s: string, delim: char): seq<string> {
    var ts := Tokens(s, [delim]);
    if ts[|ts| - 1] == "" then ts[..|ts| - 1] else ts
  }

  /** Split by getline: a line that ends at the end of the text is returned only if it is not empty. */
  method Split(s: string, delim: char) returns (elems: seq<string>)
    ensures elems == Pieces(s, delim)
  {
    hide Pieces, TokenEnd, Tokens;
    elems := [];
    var pos := 0;
    PiecesOfNothing(delim);
    AllPieces(s, delim);
    while pos < |s|
      invariant pos <= |s| && elems + Pieces(s[pos..], delim) == Pieces(s, delim)
      decreases |s| - pos
    {
      var q := TokenEnd(s, [delim], pos);
      PiecesStep(s, delim, pos);
      if q == |s| {
        elems := elems + [s[pos..q]];
        return;
      }
      AssocTokens(elems, [s[pos..q]], Pieces(s[q + 1..], delim));
      elems := elems + [s[pos..q]];
      pos := q + 1;
    }
    assert s[pos..] == "";
  }

  lemma AllPieces(s: string, delim: char)
    ensures [] + Pieces(s[0..], delim) == Pieces(s, delim)
  {
    hide Pieces;
    assert s[0..] == s;
  }

  lemma PiecesOfNothing(delim: char)
    ensures Pieces("", delim) == []
  {
    assert Tokens("", [delim]) == [""];
  }

  lemma PiecesStep(s: string, delim: char, start: nat)
    requires start < |s|
    ensures var q := TokenEnd(s, [delim], start);
            && (q == |s| ==> Pieces(s[start..], delim) == [s[start..q]])
            && (q < |s| ==> Pieces(s[start..], delim) == [s[start..q]] + Pieces(s[q + 1..], delim))
  {
    hide *;
    TokensStep(s, [delim], start);
    var q := TokenEnd(s, [delim], start);
    var first := s[start..q];
    if q < |s| {
      PiecesMore(s[start..], s[q + 1..], delim, first);
    } else {
      PiecesLast(s[start..], delim, first);
    }
  }

  lemma PiecesLast(s: string, delim: char, first: string)
    requires Tokens(s, [delim]) == [first] && first != ""
    ensures Pieces(s, delim) == [first]
  {
    hide Tokens;
  }

  lemma PiecesMore(s: string, rest: string, delim: char, first: string)
    requires Tokens(s, [delim]) == [first] + Tokens(rest, [delim])
    ensures Pieces(s, delim) == [first] + Pieces(rest, delim)
  {
    hide Tokens;
    LastOf(first, Tokens(rest, [delim]));
  }

  lemma LastOf(first: string, ts: seq<string>)
    requires ts != []
    ensures ([first] + ts)[|ts|] == ts[|ts| - 1] && ([first] + ts)[..|ts|] == [first] + ts[..|ts| - 1]
  {
  }

  function Join(ts: seq<string>, glue: string): string
    requires ts != []
  {
    if |ts| == 1 then ts[0] else ts[0] + glue + Join(ts[1..], glue)
  }

  /** Tokens are free of delimiters, and for one delimiter they and it make up the text again. */
  lemma {:induction false} TokensRebuild(s: string, d: char)
    ensures Join(Tokens(s, [d]), [d]) == s
    ensures forall t <- Tokens(s, [d]) :: d !in t
    decreases |s|
  {
    var q := TokenEnd(s, [d], 0);
    TokenEndIsFirst(s, [d], 0);
    if q < |s| {
      TokensRebuild(s[q + 1..], d);
      var ts := Tokens(s[q + 1..], [d]);
      assert ([s[..q]] + ts)[1..] == ts;
      assert s == s[..q] + [d] + s[q + 1..];
    }
  }

  /** The stretches of text between the occurrences that a replacement finds. */
  function Chunks(s: string, from: string): (cs: seq<string>)
    requires from != ""
    ensures cs != []
    decreases |s|
  {
    match Find(s, from, 0)
    case None => [s]
    case Some(i) => [s[..i]] + Chunks(s[i + |from|..], from)
  }

  /** Nothing but the occurrences changes, and between them there is none left over. */
  lemma {:induction false} ReplacedSwapsTheGlue(s: string, from: string, to: string)
    requires from != ""
    ensures Join(Chunks(s, from), from) == s
    ensures Join(Chunks(s, from), to) == Replaced(s, from, to)
    ensures forall c, i: nat :: c in Chunks(s, from) ==> !OccursAt(c, i, from)
    decreases |s|
  {
    FindIsFirst(s, from, 0);
    ReplacedUnfold(s, from, to);
    var found := Find(s, from, 0);
    hide Find, OccursAt, Replaced;
    if found.Some? {
      var i := found.value;
      var rest := s[i + |from|..];
      ReplacedSwapsTheGlue(rest, from, to);
      JoinCons(s[..i], Chunks(rest, from), from);
      JoinCons(s[..i], Chunks(rest, from), to);
      Parts(s, i, from);
      FirstChunk(s, from, i);
    }
  }

  lemma JoinCons(c: string, cs: seq<string>, glue: string)
    requires cs != []
    ensures Join([c] + cs, glue) == c + glue + Join(cs, glue)
  {
    assert ([c] + cs)[1..] == cs;
  }

  lemma Parts(s: string, i: nat, from: string)
    requires OccursAt(s, i, from)
    ensures s == s[..i] + from + s[i + |from|..]
  {
  }

  lemma FirstChunk(s: string, from: string, i: nat)
    requires OccursAt(s, i, from) && from != ""
    requires forall k: nat :: k < i ==> !OccursAt(s, k, from)
    ensures forall k: nat :: !OccursAt(s[..i], k, from)
  {
    forall k: nat ensures !OccursAt(s[..i], k, from) {
      if OccursAt(s[..i], k, from) {
        assert s[..i][k..k + |from|] == s[k..k + |from|];
        assert OccursAt(s, k, from);
      }
    }
  }

  /** For one character the stretches are the tokens. */
  lemma {:induction false} ChunksAreTokens(s: string, d: char)
    ensures Chunks(s, [d]) == Tokens(s, [d])
    decreases |s|
  {
    FindChar(s, d, 0);
    hide Find;
    if TokenEnd(s, [d], 0) < |s| {
      ChunksAreTokens(s[TokenEnd(s, [d], 0) + 1..], d);
    }
  }

  lemma {:induction false} FindChar(s: string, d: char, pos: nat)
    requires pos <= |s|
    ensures var q := TokenEnd(s, [d], pos);
            Find(s, [d], pos) == if q == |s| then None else Some(q)
    decreases |s| - pos
  {
    if pos < |s| {
      assert s[pos..pos + 1] == [s[pos]];
      FindChar(s, d, pos + 1);
    }
  }

  /** One character is replaced wherever it stands, so the pieces of a text can be done separately. */
  lemma {:induction false} ReplacedConcat(a: string, b: string, d: char, to: string)
    ensures Replaced(a + b, [d], to) == Replaced(a, [d], to) + Replaced(b, [d], to)
    decreases |a|
  {
    hide *;
    if a == "" {
      assert a + b == b;
      ReplacedNothing(d, to);
    } else {
      var rest := a[1..];
      assert (a + b)[1..] == rest + b;
      ReplacedHead(a, d, to);
      ReplacedHead(a + b, d, to);
      ReplacedConcat(rest, b, d, to);
      var head := if a[0] == d then to else [a[0]];
      assert head + Replaced(rest, [d], to) + Replaced(b, [d], to) ==
        head + (Replaced(rest, [d], to) + Replaced(b, [d], to));
    }
  }

  lemma ReplacedNothing(d: char, to: string)
    ensures Replaced("", [d], to) == ""
  {
  }

  lemma FindPastHead(s: string, d: char)
    requires s != ""
    ensures s[0] == d ==> Find(s, [d], 0) == Some(0)
    ensures s[0] != d ==>
      Find(s, [d], 0) == match Find(s[1..], [d], 0) case None => None case Some(i) => Some(1 + i)
  {
    assert s[0..1] == [s[0]];
    if s[0] != d {
      FindFrom(s, [d], 1);
      assert Find(s, [d], 0) == Find(s, [d], 1);
    }
  }

  lemma ReplacedHead(s: string, d: char, to: string)
    requires s != ""
    ensures s[0] == d ==> Replaced(s, [d], to) == to + Replaced(s[1..], [d], to)
    ensures s[0] != d ==> Replaced(s, [d], to) == [s[0]] + Replaced(s[1..], [d], to)
  {
    hide *;
    FindPastHead(s, d);
    ReplacedUnfold(s, [d], to);
    if s[0] == d {
      assert s[..0] + to == to;
    } else {
      SkipHead(s, d, to);
    }
  }

  lemma SkipHead(s: string, d: char, to: string)
    requires s != "" && s[0] != d
    ensures Replaced(s, [d], to) == [s[0]] + Replaced(s[1..], [d], to)
  {
    hide *;
    var rest := s[1..];
    FindPastHead(s, d);
    ReplacedUnfold(s, [d], to);
    ReplacedUnfold(rest, [d], to);
    if Find(rest, [d], 0).Some? {
      var i := Find(rest, [d], 0).value;
      Slices(s, 1, i, 1);
      assert s[..1] == [s[0]];
      Assoc([s[0]], rest[..i], to, Replaced(rest[i + 1..], [d], to));
    } else {
      assert s == [s[0]] + rest;
    }
  }

  // ---------- Class names ----------

  datatype Descriptor = TopLevel(package: string, name: string) | Nested(containingType: Descriptor, name: string)

  function FullName(d: Descriptor): string {
    match d
    case TopLevel(package, name) => if package == "" then name else package + "." + name
    case Nested(outer, name) => FullName(outer) + "." + name
  }

  function Outermost(d: Descriptor): (top: Descriptor)
    ensures top.TopLevel?
  {
    match d case TopLevel(_, _) => d case Nested(outer, _) => Outermost(outer)
  }

  /** What comes after the top-level name: one underscore and name for each level of nesting. */
  function Suffix(d: Descriptor): string {
    match d
    case TopLevel(_, _) => ""
    case Nested(outer, name) => Suffix(outer) + "_" + Replaced(name, ".", "_")
  }

  /** The C++ class of a message: its package as namespaces, then the names on the path to it. */
  function CppName(d: Descriptor, qualified: bool): string {
    var top := Outermost(d);
    (if !qualified then top.name
     else if top.package == "" then "::" + Replaced(top.name, ".", "::")
     else "::" + Replaced(top.package, ".", "::") + "::" + Replaced(top.name, ".", "::")) + Suffix(d)
  }

  function Inner(d: Descriptor): string {
    match d case TopLevel(_, _) => "" case Nested(outer, name) => Inner(outer) + "." + name
  }

  lemma {:induction false} FullNameSplits(d: Descriptor)
    ensures FullName(d) == FullName(Outermost(d)) + Inner(d)
    ensures Replaced(Inner(d), ".", "_") == Suffix(d)
  {
    hide Replaced;
    match d
    case TopLevel(_, _) =>
      ReplacedUnfold("", ".", "_");
    case Nested(outer, name) =>
      FullNameSplits(outer);
      ReplacedConcat(Inner(outer) + ".", name, '.', "_");
      ReplacedConcat(Inner(outer), ".", '.', "_");
      ReplacedDot("_");
  }

  lemma ReplacedDot(to: string)
    ensures Replaced(".", ".", to) == to
  {
    ReplacedNothing('.', to);
    ReplacedHead(".", '.', to);
  }

  lemma TopName(d: Descriptor)
    requires d.TopLevel?
    ensures d.package == "" ==> Replaced(FullName(d), ".", "::") == Replaced(d.name, ".", "::")
    ensures d.package != "" ==>
      Replaced(FullName(d), ".", "::") == Replaced(d.package, ".", "::") + "::" + Replaced(d.name, ".", "::")
  {
    hide Replaced;
    ReplacedConcat(d.package + ".", d.name, '.', "::");
    ReplacedConcat(d.package, ".", '.', "::");
    ReplacedDot("::");
  }

  /** How ClassName puts its two parts together. */
  lemma NameParts(d: Descriptor, qualified: bool)
    ensures var top := Outermost(d);
            qualified ==> CppName(d, qualified) == "::" + Replaced(FullName(top), ".", "::") + Suffix(d)
    ensures !qualified ==> CppName(d, qualified) == Outermost(d).name + Suffix(d)
  {
    var top := Outermost(d);
    TopName(top);
    hide Replaced, FullName, Suffix;
    if qualified && top.package != "" {
      Assoc("::", Replaced(top.package, ".", "::"), "::", Replaced(top.name, ".", "::"));
    }
  }

  method ClassName(descriptor: Descriptor, qualified: bool) returns (r: string)
    ensures r == CppName(descriptor, qualified)
  {
    hide CppName, Replaced, FullName, Inner, Suffix;
    var outer := descriptor;
    while outer.Nested?
      invariant Outermost(outer) == Outermost(descriptor)
      decreases outer
    {
      outer := outer.containingType;
    }
    FullNameSplits(descriptor);
    NameParts(descriptor, qualified);
    var outerName := FullName(outer);
    var innerName := FullName(descriptor)[|outerName|..];
    assert innerName == Inner(descriptor);
    var suffix := StringReplace(innerName, ".", "_", true);
    if qualified {
      var prefix := StringReplace(outerName, ".", "::", true);
      r := "::" + prefix + suffix;
    } else {
      r := outer.name + suffix;
    }
  }
}
