/**
 merge_json of tools/buildgen/bunch.py, on trees without shared parts.
 */
module MergeJson {
  import opened Common

  datatype Json = Obj(fields: map<string, Json>) | Arr(items: seq<Json>) | Scalar(text: string)

  /** Merge `add` into `dst`; None when the exception about incompatible objects is raised. */
  function Merge(dst: Json, add: Json): Option<Json>
    decreases dst
  {
    if dst.Obj? && add.Obj? then
      var d, a := dst.fields, add.fields;
      if forall k <- d :: k in a && k != "#" ==> Merge(d[k], a[k]).Some?
      then Some(Obj(map k | k in d.Keys + a.Keys ::
                      if k !in a then d[k]
                      else if k !in d then a[k]
                      else if k == "#" then d[k]
                      else Merge(d[k], a[k]).value))
      else None
    else if dst.Arr? && add.Arr? then Some(Arr(dst.items + add.items))
    else None
  }

  /** Merge, where either side may already have failed. */
  function Then(dst: Option<Json>, add: Option<Json>): Option<Json> {
    if dst.Some? && add.Some? then Merge(dst.value, add.value) else None
  }

  /** What the merge leaves at key k, if anything. */
  function At(d: map<string, Json>, k: string): Option<Json> {
    if k in d then Some(d[k]) else None
  }

  /** The merge of a single field: absent sides do not count, and the first comment stays. */
  function MergeAt(k: string, x: Option<Json>, y: Option<Json>): Option<Json> {
    if x.None? then y else if y.None? || k == "#" then x else Merge(x.value, y.value)
  }

  /** The merge fails on field k. */
  predicate Clash(k: string, x: Option<Json>, y: Option<Json>) {
    x.Some? && y.Some? && MergeAt(k, x, y).None?
  }

  /** Field by field: a merge of objects fails exactly when some field clashes, and otherwise holds at
      each key the merge of what the two sides hold there. */
  lemma MergeFields(d: map<string, Json>, a: map<string, Json>)
    ensures Merge(Obj(d), Obj(a)).Some? <==> forall k <- d :: !Clash(k, At(d, k), At(a, k))
    ensures Merge(Obj(d), Obj(a)).Some? ==>
              && Merge(Obj(d), Obj(a)).value.Obj?
              && forall k :: At(Merge(Obj(d), Obj(a)).value.fields, k) == MergeAt(k, At(d, k), At(a, k))
  {
    var dst, add := Obj(d), Obj(a);
    if Merge(dst, add).Some? {
      forall k <- d ensures !Clash(k, At(d, k), At(a, k)) {
        if k in a && k != "#" {
          assert Merge(d[k], a[k]).Some?;
        }
      }
    } else {
      var k :| k in d && k in a && k != "#" && Merge(d[k], a[k]).None?;
      assert Clash(k, At(d, k), At(a, k));
    }
  }

  /** Both groupings of three documents fail together or give the same document. */
  lemma {:induction false} Associative(x: Json, y: Json, z: Json)
    ensures Then(Merge(x, y), Some(z)) == Then(Some(x), Merge(y, z))
    decreases x, 2
  {
    if x.Obj? && y.Obj? && z.Obj? {
      AssociativeObjects(x, y, z);
    } else if x.Arr? && y.Arr? && z.Arr? {
      assert (x.items + y.items) + z.items == x.items + (y.items + z.items);
    }
  }

  lemma {:induction false} AssociativeField(x: Json, y: Json, z: Json, k: string)
    requires x.Obj? && y.Obj? && z.Obj?
    ensures AssociativeAt(k, At(x.fields, k), At(y.fields, k), At(z.fields, k))
    decreases x, 0
  {
    if k in x.fields && k in y.fields && k in z.fields {
      Associative(x.fields[k], y.fields[k], z.fields[k]);
    }
    FieldsAssociate(k, At(x.fields, k), At(y.fields, k), At(z.fields, k));
  }

  lemma FieldsAssociate(k: string, x: Option<Json>, y: Option<Json>, z: Option<Json>)
    requires x.Some? && y.Some? && z.Some? ==> Then(Merge(x.value, y.value), z) == Then(x, Merge(y.value, z.value))
    ensures AssociativeAt(k, x, y, z)
  {
    hide Merge;
  }

  lemma {:induction false} AssociativeObjects(x: Json, y: Json, z: Json)
    requires x.Obj? && y.Obj? && z.Obj?
    ensures Then(Merge(x, y), Some(z)) == Then(Some(x), Merge(y, z))
    decreases x, 1
  {
    hide *;
    var d, a, b := x.fields, y.fields, z.fields;
    forall k ensures AssociativeAt(k, At(d, k), At(a, k), At(b, k)) {
      AssociativeField(x, y, z, k);
    }
    LeftFields(d, a, b);
    RightFields(d, a, b);
    var l, r := Then(Merge(x, y), Some(z)), Then(Some(x), Merge(y, z));
    forall k ensures LeftClash(k, At(d, k), At(a, k), At(b, k)) <==> RightClash(k, At(d, k), At(a, k), At(b, k)) {
      ClashesAgree(k, At(d, k), At(a, k), At(b, k));
    }
    assert l.Some? <==> r.Some?;
    if l.Some? {
      forall k ensures At(l.value.fields, k) == At(r.value.fields, k) {
        assert !LeftClash(k, At(d, k), At(a, k), At(b, k));
        ClashesAgree(k, At(d, k), At(a, k), At(b, k));
      }
      SameFields(l.value.fields, r.value.fields);
    }
  }

  lemma ClashesAgree(k: string, x: Option<Json>, y: Option<Json>, z: Option<Json>)
    requires AssociativeAt(k, x, y, z)
    ensures LeftClash(k, x, y, z) <==> RightClash(k, x, y, z)
    ensures !LeftClash(k, x, y, z) ==> MergeAt(k, MergeAt(k, x, y), z) == MergeAt(k, x, MergeAt(k, y, z))
  {
  }

  predicate LeftClash(k: string, x: Option<Json>, y: Option<Json>, z: Option<Json>) {
    Clash(k, x, y) || Clash(k, MergeAt(k, x, y), z)
  }

  predicate RightClash(k: string, x: Option<Json>, y: Option<Json>, z: Option<Json>) {
    Clash(k, y, z) || Clash(k, x, MergeAt(k, y, z))
  }

  lemma SameFields(m: map<string, Json>, n: map<string, Json>)
    requires forall k :: At(m, k) == At(n, k)
    ensures m == n
  {
    forall k ensures k in m <==> k in n {
      assert At(m, k) == At(n, k);
    }
    forall k <- m ensures m[k] == n[k] {
      assert At(m, k) == At(n, k);
    }
  }

  lemma LeftFields(d: map<string, Json>, a: map<string, Json>, b: map<string, Json>)
    ensures var l := Then(Merge(Obj(d), Obj(a)), Some(Obj(b)));
            && (l.Some? <==> forall k :: !LeftClash(k, At(d, k), At(a, k), At(b, k)))
            && (l.Some? ==> l.value.Obj? && forall k :: At(l.value.fields, k) == MergeAt(k, MergeAt(k, At(d, k), At(a, k)), At(b, k)))
  {
    hide Merge, MergeAt;
    MergeFields(d, a);
    var w := Merge(Obj(d), Obj(a));
    if w.Some? {
      MergeFields(w.value.fields, b);
      forall k ensures LeftClash(k, At(d, k), At(a, k), At(b, k)) <==> Clash(k, At(w.value.fields, k), At(b, k)) {
        assert At(w.value.fields, k) == MergeAt(k, At(d, k), At(a, k));
      }
    } else {
      var k :| k in d && Clash(k, At(d, k), At(a, k));
      assert LeftClash(k, At(d, k), At(a, k), At(b, k));
    }
  }

  lemma RightFields(d: map<string, Json>, a: map<string, Json>, b: map<string, Json>)
    ensures var r := Then(Some(Obj(d)), Merge(Obj(a), Obj(b)));
            && (r.Some? <==> forall k :: !RightClash(k, At(d, k), At(a, k), At(b, k)))
            && (r.Some? ==> r.value.Obj? && forall k :: At(r.value.fields, k) == MergeAt(k, At(d, k), MergeAt(k, At(a, k), At(b, k))))
  {
    hide Merge, MergeAt;
    MergeFields(a, b);
    var w := Merge(Obj(a), Obj(b));
    if w.Some? {
      MergeFields(d, w.value.fields);
      forall k ensures RightClash(k, At(d, k), At(a, k), At(b, k)) <==> Clash(k, At(d, k), At(w.value.fields, k)) {
        assert At(w.value.fields, k) == MergeAt(k, At(a, k), At(b, k));
      }
    } else {
      var k :| k in a && Clash(k, At(a, k), At(b, k));
      assert RightClash(k, At(d, k), At(a, k), At(b, k));
    }
  }

  /** Associativity of one field, for failures and results alike. */
  ghost predicate AssociativeAt(k: string, x: Option<Json>, y: Option<Json>, z: Option<Json>) {
    (LeftClash(k, x, y, z) <==> RightClash(k, x, y, z)) &&
    (!LeftClash(k, x, y, z) ==> MergeAt(k, MergeAt(k, x, y), z) == MergeAt(k, x, MergeAt(k, y, z)))
  }

  // ---------- The loop ----------

  /** The document in the middle of the walk: the fields of `add` outside `todo` are merged in. */
  ghost predicate Walked(m: map<string, Json>, d: map<string, Json>, a: map<string, Json>, todo: set<string>) {
    forall k :: At(m, k) == (if k in a && k !in todo then MergeAt(k, At(d, k), At(a, k)) else At(d, k))
                && (k in a && k !in todo ==> !Clash(k, At(d, k), At(a, k)))
  }

  lemma WalkOne(m: map<string, Json>, d: map<string, Json>, a: map<string, Json>, todo: set<string>, k: string, m': map<string, Json>)
    requires Walked(m, d, a, todo) && k in todo && k in a
    requires MergeAt(k, At(d, k), At(a, k)) == At(m', k) && At(m', k).Some?
    requires forall j :: j != k ==> At(m', j) == At(m, j)
    ensures Walked(m', d, a, todo - {k})
  {
    hide MergeAt, At;
  }

  lemma WalkedAll(m: map<string, Json>, d: map<string, Json>, a: map<string, Json>)
    requires Walked(m, d, a, {})
    ensures Merge(Obj(d), Obj(a)) == Some(Obj(m))
  {
    MergeFields(d, a);
    hide Merge;
    forall k <- d ensures !Clash(k, At(d, k), At(a, k)) {
      assert At(m, k) == At(m, k);
    }
    var whole := Merge(Obj(d), Obj(a)).value.fields;
    forall k ensures At(m, k) == At(whole, k) {
      assert At(whole, k) == MergeAt(k, At(d, k), At(a, k));
    }
    SameFields(m, whole);
  }

  /** What a merge that fails may leave of `dst`: each part as it was, merged, or itself half merged. */
  ghost predicate HalfMerged(dst: Json, add: Json, left: Json)
    decreases dst
  {
    || left == dst || Merge(dst, add) == Some(left)
    || (&& dst.Obj? && add.Obj? && left.Obj?
        && forall k :: FieldHalfMerged(k, dst, add, At(left.fields, k)))
  }

  ghost predicate FieldHalfMerged(k: string, dst: Json, add: Json, left: Option<Json>)
    requires dst.Obj? && add.Obj?
    decreases dst, 0
  {
    var d, a := dst.fields, add.fields;
    || left == At(d, k)
    || (k in a && k !in d && left == Some(a[k]))
    || (k in a && k in d && k != "#" && left.Some? && HalfMerged(d[k], a[k], left.value))
  }

  lemma WalkedIsHalf(m: map<string, Json>, dst: Json, add: Json, todo: set<string>, k: string, part: Json)
    requires dst.Obj? && add.Obj? && Walked(m, dst.fields, add.fields, todo)
    requires k in todo && k in dst.fields && k in add.fields && k != "#" && HalfMerged(dst.fields[k], add.fields[k], part)
    ensures HalfMerged(dst, add, Obj(m[k := part]))
  {
    var d, a, l := dst.fields, add.fields, m[k := part];
    hide HalfMerged;
    forall j ensures FieldHalfMerged(j, dst, add, At(l, j)) {
      assert At(m, j) == if j in a && j !in todo then MergeAt(j, At(d, j), At(a, j)) else At(d, j);
      if j != k && j in a && j !in todo && j in d && j != "#" {
        MergedIsHalf(d[j], a[j]);
      }
    }
    HalfByFields(dst, add, l);
  }

  lemma MergedIsHalf(dst: Json, add: Json)
    ensures Merge(dst, add).Some? ==> HalfMerged(dst, add, Merge(dst, add).value)
  {
  }

  lemma HalfByFields(dst: Json, add: Json, l: map<string, Json>)
    requires dst.Obj? && add.Obj? && forall k :: FieldHalfMerged(k, dst, add, At(l, k))
    ensures HalfMerged(dst, add, Obj(l))
  {
    hide FieldHalfMerged;
  }

  /** The source's loop: walk the fields of `add` in whatever order the dictionary yields them.  Neither
      whether it fails nor what a success leaves in `dst` depends on that order. */
  method MergeInto(dst: Json, add: Json) returns (ok: bool, left: Json)
    ensures ok <==> Merge(dst, add).Some?
    ensures ok ==> left == Merge(dst, add).value
    ensures !ok ==> HalfMerged(dst, add, left)
    decreases dst
  {
    if dst.Obj? && add.Obj? {
      hide Merge, HalfMerged, Walked, Clash;
      var d, a := dst.fields, add.fields;
      var m := d;
      var todo := a.Keys;
      NothingWalked(d, a);
      while todo != {}
        invariant todo <= a.Keys && Walked(m, d, a, todo)
        decreases |todo|
      {
        var k :| k in todo;
        Untouched(m, d, a, todo, k);
        if k !in m {
          WalkOne(m, d, a, todo, k, m[k := a[k]]);
          m := m[k := a[k]];
        } else if k == "#" {
          WalkOne(m, d, a, todo, k, m);
        } else {
          var fine, v := MergeInto(m[k], a[k]);
          if !fine {
            FieldFails(d, a, k);
            WalkedIsHalf(m, dst, add, todo, k, v);
            return false, Obj(m[k := v]);
          }
          WalkOne(m, d, a, todo, k, m[k := v]);
          m := m[k := v];
        }
        todo := todo - {k};
      }
      WalkedAll(m, d, a);
      return true, Obj(m);
    } else if dst.Arr? && add.Arr? {
      return true, Arr(dst.items + add.items);
    } else {
      return false, dst;
    }
  }

  lemma NothingWalked(d: map<string, Json>, a: map<string, Json>)
    ensures Walked(d, d, a, a.Keys)
  {
  }

  lemma Untouched(m: map<string, Json>, d: map<string, Json>, a: map<string, Json>, todo: set<string>, k: string)
    requires Walked(m, d, a, todo) && k in todo
    ensures At(m, k) == At(d, k)
  {
  }

  lemma FieldFails(d: map<string, Json>, a: map<string, Json>, k: string)
    requires k in d && k in a && k != "#" && Merge(d[k], a[k]).None?
    ensures Merge(Obj(d), Obj(a)).None?
  {
    MergeFields(d, a);
    hide Merge;
    assert Clash(k, At(d, k), At(a, k));
  }

  // ---------- Comments ----------

  /** The part of a document that a path of keys leads to. */
  function Lookup(j: Json, path: seq<string>): Option<Json> {
    if path == [] then Some(j)
    else if j.Obj? && path[0] in j.fields then Lookup(j.fields[path[0]], path[1..])
    else None
  }

  /** Every comment of the first document stays where it is, however deep. */
  lemma {:induction false} FirstCommentStays(x: Json, y: Json, path: seq<string>)
    requires Merge(x, y).Some? && Lookup(x, path + ["#"]).Some?
    ensures Lookup(Merge(x, y).value, path + ["#"]) == Lookup(x, path + ["#"])
    decreases |path|
  {
    var w := Merge(x, y).value;
    var whole := path + ["#"];
    var d, a, k := x.fields, y.fields, whole[0];
    MergeFields(d, a);
    hide Merge;
    assert At(w.fields, k) == MergeAt(k, At(d, k), At(a, k));
    if path != [] && k != "#" && k in a {
      assert whole[1..] == path[1..] + ["#"];
      assert !Clash(k, At(d, k), At(a, k));
      FirstCommentStays(d[k], a[k], path[1..]);
    }
  }
}
