/** What a merge means, path by path and run by run, without reference to its recursion. */
module MergeLaws {
  import opened Basics
  import opened Paths
  import opened Trees
  import opened Merging

  // ---- Path by path ----------------------------------------------------

  /** Some ancestor-or-self of path, below the root, is replaced by the layer. */
  predicate Cut(root: Schema, shape: Shape, dst: Value, src: Value, path: Path)
    requires dst.Object? && src.Object?
    decreases path
  {
    path != [] && path[0] in src.fields &&
    var field, lower := FieldAt(shape, path[0]), Member(dst, path[0]);
    Replaces(field, lower, src.fields[path[0]]) ||
    Cut(root, Below(root, field, lower.value.fields), lower.value, src.fields[path[0]], path[1..])
  }

  /**
   * A leaf of the layer is in the result; below a replacement nothing else is; a lower leaf
   * survives exactly when it is not below one; and nothing else comes from anywhere.
   */
  lemma {:induction false} MergeByPath(root: Schema, shape: Shape, dst: Value, src: Value, path: Path)
    requires dst.Object? && src.Object?
    ensures var out := MergeObject(root, shape, dst, src);
      (Lookup(src, path).Some? && !Lookup(src, path).value.Object? ==> Lookup(out, path) == Lookup(src, path)) &&
      (Cut(root, shape, dst, src, path) ==> Lookup(out, path) == Lookup(src, path)) &&
      (!Cut(root, shape, dst, src, path) ==> (Lookup(out, path).Some? <==> Lookup(dst, path).Some?)) &&
      (!Cut(root, shape, dst, src, path) && Lookup(dst, path).Some? && Lookup(dst, path).value.Object? ==>
         Lookup(out, path).value.Object?) &&
      (!Cut(root, shape, dst, src, path) && Lookup(dst, path).Some? && !Lookup(dst, path).value.Object? ==>
         Lookup(out, path) == Lookup(dst, path)) &&
      (Lookup(out, path).Some? ==> Lookup(dst, path).Some? || Lookup(src, path).Some?)
    decreases path
  {
    if path != [] && path[0] in src.fields {
      var k := path[0];
      var field, lower := FieldAt(shape, k), Member(dst, k);
      assert MergeObject(root, shape, dst, src).fields[k] == MergeField(root, shape, dst, src, k);
      if !Replaces(field, lower, src.fields[k]) {
        MergeByPath(root, Below(root, field, lower.value.fields), lower.value, src.fields[k], path[1..]);
      }
    }
  }

  // ---- Merging the same values twice -----------------------------------

  lemma {:induction false} MergeSelf(root: Schema, shape: Shape, v: Value)
    requires v.Object?
    ensures MergeObject(root, shape, v, v) == v
    decreases v
  {
    forall k | k in v.fields ensures MergeField(root, shape, v, v, k) == v.fields[k] {
      var field := FieldAt(shape, k);
      if !Replaces(field, Member(v, k), v.fields[k]) {
        MergeSelf(root, Below(root, field, v.fields[k].fields), v.fields[k]);
      }
    }
    assert MergeObject(root, shape, v, v).fields == v.fields;
  }

  /** A merge that is no switch leaves the OneOf object in the variant it was in. */
  lemma VariantKept(root: Schema, field: Option<Field>, lower: Value, upper: Value)
    requires lower.Object? && upper.Object? && !Switches(field, lower.fields, upper.fields)
    ensures var merged := MergeObject(root, Below(root, field, lower.fields), lower, upper);
      !Switches(field, merged.fields, upper.fields) &&
      Below(root, field, merged.fields) == Below(root, field, lower.fields)
  {
    if field.Some? && field.value.kind.OneOfKind? {
      var disc, shape := field.value.kind.discriminator, Below(root, field, lower.fields);
      var merged := MergeObject(root, shape, lower, upper);
      if disc in upper.fields {
        assert merged.fields[disc] == MergeField(root, shape, lower, upper, disc);
        if disc in lower.fields && lower.fields[disc].Object? {
          var inner := FieldAt(shape, disc);
          MergeSelf(root, Below(root, inner, lower.fields[disc].fields), lower.fields[disc]);
        }
        assert merged.fields[disc] == upper.fields[disc];
      }
    }
  }

  lemma {:induction false} MergeIdempotent(root: Schema, shape: Shape, dst: Value, src: Value)
    requires dst.Object? && src.Object?
    ensures var once := MergeObject(root, shape, dst, src);
      MergeObject(root, shape, once, src) == once
    decreases src
  {
    var once := MergeObject(root, shape, dst, src);
    forall k | k in src.fields ensures MergeField(root, shape, once, src, k) == once.fields[k] {
      var field, lower, upper := FieldAt(shape, k), Member(dst, k), src.fields[k];
      assert once.fields[k] == MergeField(root, shape, dst, src, k);
      assert Member(once, k) == Some(once.fields[k]);
      if Replaces(field, lower, upper) {
        if upper.Object? { MergeSelf(root, Below(root, field, upper.fields), upper); }
      } else {
        VariantKept(root, field, lower.value, upper);
        MergeIdempotent(root, Below(root, field, lower.value.fields), lower.value, upper);
      }
    }
    assert MergeObject(root, shape, once, src).fields == once.fields;
  }

  // ---- Runs of layers that give values only ----------------------------

  function MergeAll(root: Schema, shape: Shape, v: Value, srcs: seq<Value>): (out: Value)
    requires v.Object? && forall i | 0 <= i < |srcs| :: srcs[i].Object?
    ensures out.Object?
    decreases |srcs|
  {
    if srcs == [] then v else MergeAll(root, shape, MergeObject(root, shape, v, srcs[0]), srcs[1..])
  }

  /** A member of the outcome depends on that member alone of what was there before. */
  lemma {:induction false} MemberRun(root: Schema, shape: Shape, v: Value, w: Value, srcs: seq<Value>, key: string)
    requires v.Object? && w.Object? && forall i | 0 <= i < |srcs| :: srcs[i].Object?
    requires Member(v, key) == Member(w, key)
    ensures Member(MergeAll(root, shape, v, srcs), key) == Member(MergeAll(root, shape, w, srcs), key)
    decreases |srcs|
  {
    if srcs != [] {
      var v', w' := MergeObject(root, shape, v, srcs[0]), MergeObject(root, shape, w, srcs[0]);
      if key in srcs[0].fields {
        assert v'.fields[key] == MergeField(root, shape, v, srcs[0], key);
        assert w'.fields[key] == MergeField(root, shape, w, srcs[0], key);
      }
      MemberRun(root, shape, v', w', srcs[1..], key);
    }
  }

  lemma {:induction false} MergeAllSplit(root: Schema, shape: Shape, v: Value, srcs: seq<Value>, i: nat)
    requires v.Object? && i <= |srcs| && forall j | 0 <= j < |srcs| :: srcs[j].Object?
    ensures MergeAll(root, shape, v, srcs) == MergeAll(root, shape, MergeAll(root, shape, v, srcs[..i]), srcs[i..])
    decreases |srcs|
  {
    if i > 0 {
      assert srcs[..i][1..] == srcs[1..][..i - 1] && srcs[1..][i - 1..] == srcs[i..];
      MergeAllSplit(root, shape, MergeObject(root, shape, v, srcs[0]), srcs[1..], i - 1);
    } else {
      assert srcs[..0] == [] && srcs[0..] == srcs;
    }
  }

  /** Values only come from layers: each path of the outcome is in some layer, or was there before. */
  lemma {:induction false} ValuesComeFromLayers(root: Schema, shape: Shape, v: Value, srcs: seq<Value>, q: Path)
    requires v.Object? && forall i | 0 <= i < |srcs| :: srcs[i].Object?
    requires Lookup(MergeAll(root, shape, v, srcs), q).Some?
    ensures Lookup(v, q).Some? || exists j | 0 <= j < |srcs| :: Lookup(srcs[j], q).Some?
    ensures !Lookup(MergeAll(root, shape, v, srcs), q).value.Object? ==>
              Lookup(v, q) == Lookup(MergeAll(root, shape, v, srcs), q) ||
              exists j | 0 <= j < |srcs| :: Lookup(srcs[j], q) == Lookup(MergeAll(root, shape, v, srcs), q)
    decreases |srcs|
  {
    if srcs != [] {
      var next, final := MergeObject(root, shape, v, srcs[0]), Lookup(MergeAll(root, shape, v, srcs), q);
      assert forall j | 0 <= j < |srcs| - 1 :: srcs[1..][j] == srcs[j + 1];
      ValuesComeFromLayers(root, shape, next, srcs[1..], q);
      MergeByPath(root, shape, v, srcs[0], q);
      if j :| 0 <= j < |srcs| - 1 && Lookup(srcs[1..][j], q).Some? {
        assert Lookup(srcs[j + 1], q).Some?;
      }
      if j :| 0 <= j < |srcs| - 1 && Lookup(srcs[1..][j], q) == final {
        assert Lookup(srcs[j + 1], q) == final;
      }
    }
  }

  /** What replaces an ancestor replaces everything below it. */
  lemma {:induction false} CutBelow(root: Schema, shape: Shape, dst: Value, src: Value, p: Path, q: Path)
    requires dst.Object? && src.Object? && Cut(root, shape, dst, src, p) && p <= q
    ensures Cut(root, shape, dst, src, q)
    decreases p
  {
    var field, lower := FieldAt(shape, p[0]), Member(dst, p[0]);
    if !Replaces(field, lower, src.fields[p[0]]) {
      CutBelow(root, Below(root, field, lower.value.fields), lower.value, src.fields[p[0]], p[1..], q[1..]);
    }
  }

  /**
   * Over any run of layers and at any depth: once layer i switches (or otherwise replaces)
   * what p holds, whatever the outcome holds at or below p is from layer i or a later one, and
   * every value there that is no object is as one of them gave it.
   */
  lemma OneOfHoldsOnlySinceSwitch(root: Schema, shape: Shape, v: Value, srcs: seq<Value>, i: nat, p: Path, q: Path)
    requires v.Object? && i < |srcs| && forall j | 0 <= j < |srcs| :: srcs[j].Object?
    requires Cut(root, shape, MergeAll(root, shape, v, srcs[..i]), srcs[i], p) && p <= q
    requires Lookup(MergeAll(root, shape, v, srcs), q).Some?
    ensures exists j | i <= j < |srcs| :: Lookup(srcs[j], q).Some?
    ensures var final := Lookup(MergeAll(root, shape, v, srcs), q);
      !final.value.Object? ==> exists j | i <= j < |srcs| :: Lookup(srcs[j], q) == final
  {
    var before, rest := MergeAll(root, shape, v, srcs[..i]), srcs[i + 1..];
    var next := MergeObject(root, shape, before, srcs[i]);
    MergeAllSplit(root, shape, v, srcs, i);
    assert srcs[i..][0] == srcs[i] && srcs[i..][1..] == rest;
    CutBelow(root, shape, before, srcs[i], p, q);
    MergeByPath(root, shape, before, srcs[i], q);
    ValuesComeFromLayers(root, shape, next, rest, q);
    var final := Lookup(MergeAll(root, shape, v, srcs), q);
    if j :| 0 <= j < |rest| && Lookup(rest[j], q).Some? {
      assert Lookup(srcs[i + 1 + j], q).Some?;
    }
    if j :| 0 <= j < |rest| && Lookup(rest[j], q) == final {
      assert Lookup(srcs[i + 1 + j], q) == final;
    }
  }

  /** For a member of the merged object itself, the outcome there is that of the layers from i on alone. */
  lemma MemberSinceSwitch(root: Schema, shape: Shape, v: Value, srcs: seq<Value>, i: nat, key: string)
    requires v.Object? && i < |srcs| && forall j | 0 <= j < |srcs| :: srcs[j].Object?
    requires key in srcs[i].fields
    requires Replaces(FieldAt(shape, key), Member(MergeAll(root, shape, v, srcs[..i]), key), srcs[i].fields[key])
    ensures Member(MergeAll(root, shape, v, srcs), key) == Member(MergeAll(root, shape, Object(map[]), srcs[i..]), key)
    ensures forall f: Path | Lookup(MergeAll(root, shape, v, srcs), [key] + f).Some? ::
              exists j | i <= j < |srcs| :: Lookup(srcs[j], [key] + f).Some?
  {
    var before, rest, empty := MergeAll(root, shape, v, srcs[..i]), srcs[i..], Object(map[]);
    MergeAllSplit(root, shape, v, srcs, i);
    assert rest[0] == srcs[i] && rest[1..] == srcs[i + 1..];
    var a, b := MergeObject(root, shape, before, rest[0]), MergeObject(root, shape, empty, rest[0]);
    assert a.fields[key] == MergeField(root, shape, before, rest[0], key);
    assert b.fields[key] == MergeField(root, shape, empty, rest[0], key);
    MemberRun(root, shape, a, b, rest[1..], key);
    forall f: Path | Lookup(MergeAll(root, shape, v, srcs), [key] + f).Some?
      ensures exists j | i <= j < |srcs| :: Lookup(srcs[j], [key] + f).Some?
    {
      OneOfHoldsOnlySinceSwitch(root, shape, v, srcs, i, [key], [key] + f);
    }
  }
}
