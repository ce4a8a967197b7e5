/**
 * A filtered layer touches nothing outside its selection: neither the value nor the
 * history of a path that is no ancestor and no descendant of a selected one.
 */
module NonInterference {
  import opened Basics
  import opened Paths
  import opened Trees
  import opened Merging
  import opened Filtering

  // ---- What the safety check establishes -------------------------------

  /** Validate's verdict, free of the order in which it looks and of its depth limit. */
  ghost predicate Safe(root: Schema, s: Selection, shape: Shape)
    decreases s, 1
  {
    s.all || s.children == map[] ||
    if shape.container.Some? && shape.container.value.kind.ListKind? then false
    else if shape.container.Some? && shape.container.value.kind.OneOfKind? then
      var union := shape.container.value.kind;
      union.discriminator !in s.children &&
      forall v | v in union.variants :: SafeMembers(root, s, Shape(Some(union.variants[v]), None))
    else SafeMembers(root, s, shape)
  }

  ghost predicate SafeMembers(root: Schema, s: Selection, shape: Shape)
    decreases s, 0
  {
    forall k | k in s.children :: Safe(root, s.children[k], Below(root, FieldAt(shape, k), map[]))
  }

  /** The same, with the nesting limit that the walk meets on its way. */
  ghost predicate SafeWithin(root: Schema, s: Selection, shape: Shape, depth: nat)
    decreases s, 1
  {
    s.all || s.children == map[] ||
    (depth <= 128 &&
     if shape.container.Some? && shape.container.value.kind.ListKind? then false
     else if shape.container.Some? && shape.container.value.kind.OneOfKind? then
       var union := shape.container.value.kind;
       union.discriminator !in s.children &&
       forall v | v in union.variants :: SafeMembersWithin(root, s, Shape(Some(union.variants[v]), None), depth)
     else SafeMembersWithin(root, s, shape, depth))
  }

  ghost predicate SafeMembersWithin(root: Schema, s: Selection, shape: Shape, depth: nat)
    decreases s, 0
  {
    forall k | k in s.children :: SafeWithin(root, s.children[k], Below(root, FieldAt(shape, k), map[]), depth + 1)
  }

  lemma {:induction false} WithinIsSafe(root: Schema, s: Selection, shape: Shape, depth: nat)
    requires SafeWithin(root, s, shape, depth)
    ensures Safe(root, s, shape)
    decreases s, 1
  {
    if !s.all && s.children != map[] {
      if shape.container.Some? && shape.container.value.kind.OneOfKind? {
        var variants := shape.container.value.kind.variants;
        forall v | v in variants ensures SafeMembers(root, s, Shape(Some(variants[v]), None)) {
          MembersWithinAreSafe(root, s, Shape(Some(variants[v]), None), depth);
        }
      } else {
        MembersWithinAreSafe(root, s, shape, depth);
      }
    }
  }

  lemma {:induction false} MembersWithinAreSafe(root: Schema, s: Selection, shape: Shape, depth: nat)
    requires SafeMembersWithin(root, s, shape, depth)
    ensures SafeMembers(root, s, shape)
    decreases s, 0
  {
    forall k | k in s.children ensures Safe(root, s.children[k], Below(root, FieldAt(shape, k), map[])) {
      WithinIsSafe(root, s.children[k], Below(root, FieldAt(shape, k), map[]), depth + 1);
    }
  }

  lemma ValidatedIsSafe(root: Schema, s: Selection, shape: Shape, path: Path)
    requires Validate(root, s, shape, path).None?
    ensures Safe(root, s, shape)
  {
    ValidatedIsWithin(root, s, shape, path);
    WithinIsSafe(root, s, shape, |path|);
  }

  lemma {:induction false} ValidatedIsWithin(root: Schema, s: Selection, shape: Shape, path: Path)
    requires Validate(root, s, shape, path).None?
    ensures SafeWithin(root, s, shape, |path|)
    decreases s, 2
  {
    if !s.all && s.children != map[] {
      if shape.container.Some? && shape.container.value.kind.OneOfKind? {
        var variants := shape.container.value.kind.variants;
        forall v | v in variants ensures SafeMembersWithin(root, s, Shape(Some(variants[v]), None), |path|) {
          AcceptedVariant(root, s, variants, path, Sorted(variants.Keys), v);
          MembersAreWithin(root, s, Shape(Some(variants[v]), None), path);
        }
      } else {
        MembersAreWithin(root, s, shape, path);
      }
    }
  }

  lemma {:induction false} AcceptedVariant(root: Schema, s: Selection, variants: map<string, Schema>, path: Path, keys: seq<string>, v: string)
    requires !s.all && s.children != map[]
    requires v in keys && forall k | k in keys :: k in variants
    requires ValidateVariants(root, s, variants, path, keys).None?
    ensures Validate(root, s, Shape(Some(variants[v]), None), path).None?
    decreases |keys|
  {
    if keys[0] != v { AcceptedVariant(root, s, variants, path, keys[1..], v); }
  }

  lemma {:induction false} MembersAreWithin(root: Schema, s: Selection, shape: Shape, path: Path)
    requires ValidateMembers(root, s, shape, path, Sorted(s.children.Keys)).None?
    ensures SafeMembersWithin(root, s, shape, |path|)
    decreases s, 0
  {
    forall k | k in s.children ensures SafeWithin(root, s.children[k], Below(root, FieldAt(shape, k), map[]), |path| + 1) {
      MemberAccepted(root, s, shape, path, Sorted(s.children.Keys), k);
      ValidatedIsWithin(root, s.children[k], Below(root, FieldAt(shape, k), map[]), path + [k]);
    }
  }

  lemma {:induction false} MemberAccepted(root: Schema, s: Selection, shape: Shape, path: Path, keys: seq<string>, key: string)
    requires key in keys && forall k | k in keys :: k in s.children
    requires ValidateMembers(root, s, shape, path, keys).None?
    ensures Validate(root, s.children[key], Below(root, FieldAt(shape, key), map[]), path + [key]).None?
    decreases |keys|
  {
    if keys[0] != key { MemberAccepted(root, s, shape, path, keys[1..], key); }
  }

  lemma {:induction false} WithinIsAccepted(root: Schema, s: Selection, shape: Shape, path: Path)
    requires SafeWithin(root, s, shape, |path|)
    ensures Validate(root, s, shape, path).None?
    decreases s, 2
  {
    if !s.all && s.children != map[] {
      if shape.container.Some? && shape.container.value.kind.OneOfKind? {
        var variants := shape.container.value.kind.variants;
        VariantsAccepted(root, s, variants, path, Sorted(variants.Keys));
      } else {
        MembersAccepted(root, s, shape, path, Sorted(s.children.Keys));
      }
    }
  }

  lemma {:induction false} VariantsAccepted(root: Schema, s: Selection, variants: map<string, Schema>, path: Path, keys: seq<string>)
    requires !s.all && s.children != map[] && |path| <= 128 && forall k | k in keys :: k in variants
    requires forall v | v in variants :: SafeMembersWithin(root, s, Shape(Some(variants[v]), None), |path|)
    ensures ValidateVariants(root, s, variants, path, keys).None?
    decreases s, 1, |keys|
  {
    if keys != [] {
      MembersAccepted(root, s, Shape(Some(variants[keys[0]]), None), path, Sorted(s.children.Keys));
      VariantsAccepted(root, s, variants, path, keys[1..]);
    }
  }

  lemma {:induction false} MembersAccepted(root: Schema, s: Selection, shape: Shape, path: Path, keys: seq<string>)
    requires forall k | k in keys :: k in s.children
    requires SafeMembersWithin(root, s, shape, |path|)
    ensures ValidateMembers(root, s, shape, path, keys).None?
    decreases s, 0, |keys|
  {
    if keys != [] {
      WithinIsAccepted(root, s.children[keys[0]], Below(root, FieldAt(shape, keys[0]), map[]), path + [keys[0]]);
      MembersAccepted(root, s, shape, path, keys[1..]);
    }
  }

  /** The check accepts exactly the safe selections that meet the nesting limit, whatever the order it looks in. */
  lemma AcceptedIffSafe(root: Schema, s: Selection, shape: Shape, path: Path)
    ensures Validate(root, s, shape, path).None? <==> SafeWithin(root, s, shape, |path|)
  {
    if Validate(root, s, shape, path).None? {
      ValidatedIsWithin(root, s, shape, path);
    } else if SafeWithin(root, s, shape, |path|) {
      WithinIsAccepted(root, s, shape, path);
      assert false;
    }
  }

  /**
   * An accepted selection takes each list whole, and each OneOf whole or without its
   * discriminator; and each member's own selection, in every variant, is accepted likewise.
   */
  lemma AcceptedMember(root: Schema, s: Selection, shape: Shape, path: Path, key: string)
    requires Validate(root, s, shape, path).None? && !s.all && key in s.children
    requires !(shape.container.Some? && shape.container.value.kind.OneOfKind?)
    ensures var c, field := s.children[key], FieldAt(shape, key);
      Validate(root, c, Below(root, field, map[]), path + [key]).None? &&
      (c.all || c.children == map[] ||
       match field
       case Some(Field(_, ListKind)) => false
       case Some(Field(_, OneOfKind(disc, variants))) =>
         disc !in c.children && forall v | v in variants :: Validate(root, c, Shape(Some(variants[v]), None), path + [key]).None?
       case _ => |path| < 128)
  {
    MemberAccepted(root, s, shape, path, Sorted(s.children.Keys), key);
    var c, field := s.children[key], FieldAt(shape, key);
    if !c.all && c.children != map[] && field.Some? && field.value.kind.OneOfKind? {
      var variants := field.value.kind.variants;
      forall v | v in variants ensures Validate(root, c, Shape(Some(variants[v]), None), path + [key]).None? {
        AcceptedVariant(root, c, variants, path + [key], Sorted(variants.Keys), v);
      }
    }
  }

  /** Without a schema any selection within the nesting limit is accepted. */
  lemma {:induction false} UnknownIsAccepted(root: Schema, s: Selection, path: Path)
    requires Shallow(s, |path|)
    ensures Validate(root, s, NO_SHAPE, path).None?
  {
    UnknownIsWithin(root, s, |path|);
    WithinIsAccepted(root, s, NO_SHAPE, path);
  }

  /** The part of the trie above its selected paths stays within the nesting limit. */
  predicate Shallow(s: Selection, depth: nat)
    decreases s
  {
    s.all || s.children == map[] ||
    (depth <= 128 && forall k | k in s.children :: Shallow(s.children[k], depth + 1))
  }

  lemma {:induction false} UnknownIsWithin(root: Schema, s: Selection, depth: nat)
    requires Shallow(s, depth)
    ensures SafeWithin(root, s, NO_SHAPE, depth)
    decreases s
  {
    if !s.all && s.children != map[] {
      forall k | k in s.children ensures SafeWithin(root, s.children[k], Below(root, FieldAt(NO_SHAPE, k), map[]), depth + 1) {
        UnknownIsWithin(root, s.children[k], depth + 1);
      }
    }
  }

  /** Where no schema is known there is no OneOf either. */
  lemma {:induction false} UnknownIsSafe(root: Schema, s: Selection)
    ensures Safe(root, s, NO_SHAPE)
    decreases s
  {
    forall k | k in s.children ensures Safe(root, s.children[k], Below(root, FieldAt(NO_SHAPE, k), map[])) {
      UnknownIsSafe(root, s.children[k]);
    }
  }

  /** The check covers the variant the lower value is in, whichever that is. */
  lemma SafeBelow(root: Schema, s: Selection, field: Option<Field>, lower: Fields)
    requires Safe(root, s, Below(root, field, map[])) && !s.all && s.children != map[]
    ensures SafeMembers(root, s, Below(root, field, lower))
    ensures field.Some? && field.value.kind.OneOfKind? ==> field.value.kind.discriminator !in s.children
  {
    var shape := Below(root, field, lower);
    if field.Some? && field.value.kind.OneOfKind? {
      forall k | k in s.children ensures Safe(root, s.children[k], Below(root, FieldAt(shape, k), map[])) {
        match shape.schema
        case None => UnknownIsSafe(root, s.children[k]);
        case Some(schema) =>
          assert FieldAt(shape, k) == FieldAt(Shape(Some(schema), None), k);
      }
    } else {
      assert shape == Below(root, field, map[]);
    }
  }

  // ---- Values ----------------------------------------------------------

  lemma {:induction false} ProjectApart(s: Selection, v: Value, q: Path)
    requires Apart(s, q) && Project(s, v).Some?
    ensures Reach(Project(s, v).value, q).None? && Lookup(Project(s, v).value, q).None?
    decreases q
  {
    var p := Project(s, v).value;
    assert p.Object? && p.fields != map[];
    var k :| k in p.fields;
    assert k in s.children;
    if q[0] in p.fields {
      ProjectApart(s.children[q[0]], v.fields[q[0]], q[1..]);
    }
  }

  lemma MergeNothing(root: Schema, shape: Shape, dst: Value)
    requires dst.Object?
    ensures MergeObject(root, shape, dst, Object(map[])) == dst
  {
    assert MergeObject(root, shape, dst, Object(map[])).fields == dst.fields;
  }

  /** Strictly above q the values give an object where the lower tree holds something else. */
  predicate Overridden(dst: Value, src: Value, q: Path)
    decreases q
  {
    q != [] && src.Object? &&
    (dst.Object? ==> q[0] in dst.fields && q[0] in src.fields && Overridden(dst.fields[q[0]], src.fields[q[0]], q[1..]))
  }

  /** Above a live path, that something is a list. */
  lemma {:induction false} OverriddenIsList(dst: Value, src: Value, q: Path) returns (n: nat)
    requires Overridden(dst, src, q) && Reach(dst, q).Some?
    ensures n < |q|
    ensures Lookup(dst, q[..n]).Some? && Lookup(dst, q[..n]).value.List?
    ensures Lookup(src, q[..n]).Some? && Lookup(src, q[..n]).value.Object?
    decreases q
  {
    n := 0;
    if dst.Object? {
      var m := OverriddenIsList(dst.fields[q[0]], src.fields[q[0]], q[1..]);
      n := m + 1;
      assert q[..n][1..] == q[1..][..m];
    }
  }

  /** A path of object members has no list above it. */
  lemma {:induction false} MembersAreReached(dst: Value, src: Value, q: Path)
    requires Lookup(dst, q).Some?
    ensures Reach(dst, q) == Lookup(dst, q) && !Overridden(dst, src, q)
    decreases q
  {
    if q != [] && src.Object? && q[0] in src.fields {
      MembersAreReached(dst.fields[q[0]], src.fields[q[0]], q[1..]);
    } else if q != [] {
      MembersAreReached(dst.fields[q[0]], Null, q[1..]);
    }
  }

  /**
   * Merging projected values changes a path apart from the selection, and adds to its history,
   * exactly when it is overridden: it is then gone, and if it was recorded it is "replaced".
   */
  lemma {:induction false} MergeApart(root: Schema, s: Selection, shape: Shape, dst: Value, fields: Fields, q: Path)
    requires dst.Object? && !s.all && SafeMembers(root, s, shape) && Apart(s, q)
    ensures var out, gone := MergeObject(root, shape, dst, ProjectRoot(s, fields)), Overridden(dst, ProjectRoot(s, fields), q);
      Lookup(out, q) == Lookup(dst, q) && Reach(out, q) == (if gone then None else Reach(dst, q)) &&
      forall path, o, locations, logged ::
        MergeDelta(root, shape, dst, ProjectRoot(s, fields), path, o, locations, q, logged) ==
        if gone && logged then [o.(operation := "replaced")] else []
    decreases q
  {
    var p := ProjectRoot(s, fields);
    var out := MergeObject(root, shape, dst, p);
    if q == [] {
      MergeNothing(root, shape, dst);
    } else if q[0] in p.fields {
      var k := q[0];
      var c, field, lower, upper := s.children[k], FieldAt(shape, k), Member(dst, k), p.fields[k];
      assert Project(c, fields[k]) == Some(upper);
      assert out.fields[k] == MergeField(root, shape, dst, p, k);
      ProjectApart(c, fields[k], q[1..]);
      assert q[1..] != [] && upper.Object?;
      if lower.Some? && lower.value.Object? {
        SafeBelow(root, c, field, lower.value.fields);
        assert forall f | f in upper.fields :: f in c.children;
        assert !Replaces(field, lower, upper);
        assert upper == ProjectRoot(c, fields[k].fields);
        MergeApart(root, c, Below(root, field, lower.value.fields), lower.value, fields[k].fields, q[1..]);
      } else {
        assert Replaces(field, lower, upper) && Reach(out, q) == Reach(upper, q[1..]);
      }
    }
  }

  // ---- Edits -----------------------------------------------------------

  /** What an edit that succeeds does to what each object path leads to. */
  lemma {:induction false} EditLookup(v: Value, path: Path, edit: Edit, q: Path)
    requires v.Object? && path != [] && EditTree(v, path, edit).Ok?
    ensures var now := Lookup(EditTree(v, path, edit).value, q);
      if path <= q then now == if edit.kind == Delete then None else Lookup(edit.value, q[|path|..])
      else if q <= path then
        now == match Lookup(v, q)
               case Some(c) => if c.Object? && EditTree(c, path[|q|..], edit).Ok?
                               then Some(EditTree(c, path[|q|..], edit).value) else None
               case None => if edit.kind == Delete || EditTree(Object(map[]), path[|q|..], edit).Err? then None
                            else Some(EditTree(Object(map[]), path[|q|..], edit).value)
      else now == Lookup(v, q)
    decreases path
  {
    if q != [] {
      var key := path[0];
      assert path == [key] + path[1..] && q == [q[0]] + q[1..];
      if q[0] == key {
        if |path| == 1 {
          assert q[|path|..] == q[1..];
        } else if key in v.fields || edit.kind != Delete {
          var next := if key in v.fields then v.fields[key] else Object(map[]);
          EditLookup(next, path[1..], edit, q[1..]);
          assert path <= q ==> q[|path|..] == q[1..][|path[1..]|..];
          assert q <= path ==> path[|q|..] == path[1..][|q[1..]|..];
        }
      }
    } else {
      assert path[|q|..] == path;
    }
  }

  /** An edit leaves what lies neither above nor below its path as it was, list elements included. */
  lemma {:induction false} EditMisses(v: Value, path: Path, edit: Edit, q: Path)
    requires v.Object? && path != [] && EditTree(v, path, edit).Ok? && !Comparable(path, q)
    ensures Reach(EditTree(v, path, edit).value, q) == Reach(v, q)
    decreases path
  {
    var key := path[0];
    assert path == [key] + path[1..] && q == [q[0]] + q[1..];
    if q[0] == key && (key in v.fields || edit.kind != Delete) {
      EditMisses(if key in v.fields then v.fields[key] else Object(map[]), path[1..], edit, q[1..]);
    }
  }

  lemma {:induction false} ApplyEditsConcat(v: Value, a: seq<Edit>, b: seq<Edit>)
    requires v.Object?
    ensures ApplyEdits(v, a + b) ==
            (match ApplyEdits(v, a) case Err(e) => Err(e) case Ok(w) => ApplyEdits(w, b))
    decreases |a|
  {
    if a == [] {
      assert a + b == b;
    } else {
      assert (a + b)[0] == a[0] && (a + b)[1..] == a[1..] + b;
      match ApplyEdit(v, a[0])
      case Err(_) =>
      case Ok(w) => ApplyEditsConcat(w, a[1..], b);
    }
  }

  ghost predicate AllCovered(s: Selection, edits: seq<Edit>) {
    forall i | 0 <= i < |edits| :: Covered(s, edits[i].path)
  }

  lemma {:induction false} CoveredThrough(s: Selection, p: Path, rel: Path)
    requires At(s, p).Some? && Covered(At(s, p).value, rel)
    ensures Covered(s, p + rel)
    decreases p
  {
    if p == [] {
      assert p + rel == rel;
    } else if !s.all {
      assert (p + rel)[1..] == p[1..] + rel;
      CoveredThrough(s.children[p[0]], p[1..], rel);
    }
  }

  /** Projected edits stay at or below what is selected under the edit's own path. */
  lemma {:induction false} ProjectedPaths(s: Selection, edit: Edit, e: Edit)
    requires e in ProjectEdit(s, edit)
    ensures edit.path <= e.path && Covered(s, e.path[|edit.path|..])
    decreases s, 1
  {
    if !s.all { ProjectedMemberPaths(s, edit, Sorted(s.children.Keys), e); }
  }

  lemma {:induction false} ProjectedMemberPaths(s: Selection, edit: Edit, keys: seq<string>, e: Edit)
    requires forall k | k in keys :: k in s.children
    requires e in ProjectMembers(s, edit, keys)
    ensures edit.path <= e.path && Covered(s, e.path[|edit.path|..])
    decreases s, 0, |keys|
  {
    var member := MemberEdit(edit, keys[0]);
    if e in ProjectEdit(s.children[keys[0]], member) {
      ProjectedPaths(s.children[keys[0]], member, e);
      RestOfPath(edit.path, keys[0], e.path);
    } else {
      ProjectedMemberPaths(s, edit, keys[1..], e);
    }
  }

  lemma RestOfPath(p: Path, key: string, q: Path)
    requires p + [key] <= q
    ensures p <= q && q[|p|..] != [] && q[|p|] == key && q[|p|..][1..] == q[|p + [key]|..]
  {
    assert q[|p|] == (p + [key])[|p|];
    assert p == (p + [key])[..|p|] == q[..|p|];
  }

  lemma ProjectedCovered(s: Selection, edit: Edit, e: Edit)
    requires At(s, edit.path).Some? && e in ProjectEdit(At(s, edit.path).value, edit)
    ensures Covered(s, e.path)
  {
    ProjectedPaths(At(s, edit.path).value, edit, e);
    CoveredThrough(s, edit.path, e.path[|edit.path|..]);
    assert edit.path + e.path[|edit.path|..] == e.path;
  }

  lemma FilteredEditCovered(s: Selection, edit: Edit)
    ensures AllCovered(s, FilterEdit(s, edit))
  {
    var es := FilterEdit(s, edit);
    forall i | 0 <= i < |es| ensures Covered(s, es[i].path) {
      ProjectedCovered(s, edit, es[i]);
    }
  }

  lemma {:induction false} FilteredEditsCovered(s: Selection, edits: seq<Edit>)
    ensures AllCovered(s, FilterEdits(s, edits))
  {
    if edits != [] {
      FilteredEditCovered(s, edits[0]);
      FilteredEditsCovered(s, edits[1..]);
    }
  }

  lemma {:induction false} ApartFromCovered(s: Selection, q: Path, p: Path)
    requires Apart(s, q) && Covered(s, p)
    ensures !Comparable(p, q)
    decreases p
  {
    assert p != [] && p == [p[0]] + p[1..];
    if q != [] {
      assert q == [q[0]] + q[1..];
      if q[0] == p[0] { ApartFromCovered(s.children[p[0]], q[1..], p[1..]); }
    }
  }

  lemma {:induction false} EditsApart(s: Selection, v: Value, name: string, layer: Layer, edits: seq<Edit>, q: Path, h: seq<Origin>)
    requires v.Object? && AllCovered(s, edits) && Apart(s, q) && ApplyEdits(v, edits).Ok?
    ensures Lookup(ApplyEdits(v, edits).value, q) == Lookup(v, q)
    ensures Reach(ApplyEdits(v, edits).value, q) == Reach(v, q)
    ensures EditsHistory(name, layer, edits, q, h) == h
    decreases |edits|
  {
    if edits != [] {
      ApartFromCovered(s, q, edits[0].path);
      EditLookup(v, edits[0].path, edits[0], q);
      EditMisses(v, edits[0].path, edits[0], q);
      var rest := edits[1..];
      assert forall i | 0 <= i < |rest| :: rest[i] == edits[i + 1];
      EditsApart(s, ApplyEdit(v, edits[0]).value, name, layer, rest, q, h);
      var delta := EditDelta(edits[0], EditOrigin(name, layer, edits[0]), layer.locations, q, h != []);
      assert delta == [] && h + delta == h;
    }
  }

  // ---- The theorem -----------------------------------------------------

  /** The values a filtered layer merges; absent ones are empty. */
  function FilteredValues(s: Selection, layer: Layer): Value {
    ProjectRoot(s, if layer.values.Some? then layer.values.value else map[])
  }

  /**
   * Whenever the check accepts the selection and the filtered layer applies, a path that is
   * not comparable with any selected path is untouched: a path of object members always, and
   * any path, list elements included, exactly when the filtered values do not put an object
   * where the lower tree holds a list above it. A path that was not there does not appear.
   */
  lemma FilteredLayerTouchesNothingElse(root: Schema, s: Selection, v: Value, name: string, layer: Layer, q: Path, h: seq<Origin>)
    requires Lively(s) && Validate(root, s, RootShape(root), []).None?
    requires v.Object? && ApplyLayer(root, v, FilterLayer(s, layer)).Ok?
    requires forall p | Marked(s, p) :: !Comparable(p, q)
    ensures Lookup(ApplyLayer(root, v, FilterLayer(s, layer)).value, q) == Lookup(v, q)
    ensures Lookup(v, q).Some? ==> LayerHistory(root, v, name, FilterLayer(s, layer), q, h) == h
    ensures Reach(v, q).None? ==> Reach(ApplyLayer(root, v, FilterLayer(s, layer)).value, q).None?
    ensures Reach(v, q).Some? ==>
              (Reach(ApplyLayer(root, v, FilterLayer(s, layer)).value, q) == Reach(v, q) <==> !Overridden(v, FilteredValues(s, layer), q))
    ensures LayerHistory(root, v, name, FilterLayer(s, layer), q, h) ==
            if Overridden(v, FilteredValues(s, layer), q) && h != []
            then h + [SetOrigin(name, layer).(operation := "replaced")] else h
  {
    ApartMeans(s, q);
    MergeStepApart(root, s, v, name, layer, q, h);
    FilteredEditsCovered(s, layer.edits);
    var filtered := FilterLayer(s, layer);
    var merged := ApplyValues(root, v, filtered.values).value;
    EditsApart(s, merged, name, filtered, filtered.edits, q, ValuesHistory(root, v, name, filtered, q, h));
    if Lookup(v, q).Some? { MembersAreReached(v, FilteredValues(s, layer), q); }
  }

  /** The values step of a filtered layer, at a path apart from the selection. */
  lemma MergeStepApart(root: Schema, s: Selection, v: Value, name: string, layer: Layer, q: Path, h: seq<Origin>)
    requires Apart(s, q) && Validate(root, s, RootShape(root), []).None?
    requires v.Object? && ApplyValues(root, v, FilterLayer(s, layer).values).Ok?
    ensures var merged, gone := ApplyValues(root, v, FilterLayer(s, layer).values).value, Overridden(v, FilteredValues(s, layer), q);
      Lookup(merged, q) == Lookup(v, q) && Reach(merged, q) == (if gone then None else Reach(v, q)) &&
      ValuesHistory(root, v, name, FilterLayer(s, layer), q, h) ==
      if gone && h != [] then h + [SetOrigin(name, layer).(operation := "replaced")] else h
  {
    ValidatedIsSafe(root, s, RootShape(root), []);
    assert s.children == map[] ==> SafeMembers(root, s, RootShape(root));
    var fields := if layer.values.Some? then layer.values.value else map[];
    MergeApart(root, s, RootShape(root), v, fields, q);
  }

  // A list in the lower tree, and a layer filtered to the member that an index names.

  const NO_FIELDS := Schema([], map[])
  const SECOND := Insert(NOTHING, ["1"])
  const PICKED := Insert(NOTHING, ["xs", "1"])
  const LISTED := Object(map["xs" := List([Str("a"), Str("b")])])
  const GIVEN := map["xs" := Object(map["1" := Str("z")])]
  const PICKING := Layer(Some(GIVEN), "", map[], [], None)

  lemma PickedShape()
    ensures PICKED == Selection(false, map["xs" := SECOND]) && SECOND == Selection(false, map["1" := Selection(true, map[])])
  {
    assert ["xs", "1"][1..] == ["1"] && ["1"][1..] == [];
    assert SECOND == Selection(false, map["1" := Insert(NOTHING, [])]);
  }

  lemma PickedIsAccepted()
    ensures Lively(PICKED) && Apart(PICKED, ["xs", "0"]) && Validate(NO_FIELDS, PICKED, RootShape(NO_FIELDS), []).None?
  {
    PickedShape();
    InsertLively(NOTHING, ["xs", "1"]);
    assert ["xs", "0"][1..] == ["0"] && Apart(SECOND, ["0"]);
    assert Shallow(SECOND, 1);
    UnknownIsWithin(NO_FIELDS, SECOND, 1);
    WithinIsAccepted(NO_FIELDS, PICKED, RootShape(NO_FIELDS), []);
  }

  lemma PickingGives()
    ensures FilteredValues(PICKED, PICKING) == Object(GIVEN)
    ensures ApplyLayer(NO_FIELDS, LISTED, FilterLayer(PICKED, PICKING)).Ok?
  {
    PickedShape();
    assert ProjectFields(SECOND, GIVEN["xs"].fields) == GIVEN["xs"].fields;
    assert ProjectFields(PICKED, GIVEN) == GIVEN;
    assert Clonable(Str("z"), 2) && Clonable(GIVEN["xs"], 1) && Clonable(Object(GIVEN), 0);
  }

  lemma ListedReach()
    ensures Reach(LISTED, ["xs", "0"]) == Some(Str("a")) && Overridden(LISTED, Object(GIVEN), ["xs", "0"])
  {
    var xs := LISTED.fields["xs"];
    assert ["xs", "0"][1..] == ["0"] && ["0"][1..] == [];
    IndexOfItoa(0, 2);
    assert Child(xs, "0") == Some(Str("a"));
    assert Reach(xs, ["0"]) == Some(Str("a"));
  }

  /**
   * An element of a list can be lost: selecting a member by the name of an index, in a list
   * the schema does not know, lets the selected member's object replace the whole list.
   */
  lemma ListElementLost(name: string, h: seq<Origin>)
    requires h != []
    ensures Lively(PICKED) && forall p | Marked(PICKED, p) :: !Comparable(p, ["xs", "0"])
    ensures Validate(NO_FIELDS, PICKED, RootShape(NO_FIELDS), []).None?
    ensures ApplyLayer(NO_FIELDS, LISTED, FilterLayer(PICKED, PICKING)).Ok?
    ensures Reach(LISTED, ["xs", "0"]) == Some(Str("a"))
    ensures Reach(ApplyLayer(NO_FIELDS, LISTED, FilterLayer(PICKED, PICKING)).value, ["xs", "0"]) != Some(Str("a"))
    ensures LayerHistory(NO_FIELDS, LISTED, name, FilterLayer(PICKED, PICKING), ["xs", "0"], h) ==
            h + [SetOrigin(name, PICKING).(operation := "replaced")]
  {
    PickedIsAccepted();
    PickingGives();
    ListedReach();
    ApartMeans(PICKED, ["xs", "0"]);
    FilteredLayerTouchesNothingElse(NO_FIELDS, PICKED, LISTED, name, PICKING, ["xs", "0"], h);
  }

  // ---- Locations -------------------------------------------------------

  ghost predicate Retained(s: Selection, q: Path) {
    At(s, q).Some? && (At(s, q).value.all || At(s, q).value.children != map[])
  }

  lemma {:induction false} RetainedParent(s: Selection, q: Path)
    requires q != [] && Retained(s, q)
    ensures Retained(s, q[..|q| - 1])
    decreases |q|
  {
    if |q| > 1 && !s.all {
      RetainedParent(s.children[q[0]], q[1..]);
      assert q[..|q| - 1][1..] == q[1..][..|q| - 2];
    }
  }

  /** A path the filter retains is located where it was: at the nearest located ancestor. */
  lemma {:induction false} NearestLocationKept(s: Selection, locations: map<string, Location>, q: Path)
    requires Retained(s, q)
    ensures Nearest(FilterLocations(s, locations), q) == Nearest(locations, q)
    decreases |q|
  {
    ParseInvertsPointer(q);
    if q != [] {
      RetainedParent(s, q);
      NearestLocationKept(s, locations, q[..|q| - 1]);
    }
  }

  /** The filter retains exactly the paths above, at or below a selected one. */
  lemma RetainedMeans(s: Selection, q: Path)
    requires Lively(s)
    ensures Retained(s, q) <==> exists p :: Marked(s, p) && Comparable(p, q)
  {
    RetainedIsNotApart(s, q);
    ApartMeans(s, q);
  }

  lemma {:induction false} RetainedIsNotApart(s: Selection, q: Path)
    requires Lively(s)
    ensures Retained(s, q) <==> !Apart(s, q)
    decreases q
  {
    if q != [] && !s.all && q[0] in s.children {
      RetainedIsNotApart(s.children[q[0]], q[1..]);
    }
  }

  /** A location is dropped exactly when its key is no pointer, or points nowhere near a selected path. */
  lemma LocationKeptIff(s: Selection, locations: map<string, Location>, pointer: string)
    requires Lively(s)
    ensures Get(FilterLocations(s, locations), pointer) ==
            match Parse(pointer)
            case None => None
            case Some(path) =>
              if exists p :: Marked(s, p) && Comparable(p, path) then Get(locations, pointer) else None
  {
    if Parse(pointer).Some? { RetainedMeans(s, Parse(pointer).value); }
  }

  /** The revision passes through; staleness does not; without a selection of everything there are always values. */
  lemma FilteredLayerHeader(s: Selection, layer: Layer)
    ensures var filtered := FilterLayer(s, layer);
      filtered.revision == layer.revision && filtered.stale == None &&
      (filtered.values.None? <==> s.all && layer.values.None?)
  {
  }
}
