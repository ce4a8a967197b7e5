/** On what it selects, a filtered layer has the effect of the whole layer. */
module Agreement {
  import opened Basics
  import opened Paths
  import opened Trees
  import opened Merging
  import opened MergeLaws
  import opened Filtering
  import opened NonInterference

  // ---- Values ----------------------------------------------------------

  lemma {:induction false} ProjectCovered(s: Selection, v: Value, q: Path)
    requires Covered(s, q)
    ensures Lookup(v, q) == (match Project(s, v) case Some(p) => Lookup(p, q) case None => None)
    decreases q
  {
    if !s.all && v.Object? && q[0] in v.fields {
      ProjectCovered(s.children[q[0]], v.fields[q[0]], q[1..]);
      assert Project(s.children[q[0]], v.fields[q[0]]).Some? <==> q[0] in ProjectFields(s, v.fields);
    }
  }

  /**
   * On the way to a selected path the layer's values hold objects or nothing, and no OneOf
   * is switched above the selection.
   */
  predicate Clear(root: Schema, s: Selection, shape: Shape, dst: Value, src: Value, q: Path)
    requires dst.Object? && src.Object? && Covered(s, q)
    decreases q
  {
    !s.all && q[0] in src.fields && !s.children[q[0]].all ==>
      var field, lower, upper := FieldAt(shape, q[0]), Member(dst, q[0]), src.fields[q[0]];
      upper.Object? &&
      (lower.Some? && lower.value.Object? ==>
         !Switches(field, lower.value.fields, upper.fields) &&
         Clear(root, s.children[q[0]], Below(root, field, lower.value.fields), lower.value, upper, q[1..]))
  }

  lemma {:induction false} MergeAgrees(root: Schema, s: Selection, shape: Shape, dst: Value, fields: Fields, q: Path)
    requires dst.Object? && Covered(s, q) && !s.all && SafeMembers(root, s, shape)
    requires Clear(root, s, shape, dst, Object(fields), q)
    ensures Lookup(MergeObject(root, shape, dst, Object(fields)), q) ==
            Lookup(MergeObject(root, shape, dst, ProjectRoot(s, fields)), q)
    decreases q
  {
    var k, src, p := q[0], Object(fields), ProjectRoot(s, fields);
    var c, field, lower := s.children[k], FieldAt(shape, k), Member(dst, k);
    if k in fields {
      var upper := fields[k];
      ProjectCovered(c, upper, q[1..]);
      assert MergeObject(root, shape, dst, src).fields[k] == MergeField(root, shape, dst, src, k);
      if k in p.fields {
        assert MergeObject(root, shape, dst, p).fields[k] == MergeField(root, shape, dst, p, k);
        assert Some(p.fields[k]) == Project(c, upper);
      } else {
        assert Project(c, upper).None?;
      }
      if !c.all && lower.Some? && lower.value.Object? {
        var shape' := Below(root, field, lower.value.fields);
        assert c.children != map[];
        SafeBelow(root, c, field, lower.value.fields);
        MergeAgrees(root, c, shape', lower.value, upper.fields, q[1..]);
        if k in p.fields {
          assert forall f | f in p.fields[k].fields :: f in c.children;
          assert !Replaces(field, lower, p.fields[k]);
        } else {
          MergeNothing(root, shape', lower.value);
        }
      }
    }
  }

  /** A topmost selected path. */
  predicate Topmost(s: Selection, q: Path)
    decreases q
  {
    if q == [] then s.all
    else !s.all && q[0] in s.children && Topmost(s.children[q[0]], q[1..])
  }

  lemma {:induction false} TopmostIsCovered(s: Selection, q: Path)
    requires Topmost(s, q)
    ensures Covered(s, q)
    decreases q
  {
    if q != [] { TopmostIsCovered(s.children[q[0]], q[1..]); }
  }

  /** Where the way is not clear, the whole layer replaces something above the selected path. */
  lemma {:induction false} UnclearIsCut(root: Schema, s: Selection, shape: Shape, dst: Value, src: Value, q: Path)
    requires dst.Object? && src.Object? && Covered(s, q) && !Clear(root, s, shape, dst, src, q)
    ensures Cut(root, shape, dst, src, q)
    decreases q
  {
    var field, lower := FieldAt(shape, q[0]), Member(dst, q[0]);
    if !Replaces(field, lower, src.fields[q[0]]) {
      UnclearIsCut(root, s.children[q[0]], Below(root, field, lower.value.fields), lower.value, src.fields[q[0]], q[1..]);
    }
  }

  lemma {:induction false} FilteredMissing(root: Schema, s: Selection, shape: Shape, dst: Value, fields: Fields, q: Path)
    requires dst.Object? && !s.all && SafeMembers(root, s, shape) && Topmost(s, q)
    requires Lookup(ProjectRoot(s, fields), q).None?
    ensures Lookup(MergeObject(root, shape, dst, ProjectRoot(s, fields)), q) == Lookup(dst, q)
    decreases q
  {
    var k, p := q[0], ProjectRoot(s, fields);
    if k in p.fields {
      var c, field, lower, upper := s.children[k], FieldAt(shape, k), Member(dst, k), p.fields[k];
      assert MergeObject(root, shape, dst, p).fields[k] == MergeField(root, shape, dst, p, k);
      assert Project(c, fields[k]) == Some(upper) && !c.all && q[1..] != [];
      if lower.Some? && lower.value.Object? {
        SafeBelow(root, c, field, lower.value.fields);
        assert upper == ProjectRoot(c, fields[k].fields);
        assert forall f | f in upper.fields :: f in c.children;
        assert !Replaces(field, lower, upper);
        FilteredMissing(root, c, Below(root, field, lower.value.fields), lower.value, fields[k].fields, q[1..]);
      }
    }
  }

  /** What a value given for a path makes of what the lower tree holds there. */
  function Settled(root: Schema, field: Option<Field>, lower: Option<Value>, given: Value): Value {
    if Replaces(field, lower, given) then given
    else MergeObject(root, Below(root, field, lower.value.fields), lower.value, given)
  }

  /** The lower tree has nothing that the given value would keep beside its own. */
  predicate AddsNothing(root: Schema, field: Option<Field>, lower: Option<Value>, given: Value)
    decreases given
  {
    Replaces(field, lower, given) ||
    (lower.value.fields.Keys <= given.fields.Keys &&
     forall k | k in lower.value.fields ::
       AddsNothing(root, FieldAt(Below(root, field, lower.value.fields), k), Some(lower.value.fields[k]), given.fields[k]))
  }

  lemma {:induction false} SettledIsGiven(root: Schema, field: Option<Field>, lower: Option<Value>, given: Value)
    ensures Settled(root, field, lower, given) == given <==> AddsNothing(root, field, lower, given)
    decreases given
  {
    if !Replaces(field, lower, given) {
      var shape, low := Below(root, field, lower.value.fields), lower.value;
      var merged := MergeObject(root, shape, low, given);
      forall k | k in low.fields && k in given.fields
        ensures merged.fields[k] == given.fields[k] <==>
                AddsNothing(root, FieldAt(shape, k), Some(low.fields[k]), given.fields[k])
      {
        assert merged.fields[k] == MergeField(root, shape, low, given, k);
        SettledIsGiven(root, FieldAt(shape, k), Some(low.fields[k]), given.fields[k]);
      }
      assert merged.fields.Keys == low.fields.Keys + given.fields.Keys;
      if AddsNothing(root, field, lower, given) {
        forall k | k in given.fields ensures merged.fields[k] == given.fields[k] {
          assert merged.fields[k] == MergeField(root, shape, low, given, k);
        }
        assert merged.fields == given.fields;
      }
    }
  }

  lemma {:induction false} FilteredGiven(root: Schema, s: Selection, shape: Shape, dst: Value, fields: Fields, q: Path)
    requires dst.Object? && !s.all && SafeMembers(root, s, shape) && Topmost(s, q) && Covered(s, q)
    requires Lookup(Object(fields), q).Some?
    ensures Lookup(MergeObject(root, shape, dst, ProjectRoot(s, fields)), q) ==
            Some(Settled(root, FieldOn(root, shape, dst, q), Lookup(dst, q), Lookup(Object(fields), q).value))
    decreases q
  {
    var k, p := q[0], ProjectRoot(s, fields);
    var c, field, lower := s.children[k], FieldAt(shape, k), Member(dst, k);
    ProjectCovered(s, Object(fields), q);
    ProjectCovered(c, fields[k], q[1..]);
    assert Project(c, fields[k]) == Some(p.fields[k]);
    assert MergeObject(root, shape, dst, p).fields[k] == MergeField(root, shape, dst, p, k);
    if |q| > 1 {
      assert !c.all && fields[k].Object?;
      if lower.Some? && lower.value.Object? {
        SafeBelow(root, c, field, lower.value.fields);
        assert p.fields[k] == ProjectRoot(c, fields[k].fields);
        assert forall f | f in p.fields[k].fields :: f in c.children;
        assert !Replaces(field, lower, p.fields[k]);
        FilteredGiven(root, c, Below(root, field, lower.value.fields), lower.value, fields[k].fields, q[1..]);
      }
    }
  }

  /**
   * The other half: where the way to a topmost selected path is not clear, the whole layer
   * leaves there just what its values hold. Without the path in the values, both results
   * agree exactly when the lower tree lacks it too; with it, exactly when the lower tree adds
   * nothing to the given value, as is so for every leaf.
   */
  lemma UnclearOutcome(root: Schema, s: Selection, shape: Shape, dst: Value, fields: Fields, q: Path)
    requires dst.Object? && !s.all && SafeMembers(root, s, shape) && Topmost(s, q) && Covered(s, q)
    requires !Clear(root, s, shape, dst, Object(fields), q)
    ensures var whole, part := Lookup(MergeObject(root, shape, dst, Object(fields)), q),
                               Lookup(MergeObject(root, shape, dst, ProjectRoot(s, fields)), q);
      var given := Lookup(Object(fields), q);
      whole == given &&
      (given.None? ==> part == Lookup(dst, q) && (whole == part <==> Lookup(dst, q).None?)) &&
      (given.Some? ==>
         part == Some(Settled(root, FieldOn(root, shape, dst, q), Lookup(dst, q), given.value)) &&
         (whole == part <==> AddsNothing(root, FieldOn(root, shape, dst, q), Lookup(dst, q), given.value)) &&
         (!given.value.Object? ==> whole == part))
  {
    UnclearIsCut(root, s, shape, dst, Object(fields), q);
    MergeByPath(root, shape, dst, Object(fields), q);
    if Lookup(Object(fields), q).None? {
      ProjectCovered(s, Object(fields), q);
      FilteredMissing(root, s, shape, dst, fields, q);
    } else {
      FilteredGiven(root, s, shape, dst, fields, q);
      SettledIsGiven(root, FieldOn(root, shape, dst, q), Lookup(dst, q), Lookup(Object(fields), q).value);
    }
  }

  // ---- Edits -----------------------------------------------------------

  lemma ParentComparable(p: Path, key: string, q: Path)
    requires Comparable(p + [key], q)
    ensures Comparable(p, q)
  {
    if |q| <= |p| {
      assert q == p[..|q|];
    } else {
      assert p == q[..|p|];
    }
  }

  /** The projected edits do to each selected path what the edit itself does. */
  lemma {:induction false} ProjectedEffect(s: Selection, edit: Edit, f: Value, q: Path)
    requires f.Object? && edit.path != [] && ApplyEdits(f, ProjectEdit(s, edit)).Ok?
    requires edit.kind != UnknownKind
    ensures var out := ApplyEdits(f, ProjectEdit(s, edit)).value;
      (!Comparable(edit.path, q) ==> Lookup(out, q) == Lookup(f, q)) &&
      (edit.path <= q && Covered(s, q[|edit.path|..]) ==>
         Lookup(out, q) == if edit.kind == Replace then Lookup(edit.value, q[|edit.path|..]) else None)
    decreases s, 1
  {
    if s.all {
      SingleEdit(f, edit);
      EditLookup(f, edit.path, edit, q);
    } else {
      ProjectedMembersEffect(s, edit, Sorted(s.children.Keys), f, q);
      if !Comparable(edit.path, q) {
        MembersIncomparable(edit.path, q);
      } else if edit.path <= q && Covered(s, q[|edit.path|..]) {
        assert q[|edit.path|..] != [] && edit.path < q;
      }
    }
  }

  lemma SingleEdit(v: Value, edit: Edit)
    requires v.Object?
    ensures ApplyEdits(v, [edit]) == ApplyEdit(v, edit)
  {
    assert [edit][1..] == [];
  }

  lemma MembersIncomparable(p: Path, q: Path)
    requires !Comparable(p, q)
    ensures forall k :: !Comparable(p + [k], q)
  {
    forall k ensures !Comparable(p + [k], q) {
      if Comparable(p + [k], q) { ParentComparable(p, k, q); }
    }
  }

  lemma {:induction false} ProjectedMembersEffect(s: Selection, edit: Edit, keys: seq<string>, f: Value, q: Path)
    requires f.Object? && edit.path != [] && !s.all && edit.kind != UnknownKind
    requires forall k | k in keys :: k in s.children
    requires forall i, j | 0 <= i < j < |keys| :: keys[i] != keys[j]
    requires ApplyEdits(f, ProjectMembers(s, edit, keys)).Ok?
    ensures var out := ApplyEdits(f, ProjectMembers(s, edit, keys)).value;
      ((forall k | k in keys :: !Comparable(edit.path + [k], q)) ==> Lookup(out, q) == Lookup(f, q)) &&
      (edit.path < q && q[|edit.path|] in keys && Covered(s, q[|edit.path|..]) ==>
         Lookup(out, q) == if edit.kind == Replace then Lookup(edit.value, q[|edit.path|..]) else None)
    decreases s, 0, |keys|
  {
    if keys != [] {
      var k, c := keys[0], s.children[keys[0]];
      var member := MemberEdit(edit, k);
      var first := ProjectEdit(c, member);
      ApplyEditsConcat(f, first, ProjectMembers(s, edit, keys[1..]));
      var mid := ApplyEdits(f, first).value;
      ProjectedEffect(c, member, f, q);
      ProjectedMembersEffect(s, edit, keys[1..], mid, q);
      assert k in keys;
      if edit.path < q && Covered(s, q[|edit.path|..]) {
        MembersApart(edit.path, k, keys[1..], q);
      }
    }
  }

  /** A path below one member of an object is apart from the other members. */
  lemma MembersApart(p: Path, key: string, others: seq<string>, q: Path)
    requires p < q && key !in others
    ensures q[|p|] == key ==>
              p + [key] <= q && q[|p + [key]|..] == q[|p|..][1..] && forall j | j in others :: !Comparable(p + [j], q)
    ensures q[|p|] != key ==> !Comparable(p + [key], q)
  {
    assert q[..|p| + 1] == p + [q[|p|]];
    forall j | j != q[|p|] ensures !Comparable(p + [j], q) {
      assert (p + [j])[|p|] == j;
    }
  }

  lemma {:induction false} CoveredIsAll(s: Selection, p: Path)
    ensures Covered(s, p) <==> At(s, p).Some? && At(s, p).value.all
    decreases p
  {
    if p != [] && !s.all && p[0] in s.children { CoveredIsAll(s.children[p[0]], p[1..]); }
  }

  lemma {:induction false} CoveredUpward(s: Selection, p: Path, q: Path)
    requires Covered(s, p) && p <= q
    ensures Covered(s, q)
    decreases p
  {
    if !s.all { CoveredUpward(s.children[p[0]], p[1..], q[1..]); }
  }

  /** Below a node of the trie a path is covered as its remainder is from the node. */
  lemma {:induction false} CoveredFrom(s: Selection, p: Path, q: Path)
    requires Covered(s, q) && !Covered(s, p)
    requires Comparable(p, q)
    ensures p <= q && At(s, p).Some? && Covered(At(s, p).value, q[|p|..])
    decreases p
  {
    if q <= p { CoveredUpward(s, q, p); }
    if p != [] {
      assert p[0] == q[0];
      CoveredFrom(s.children[p[0]], p[1..], q[1..]);
      assert q[|p|..] == q[1..][|p[1..]|..];
    }
  }

  /** An edit and its projections keep two trees alike at a selected path. */
  lemma EditAgrees(s: Selection, u: Value, f: Value, edit: Edit, q: Path)
    requires u.Object? && f.Object? && Covered(s, q) && Lookup(u, q) == Lookup(f, q)
    requires ApplyEdit(u, edit).Ok? && ApplyEdits(f, FilterEdit(s, edit)).Ok?
    ensures Lookup(ApplyEdit(u, edit).value, q) == Lookup(ApplyEdits(f, FilterEdit(s, edit)).value, q)
  {
    EditLookup(u, edit.path, edit, q);
    CoveredIsAll(s, edit.path);
    if Covered(s, edit.path) {
      assert FilterEdit(s, edit) == [edit];
      SingleEdit(f, edit);
      EditLookup(f, edit.path, edit, q);
    } else {
      if Comparable(edit.path, q) { CoveredFrom(s, edit.path, q); }
      if At(s, edit.path).Some? { ProjectedEffect(At(s, edit.path).value, edit, f, q); }
    }
  }

  lemma {:induction false} EditsAgree(s: Selection, u: Value, f: Value, edits: seq<Edit>, q: Path)
    requires u.Object? && f.Object? && Covered(s, q) && Lookup(u, q) == Lookup(f, q)
    requires ApplyEdits(u, edits).Ok? && ApplyEdits(f, FilterEdits(s, edits)).Ok?
    ensures Lookup(ApplyEdits(u, edits).value, q) == Lookup(ApplyEdits(f, FilterEdits(s, edits)).value, q)
    decreases |edits|
  {
    if edits != [] {
      ApplyEditsConcat(f, FilterEdit(s, edits[0]), FilterEdits(s, edits[1..]));
      EditAgrees(s, u, f, edits[0], q);
      EditsAgree(s, ApplyEdit(u, edits[0]).value, ApplyEdits(f, FilterEdit(s, edits[0])).value, edits[1..], q);
    }
  }

  // ---- The theorems ----------------------------------------------------

  /** The way to one selected path is clear in a layer's values, if it has any. */
  predicate ClearIn(root: Schema, s: Selection, v: Value, layer: Layer, q: Path)
    requires v.Object? && Covered(s, q)
  {
    layer.values.Some? ==> Clear(root, s, RootShape(root), v, Object(layer.values.value), q)
  }

  /**
   * When both the layer and its filtered form apply, the two results agree on every selected
   * path that the layer's values leave a clear way to, whatever the edits.
   */
  lemma FilteredLayerAgrees(root: Schema, s: Selection, v: Value, layer: Layer, q: Path)
    requires Validate(root, s, RootShape(root), []).None?
    requires v.Object? && ApplyLayer(root, v, layer).Ok? && ApplyLayer(root, v, FilterLayer(s, layer)).Ok?
    requires Covered(s, q) && ClearIn(root, s, v, layer, q)
    ensures Lookup(ApplyLayer(root, v, layer).value, q) == Lookup(ApplyLayer(root, v, FilterLayer(s, layer)).value, q)
  {
    var u, f := ApplyValues(root, v, layer.values).value, ApplyValues(root, v, FilterLayer(s, layer).values).value;
    ValuesAgree(root, s, v, layer, q);
    EditsAgree(s, u, f, layer.edits, q);
  }

  lemma ValuesAgree(root: Schema, s: Selection, v: Value, layer: Layer, q: Path)
    requires Validate(root, s, RootShape(root), []).None?
    requires v.Object? && ApplyValues(root, v, layer.values).Ok? && ApplyValues(root, v, FilterLayer(s, layer).values).Ok?
    requires Covered(s, q) && ClearIn(root, s, v, layer, q)
    ensures Lookup(ApplyValues(root, v, layer.values).value, q) == Lookup(ApplyValues(root, v, FilterLayer(s, layer).values).value, q)
  {
    if !s.all {
      ValidatedIsSafe(root, s, RootShape(root), []);
      if layer.values.Some? {
        MergeAgrees(root, s, RootShape(root), v, layer.values.value, q);
      } else {
        assert ProjectRoot(s, map[]) == Object(map[]);
        MergeNothing(root, RootShape(root), v);
      }
    }
  }

  /** Layers of edits alone agree with no condition, projected ancestor edits included. */
  lemma FilteredEditsAgree(root: Schema, s: Selection, v: Value, layer: Layer)
    requires layer.values.None? && Validate(root, s, RootShape(root), []).None?
    requires v.Object? && ApplyLayer(root, v, layer).Ok? && ApplyLayer(root, v, FilterLayer(s, layer)).Ok?
    ensures forall q | Covered(s, q) ::
              Lookup(ApplyLayer(root, v, layer).value, q) == Lookup(ApplyLayer(root, v, FilterLayer(s, layer)).value, q)
  {
    forall q | Covered(s, q)
      ensures Lookup(ApplyLayer(root, v, layer).value, q) == Lookup(ApplyLayer(root, v, FilterLayer(s, layer)).value, q)
    {
      FilteredLayerAgrees(root, s, v, layer, q);
    }
  }
}
