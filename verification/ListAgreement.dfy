/**
 * The agreement of a filtered layer with the whole one on everything a selected path reaches,
 * list elements included, and where an index into an unselected list breaks it.
 */
module ListAgreement {
  import opened Basics
  import opened Paths
  import opened Trees
  import opened Merging
  import opened Filtering
  import opened NonInterference
  import opened Agreement

  /** No list stands strictly above the path. */
  predicate NoListAbove(v: Value, t: Path)
    decreases t
  {
    t == [] || (!v.List? && (v.Object? && t[0] in v.fields ==> NoListAbove(v.fields[t[0]], t[1..])))
  }

  lemma {:induction false} NoListReach(v: Value, t: Path)
    requires NoListAbove(v, t)
    ensures Reach(v, t) == Lookup(v, t)
    decreases t
  {
    if t != [] && v.Object? && t[0] in v.fields { NoListReach(v.fields[t[0]], t[1..]); }
  }

  lemma {:induction false} LookupNoList(v: Value, t: Path)
    requires Lookup(v, t).Some?
    ensures NoListAbove(v, t)
    decreases t
  {
    if t != [] { LookupNoList(v.fields[t[0]], t[1..]); }
  }

  lemma {:induction false} ReachSplit(v: Value, p: Path, q: Path)
    ensures Reach(v, p + q) == (match Reach(v, p) case Some(c) => Reach(c, q) case None => None)
    decreases p
  {
    if p == [] {
      assert p + q == q;
    } else {
      assert (p + q)[0] == p[0] && (p + q)[1..] == p[1..] + q;
      match Child(v, p[0])
      case Some(c) => ReachSplit(c, p[1..], q);
      case None =>
    }
  }

  /** Trees alike at a path of object members reach alike below it, unless a list stands above it. */
  lemma AlikeBelow(u: Value, f: Value, t: Path, q: Path)
    requires Lookup(u, t) == Lookup(f, t) && t <= q
    requires Lookup(u, t).Some? || (NoListAbove(u, t) && NoListAbove(f, t))
    ensures Reach(u, q) == Reach(f, q)
  {
    if Lookup(u, t).Some? {
      LookupNoList(u, t);
      LookupNoList(f, t);
    }
    NoListReach(u, t);
    NoListReach(f, t);
    assert q == t + q[|t|..];
    ReachSplit(u, t, q[|t|..]);
    ReachSplit(f, t, q[|t|..]);
  }

  /** A list above the path that stays where it was, and what is reached through it. */
  predicate KeepsList(was: Value, now: Value, t: Path, q: Path) {
    !NoListAbove(now, t) && Reach(now, q) == Reach(was, q)
  }

  lemma {:induction false} ProjectedKeepsList(root: Schema, s: Selection, shape: Shape, dst: Value, fields: Fields, t: Path, q: Path)
    requires dst.Object? && !s.all && SafeMembers(root, s, shape) && Topmost(s, t) && t <= q
    requires !NoListAbove(dst, t) && !Overridden(dst, ProjectRoot(s, fields), t)
    ensures KeepsList(dst, MergeObject(root, shape, dst, ProjectRoot(s, fields)), t, q)
    decreases t
  {
    var k, p := t[0], ProjectRoot(s, fields);
    var out := MergeObject(root, shape, dst, p);
    assert q[0] == k && t[1..] <= q[1..];
    if k in p.fields {
      var c, field, lower := s.children[k], FieldAt(shape, k), dst.fields[k];
      assert out.fields[k] == MergeField(root, shape, dst, p, k);
      assert t[1..] != [] && !c.all && Project(c, fields[k]) == Some(p.fields[k]);
      assert !lower.List? && lower.Object?;
      SafeBelow(root, c, field, lower.fields);
      assert p.fields[k] == ProjectRoot(c, fields[k].fields) == Object(ProjectFields(c, fields[k].fields));
      assert !Replaces(field, Some(lower), p.fields[k]);
      ProjectedKeepsList(root, c, Below(root, field, lower.fields), lower, fields[k].fields, t[1..], q[1..]);
    }
  }

  lemma TailsCompare(p: Path, t: Path)
    requires p != [] && t != [] && p[0] == t[0]
    ensures Comparable(p, t) <==> Comparable(p[1..], t[1..])
    ensures p < t <==> p[1..] < t[1..]
  {
    assert p == [p[0]] + p[1..] && t == [t[0]] + t[1..];
  }

  /** An edit that is not above the path cannot get through the list, nor change what stands in it. */
  lemma {:induction false} EditKeepsList(v: Value, path: Path, edit: Edit, t: Path, q: Path)
    requires v.Object? && path != [] && EditTree(v, path, edit).Ok? && !NoListAbove(v, t) && t <= q
    requires !(path < t)
    ensures !Comparable(path, t) && KeepsList(v, EditTree(v, path, edit).value, t, q)
    decreases path
  {
    var k := path[0];
    assert path == [k] + path[1..] && t == [t[0]] + t[1..] && q == [q[0]] + q[1..] && q[0] == t[0];
    if t[0] == k {
      TailsCompare(path, t);
      EditKeepsList(v.fields[k], path[1..], edit, t[1..], q[1..]);
    }
  }

  lemma {:induction false} EditsKeepList(s: Selection, v: Value, edits: seq<Edit>, t: Path, q: Path)
    requires v.Object? && ApplyEdits(v, edits).Ok? && !NoListAbove(v, t) && t <= q && Topmost(s, t) && AllCovered(s, edits)
    ensures KeepsList(v, ApplyEdits(v, edits).value, t, q)
    decreases |edits|
  {
    if edits != [] {
      if edits[0].path < t { TopmostUncovered(s, t, edits[0].path); }
      EditKeepsList(v, edits[0].path, edits[0], t, q);
      var rest := edits[1..];
      assert forall i | 0 <= i < |rest| :: rest[i] == edits[i + 1];
      EditsKeepList(s, ApplyEdit(v, edits[0]).value, rest, t, q);
    }
  }

  lemma AlikeUnlessListed(u: Value, f: Value, t: Path, q: Path)
    requires Lookup(u, t) == Lookup(f, t) && t <= q && NoListAbove(f, t)
    ensures Reach(u, q) == Reach(f, q) <==> Lookup(u, t).Some? || Reach(u, q).None?
  {
    if Lookup(u, t).Some? {
      AlikeBelow(u, f, t, q);
    } else {
      NoListReach(f, t);
      assert q == t + q[|t|..];
      ReachSplit(f, t, q[|t|..]);
    }
  }

  // ---- Merges and edits put no list above a path unless they are given one ----

  lemma {:induction false} MergeNoList(root: Schema, shape: Shape, dst: Value, src: Value, t: Path)
    requires dst.Object? && src.Object? && NoListAbove(dst, t) && NoListAbove(src, t)
    ensures NoListAbove(MergeObject(root, shape, dst, src), t)
    decreases t
  {
    if t != [] && t[0] in src.fields {
      var k := t[0];
      var field, lower := FieldAt(shape, k), Member(dst, k);
      assert MergeObject(root, shape, dst, src).fields[k] == MergeField(root, shape, dst, src, k);
      if !Replaces(field, lower, src.fields[k]) {
        MergeNoList(root, Below(root, field, lower.value.fields), lower.value, src.fields[k], t[1..]);
      }
    }
  }

  /** An edit above the path gives no list above it. */
  predicate GivesNoList(edit: Edit, t: Path) {
    edit.kind == Replace && edit.path < t ==> NoListAbove(edit.value, t[|edit.path|..])
  }

  lemma {:induction false} EditNoList(v: Value, path: Path, edit: Edit, t: Path)
    requires v.Object? && path != [] && EditTree(v, path, edit).Ok? && NoListAbove(v, t)
    requires edit.kind != Delete && path < t ==> NoListAbove(edit.value, t[|path|..])
    ensures NoListAbove(EditTree(v, path, edit).value, t)
    decreases path
  {
    var key := path[0];
    if t != [] && t[0] == key {
      assert path == [key] + path[1..] && t == [key] + t[1..];
      if |path| == 1 {
        assert path < t ==> t[|path|..] == t[1..];
        assert edit.kind != Delete ==> NoListAbove(edit.value, t[1..]) || t[1..] == [];
      } else if key in v.fields || edit.kind != Delete {
        assert path[1..] < t[1..] ==> path < t && t[|path|..] == t[1..][|path[1..]|..];
        EditNoList(if key in v.fields then v.fields[key] else Object(map[]), path[1..], edit, t[1..]);
      }
    }
  }

  lemma {:induction false} EditsNoList(v: Value, edits: seq<Edit>, t: Path)
    requires v.Object? && ApplyEdits(v, edits).Ok? && NoListAbove(v, t)
    requires forall i | 0 <= i < |edits| :: GivesNoList(edits[i], t)
    ensures NoListAbove(ApplyEdits(v, edits).value, t)
    decreases |edits|
  {
    if edits != [] {
      assert GivesNoList(edits[0], t);
      EditNoList(v, edits[0].path, edits[0], t);
      var rest := edits[1..];
      assert forall i | 0 <= i < |rest| :: rest[i] == edits[i + 1];
      EditsNoList(ApplyEdit(v, edits[0]).value, rest, t);
    }
  }

  // ---- Above a topmost selected path a filtered layer gives no list at all ----

  lemma {:induction false} TopmostUncovered(s: Selection, t: Path, p: Path)
    requires Topmost(s, t) && p < t
    ensures !Covered(s, p)
    decreases t
  {
    if p != [] { TopmostUncovered(s.children[t[0]], t[1..], p[1..]); }
  }

  /** Every covered path is at or below a topmost selected one. */
  lemma {:induction false} TopmostAbove(s: Selection, q: Path) returns (t: Path)
    requires Covered(s, q)
    ensures Topmost(s, t) && t <= q
    decreases q
  {
    if s.all {
      t := [];
    } else {
      var rest := TopmostAbove(s.children[q[0]], q[1..]);
      t := [q[0]] + rest;
      assert t[1..] == rest && q == [q[0]] + q[1..];
    }
  }

  lemma {:induction false} ProjectNoList(s: Selection, v: Value, t: Path)
    requires Topmost(s, t) && Project(s, v).Some?
    ensures NoListAbove(Project(s, v).value, t)
    decreases t
  {
    if t != [] {
      var p := Project(s, v).value;
      if t[0] in p.fields { ProjectNoList(s.children[t[0]], v.fields[t[0]], t[1..]); }
    }
  }

  lemma ProjectRootNoList(s: Selection, fields: Fields, t: Path)
    requires Topmost(s, t)
    ensures NoListAbove(ProjectRoot(s, fields), t)
  {
    if t != [] {
      var p := ProjectRoot(s, fields);
      if t[0] in p.fields { ProjectNoList(s.children[t[0]], fields[t[0]], t[1..]); }
    }
  }

  lemma FilteredEditsGiveNoList(s: Selection, edits: seq<Edit>, t: Path)
    requires Topmost(s, t)
    ensures forall i | 0 <= i < |FilterEdits(s, edits)| :: GivesNoList(FilterEdits(s, edits)[i], t)
  {
    var es := FilterEdits(s, edits);
    FilteredEditsCovered(s, edits);
    forall i | 0 <= i < |es| ensures GivesNoList(es[i], t) {
      if es[i].path < t { TopmostUncovered(s, t, es[i].path); }
    }
  }

  lemma FilteredNoList(root: Schema, s: Selection, v: Value, layer: Layer, t: Path)
    requires v.Object? && ApplyLayer(root, v, FilterLayer(s, layer)).Ok? && Topmost(s, t) && NoListAbove(v, t)
    ensures NoListAbove(ApplyLayer(root, v, FilterLayer(s, layer)).value, t)
  {
    if t != [] {
      var filtered := FilterLayer(s, layer);
      assert Object(filtered.values.value) == FilteredValues(s, layer);
      ProjectRootNoList(s, if layer.values.Some? then layer.values.value else map[], t);
      MergeNoList(root, RootShape(root), v, FilteredValues(s, layer), t);
      FilteredEditsGiveNoList(s, layer.edits, t);
      EditsNoList(ApplyValues(root, v, filtered.values).value, filtered.edits, t);
    }
  }

  // ---- The theorem ---------------------------------------------------------

  /** Neither the layer's values nor any of its edits give a list above the path. */
  ghost predicate LayerGivesNoList(layer: Layer, t: Path) {
    (layer.values.Some? ==> NoListAbove(Object(layer.values.value), t)) &&
    forall i | 0 <= i < |layer.edits| :: GivesNoList(layer.edits[i], t)
  }

  lemma WholeNoList(root: Schema, v: Value, layer: Layer, t: Path)
    requires v.Object? && ApplyLayer(root, v, layer).Ok? && NoListAbove(v, t) && LayerGivesNoList(layer, t)
    ensures NoListAbove(ApplyLayer(root, v, layer).value, t)
  {
    if layer.values.Some? { MergeNoList(root, RootShape(root), v, Object(layer.values.value), t); }
    EditsNoList(ApplyValues(root, v, layer.values).value, layer.edits, t);
  }

  /**
   * Where the way to a topmost selected path is clear, the layer and its filtered form agree
   * on all that is reached at or below it, list elements included, if the whole layer leaves
   * anything there, or if neither the lower tree, nor the values, nor an edit has a list above it.
   */
  lemma FilteredLayerReaches(root: Schema, s: Selection, v: Value, layer: Layer, t: Path, q: Path)
    requires Validate(root, s, RootShape(root), []).None?
    requires v.Object? && ApplyLayer(root, v, layer).Ok? && ApplyLayer(root, v, FilterLayer(s, layer)).Ok?
    requires Topmost(s, t) && Covered(s, t) && ClearIn(root, s, v, layer, t) && t <= q
    requires Lookup(ApplyLayer(root, v, layer).value, t).Some? || (NoListAbove(v, t) && LayerGivesNoList(layer, t))
    ensures Reach(ApplyLayer(root, v, layer).value, q) == Reach(ApplyLayer(root, v, FilterLayer(s, layer)).value, q)
  {
    FilteredLayerAgrees(root, s, v, layer, t);
    if Lookup(ApplyLayer(root, v, layer).value, t).None? {
      WholeNoList(root, v, layer, t);
      FilteredNoList(root, s, v, layer, t);
    }
    AlikeBelow(ApplyLayer(root, v, layer).value, ApplyLayer(root, v, FilterLayer(s, layer)).value, t, q);
  }

  /** The lower tree has a list above the path, and the filtered values leave it there. */
  predicate ListStays(s: Selection, v: Value, layer: Layer, t: Path) {
    !NoListAbove(v, t) && !Overridden(v, FilteredValues(s, layer), t)
  }

  lemma FilteredKeepsList(root: Schema, s: Selection, v: Value, layer: Layer, t: Path, q: Path)
    requires Validate(root, s, RootShape(root), []).None?
    requires v.Object? && ApplyLayer(root, v, FilterLayer(s, layer)).Ok? && Topmost(s, t) && t <= q && ListStays(s, v, layer, t)
    ensures KeepsList(v, ApplyLayer(root, v, FilterLayer(s, layer)).value, t, q)
  {
    var filtered := FilterLayer(s, layer);
    assert !s.all && Object(filtered.values.value) == FilteredValues(s, layer);
    ValidatedIsSafe(root, s, RootShape(root), []);
    assert s.children != map[] && SafeMembers(root, s, RootShape(root));
    ProjectedKeepsList(root, s, RootShape(root), v, if layer.values.Some? then layer.values.value else map[], t, q);
    FilteredEditsCovered(s, layer.edits);
    EditsKeepList(s, ApplyValues(root, v, filtered.values).value, filtered.edits, t, q);
  }

  /** A list that the filtered values replace, or that was not there, is not above the path afterwards. */
  lemma FilteredDropsList(root: Schema, s: Selection, v: Value, layer: Layer, t: Path)
    requires v.Object? && ApplyLayer(root, v, FilterLayer(s, layer)).Ok? && Topmost(s, t) && !ListStays(s, v, layer, t)
    requires Validate(root, s, RootShape(root), []).None?
    ensures NoListAbove(ApplyLayer(root, v, FilterLayer(s, layer)).value, t)
  {
    if NoListAbove(v, t) {
      FilteredNoList(root, s, v, layer, t);
    } else {
      var filtered := FilterLayer(s, layer);
      assert !s.all && Object(filtered.values.value) == FilteredValues(s, layer);
      ValidatedIsSafe(root, s, RootShape(root), []);
      assert s.children != map[] && SafeMembers(root, s, RootShape(root));
      ProjectedDropsList(root, s, RootShape(root), v, if layer.values.Some? then layer.values.value else map[], t);
      FilteredEditsGiveNoList(s, layer.edits, t);
      EditsNoList(ApplyValues(root, v, filtered.values).value, filtered.edits, t);
    }
  }

  lemma {:induction false} ProjectedDropsList(root: Schema, s: Selection, shape: Shape, dst: Value, fields: Fields, t: Path)
    requires dst.Object? && !s.all && SafeMembers(root, s, shape) && Topmost(s, t) && Overridden(dst, ProjectRoot(s, fields), t)
    ensures NoListAbove(MergeObject(root, shape, dst, ProjectRoot(s, fields)), t)
    decreases t
  {
    var k, p := t[0], ProjectRoot(s, fields);
    var c, field, lower := s.children[k], FieldAt(shape, k), dst.fields[k];
    assert MergeObject(root, shape, dst, p).fields[k] == MergeField(root, shape, dst, p, k);
    assert t[1..] != [] && !c.all && Project(c, fields[k]) == Some(p.fields[k]);
    if lower.Object? {
      SafeBelow(root, c, field, lower.fields);
      assert p.fields[k] == ProjectRoot(c, fields[k].fields) == Object(ProjectFields(c, fields[k].fields));
      assert !Replaces(field, Some(lower), p.fields[k]);
      ProjectedDropsList(root, c, Below(root, field, lower.fields), lower, fields[k].fields, t[1..]);
    } else {
      ProjectNoList(c, fields[k], t[1..]);
    }
  }

  /**
   * Where the way is clear, whole and filtered layer differ in what is reached at or below a
   * topmost selected path exactly when the whole layer leaves no object member there and does
   * not leave the very element that the filtered one does: the one of a list that was above
   * the path and stays, and otherwise none.
   */
  lemma DifferOnlyInLists(root: Schema, s: Selection, v: Value, layer: Layer, t: Path, q: Path)
    requires Validate(root, s, RootShape(root), []).None?
    requires v.Object? && ApplyLayer(root, v, layer).Ok? && ApplyLayer(root, v, FilterLayer(s, layer)).Ok?
    requires Topmost(s, t) && Covered(s, t) && ClearIn(root, s, v, layer, t) && t <= q
    ensures var whole := ApplyLayer(root, v, layer).value;
      Reach(whole, q) == Reach(ApplyLayer(root, v, FilterLayer(s, layer)).value, q) <==>
      Lookup(whole, t).Some? || Reach(whole, q) == if ListStays(s, v, layer, t) then Reach(v, q) else None
  {
    var whole := ApplyLayer(root, v, layer).value;
    FilteredLayerAgrees(root, s, v, layer, t);
    if ListStays(s, v, layer, t) {
      FilteredKeepsList(root, s, v, layer, t, q);
      if Lookup(whole, t).Some? { LookupNoList(ApplyLayer(root, v, FilterLayer(s, layer)).value, t); }
    } else {
      FilteredDropsList(root, s, v, layer, t);
      AlikeUnlessListed(whole, ApplyLayer(root, v, FilterLayer(s, layer)).value, t, q);
    }
  }

  // ---- Where an index names an element of an unselected list ----------------

  const NOTHING_YET := Object(map[])
  const LISTS := Layer(None, "", map[], [Edit(Replace, ["xs"], List([Str("c"), Str("d")]))], None)

  lemma SecondOf(a: Value, b: Value)
    ensures Reach(Object(map["xs" := List([a, b])]), ["xs", "1"]) == Some(b)
  {
    var xs := List([a, b]);
    IndexOfItoa(1, 2);
    assert ["xs", "1"][1..] == ["1"] && ["1"][1..] == [];
    assert Child(xs, "1") == Some(b);
    assert Reach(xs, ["1"]) == Some(b);
  }

  lemma PickedFromEdit()
    ensures FilterEdits(PICKED, LISTS.edits) == [Edit(Delete, ["xs", "1"], Null)]
  {
    PickedShape();
    var edit := LISTS.edits[0];
    assert ["xs"][1..] == [] && At(PICKED, ["xs"]) == Some(SECOND);
    assert Sorted(SECOND.children.Keys) == ["1"] by {
      var keys := Sorted(SECOND.children.Keys);
      assert |keys| == 1 && keys[0] in keys;
    }
    assert ["1"][1..] == [];
    assert MemberEdit(edit, "1") == Edit(Delete, ["xs", "1"], Null);
    assert ProjectMembers(SECOND, edit, []) == [];
    assert FilterEdit(PICKED, edit) == [Edit(Delete, ["xs", "1"], Null)];
    assert LISTS.edits[1..] == [];
  }

  lemma ListsGivesList()
    ensures ApplyLayer(NO_FIELDS, NOTHING_YET, LISTS) == Ok(Object(map["xs" := LISTS.edits[0].value]))
  {
    var given := List([Str("c"), Str("d")]);
    assert Clonable(Str("c"), 1) && Clonable(Str("d"), 1) && Clonable(given, 0);
    SingleEdit(NOTHING_YET, LISTS.edits[0]);
    assert ApplyEdit(NOTHING_YET, LISTS.edits[0]) == Ok(Object(map["xs" := given]));
  }

  lemma FilteredListsGivesNothing()
    ensures ApplyLayer(NO_FIELDS, NOTHING_YET, FilterLayer(PICKED, LISTS)) == Ok(NOTHING_YET)
  {
    PickedShape();
    PickedFromEdit();
    assert ProjectFields(PICKED, map[]) == map[];
    MergeNothing(NO_FIELDS, RootShape(NO_FIELDS), NOTHING_YET);
    SingleEdit(NOTHING_YET, Edit(Delete, ["xs", "1"], Null));
  }

  /** An edit that puts a list above the selected index: the whole layer gives the element, the filtered one nothing. */
  lemma EditedElementMissed()
    ensures ApplyLayer(NO_FIELDS, NOTHING_YET, LISTS).Ok? && ApplyLayer(NO_FIELDS, NOTHING_YET, FilterLayer(PICKED, LISTS)).Ok?
    ensures Reach(ApplyLayer(NO_FIELDS, NOTHING_YET, LISTS).value, ["xs", "1"]) == Some(Str("d"))
    ensures Reach(ApplyLayer(NO_FIELDS, NOTHING_YET, FilterLayer(PICKED, LISTS)).value, ["xs", "1"]).None?
  {
    SecondOf(Str("c"), Str("d"));
    ListsGivesList();
    FilteredListsGivesNothing();
  }

  const EMPTIES := Layer(Some(map["xs" := Object(map[])]), "", map[], [], None)

  /** An empty object over a list: the whole layer removes the selected element, the filtered one keeps it. */
  lemma ElementKeptByFilter()
    ensures ApplyLayer(NO_FIELDS, LISTED, EMPTIES).Ok? && ApplyLayer(NO_FIELDS, LISTED, FilterLayer(PICKED, EMPTIES)).Ok?
    ensures Covered(PICKED, ["xs", "1"]) && ClearIn(NO_FIELDS, PICKED, LISTED, EMPTIES, ["xs", "1"])
    ensures Reach(ApplyLayer(NO_FIELDS, LISTED, EMPTIES).value, ["xs", "1"]).None?
    ensures Reach(ApplyLayer(NO_FIELDS, LISTED, FilterLayer(PICKED, EMPTIES)).value, ["xs", "1"]) == Some(Str("b"))
  {
    SecondOf(Str("a"), Str("b"));
    PickedShape();
    var empty := Object(map[]);
    assert ["xs", "1"][1..] == ["1"] && ["1"][1..] == [];
    assert Covered(SECOND, ["1"]);
    assert Clonable(empty, 1) && Clonable(Object(EMPTIES.values.value), 0);
    assert MergeField(NO_FIELDS, RootShape(NO_FIELDS), LISTED, Object(EMPTIES.values.value), "xs") == empty;
    assert Reach(empty, ["1"]).None?;
    assert ProjectFields(SECOND, map[]) == map[];
    assert ProjectFields(PICKED, EMPTIES.values.value) == map[];
    MergeNothing(NO_FIELDS, RootShape(NO_FIELDS), LISTED);
  }
}
