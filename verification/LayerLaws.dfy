/** What applying a layer records, where, in what order, and how it fails. */
module LayerLaws {
  import opened Basics
  import opened Paths
  import opened Trees
  import opened Merging
  import opened MergeLaws
  import opened Filtering

  // ---- Locations ---------------------------------------------------------

  /** The first n segments are located, and no longer part of the path is. */
  ghost predicate LongestLocated(locations: map<string, Location>, path: Path, n: nat) {
    n <= |path| && Pointer(path[..n]) in locations &&
    forall m | n < m <= |path| :: Pointer(path[..m]) !in locations
  }

  /** A record takes the location of its nearest located ancestor-or-self, and keeps its own if there is none. */
  lemma {:induction false} RecordIsLocated(o: Origin, path: Path, locations: map<string, Location>)
    ensures Located(o, path, locations).(location := o.location) == o
    ensures (forall m | 0 <= m <= |path| :: Pointer(path[..m]) !in locations) ==> Located(o, path, locations) == o
    ensures forall n: nat | LongestLocated(locations, path, n) ::
              Located(o, path, locations).location == locations[Pointer(path[..n])]
    decreases |path|
  {
    assert path[..|path|] == path;
    if Pointer(path) in locations {
      forall n: nat | LongestLocated(locations, path, n) ensures n == |path| {}
    } else if path != [] {
      var up := path[..|path| - 1];
      assert forall m | 0 <= m <= |up| :: up[..m] == path[..m];
      RecordIsLocated(o, up, locations);
      forall n: nat | LongestLocated(locations, path, n) ensures LongestLocated(locations, up, n) {
        assert n != |path|;
      }
    }
  }

  // ---- Records of values ----------------------------------------------------

  /** The merge replaced something that the lower tree held strictly above q. */
  ghost predicate Displaced(root: Schema, shape: Shape, dst: Value, src: Value, q: Path)
    requires dst.Object? && src.Object?
  {
    exists n :: DisplacedAt(root, shape, dst, src, q, n)
  }

  predicate DisplacedAt(root: Schema, shape: Shape, dst: Value, src: Value, q: Path, n: int)
    requires dst.Object? && src.Object?
  {
    0 < n < |q| && Lookup(dst, q[..n]).Some? && Cut(root, shape, dst, src, q[..n]) && !Cut(root, shape, dst, src, q[..n - 1])
  }

  lemma DisplacedBelow(root: Schema, shape: Shape, dst: Value, src: Value, q: Path, n: int)
    requires dst.Object? && src.Object? && q != [] && q[0] in dst.fields && q[0] in src.fields
    requires !Replaces(FieldAt(shape, q[0]), Member(dst, q[0]), src.fields[q[0]])
    ensures var lower := dst.fields[q[0]];
      n > 0 ==>
        (DisplacedAt(root, shape, dst, src, q, n + 1) <==>
         DisplacedAt(root, Below(root, FieldAt(shape, q[0]), lower.fields), lower, src.fields[q[0]], q[1..], n))
    ensures !DisplacedAt(root, shape, dst, src, q, 1)
  {
    if 0 < n < |q| - 1 {
      assert q[..n + 1][0] == q[0] && q[..n + 1][1..] == q[1..][..n];
      assert q[..n][0] == q[0] && q[..n][1..] == q[1..][..n - 1];
    }
    if |q| > 1 {
      var one := q[..1];
      assert one[0] == q[0] && one[1..] == [];
      assert !Cut(root, shape, dst, src, one);
    }
  }

  lemma DisplacedHere(root: Schema, shape: Shape, dst: Value, src: Value, q: Path, n: int)
    requires dst.Object? && src.Object? && q != [] && q[0] in src.fields
    requires Replaces(FieldAt(shape, q[0]), Member(dst, q[0]), src.fields[q[0]])
    ensures DisplacedAt(root, shape, dst, src, q, n) <==> n == 1 && |q| > 1 && q[0] in dst.fields
  {
    if 0 < n < |q| {
      var some := q[..n];
      assert some[0] == q[0] && Cut(root, shape, dst, src, some);
      if n == 1 {
        assert some[1..] == [] && q[..0] == [];
        assert Lookup(dst, some) == Member(dst, q[0]);
      } else {
        assert q[..n - 1][0] == q[0];
      }
    }
  }

  /**
   * A merge adds to the history of a path one record for each value that the layer gives there,
   * a member or an element, an object or not, after one "replaced" record if the path was
   * recorded and something the lower tree held above it was replaced; nothing else.
   */
  lemma {:induction false} MergeRecords(root: Schema, shape: Shape, dst: Value, src: Value, path: Path, o: Origin,
                                        locations: map<string, Location>, q: Path, logged: bool)
    requires dst.Object? && src.Object? && q != []
    ensures MergeDelta(root, shape, dst, src, path, o, locations, q, logged) ==
            (if logged && Displaced(root, shape, dst, src, q) then [o.(operation := "replaced")] else []) +
            (if Reach(src, q).Some? then [Located(o, path + q, locations)] else [])
    decreases q
  {
    var k := q[0];
    if k !in src.fields {
      forall n ensures !DisplacedAt(root, shape, dst, src, q, n) {
        if 0 < n < |q| { assert q[..n][0] == k; }
      }
    } else {
      var field, lower, upper := FieldAt(shape, k), Member(dst, k), src.fields[k];
      assert path + q == path + [k] + q[1..];
      if Replaces(field, lower, upper) {
        forall n { DisplacedHere(root, shape, dst, src, q, n); }
        assert Displaced(root, shape, dst, src, q) <==> |q| > 1 && lower.Some? by {
          if |q| > 1 && lower.Some? { assert DisplacedAt(root, shape, dst, src, q, 1); }
        }
      } else if |q| == 1 {
        assert q[1..] == [] && path + [k] == path + q;
      } else {
        MergeRecords(root, Below(root, field, lower.value.fields), lower.value, upper, path + [k], o, locations, q[1..], logged);
        DisplacedDeeper(root, shape, dst, src, q);
      }
    }
  }

  lemma DisplacedDeeper(root: Schema, shape: Shape, dst: Value, src: Value, q: Path)
    requires dst.Object? && src.Object? && q != [] && q[0] in dst.fields && q[0] in src.fields
    requires !Replaces(FieldAt(shape, q[0]), Member(dst, q[0]), src.fields[q[0]])
    ensures var lower := dst.fields[q[0]];
      Displaced(root, shape, dst, src, q) <==>
      Displaced(root, Below(root, FieldAt(shape, q[0]), lower.fields), lower, src.fields[q[0]], q[1..])
  {
    var lower := dst.fields[q[0]];
    var shape' := Below(root, FieldAt(shape, q[0]), lower.fields);
    if n :| DisplacedAt(root, shape, dst, src, q, n) {
      DisplacedBelow(root, shape, dst, src, q, n - 1);
      assert n != 1;
      assert DisplacedAt(root, shape', lower, src.fields[q[0]], q[1..], n - 1);
    }
    if n :| DisplacedAt(root, shape', lower, src.fields[q[0]], q[1..], n) {
      DisplacedBelow(root, shape, dst, src, q, n);
      assert DisplacedAt(root, shape, dst, src, q, n + 1);
    }
  }

  // ---- What a layer writes, and in what order --------------------------------

  /** The values' records are the source's, "set", and "replaced" for what they displace. */
  lemma ValuesWrite(root: Schema, v: Value, name: string, layer: Layer, q: Path, h: seq<Origin>)
    requires v.Object? && layer.values.Some? && q != []
    ensures var src := Object(layer.values.value);
      ValuesHistory(root, v, name, layer, q, h) ==
      h + (if h != [] && Displaced(root, RootShape(root), v, src, q)
           then [Origin(name, layer.revision, "replaced", Location("", 0, 0))] else []) +
      (if Reach(src, q).Some?
       then [Located(Origin(name, layer.revision, "set", Location("", 0, 0)), q, layer.locations)] else [])
  {
    MergeRecords(root, RootShape(root), v, Object(layer.values.value), [], SetOrigin(name, layer), layer.locations, q, h != []);
    assert [] + q == q;
  }

  /** An edit's records are the source's, "replace" or "delete": on what was recorded below it, then on what it writes. */
  lemma EditWrites(name: string, layer: Layer, edit: Edit, q: Path, h: seq<Origin>)
    requires edit.kind != UnknownKind
    ensures var o := Origin(name, layer.revision, if edit.kind == Delete then "delete" else "replace", Location("", 0, 0));
      EditsHistory(name, layer, [edit], q, h) ==
      h + (if edit.path < q && h != [] then [o] else []) +
      (if (edit.kind == Delete && q == edit.path) ||
          (edit.kind == Replace && edit.path <= q && Reach(edit.value, q[|edit.path|..]).Some?)
       then [Located(o, q, layer.locations)] else [])
  {
    assert [edit][1..] == [];
    if edit.path <= q { assert edit.path + q[|edit.path|..] == q; }
  }

  /** Edits take effect one after the other. */
  lemma {:induction false} EditsInOrder(v: Value, name: string, layer: Layer, a: seq<Edit>, b: seq<Edit>, q: Path, h: seq<Origin>)
    requires v.Object?
    ensures ApplyEdits(v, a + b) ==
            (match ApplyEdits(v, a) case Err(e) => Err(e) case Ok(w) => ApplyEdits(w, b))
    ensures EditsHistory(name, layer, a + b, q, h) == EditsHistory(name, layer, b, q, EditsHistory(name, layer, a, q, h))
    decreases |a|
  {
    if a == [] {
      assert a + b == b;
    } else {
      assert (a + b)[0] == a[0] && (a + b)[1..] == a[1..] + b;
      var h' := h + EditDelta(a[0], EditOrigin(name, layer, a[0]), layer.locations, q, h != []);
      match ApplyEdit(v, a[0])
      case Err(_) => EditsInOrder(v, name, layer, a[1..], b, q, h');
      case Ok(w) => EditsInOrder(w, name, layer, a[1..], b, q, h');
    }
  }

  /** A layer is its values and then its edits, each applied as a layer of its own. */
  lemma ValuesThenEdits(root: Schema, v: Value, name: string, layer: Layer, q: Path, h: seq<Origin>)
    requires v.Object?
    ensures var values, edits := layer.(edits := []), layer.(values := None);
      ApplyLayer(root, v, layer) ==
        (match ApplyLayer(root, v, values) case Err(e) => Err(e) case Ok(w) => ApplyLayer(root, w, edits)) &&
      forall w: Value | w.Object? ::
        LayerHistory(root, v, name, layer, q, h) ==
        LayerHistory(root, w, name, edits, q, LayerHistory(root, v, name, values, q, h))
  {
    HistoryOfEditsAlone(name, layer, layer.edits, q, ValuesHistory(root, v, name, layer, q, h));
  }

  lemma {:induction false} HistoryOfEditsAlone(name: string, layer: Layer, edits: seq<Edit>, q: Path, h: seq<Origin>)
    ensures EditsHistory(name, layer, edits, q, h) == EditsHistory(name, layer.(values := None), edits, q, h)
    decreases |edits|
  {
    if edits != [] {
      var o := EditOrigin(name, layer, edits[0]);
      HistoryOfEditsAlone(name, layer, edits[1..], q, h + EditDelta(edits[0], o, layer.locations, q, h != []));
    }
  }

  // ---- How a layer fails -------------------------------------------------------

  /** Something that is no object stands strictly above the path. */
  ghost predicate Blocked(v: Value, path: Path) {
    exists n :: BlockedAt(v, path, n)
  }

  predicate BlockedAt(v: Value, path: Path, n: int) {
    0 <= n < |path| && Lookup(v, path[..n]).Some? && !Lookup(v, path[..n]).value.Object?
  }

  lemma {:induction false} EditFailsIff(v: Value, path: Path, edit: Edit)
    requires v.Object? && path != []
    ensures EditTree(v, path, edit).Err? <==> Blocked(v, path)
    ensures EditTree(v, path, edit).Err? ==> EditTree(v, path, edit).error == ParentNotObject
    decreases path
  {
    var k := path[0];
    forall n | 0 < n < |path|
      ensures path[..n][0] == k && path[..n][1..] == path[1..][..n - 1]
    {
    }
    if |path| > 1 && k in v.fields {
      var next := v.fields[k];
      assert path[..1][1..] == [] && Lookup(v, path[..1]) == Some(next);
      if next.Object? {
        EditFailsIff(next, path[1..], edit);
        BlockedBelow(v, path);
      } else {
        assert BlockedAt(v, path, 1);
      }
    } else {
      forall n ensures !BlockedAt(v, path, n) {
        if n == 0 { assert path[..0] == []; }
      }
      if |path| > 1 && edit.kind != Delete { NothingBlocks(path[1..], edit); }
    }
  }

  lemma {:induction false} NothingBlocks(path: Path, edit: Edit)
    requires path != []
    ensures EditTree(Object(map[]), path, edit).Ok?
    decreases path
  {
    if |path| > 1 { NothingBlocks(path[1..], edit); }
  }

  lemma BlockedBelow(v: Value, path: Path)
    requires v.Object? && |path| > 1 && path[0] in v.fields && v.fields[path[0]].Object?
    ensures Blocked(v, path) <==> Blocked(v.fields[path[0]], path[1..])
  {
    if n :| BlockedAt(v, path, n) {
      assert path[..0] == [];
      assert n > 0;
      assert path[..n][0] == path[0] && path[..n][1..] == path[1..][..n - 1];
      assert BlockedAt(v.fields[path[0]], path[1..], n - 1);
    }
    if n :| BlockedAt(v.fields[path[0]], path[1..], n) {
      assert path[..n + 1][0] == path[0] && path[..n + 1][1..] == path[1..][..n];
      assert BlockedAt(v, path, n + 1);
    }
  }

  /** Which error an edit gives, in the order in which the code looks. */
  lemma EditErrors(v: Value, edit: Edit)
    requires v.Object?
    ensures var r := ApplyEdit(v, edit);
      if edit.kind == UnknownKind then r == Err(UnknownEdit)
      else if edit.path == [] then r == Err(RootEdit)
      else if Blocked(v, edit.path) then r == Err(ParentNotObject)
      else if edit.kind == Replace && !Clonable(edit.value, 0) then r == Err(NestingExceeded)
      else r.Ok?
  {
    if edit.path != [] { EditFailsIff(v, edit.path, edit); }
  }

  lemma {:induction false} ClonableReach(v: Value, depth: nat, q: Path)
    requires Clonable(v, depth) && Reach(v, q).Some?
    ensures depth + |q| <= 128
    decreases q
  {
    if q != [] {
      if v.List? { assert v.items[IndexOf(q[0], |v.items|).value] == Child(v, q[0]).value; }
      ClonableReach(Child(v, q[0]).value, depth + 1, q[1..]);
    }
  }

  lemma {:induction false} DeepPath(v: Value, depth: nat) returns (q: Path)
    requires !Clonable(v, depth)
    ensures Reach(v, q).Some? && depth + |q| > 128
    decreases v
  {
    if depth > 128 {
      q := [];
    } else {
      var key := UnclonableChild(v, depth);
      var rest := DeepPath(Child(v, key).value, depth + 1);
      q := [key] + rest;
      assert q[1..] == rest;
    }
  }

  /** A value can be copied exactly when nothing in it is nested more than 128 levels deep. */
  lemma ClonableIff(v: Value, depth: nat)
    ensures Clonable(v, depth) <==> forall q: Path | Reach(v, q).Some? :: depth + |q| <= 128
  {
    if Clonable(v, depth) {
      forall q: Path | Reach(v, q).Some? ensures depth + |q| <= 128 { ClonableReach(v, depth, q); }
    } else {
      var q := DeepPath(v, depth);
    }
  }

  /** Values fail only by nesting too deep, and absent ones change nothing. */
  lemma ValuesFailIff(root: Schema, v: Value, values: Option<Fields>)
    requires v.Object?
    ensures values.None? ==> ApplyValues(root, v, values) == Ok(v)
    ensures values.Some? ==>
              (ApplyValues(root, v, values) == Err(NestingExceeded) <==>
               exists q: Path | Reach(Object(values.value), q).Some? :: |q| > 128)
  {
    if values.Some? { ClonableIff(Object(values.value), 0); }
  }

  /** A whole layer can be copied exactly when neither its values nor any edit's is nested too deep. */
  lemma LayerClonableIff(layer: Layer)
    ensures LayerClonable(layer) <==>
            (layer.values.Some? ==> forall q: Path | Reach(Object(layer.values.value), q).Some? :: |q| <= 128) &&
            (forall i, q: Path | 0 <= i < |layer.edits| && Reach(layer.edits[i].value, q).Some? :: |q| <= 128)
  {
    if layer.values.Some? { ClonableIff(Object(layer.values.value), 0); }
    forall i | 0 <= i < |layer.edits|
      ensures Clonable(layer.edits[i].value, 0) <==> forall q: Path | Reach(layer.edits[i].value, q).Some? :: |q| <= 128
    {
      ClonableIff(layer.edits[i].value, 0);
    }
  }

  lemma UnclonableChild(v: Value, depth: nat) returns (key: string)
    requires depth <= 128 && !Clonable(v, depth)
    ensures Child(v, key).Some? && !Clonable(Child(v, key).value, depth + 1)
  {
    match v
    case Object(fields) => key :| key in fields && !Clonable(fields[key], depth + 1);
    case List(items) =>
      var i :| 0 <= i < |items| && !Clonable(items[i], depth + 1);
      key := Itoa(i);
      IndexOfItoa(i, |items|);
    case _ =>
      key := "";
  }
}
