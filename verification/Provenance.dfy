/**
 * The provenance log against an independent account of who wrote what: the same merge
 * on trees whose leaves and lists carry the writer that put them there.
 */
module Provenance {
  import opened Basics
  import opened Paths
  import opened Trees
  import opened Merging

  /** The source and the operation behind a value. */
  datatype Writer = Writer(source: string, revision: string, operation: string)

  function WriterOf(o: Origin): Writer {
    Writer(o.source, o.revision, o.operation)
  }

  type Atom = v: Value | !v.List? && !v.Object? witness Null

  datatype Tagged =
    | TLeaf(atom: Atom, author: Writer)
    | TList(items: seq<Tagged>, author: Writer)
    | TObject(fields: map<string, Tagged>)

  /** A value all of whose parts have the same writer. */
  function Tag(v: Value, w: Writer): Tagged {
    match v
    case List(items) => TList(seq(|items|, i requires 0 <= i < |items| => Tag(items[i], w)), w)
    case Object(fields) => TObject(map k | k in fields :: Tag(fields[k], w))
    case _ => TLeaf(v, w)
  }

  function Erase(t: Tagged): (v: Value)
    ensures v.Object? <==> t.TObject?
  {
    match t
    case TLeaf(v, _) => v
    case TList(items, _) => List(seq(|items|, i requires 0 <= i < |items| => Erase(items[i])))
    case TObject(fields) => Object(map k | k in fields :: Erase(fields[k]))
  }

  function TChild(t: Tagged, key: string): (c: Option<Tagged>)
    ensures c.Some? ==> c.value < t
  {
    match t
    case TObject(fields) => if key in fields then Some(fields[key]) else None
    case TList(items, _) => (match IndexOf(key, |items|) case Some(i) => Some(items[i]) case None => None)
    case _ => None
  }

  function TReach(t: Tagged, path: Path): Option<Tagged> {
    if path == [] then Some(t)
    else match TChild(t, path[0])
      case Some(c) => TReach(c, path[1..])
      case None => None
  }

  /** Merging src, written by w, over an annotated tree. */
  function TMerge(root: Schema, shape: Shape, t: Tagged, src: Value, w: Writer): (out: Tagged)
    requires t.TObject? && src.Object?
    ensures out.TObject?
    decreases src, 1
  {
    TObject(map k | k in t.fields.Keys + src.fields.Keys ::
      if k in src.fields then TMergeField(root, shape, t, src, w, k) else t.fields[k])
  }

  function TMergeField(root: Schema, shape: Shape, t: Tagged, src: Value, w: Writer, key: string): Tagged
    requires t.TObject? && src.Object? && key in src.fields
    decreases src, 0
  {
    var field, lower := FieldAt(shape, key), Member(Erase(t), key);
    if Replaces(field, lower, src.fields[key]) then Tag(src.fields[key], w)
    else TMerge(root, Below(root, field, lower.value.fields), t.fields[key], src.fields[key], w)
  }

  /** The annotated form of EditTree; an edit that fails leaves the tree alone. */
  function TEdit(t: Tagged, path: Path, edit: Edit, w: Writer): Tagged
    requires t.TObject? && path != []
    decreases path
  {
    var key := path[0];
    if |path| == 1 then
      TObject(if edit.kind == Delete then t.fields - {key} else t.fields[key := Tag(edit.value, w)])
    else if key !in t.fields && edit.kind == Delete then t
    else
      var next := if key in t.fields then t.fields[key] else TObject(map[]);
      if !next.TObject? then t
      else TObject(t.fields[key := TEdit(next, path[1..], edit, w)])
  }

  function TEdits(t: Tagged, name: string, layer: Layer, edits: seq<Edit>): (out: Tagged)
    requires t.TObject?
    ensures out.TObject?
    decreases |edits|
  {
    if edits == [] then t
    else if edits[0].path == [] then t
    else
      TEditIsObject(t, edits[0].path, edits[0], WriterOf(EditOrigin(name, layer, edits[0])));
      TEdits(TEdit(t, edits[0].path, edits[0], WriterOf(EditOrigin(name, layer, edits[0]))), name, layer, edits[1..])
  }

  lemma TEditIsObject(t: Tagged, path: Path, edit: Edit, w: Writer)
    requires t.TObject? && path != []
    ensures TEdit(t, path, edit, w).TObject?
  {
  }

  function TLayer(root: Schema, t: Tagged, name: string, layer: Layer): (out: Tagged)
    requires t.TObject?
    ensures out.TObject?
  {
    var merged := if layer.values.None? then t
                  else TMerge(root, RootShape(root), t, Object(layer.values.value), WriterOf(SetOrigin(name, layer)));
    TEdits(merged, name, layer, layer.edits)
  }

  // ---- Runs of layers --------------------------------------------------

  datatype Contribution = Contribution(name: string, layer: Layer)

  function Run(root: Schema, v: Value, run: seq<Contribution>): (r: Result<Value, MergeError>)
    requires v.Object?
    ensures r.Ok? ==> r.value.Object?
    decreases |run|
  {
    if run == [] then Ok(v)
    else match ApplyLayer(root, v, run[0].layer)
      case Err(e) => Err(e)
      case Ok(w) => Run(root, w, run[1..])
  }

  /** The history of q after the run, from its history h before. */
  function RunHistory(root: Schema, v: Value, run: seq<Contribution>, q: Path, h: seq<Origin>): seq<Origin>
    requires v.Object? && Run(root, v, run).Ok?
    decreases |run|
  {
    if run == [] then h
    else RunHistory(root, ApplyLayer(root, v, run[0].layer).value, run[1..], q,
                    LayerHistory(root, v, run[0].name, run[0].layer, q, h))
  }

  function TRun(root: Schema, t: Tagged, run: seq<Contribution>): (out: Tagged)
    requires t.TObject?
    ensures out.TObject?
    decreases |run|
  {
    if run == [] then t else TRun(root, TLayer(root, t, run[0].name, run[0].layer), run[1..])
  }

  // ---- Erasing the annotations gives the plain merge -------------------

  lemma {:induction false} EraseTag(v: Value, w: Writer)
    ensures Erase(Tag(v, w)) == v
  {
    match v
    case List(items) =>
      forall i | 0 <= i < |items| ensures Erase(Tag(items[i], w)) == items[i] { EraseTag(items[i], w); }
    case Object(fields) =>
      forall k | k in fields ensures Erase(Tag(fields[k], w)) == fields[k] { EraseTag(fields[k], w); }
      assert Erase(Tag(v, w)).fields == fields;
    case _ =>
  }

  lemma EraseMember(t: Tagged, key: string)
    requires t.TObject?
    ensures Member(Erase(t), key) == if key in t.fields then Some(Erase(t.fields[key])) else None
  {
  }

  lemma {:induction false} EraseMerge(root: Schema, shape: Shape, t: Tagged, src: Value, w: Writer)
    requires t.TObject? && src.Object?
    ensures Erase(TMerge(root, shape, t, src, w)) == MergeObject(root, shape, Erase(t), src)
    decreases src
  {
    var merged := TMerge(root, shape, t, src, w);
    forall k | k in src.fields
      ensures Erase(merged.fields[k]) == MergeField(root, shape, Erase(t), src, k)
    {
      var field, lower := FieldAt(shape, k), Member(Erase(t), k);
      EraseMember(t, k);
      assert merged.fields[k] == TMergeField(root, shape, t, src, w, k);
      if Replaces(field, lower, src.fields[k]) {
        EraseTag(src.fields[k], w);
      } else {
        EraseMerge(root, Below(root, field, lower.value.fields), t.fields[k], src.fields[k], w);
      }
    }
    assert Erase(merged).fields == MergeObject(root, shape, Erase(t), src).fields;
  }

  lemma {:induction false} EraseEdit(t: Tagged, path: Path, edit: Edit, w: Writer)
    requires t.TObject? && path != []
    requires EditTree(Erase(t), path, edit).Ok?
    ensures Erase(TEdit(t, path, edit, w)) == EditTree(Erase(t), path, edit).value
    decreases path
  {
    var key, out := path[0], TEdit(t, path, edit, w);
    EraseTag(edit.value, w);
    if |path| == 1 {
      assert Erase(out).fields == EditTree(Erase(t), path, edit).value.fields;
    } else if key in t.fields || edit.kind != Delete {
      var next := if key in t.fields then t.fields[key] else TObject(map[]);
      assert Erase(TObject(map[])) == Object(map[]);
      EraseEdit(next, path[1..], edit, w);
      assert Erase(out).fields == EditTree(Erase(t), path, edit).value.fields;
    }
  }

  lemma {:induction false} ReachErase(t: Tagged, path: Path)
    ensures Reach(Erase(t), path) == match TReach(t, path) case Some(c) => Some(Erase(c)) case None => None
  {
    if path != [] && TChild(t, path[0]).Some? {
      ReachErase(TChild(t, path[0]).value, path[1..]);
    }
  }

  // ---- The log of one path against the annotated tree ------------------

  /** The last record of a live value names its writer, and a last record "set" means live. */
  ghost predicate Told(t: Option<Tagged>, h: seq<Origin>) {
    (t.Some? && !t.value.TObject? ==> h != [] && WriterOf(h[|h| - 1]) == t.value.author) &&
    (h != [] && h[|h| - 1].operation == "set" ==> t.Some?)
  }

  /** Everything in a freshly written value was written by its writer, and is recorded. */
  lemma {:induction false} TagTold(v: Value, w: Writer, rel: Path)
    ensures TReach(Tag(v, w), rel).Some? == Reach(v, rel).Some?
    ensures TReach(Tag(v, w), rel).Some? && !TReach(Tag(v, w), rel).value.TObject? ==> TReach(Tag(v, w), rel).value.author == w
  {
    if rel != [] && Child(v, rel[0]).Some? {
      TagTold(Child(v, rel[0]).value, w, rel[1..]);
    }
  }

  lemma LocatedWriter(o: Origin, path: Path, locations: map<string, Location>)
    ensures WriterOf(Located(o, path, locations)) == WriterOf(o)
  {
  }

  lemma {:induction false} MergeTold(root: Schema, shape: Shape, t: Tagged, src: Value, path: Path, o: Origin,
                                     locations: map<string, Location>, rel: Path, h: seq<Origin>)
    requires t.TObject? && src.Object? && o.operation == "set"
    requires Told(TReach(t, rel), h)
    ensures Told(TReach(TMerge(root, shape, t, src, WriterOf(o)), rel),
                 h + MergeDelta(root, shape, Erase(t), src, path, o, locations, rel, h != []))
    decreases src
  {
    var w := WriterOf(o);
    if rel != [] && rel[0] in src.fields {
      var k := rel[0];
      var p, field, lower, upper := path + [k], FieldAt(shape, k), Member(Erase(t), k), src.fields[k];
      LocatedWriter(o, p + rel[1..], locations);
      LocatedWriter(o, p, locations);
      EraseMember(t, k);
      assert TMerge(root, shape, t, src, w).fields[k] == TMergeField(root, shape, t, src, w, k);
      if Replaces(field, lower, upper) {
        TagTold(upper, w, rel[1..]);
        var record := RecordDelta(upper, p, o, locations, rel[1..]);
        var delta := MergeDelta(root, shape, Erase(t), src, path, o, locations, rel, h != []);
        if record != [] {
          assert delta[|delta| - 1] == record[0];
          ToldAppended(TReach(Tag(upper, w), rel[1..]), h, delta);
        }
      } else {
        if |rel| > 1 {
          MergeTold(root, Below(root, field, lower.value.fields), t.fields[k], upper, p, o, locations, rel[1..], h);
        }
      }
    }
  }

  /** What an edit that succeeds does to what each path reaches. */
  lemma {:induction false} EditReach(t: Tagged, path: Path, edit: Edit, w: Writer, rel: Path)
    requires t.TObject? && path != [] && EditTree(Erase(t), path, edit).Ok?
    ensures var was, now := TReach(t, rel), TReach(TEdit(t, path, edit, w), rel);
      if path <= rel then
        now == if edit.kind == Delete then None else TReach(Tag(edit.value, w), rel[|path|..])
      else if rel <= path then
        (was.Some? ==> now.Some?) && (now.Some? ==> now.value.TObject?)
      else now == was
    decreases path
  {
    if rel != [] {
      var key := path[0];
      assert path == [key] + path[1..] && rel == [rel[0]] + rel[1..];
      if rel[0] == key {
        if |path| == 1 {
          assert rel[|path|..] == rel[1..];
        } else if key in t.fields || edit.kind != Delete {
          var next := if key in t.fields then t.fields[key] else TObject(map[]);
          assert Erase(TObject(map[])) == Object(map[]);
          EditReach(next, path[1..], edit, w, rel[1..]);
          assert path <= rel ==> rel[|path|..] == rel[1..][|path[1..]|..];
        }
      }
    }
  }

  lemma EditTold(t: Tagged, edit: Edit, o: Origin, locations: map<string, Location>, q: Path, h: seq<Origin>)
    requires t.TObject? && edit.path != [] && EditTree(Erase(t), edit.path, edit).Ok?
    requires o.operation == "replace" || o.operation == "delete"
    requires Told(TReach(t, q), h)
    ensures Told(TReach(TEdit(t, edit.path, edit, WriterOf(o)), q), h + EditDelta(edit, o, locations, q, h != []))
  {
    var delta, now := EditDelta(edit, o, locations, q, h != []), TReach(TEdit(t, edit.path, edit, WriterOf(o)), q);
    EditReach(t, edit.path, edit, WriterOf(o), q);
    LocatedWriter(o, q, locations);
    if edit.path <= q {
      EditDeltaEnd(edit, o, locations, q, h != []);
      TagTold(edit.value, WriterOf(o), q[|edit.path|..]);
      if delta != [] { ToldAppended(now, h, delta); } else { assert h + delta == h; }
    } else {
      assert delta == [] && h + delta == h;
    }
  }

  lemma ToldAppended(t: Option<Tagged>, h: seq<Origin>, delta: seq<Origin>)
    requires delta != [] && Told(t, delta)
    ensures Told(t, h + delta)
  {
    assert (h + delta)[|h + delta| - 1] == delta[|delta| - 1];
  }

  /** At and below its path an edit's last record is its own; it has none only where nothing was or is. */
  lemma EditDeltaEnd(edit: Edit, o: Origin, locations: map<string, Location>, q: Path, logged: bool)
    requires edit.path <= q
    ensures var delta := EditDelta(edit, o, locations, q, logged);
      (delta != [] ==> delta[|delta| - 1] == o || delta[|delta| - 1] == Located(o, q, locations)) &&
      (delta == [] ==> !logged && (edit.kind == Delete || Reach(edit.value, q[|edit.path|..]).None?))
  {
    assert edit.path + q[|edit.path|..] == q;
    assert edit.path == q ==> q[|edit.path|..] == [];
  }

  lemma {:induction false} EditsTold(t: Tagged, name: string, layer: Layer, edits: seq<Edit>, q: Path, h: seq<Origin>)
    requires t.TObject? && ApplyEdits(Erase(t), edits).Ok?
    requires Told(TReach(t, q), h)
    ensures var out := TEdits(t, name, layer, edits);
      Erase(out) == ApplyEdits(Erase(t), edits).value &&
      Told(TReach(out, q), EditsHistory(name, layer, edits, q, h))
    decreases |edits|
  {
    if edits != [] {
      var o := EditOrigin(name, layer, edits[0]);
      TEditIsObject(t, edits[0].path, edits[0], WriterOf(o));
      EraseEdit(t, edits[0].path, edits[0], WriterOf(o));
      EditTold(t, edits[0], o, layer.locations, q, h);
      EditsTold(TEdit(t, edits[0].path, edits[0], WriterOf(o)), name, layer, edits[1..], q,
                h + EditDelta(edits[0], o, layer.locations, q, h != []));
    }
  }

  lemma LayerTold(root: Schema, t: Tagged, name: string, layer: Layer, q: Path, h: seq<Origin>)
    requires t.TObject? && ApplyLayer(root, Erase(t), layer).Ok?
    requires Told(TReach(t, q), h)
    ensures var out := TLayer(root, t, name, layer);
      Erase(out) == ApplyLayer(root, Erase(t), layer).value &&
      Told(TReach(out, q), LayerHistory(root, Erase(t), name, layer, q, h))
  {
    var merged, h' := t, h;
    if layer.values.Some? {
      var src, o := Object(layer.values.value), SetOrigin(name, layer);
      EraseMerge(root, RootShape(root), t, src, WriterOf(o));
      MergeTold(root, RootShape(root), t, src, [], o, layer.locations, q, h);
      merged, h' := TMerge(root, RootShape(root), t, src, WriterOf(o)), ValuesHistory(root, Erase(t), name, layer, q, h);
    }
    EditsTold(merged, name, layer, layer.edits, q, h');
  }

  lemma {:induction false} RunTold(root: Schema, t: Tagged, run: seq<Contribution>, q: Path, h: seq<Origin>)
    requires t.TObject? && Run(root, Erase(t), run).Ok?
    requires Told(TReach(t, q), h)
    ensures var out := TRun(root, t, run);
      Erase(out) == Run(root, Erase(t), run).value &&
      Told(TReach(out, q), RunHistory(root, Erase(t), run, q, h))
    decreases |run|
  {
    if run != [] {
      LayerTold(root, t, run[0].name, run[0].layer, q, h);
      RunTold(root, TLayer(root, t, run[0].name, run[0].layer), run[1..], q,
              LayerHistory(root, Erase(t), run[0].name, run[0].layer, q, h));
    }
  }

  const EMPTY: Value := Object(map[])

  /**
   * After any run of layers from the empty tree: the annotated merge is the merge; the last
   * record of every live non-object value names the source, revision and operation that
   * wrote it; and a path whose last record is a "set" is live.
   */
  lemma ProvenanceNamesTheWriter(root: Schema, run: seq<Contribution>, q: Path)
    requires Run(root, EMPTY, run).Ok?
    ensures var tree, tagged, h := Run(root, EMPTY, run).value, TRun(root, TObject(map[]), run), RunHistory(root, EMPTY, run, q, []);
      Erase(tagged) == tree &&
      (Reach(tree, q).Some? && !Reach(tree, q).value.Object? ==>
        h != [] && TReach(tagged, q).Some? && !TReach(tagged, q).value.TObject? &&
        WriterOf(h[|h| - 1]) == TReach(tagged, q).value.author) &&
      (h != [] && h[|h| - 1].operation == "set" ==> Reach(tree, q).Some?)
  {
    var start := TObject(map[]);
    assert Erase(start) == EMPTY;
    RunTold(root, start, run, q, []);
    ReachErase(TRun(root, start, run), q);
  }
}
