/**
 * merge.go: what applying a layer does to the tree (a function on trees) and to the
 * provenance log (a function along one path), and the Merger that does both in place.
 */
module Merging {
  import opened Basics
  import opened Paths
  import opened Trees

  datatype MergeError = NestingExceeded | UnknownEdit | RootEdit | ParentNotObject

  // ---- The tree --------------------------------------------------------

  /** A OneOf object is switched when the layer gives a different discriminator. */
  predicate Switches(field: Option<Field>, lower: Fields, upper: Fields) {
    field.Some? && field.value.kind.OneOfKind? &&
    var disc := field.value.kind.discriminator;
    disc in upper && !(disc in lower && lower[disc] == upper[disc]) &&
    !(disc !in lower && upper[disc] == Null)
  }

  /** Whether a layer's member replaces the lower one instead of merging into it. */
  predicate Replaces(field: Option<Field>, lower: Option<Value>, upper: Value) {
    !(lower.Some? && lower.value.Object? && upper.Object?) ||
    Switches(field, lower.value.fields, upper.fields)
  }

  function MergeObject(root: Schema, shape: Shape, dst: Value, src: Value): (out: Value)
    requires dst.Object? && src.Object?
    ensures out.Object?
    decreases src, 1
  {
    Object(map k | k in dst.fields.Keys + src.fields.Keys ::
      if k in src.fields then MergeField(root, shape, dst, src, k) else dst.fields[k])
  }

  /** What one member of src becomes. */
  function MergeField(root: Schema, shape: Shape, dst: Value, src: Value, key: string): Value
    requires dst.Object? && src.Object? && key in src.fields
    decreases src, 0
  {
    var field, lower, upper := FieldAt(shape, key), Member(dst, key), src.fields[key];
    if Replaces(field, lower, upper) then upper
    else MergeObject(root, Below(root, field, lower.value.fields), lower.value, upper)
  }

  /** Walks to the parent, which Replace creates and Delete may find missing, and edits there. */
  function EditTree(v: Value, path: Path, edit: Edit): (r: Result<Value, MergeError>)
    requires v.Object? && path != []
    ensures r.Ok? ==> r.value.Object?
    decreases path
  {
    var key := path[0];
    if |path| == 1 then
      Ok(Object(if edit.kind == Delete then v.fields - {key} else v.fields[key := edit.value]))
    else if key !in v.fields && edit.kind == Delete then Ok(v)
    else
      var next := if key in v.fields then v.fields[key] else Object(map[]);
      if !next.Object? then Err(ParentNotObject)
      else match EditTree(next, path[1..], edit)
        case Err(e) => Err(e)
        case Ok(c) => Ok(Object(v.fields[key := c]))
  }

  function ApplyEdit(v: Value, edit: Edit): (r: Result<Value, MergeError>)
    requires v.Object?
    ensures r.Ok? ==> r.value.Object?
  {
    if edit.kind == UnknownKind then Err(UnknownEdit)
    else if edit.path == [] then Err(RootEdit)
    else match EditTree(v, edit.path, edit)
      case Err(e) => Err(e)
      case Ok(w) =>
        if edit.kind == Replace && !Clonable(edit.value, 0) then Err(NestingExceeded) else Ok(w)
  }

  function ApplyEdits(v: Value, edits: seq<Edit>): (r: Result<Value, MergeError>)
    requires v.Object?
    ensures r.Ok? ==> r.value.Object?
    decreases |edits|
  {
    if edits == [] then Ok(v)
    else match ApplyEdit(v, edits[0])
      case Err(e) => Err(e)
      case Ok(w) => ApplyEdits(w, edits[1..])
  }

  function RootShape(root: Schema): Shape {
    Shape(Some(root), None)
  }

  function ApplyValues(root: Schema, v: Value, values: Option<Fields>): (r: Result<Value, MergeError>)
    requires v.Object?
    ensures r.Ok? ==> r.value.Object?
  {
    if values.None? then Ok(v)
    else if !Clonable(Object(values.value), 0) then Err(NestingExceeded)
    else Ok(MergeObject(root, RootShape(root), v, Object(values.value)))
  }

  function ApplyLayer(root: Schema, v: Value, layer: Layer): (r: Result<Value, MergeError>)
    requires v.Object?
    ensures r.Ok? ==> r.value.Object?
  {
    match ApplyValues(root, v, layer.values)
    case Err(e) => Err(e)
    case Ok(w) => ApplyEdits(w, layer.edits)
  }

  // ---- The log ---------------------------------------------------------

  type Log = map<string, seq<Origin>>

  function History(log: Log, path: Path): seq<Origin> {
    if Pointer(path) in log then log[Pointer(path)] else []
  }

  /** Every recorded path has at least one record. */
  ghost predicate LogValid(log: Log) {
    forall k | k in log :: log[k] != []
  }

  /** The location of the nearest ancestor-or-self that has one. */
  function Nearest(locations: map<string, Location>, path: Path): Option<Location>
    decreases |path|
  {
    if Pointer(path) in locations then Some(locations[Pointer(path)])
    else if path == [] then None
    else Nearest(locations, path[..|path| - 1])
  }

  function Located(o: Origin, path: Path, locations: map<string, Location>): Origin {
    match Nearest(locations, path)
    case Some(l) => o.(location := l)
    case None => o
  }

  /** What recording the value v, placed at path, adds to the log at path + rel. */
  function RecordDelta(v: Value, path: Path, o: Origin, locations: map<string, Location>, rel: Path): seq<Origin> {
    if Reach(v, rel).Some? then [Located(o, path + rel, locations)] else []
  }

  /** What merging src into dst, both at path, adds to the log at path + rel. */
  function MergeDelta(root: Schema, shape: Shape, dst: Value, src: Value, path: Path, o: Origin,
                      locations: map<string, Location>, rel: Path, logged: bool): seq<Origin>
    requires dst.Object? && src.Object?
    decreases rel
  {
    if rel == [] || rel[0] !in src.fields then []
    else
      var k := rel[0];
      var p, field, lower, upper := path + [k], FieldAt(shape, k), Member(dst, k), src.fields[k];
      if Replaces(field, lower, upper) then
        (if lower.Some? && |rel| > 1 && logged then [o.(operation := "replaced")] else []) +
        RecordDelta(upper, p, o, locations, rel[1..])
      else if |rel| == 1 then [Located(o, p, locations)]
      else MergeDelta(root, Below(root, field, lower.value.fields), lower.value, upper, p, o, locations, rel[1..], logged)
  }

  /** What a successful edit adds to the log at q. */
  function EditDelta(edit: Edit, o: Origin, locations: map<string, Location>, q: Path, logged: bool): seq<Origin> {
    (if StrictlyExtends(q, edit.path) && logged then [o] else []) +
    (if !Extends(q, edit.path) then []
     else if edit.kind == Delete then (if q == edit.path then [Located(o, q, locations)] else [])
     else RecordDelta(edit.value, edit.path, o, locations, q[|edit.path|..]))
  }

  function SetOrigin(name: string, layer: Layer): Origin {
    Origin(name, layer.revision, "set", NOWHERE)
  }

  function EditOrigin(name: string, layer: Layer, edit: Edit): Origin {
    Origin(name, layer.revision, if edit.kind == Replace then "replace" else "delete", NOWHERE)
  }

  function ValuesHistory(root: Schema, v: Value, name: string, layer: Layer, q: Path, h: seq<Origin>): seq<Origin>
    requires v.Object?
  {
    if layer.values.None? then h
    else h + MergeDelta(root, RootShape(root), v, Object(layer.values.value), [], SetOrigin(name, layer), layer.locations, q, h != [])
  }

  function EditsHistory(name: string, layer: Layer, edits: seq<Edit>, q: Path, h: seq<Origin>): seq<Origin> {
    if edits == [] then h
    else
      var o := EditOrigin(name, layer, edits[0]);
      EditsHistory(name, layer, edits[1..], q, h + EditDelta(edits[0], o, layer.locations, q, h != []))
  }

  /** The history of q after a successful layer, from its history h before. */
  function LayerHistory(root: Schema, v: Value, name: string, layer: Layer, q: Path, h: seq<Origin>): seq<Origin>
    requires v.Object?
  {
    EditsHistory(name, layer, layer.edits, q, ValuesHistory(root, v, name, layer, q, h))
  }
}
