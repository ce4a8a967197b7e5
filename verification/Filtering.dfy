/** filter.go: the trie of allowed paths, its projections, and its safety check. */
module Filtering {
  import opened Basics
  import opened Paths
  import opened Trees
  import opened Merging

  /** all selects the node and everything below it. */
  datatype Selection = Selection(all: bool, children: map<string, Selection>)

  const NOTHING := Selection(false, map[])

  /** The trie with one more path selected. */
  function Insert(s: Selection, path: Path): Selection
    decreases path
  {
    if path == [] then s.(all := true)
    else
      var next := if path[0] in s.children then s.children[path[0]] else NOTHING;
      s.(children := s.children[path[0] := Insert(next, path[1..])])
  }

  /** Whether the path itself was selected, ignoring what covers it. */
  predicate Marked(s: Selection, path: Path)
    decreases path
  {
    if path == [] then s.all
    else path[0] in s.children && Marked(s.children[path[0]], path[1..])
  }

  /** Every branch of the trie leads to a selected path. */
  ghost predicate Lively(s: Selection) {
    forall k | k in s.children ::
      Lively(s.children[k]) && (s.children[k].all || s.children[k].children != map[])
  }

  lemma {:induction false} InsertMarks(s: Selection, path: Path, q: Path)
    ensures Marked(Insert(s, path), q) <==> Marked(s, q) || q == path
    decreases path
  {
    if path != [] {
      var next := if path[0] in s.children then s.children[path[0]] else NOTHING;
      assert path == [path[0]] + path[1..];
      if q != [] {
        assert q == [q[0]] + q[1..];
        InsertMarks(next, path[1..], q[1..]);
      }
    }
  }

  lemma {:induction false} InsertLively(s: Selection, path: Path)
    requires Lively(s)
    ensures Lively(Insert(s, path))
    ensures Insert(s, path).all || Insert(s, path).children != map[]
    decreases path
  {
    if path != [] {
      var next := if path[0] in s.children then s.children[path[0]] else NOTHING;
      InsertLively(next, path[1..]);
      assert path[0] in Insert(s, path).children;
    }
  }

  /** AllowPaths: one insertion per path. */
  method AllowPaths(paths: seq<Path>) returns (s: Selection)
    ensures Lively(s)
    ensures forall q :: Marked(s, q) <==> q in paths
  {
    s := NOTHING;
    for i := 0 to |paths|
      invariant Lively(s)
      invariant forall q :: Marked(s, q) <==> q in paths[..i]
    {
      forall q { InsertMarks(s, paths[i], q); }
      InsertLively(s, paths[i]);
      s := Insert(s, paths[i]);
    }
    assert paths[..|paths|] == paths;
  }

  // ---- What a path is to the selection ---------------------------------

  /** The path is selected, or lies below a selected one. */
  predicate Covered(s: Selection, path: Path)
    decreases path
  {
    s.all || (path != [] && path[0] in s.children && Covered(s.children[path[0]], path[1..]))
  }

  /** The path is neither above nor below anything selected. */
  predicate Apart(s: Selection, path: Path)
    decreases path
  {
    !s.all &&
    if path == [] then s.children == map[]
    else path[0] in s.children ==> Apart(s.children[path[0]], path[1..])
  }

  lemma {:induction false} MarkCovers(s: Selection, p: Path, path: Path)
    requires Marked(s, p) && p <= path
    ensures Covered(s, path)
    decreases p
  {
    if p != [] { MarkCovers(s.children[p[0]], p[1..], path[1..]); }
  }

  lemma {:induction false} CoveringMark(s: Selection, path: Path) returns (p: Path)
    requires Covered(s, path)
    ensures Marked(s, p) && p <= path
    decreases path
  {
    if s.all {
      p := [];
    } else {
      var rest := CoveringMark(s.children[path[0]], path[1..]);
      p := [path[0]] + rest;
      assert path == [path[0]] + path[1..];
    }
  }

  predicate MarkedAbove(s: Selection, p: Path, path: Path) {
    Marked(s, p) && p <= path
  }

  lemma CoveredMeans(s: Selection, path: Path)
    ensures Covered(s, path) <==> exists p :: MarkedAbove(s, p, path)
  {
    if Covered(s, path) {
      var p := CoveringMark(s, path);
      assert MarkedAbove(s, p, path);
    }
    if p :| MarkedAbove(s, p, path) { MarkCovers(s, p, path); }
  }

  lemma {:induction false} LivelyHasMark(s: Selection) returns (p: Path)
    requires Lively(s) && (s.all || s.children != map[])
    ensures Marked(s, p)
  {
    if s.all {
      p := [];
    } else {
      var k :| k in s.children;
      var rest := LivelyHasMark(s.children[k]);
      p := [k] + rest;
    }
  }

  lemma {:induction false} ApartMeans(s: Selection, path: Path)
    requires Lively(s)
    ensures Apart(s, path) <==> forall p | Marked(s, p) :: !Comparable(p, path)
    decreases path
  {
    if s.all {
      assert Marked(s, []) && Comparable([], path);
    } else if path == [] {
      if s.children != map[] {
        var p := LivelyHasMark(s);
        assert Comparable(p, path);
      }
    } else if path[0] in s.children {
      var c := s.children[path[0]];
      ApartMeans(c, path[1..]);
      assert path == [path[0]] + path[1..];
      if p :| Marked(c, p) && Comparable(p, path[1..]) {
        var whole := [path[0]] + p;
        assert whole[1..] == p;
        assert Marked(s, whole) && Comparable(whole, path);
      }
      if p :| Marked(s, p) && Comparable(p, path) {
        assert p == [p[0]] + p[1..];
        assert Marked(c, p[1..]) && Comparable(p[1..], path[1..]);
      }
    } else {
      forall p | Marked(s, p) ensures !Comparable(p, path) { }
    }
  }

  // ---- Projections -----------------------------------------------------

  /** The selection that remains at a path; all covers every descendant. */
  function At(s: Selection, path: Path): Option<Selection>
    decreases path
  {
    if path == [] || s.all then Some(s)
    else if path[0] in s.children then At(s.children[path[0]], path[1..])
    else None
  }

  /** The selected part of a value; None drops empty scaffolding and non-object ancestors. */
  function Project(s: Selection, v: Value): Option<Value>
    decreases s, 1
  {
    if s.all then Some(v)
    else if !v.Object? || ProjectFields(s, v.fields) == map[] then None
    else Some(Object(ProjectFields(s, v.fields)))
  }

  function ProjectFields(s: Selection, fields: Fields): Fields
    decreases s, 0
  {
    map k | k in s.children && k in fields && Project(s.children[k], fields[k]).Some? ::
      Project(s.children[k], fields[k]).value
  }

  /** At the root an empty projection is an empty object. */
  function ProjectRoot(s: Selection, fields: Fields): (out: Value)
    ensures out.Object?
  {
    if s.all then Object(fields) else Object(ProjectFields(s, fields))
  }

  /** An edit above selected subtrees becomes one edit of each, in key order. */
  function ProjectEdit(s: Selection, edit: Edit): seq<Edit>
    decreases s, 1
  {
    if s.all then [edit] else ProjectMembers(s, edit, Sorted(s.children.Keys))
  }

  function ProjectMembers(s: Selection, edit: Edit, keys: seq<string>): seq<Edit>
    requires forall k | k in keys :: k in s.children
    decreases s, 0, |keys|
  {
    if keys == [] then []
    else ProjectEdit(s.children[keys[0]], MemberEdit(edit, keys[0])) + ProjectMembers(s, edit, keys[1..])
  }

  /** The edit of one member that an edit of the whole comes to. */
  function MemberEdit(edit: Edit, key: string): Edit {
    if edit.kind == Replace && Member(edit.value, key).Some?
    then Edit(Replace, edit.path + [key], edit.value.fields[key])
    else Edit(Delete, edit.path + [key], Null)
  }

  /** filter.go's projectEdit: appends the projected edits to what was already there. */
  method AppendProjected(out: seq<Edit>, s: Selection, edit: Edit) returns (r: seq<Edit>)
    ensures r == out + ProjectEdit(s, edit)
    decreases s
  {
    if s.all { return out + [edit]; }
    var keys := Sorted(s.children.Keys);
    r := out;
    ghost var whole := ProjectMembers(s, edit, keys);
    for i := 0 to |keys|
      invariant r + ProjectMembers(s, edit, keys[i..]) == out + whole
    {
      ghost var was := r;
      r := AppendProjected(r, s.children[keys[i]], MemberEdit(edit, keys[i]));
      ProjectMembersStep(s, edit, keys, i, was);
    }
    assert keys[|keys|..] == [];
    assert r + [] == r;
  }

  lemma ProjectMembersStep(s: Selection, edit: Edit, keys: seq<string>, i: nat, was: seq<Edit>)
    requires i < |keys| && forall k | k in keys :: k in s.children
    ensures was + ProjectMembers(s, edit, keys[i..]) ==
            was + ProjectEdit(s.children[keys[i]], MemberEdit(edit, keys[i])) + ProjectMembers(s, edit, keys[i + 1..])
  {
    assert keys[i..][0] == keys[i] && keys[i..][1..] == keys[i + 1..];
  }

  predicate ValidEdits(edits: seq<Edit>) {
    forall i | 0 <= i < |edits| :: edits[i].kind != UnknownKind && edits[i].path != []
  }

  function FilterEdit(s: Selection, edit: Edit): seq<Edit> {
    match At(s, edit.path)
    case Some(node) => ProjectEdit(node, edit)
    case None => []
  }

  function FilterEdits(s: Selection, edits: seq<Edit>): seq<Edit> {
    if edits == [] then [] else FilterEdit(s, edits[0]) + FilterEdits(s, edits[1..])
  }

  predicate KeepsLocation(s: Selection, pointer: string) {
    match Parse(pointer)
    case None => false
    case Some(path) =>
      match At(s, path)
      case None => false
      case Some(node) => node.all || node.children != map[]
  }

  function FilterLocations(s: Selection, locations: map<string, Location>): map<string, Location> {
    map p | p in locations && KeepsLocation(s, p) :: locations[p]
  }

  /** Selecting everything passes absent values on as they are. */
  function FilterValues(s: Selection, values: Option<Fields>): Option<Fields> {
    if s.all then values
    else Some(ProjectRoot(s, if values.Some? then values.value else map[]).fields)
  }

  /** The layer the wrapper hands on; it is rebuilt without Stale. */
  function FilterLayer(s: Selection, layer: Layer): Layer {
    Layer(FilterValues(s, layer.values),
          layer.revision, FilterLocations(s, layer.locations), FilterEdits(s, layer.edits), None)
  }

  // ---- The safety check ------------------------------------------------

  datatype Refusal = SelectionTooDeep | WholeListOnly(at: Path) | WholeOneOfOnly(at: Path)

  /** None accepts. A OneOf is tried against all its variants, since any may be in force. */
  function Validate(root: Schema, s: Selection, shape: Shape, path: Path): Option<Refusal>
    decreases s, 1, if shape.container.Some? then 1 else 0, 0
  {
    if s.all || s.children == map[] then None
    else if |path| > MAX_NESTING then Some(SelectionTooDeep)
    else if shape.container.Some? && shape.container.value.kind.ListKind? then Some(WholeListOnly(path))
    else if shape.container.Some? && shape.container.value.kind.OneOfKind? then
      var union := shape.container.value.kind;
      if union.discriminator in s.children then Some(WholeOneOfOnly(path))
      else ValidateVariants(root, s, union.variants, path, Sorted(union.variants.Keys))
    else ValidateMembers(root, s, shape, path, Sorted(s.children.Keys))
  }

  function ValidateVariants(root: Schema, s: Selection, variants: map<string, Schema>, path: Path, keys: seq<string>): Option<Refusal>
    requires forall k | k in keys :: k in variants
    decreases s, 1, 0, |keys| + 1
  {
    if keys == [] then None
    else match Validate(root, s, Shape(Some(variants[keys[0]]), None), path)
      case Some(e) => Some(e)
      case None => ValidateVariants(root, s, variants, path, keys[1..])
  }

  function ValidateMembers(root: Schema, s: Selection, shape: Shape, path: Path, keys: seq<string>): Option<Refusal>
    requires forall k | k in keys :: k in s.children
    decreases s, 0, 0, |keys|
  {
    if keys == [] then None
    else
      var field := FieldAt(shape, keys[0]);
      match Validate(root, s.children[keys[0]], Below(root, field, map[]), path + [keys[0]])
      case Some(e) => Some(e)
      case None => ValidateMembers(root, s, shape, path, keys[1..])
  }

  datatype FilterError = Refused(reason: Refusal) | SourceFailed | FilterNesting | InvalidEdit

  /** allowedPaths.Read, given what the wrapped source returns. */
  method Read(root: Schema, s: Selection, source: Option<Layer>) returns (r: Result<Layer, FilterError>)
    ensures r.Ok? <==>
      Validate(root, s, RootShape(root), []).None? && source.Some? && LayerClonable(source.value) && ValidEdits(source.value.edits)
    ensures r.Ok? ==> r.value == FilterLayer(s, source.value)
    ensures r.Err? ==>
              if Validate(root, s, RootShape(root), []).Some? then r.error == Refused(Validate(root, s, RootShape(root), []).value)
              else if source.None? then r.error == SourceFailed
              else if !LayerClonable(source.value) then r.error == FilterNesting
              else r.error == InvalidEdit
  {
    var refusal := Validate(root, s, RootShape(root), []);
    if refusal.Some? { return Err(Refused(refusal.value)); }
    if source.None? { return Err(SourceFailed); }
    var layer := source.value;
    if !LayerClonable(layer) { return Err(FilterNesting); }
    var edits := ReadEdits(s, layer.edits);
    if edits.None? { return Err(InvalidEdit); }
    var locations := ReadLocations(s, layer.locations);
    r := Ok(Layer(FilterValues(s, layer.values), layer.revision, locations, edits.value, None));
  }

  /** Read's loop over the edits. */
  method ReadEdits(s: Selection, edits: seq<Edit>) returns (r: Option<seq<Edit>>)
    ensures r == if ValidEdits(edits) then Some(FilterEdits(s, edits)) else None
  {
    var out: seq<Edit> := [];
    ghost var whole := FilterEdits(s, edits);
    for i := 0 to |edits|
      invariant forall j | 0 <= j < i :: edits[j].kind != UnknownKind && edits[j].path != []
      invariant out + FilterEdits(s, edits[i..]) == whole
    {
      if edits[i].kind == UnknownKind || edits[i].path == [] { return None; }
      FilterEditsStep(s, edits, i, out);
      out := AppendFiltered(out, s, edits[i]);
    }
    assert edits[|edits|..] == [];
    assert out + [] == out;
    r := Some(out);
  }

  method AppendFiltered(out: seq<Edit>, s: Selection, edit: Edit) returns (r: seq<Edit>)
    ensures r == out + FilterEdit(s, edit)
  {
    var node := At(s, edit.path);
    r := out;
    if node.Some? { r := AppendProjected(out, node.value, edit); }
  }

  lemma FilterEditsStep(s: Selection, edits: seq<Edit>, i: nat, out: seq<Edit>)
    requires i < |edits|
    ensures out + FilterEdits(s, edits[i..]) == out + FilterEdit(s, edits[i]) + FilterEdits(s, edits[i + 1..])
  {
    assert edits[i..][0] == edits[i] && edits[i..][1..] == edits[i + 1..];
  }

  /** Read's loop over the locations. */
  method ReadLocations(s: Selection, locations: map<string, Location>) returns (r: map<string, Location>)
    ensures r == FilterLocations(s, locations)
  {
    var todo := locations.Keys;
    r := map[];
    while todo != {}
      invariant todo <= locations.Keys
      invariant forall p :: p in r <==> p in locations && p !in todo && KeepsLocation(s, p)
      invariant forall p | p in r :: r[p] == locations[p]
      decreases todo
    {
      var pointer :| pointer in todo;
      if KeepsLocation(s, pointer) { r := r[pointer := locations[pointer]]; }
      todo := todo - {pointer};
    }
  }

  /** cloneLayer succeeds, and then copies the layer as it is. */
  predicate LayerClonable(layer: Layer) {
    (forall i | 0 <= i < |layer.edits| :: Clonable(layer.edits[i].value, 0)) &&
    (layer.values.Some? ==> Clonable(Object(layer.values.value), 0))
  }
}
