/** Configuration trees, layers of edits, and the schema shapes that steer a merge. */
module Trees {
  import opened Basics
  import opened Paths

  type Fields = map<string, Value>

  /** A normalised input value. Other stands for numbers, booleans, times and bytes. */
  datatype Value =
    | Null
    | Str(text: string)
    | Other(token: string)
    | List(items: seq<Value>)
    | Object(fields: map<string, Value>)

  const MAX_NESTING: nat := 128

  /** cloneInput succeeds, and then copies the value as it is. */
  predicate Clonable(v: Value, depth: nat) {
    depth <= MAX_NESTING &&
    match v
    case List(items) => forall i | 0 <= i < |items| :: Clonable(items[i], depth + 1)
    case Object(fields) => forall k | k in fields :: Clonable(fields[k], depth + 1)
    case _ => true
  }

  // ---- Reading a tree --------------------------------------------------

  /** The object member a segment names; lists have no members here. */
  function Member(v: Value, key: string): Option<Value> {
    if v.Object? && key in v.fields then Some(v.fields[key]) else None
  }

  /** The member or list element a segment names. */
  function Child(v: Value, key: string): (c: Option<Value>)
    ensures c.Some? ==> c.value < v
  {
    match v
    case Object(fields) => if key in fields then Some(fields[key]) else None
    case List(items) => (match IndexOf(key, |items|) case Some(i) => Some(items[i]) case None => None)
    case _ => None
  }

  /** What a path of object members leads to: the reach of an edit or a selection. */
  function Lookup(v: Value, path: Path): Option<Value> {
    if path == [] then Some(v)
    else match Member(v, path[0])
      case Some(c) => Lookup(c, path[1..])
      case None => None
  }

  /** What a path of members and list indexes leads to: the reach of provenance. */
  function Reach(v: Value, path: Path): Option<Value> {
    if path == [] then Some(v)
    else match Child(v, path[0])
      case Some(c) => Reach(c, path[1..])
      case None => None
  }

  lemma {:induction false} LookupSplit(v: Value, p: Path, q: Path)
    ensures Lookup(v, p + q) == (match Lookup(v, p) case Some(c) => Lookup(c, q) case None => None)
  {
    if p == [] {
      assert p + q == q;
    } else {
      assert (p + q)[1..] == p[1..] + q;
      match Member(v, p[0])
      case Some(c) => LookupSplit(c, p[1..], q);
      case None =>
    }
  }

  lemma LookupOne(v: Value, k: string)
    ensures Lookup(v, [k]) == Member(v, k)
  {
    assert [k][1..] == [];
  }

  // ---- Layers ----------------------------------------------------------

  datatype Location = Location(name: string, line: int, column: int)

  const NOWHERE := Location("", 0, 0)

  /** One provenance record. */
  datatype Origin = Origin(source: string, revision: string, operation: string, location: Location)

  datatype EditKind = Replace | Delete | UnknownKind

  datatype Edit = Edit(kind: EditKind, path: Path, value: Value)

  /** One source's contribution. Locations are keyed by JSON pointers. */
  datatype Layer = Layer(
    values: Option<Fields>,
    revision: string,
    locations: map<string, Location>,
    edits: seq<Edit>,
    stale: Option<string>)

  // ---- Schemas ---------------------------------------------------------

  datatype Schema = Schema(fields: seq<Field>, defs: map<string, Schema>)

  datatype Field = Field(name: string, kind: Kind)

  datatype Kind =
    | LeafKind
    | ListKind
    | ObjectKind(schema: Option<Schema>)
    | MapKind(valueField: Option<Field>, valueSchema: Option<Schema>)
    | OneOfKind(discriminator: string, variants: map<string, Schema>)
    | RefKind(id: Option<RefId>, name: string)

  datatype RefId = RefId(space: string, name: string, version: string)

  /** Where a walk stands: the schema of the object's members, and the field holding it. */
  datatype Shape = Shape(schema: Option<Schema>, container: Option<Field>)

  const NO_SHAPE := Shape(None, None)

  function FindField(fields: seq<Field>, name: string): (f: Option<Field>)
    ensures f.Some? ==> f.value.name == name && f.value in fields
  {
    if fields == [] then None
    else if fields[0].name == name then Some(fields[0])
    else FindField(fields[1..], name)
  }

  function RefSchema(root: Schema, kind: Kind): Option<Schema>
    requires kind.RefKind?
  {
    var key := match kind.id
      case Some(id) => id.space + "\0" + id.name + "\0" + id.version
      case None => kind.name;
    if key in root.defs then Some(root.defs[key]) else None
  }

  /** The variant schema an object's discriminator picks; a missing or non-string one reads as "". */
  function Variant(kind: Kind, value: Fields): Option<Schema>
    requires kind.OneOfKind?
  {
    var key := if kind.discriminator in value && value[kind.discriminator].Str?
               then value[kind.discriminator].text else "";
    if key in kind.variants then Some(kind.variants[key]) else None
  }

  function ObjectSchema(root: Schema, field: Option<Field>, value: Fields): Option<Schema> {
    match field
    case None => None
    case Some(f) =>
      match f.kind
      case ObjectKind(schema) => schema
      case RefKind(_, _) => RefSchema(root, f.kind)
      case OneOfKind(_, _) => Variant(f.kind, value)
      case _ => None
  }

  /** The field that governs a member: the map's value type, or the schema's field of that name. */
  function FieldAt(shape: Shape, key: string): Option<Field> {
    if shape.container.Some? && shape.container.value.kind.MapKind? then
      var m := shape.container.value.kind;
      if m.valueField.Some? then m.valueField
      else if m.valueSchema.Some? then Some(Field("", ObjectKind(m.valueSchema)))
      else None
    else match shape.schema
      case Some(s) => FindField(s.fields, key)
      case None => None
  }

  /** The shape of a member's own members, given the value the member holds now. */
  function Below(root: Schema, field: Option<Field>, value: Fields): Shape {
    Shape(ObjectSchema(root, field, value), field)
  }

  /** The field that governs a path, on the walk through the lower tree. */
  function FieldOn(root: Schema, shape: Shape, dst: Value, q: Path): Option<Field>
    requires dst.Object? && q != []
    decreases q
  {
    var field, lower := FieldAt(shape, q[0]), Member(dst, q[0]);
    if |q| > 1 && lower.Some? && lower.value.Object? then FieldOn(root, Below(root, field, lower.value.fields), lower.value, q[1..])
    else field
  }
}
