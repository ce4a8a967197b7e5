/** Which schema field governs a member, and what a OneOf field does to a merge. */
module SchemaLaws {
  import opened Basics
  import opened Paths
  import opened Trees
  import opened Merging

  // ---- Finding the field ------------------------------------------------

  /** The first field of a name, as the schema lists them. */
  lemma {:induction false} FindFieldIsFirst(fields: seq<Field>, name: string)
    ensures match FindField(fields, name)
            case None => forall i | 0 <= i < |fields| :: fields[i].name != name
            case Some(f) =>
              exists i | 0 <= i < |fields| ::
                fields[i] == f && f.name == name && forall j | 0 <= j < i :: fields[j].name != name
  {
    if fields != [] && fields[0].name != name {
      var rest := fields[1..];
      FindFieldIsFirst(rest, name);
      match FindField(rest, name)
      case None =>
        forall i | 0 <= i < |fields| ensures fields[i].name != name {
          if i > 0 { assert fields[i] == rest[i - 1]; }
        }
      case Some(f) =>
        var i :| 0 <= i < |rest| && rest[i] == f && f.name == name && forall j | 0 <= j < i :: rest[j].name != name;
        forall j | 0 <= j < i + 1 ensures fields[j].name != name {
          if j > 0 { assert fields[j] == rest[j - 1]; }
        }
        assert fields[i + 1] == f;
    }
  }

  /** In a map every member is governed by the value field, before the value schema; elsewhere by the schema's field. */
  lemma FieldAtMeans(schema: Option<Schema>, container: Option<Field>, key: string)
    ensures var field := FieldAt(Shape(schema, container), key);
      match container
      case Some(Field(_, MapKind(Some(f), _))) => field == Some(f)
      case Some(Field(_, MapKind(None, Some(s)))) => field == Some(Field("", ObjectKind(Some(s))))
      case Some(Field(_, MapKind(None, None))) => field == None
      case _ => field == if schema.Some? then FindField(schema.value.fields, key) else None
  {
  }

  /** Under a member: the object's own schema, what a ref names, or the variant the lower discriminator names. */
  lemma BelowMeans(root: Schema, field: Option<Field>, lower: Fields)
    ensures var shape := Below(root, field, lower);
      shape.container == field &&
      match field
      case Some(Field(_, ObjectKind(s))) => shape.schema == s
      case Some(Field(_, RefKind(Some(id), _))) => shape.schema == Get(root.defs, id.space + "\0" + id.name + "\0" + id.version)
      case Some(Field(_, RefKind(None, name))) => shape.schema == Get(root.defs, name)
      case Some(Field(_, OneOfKind(disc, variants))) =>
        (var named: Option<Value> := Get(lower, disc);
         match named
         case Some(Str(text)) => shape.schema == Get(variants, text)
         case _ => shape.schema == Get(variants, ""))
      case _ => shape.schema == None
  {
  }

  lemma {:induction false} SplitAtNul(a: string, x: string, b: string, y: string)
    requires '\0' !in a && '\0' !in b && a + "\0" + x == b + "\0" + y
    ensures a == b && x == y
  {
    var l, r := a + "\0" + x, b + "\0" + y;
    if a == [] || b == [] {
      assert l[0] == r[0];
      assert (a == [] <==> l[0] == '\0') && (b == [] <==> r[0] == '\0');
      assert l == "\0" + x && r == "\0" + y;
      assert l[1..] == x && r[1..] == y;
    } else {
      assert l[0] == a[0] && r[0] == b[0];
      assert l[1..] == a[1..] + "\0" + x && r[1..] == b[1..] + "\0" + y;
      SplitAtNul(a[1..], x, b[1..], y);
      assert a == [a[0]] + a[1..] && b == [b[0]] + b[1..];
    }
  }

  /** Identifiers without a NUL share a definition's key only if they are the same. */
  lemma RefKeysAreDistinct(a: RefId, b: RefId)
    requires '\0' !in a.space && '\0' !in a.name && '\0' !in b.space && '\0' !in b.name
    requires a.space + "\0" + a.name + "\0" + a.version == b.space + "\0" + b.name + "\0" + b.version
    ensures a == b
  {
    var x, y := a.name + "\0" + a.version, b.name + "\0" + b.version;
    assert a.space + "\0" + a.name + "\0" + a.version == a.space + "\0" + x;
    assert b.space + "\0" + b.name + "\0" + b.version == b.space + "\0" + y;
    SplitAtNul(a.space, x, b.space, y);
    SplitAtNul(a.name, a.version, b.name, b.version);
  }

  // ---- A OneOf in a merge -------------------------------------------------

  /** A discriminator that a side does not give reads as null. */
  function Discriminator(fields: Fields, disc: string): Value {
    if disc in fields then fields[disc] else Null
  }

  /**
   * Objects on both sides of a member: under a OneOf whose discriminator the layer gives, and
   * gives differently, only the layer's object is left; otherwise every lower member that the
   * layer does not give is unchanged.
   */
  lemma OneOfMember(root: Schema, shape: Shape, dst: Value, src: Value, key: string)
    requires dst.Object? && key in dst.fields && dst.fields[key].Object?
    requires src.Object? && key in src.fields && src.fields[key].Object?
    ensures var lower, upper, out := dst.fields[key].fields, src.fields[key].fields, Lookup(MergeObject(root, shape, dst, src), [key]);
      out.Some? && out.value.Object? &&
      match FieldAt(shape, key)
      case Some(Field(_, OneOfKind(disc, _))) =>
        if disc in upper && upper[disc] != Discriminator(lower, disc) then out.value.fields == upper
        else out.value.fields.Keys == lower.Keys + upper.Keys &&
             forall f | f in lower && f !in upper :: out.value.fields[f] == lower[f]
      case _ =>
        out.value.fields.Keys == lower.Keys + upper.Keys &&
        forall f | f in lower && f !in upper :: out.value.fields[f] == lower[f]
  {
    assert MergeObject(root, shape, dst, src).fields[key] == MergeField(root, shape, dst, src, key);
    LookupOne(MergeObject(root, shape, dst, src), key);
  }

  /** At the first n segments both sides hold objects that a OneOf's discriminator tells apart. */
  predicate DisagreeAt(root: Schema, shape: Shape, dst: Value, src: Value, q: Path, n: nat)
    requires dst.Object?
  {
    0 < n <= |q| &&
    match (FieldOn(root, shape, dst, q[..n]), Lookup(dst, q[..n]), Lookup(src, q[..n]))
    case (Some(Field(_, OneOfKind(disc, _))), Some(Object(lower)), Some(Object(upper))) =>
      disc in upper && upper[disc] != Discriminator(lower, disc)
    case _ => false
  }

  lemma DisagreeFirst(root: Schema, shape: Shape, dst: Value, src: Value, q: Path)
    requires dst.Object? && src.Object? && q != []
    requires q[0] in dst.fields && dst.fields[q[0]].Object? && q[0] in src.fields && src.fields[q[0]].Object?
    ensures DisagreeAt(root, shape, dst, src, q, 1) <==>
            Switches(FieldAt(shape, q[0]), dst.fields[q[0]].fields, src.fields[q[0]].fields)
  {
    var k := q[0];
    assert q[..1] == [k];
    LookupOne(dst, k);
    LookupOne(src, k);
    assert FieldOn(root, shape, dst, [k]) == FieldAt(shape, k);
  }

  lemma DisagreeBelow(root: Schema, shape: Shape, dst: Value, src: Value, q: Path, n: nat)
    requires dst.Object? && src.Object? && q != [] && n > 0
    requires q[0] in dst.fields && dst.fields[q[0]].Object? && q[0] in src.fields
    ensures var lower := dst.fields[q[0]];
      DisagreeAt(root, shape, dst, src, q, n + 1) <==>
      DisagreeAt(root, Below(root, FieldAt(shape, q[0]), lower.fields), lower, src.fields[q[0]], q[1..], n)
  {
    if n + 1 <= |q| { assert q[..n + 1][1..] == q[1..][..n] && q[..n + 1][0] == q[0]; }
  }

  /**
   * The same at any depth: where both sides hold an object, lower members that the layer does
   * not give are unchanged if no OneOf on the way disagrees; if one does, only the layer's
   * object is left.
   */
  lemma {:induction false} OneOfAtDepth(root: Schema, shape: Shape, dst: Value, src: Value, q: Path, f: string)
    requires dst.Object? && src.Object?
    requires Lookup(dst, q).Some? && Lookup(dst, q).value.Object? && Lookup(src, q).Some? && Lookup(src, q).value.Object?
    ensures var out := MergeObject(root, shape, dst, src);
      if exists n: nat :: DisagreeAt(root, shape, dst, src, q, n) then Lookup(out, q) == Lookup(src, q)
      else f !in Lookup(src, q).value.fields ==> Lookup(out, q + [f]) == Lookup(dst, q + [f])
    decreases q
  {
    var out := MergeObject(root, shape, dst, src);
    if q == [] {
      assert [] + [f] == [f] && [f][1..] == [];
    } else {
      var k := q[0];
      var field, lower, upper := FieldAt(shape, k), dst.fields[k], src.fields[k];
      assert out.fields[k] == MergeField(root, shape, dst, src, k);
      assert (q + [f])[0] == k && (q + [f])[1..] == q[1..] + [f];
      DisagreeFirst(root, shape, dst, src, q);
      if !Switches(field, lower.fields, upper.fields) {
        OneOfAtDepth(root, Below(root, field, lower.fields), lower, upper, q[1..], f);
        var shape' := Below(root, field, lower.fields);
        if n: nat :| DisagreeAt(root, shape, dst, src, q, n) {
          assert n > 1;
          DisagreeBelow(root, shape, dst, src, q, n - 1);
          assert DisagreeAt(root, shape', lower, upper, q[1..], n - 1);
        } else {
          forall n: nat ensures !DisagreeAt(root, shape', lower, upper, q[1..], n) {
            if n > 0 { DisagreeBelow(root, shape, dst, src, q, n); }
          }
        }
      } else {
        assert DisagreeAt(root, shape, dst, src, q, 1);
      }
    }
  }
}
