/**
 * contrib/sources/kubernetes/kubernetes.go: a tree assembled from named path bindings, met in
 * whatever order the map yields them.
 */
module Bindings {
  import opened Basics
  import opened Paths
  import opened Trees

  datatype BindError = EmptyPath | Overlap

  datatype Assembly = Assembly(fields: Fields, locations: map<string, Location>)

  /** Without bindings of its own, a source places each entry under its name. */
  function DefaultBindings(values: Fields): map<string, Path> {
    map name | name in values :: [name]
  }

  /** Descend, creating what is missing or null, and set the last segment; None if a parent is no object. */
  function SetPath(fields: Fields, path: Path, value: Value): Option<Fields>
    requires path != []
    decreases |path|
  {
    var part := path[0];
    if |path| == 1 then Some(fields[part := value])
    else
      var parent := if part in fields && fields[part] != Null then fields[part] else Object(map[]);
      if !parent.Object? then None
      else match SetPath(parent.fields, path[1..], value)
        case Some(below) => Some(fields[part := Object(below)])
        case None => None
  }

  // ---- What an assembly is --------------------------------------------

  /** No path is empty and no two names bind a path and itself or one below it. */
  ghost predicate Assignable(bindings: map<string, Path>) {
    (forall name | name in bindings :: bindings[name] != []) &&
    (forall a, b | a in bindings && b in bindings && a != b :: !Comparable(bindings[a], bindings[b]))
  }

  ghost function SuppliedPaths(bindings: map<string, Path>, values: Fields): set<Path> {
    set name | name in bindings && name in values :: bindings[name]
  }

  /** The supplied values by path. */
  ghost function Supplied(bindings: map<string, Path>, values: Fields): (placed: map<Path, Value>)
    requires Assignable(bindings)
    ensures forall name | name in bindings && name in values :: bindings[name] in placed && placed[bindings[name]] == values[name]
    ensures forall p | p in placed :: exists name | name in bindings && name in values :: bindings[name] == p
  {
    assert forall a, b | a in bindings && b in bindings && bindings[a] == bindings[b] :: a == b by {
      forall a, b | a in bindings && b in bindings && bindings[a] == bindings[b] ensures a == b {
        if a != b { assert Comparable(bindings[a], bindings[b]); }
      }
    }
    map p | p in SuppliedPaths(bindings, values) ::
      var name :| name in bindings && name in values && bindings[name] == p;
      values[name]
  }

  /** What a path leads to: inside a supplied value, at an object above one, or nowhere. */
  ghost predicate PlacedAt(fields: Fields, placed: map<Path, Value>, q: Path) {
    var found := Lookup(Object(fields), q);
    (forall p | p in placed && p <= q :: found == Lookup(placed[p], q[|p|..])) &&
    ((forall p | p in placed :: !(p <= q)) ==>
      if q == [] || exists p :: p in placed && q < p then found.Some? && found.value.Object? else found.None?)
  }

  /** The tree holds exactly the supplied values at their paths. */
  ghost predicate Holds(fields: Fields, placed: map<Path, Value>) {
    forall q: Path :: PlacedAt(fields, placed, q)
  }

  /** Each supplied path is located at the entry that supplied it, and nothing else is located. */
  ghost predicate LocatesSupplied(locations: map<string, Location>, bindings: map<string, Path>, values: Fields, names: set<string>, id: string)
    requires names <= bindings.Keys
  {
    (forall name | name in names && name in values ::
      Pointer(bindings[name]) in locations && locations[Pointer(bindings[name])] == Location(id + "/" + name, 0, 0)) &&
    (forall key | key in locations :: exists name | name in names && name in values :: Pointer(bindings[name]) == key)
  }

  lemma {:induction false} SameLookups(a: Value, b: Value)
    requires forall q: Path ::
      var l, r := Lookup(a, q), Lookup(b, q);
      l == r || (l.Some? && r.Some? && l.value.Object? && r.value.Object?)
    ensures a == b
    decreases a
  {
    assert Lookup(a, []) == Some(a) && Lookup(b, []) == Some(b);
    if a.Object? && b.Object? {
      forall k ensures k in a.fields <==> k in b.fields {
        LookupOne(a, k);
        LookupOne(b, k);
      }
      forall k | k in a.fields ensures a.fields[k] == b.fields[k] {
        forall q: Path
          ensures var l, r := Lookup(a.fields[k], q), Lookup(b.fields[k], q);
                  l == r || (l.Some? && r.Some? && l.value.Object? && r.value.Object?)
        {
          LookupSplit(a, [k], q);
          LookupSplit(b, [k], q);
          LookupOne(a, k);
          LookupOne(b, k);
        }
        SameLookups(a.fields[k], b.fields[k]);
      }
      assert a.fields == b.fields;
    }
  }

  /** Only one tree holds given values, so the order of assembly cannot matter. */
  lemma AssemblyUnique(f: Fields, g: Fields, placed: map<Path, Value>)
    requires Holds(f, placed) && Holds(g, placed)
    ensures f == g
  {
    forall q: Path
      ensures var l, r := Lookup(Object(f), q), Lookup(Object(g), q);
              l == r || (l.Some? && r.Some? && l.value.Object? && r.value.Object?)
    {
      assert PlacedAt(f, placed, q) && PlacedAt(g, placed, q);
    }
    SameLookups(Object(f), Object(g));
  }

  // ---- One binding -----------------------------------------------------

  lemma {:induction false} SetPathLookup(fields: Fields, path: Path, value: Value, q: Path)
    requires path != [] && SetPath(fields, path, value).Some?
    ensures var found := Lookup(Object(SetPath(fields, path, value).value), q);
            (path <= q ==> found == Lookup(value, q[|path|..])) &&
            (q < path ==> found.Some? && found.value.Object?) &&
            (!Comparable(path, q) ==> found == Lookup(Object(fields), q))
    decreases |path|
  {
    var part := path[0];
    if q != [] && q[0] == part && |path| > 1 {
      var parent := if part in fields && fields[part] != Null then fields[part] else Object(map[]);
      SetPathLookup(parent.fields, path[1..], value, q[1..]);
      assert path == [part] + path[1..] && q == [part] + q[1..];
      assert path <= q <==> path[1..] <= q[1..];
      assert q < path <==> q[1..] < path[1..];
      assert q[1..] != [] || q[1..] < path[1..];
      assert path <= q ==> q[1..][|path[1..]|..] == q[|path|..];
    } else if q != [] {
      assert q[0] == part ==> path <= q;
      assert q[0] != part ==> !Comparable(path, q);
    }
  }

  /** The descent fails only at a parent that is neither missing, null nor an object. */
  lemma {:induction false} SetPathDefined(fields: Fields, path: Path, value: Value)
    requires path != []
    requires forall q | [] < q < path ::
      var found := Lookup(Object(fields), q);
      found.None? || found.value == Null || found.value.Object?
    ensures SetPath(fields, path, value).Some?
    decreases |path|
  {
    if |path| > 1 {
      var part := path[0];
      LookupOne(Object(fields), part);
      assert [] < [part] < path;
      var parent := if part in fields && fields[part] != Null then fields[part] else Object(map[]);
      forall q | [] < q < path[1..]
        ensures var found := Lookup(Object(parent.fields), q);
                found.None? || found.value == Null || found.value.Object?
      {
        assert path == [part] + path[1..];
        assert [] < [part] + q < path;
        LookupSplit(Object(fields), [part], q);
      }
      SetPathDefined(parent.fields, path[1..], value);
    }
  }

  /** A value at a path apart from all others joins them, whatever was placed before. */
  lemma SetPathHolds(fields: Fields, placed: map<Path, Value>, path: Path, value: Value)
    requires path != [] && Holds(fields, placed)
    requires forall p | p in placed :: !Comparable(p, path)
    ensures SetPath(fields, path, value).Some?
    ensures Holds(SetPath(fields, path, value).value, placed[path := value])
  {
    forall q | [] < q < path
      ensures var found := Lookup(Object(fields), q);
              found.None? || found.value == Null || found.value.Object?
    {
      assert PlacedAt(fields, placed, q);
    }
    SetPathDefined(fields, path, value);
    var after, joined := SetPath(fields, path, value).value, placed[path := value];
    forall q: Path ensures PlacedAt(after, joined, q) {
      assert PlacedAt(fields, placed, q);
      SetPathLookup(fields, path, value, q);
      SetPathPlaces(fields, after, placed, path, value, q);
    }
  }

  lemma SetPathPlaces(before: Fields, after: Fields, placed: map<Path, Value>, path: Path, value: Value, q: Path)
    requires PlacedAt(before, placed, q) && forall p | p in placed :: !Comparable(p, path)
    requires var found := Lookup(Object(after), q);
             (path <= q ==> found == Lookup(value, q[|path|..])) &&
             (q < path ==> found.Some? && found.value.Object?) &&
             (!Comparable(path, q) ==> found == Lookup(Object(before), q))
    ensures PlacedAt(after, placed[path := value], q)
  {
    var joined := placed[path := value];
    forall p | p in joined && p <= q
      ensures Lookup(Object(after), q) == Lookup(joined[p], q[|p|..])
    {
      assert p <= q && path <= q ==> Comparable(p, path);
    }
    if forall p | p in joined :: !(p <= q) {
      assert path in joined && !(path <= q);
      forall p | p in placed ensures p in joined && !(p <= q) {}
      if p :| p in joined && q < p { assert p == path || p in placed; }
      if p :| p in placed && q < p { assert p in joined; }
      assert q == [] || (exists p :: p in joined && q < p) <==> q < path || q == [] || (exists p :: p in placed && q < p);
    }
  }

  // ---- The loop over bindings -----------------------------------------

  /** Overlap as the source tests it: on pointers, by string prefixes. */
  predicate Meets(p: string, key: string) {
    p == key || key + "/" <= p || p + "/" <= key
  }

  method Overlaps(paths: set<string>, key: string) returns (r: bool)
    ensures r <==> exists p | p in paths :: Meets(p, key)
  {
    var rest := paths;
    while rest != {}
      invariant rest <= paths
      invariant forall p | p in paths && p !in rest :: !Meets(p, key)
    {
      var p :| p in rest;
      if Meets(p, key) { return true; }
      rest := rest - {p};
    }
    r := false;
  }

  lemma OverlapIsComparable(p: Path, q: Path)
    ensures Meets(Pointer(p), Pointer(q)) <==> Comparable(p, q)
  {
    assert Pointer(p) + "/" <= Pointer(q) <==> p < q by { PrefixIsDescent(p, q); }
    assert Pointer(q) + "/" <= Pointer(p) <==> q < p by { PrefixIsDescent(q, p); }
    assert Pointer(p) == Pointer(q) <==> p == q by {
      if Pointer(p) == Pointer(q) { PointerInjective(p, q); }
    }
    assert Comparable(p, q) <==> p == q || p < q || q < p;
  }

  /** The string test over the paths of the names met so far compares the paths themselves. */
  lemma OverlapMeans(bindings: map<string, Path>, names: set<string>, path: Path)
    requires names <= bindings.Keys
    ensures (exists p | p in Pointers(bindings, names) :: Meets(p, Pointer(path))) <==>
            (exists name | name in names :: Comparable(bindings[name], path))
  {
    forall name | name in names
      ensures Pointer(bindings[name]) in Pointers(bindings, names)
      ensures Meets(Pointer(bindings[name]), Pointer(path)) <==> Comparable(bindings[name], path)
    {
      OverlapIsComparable(bindings[name], path);
    }
  }

  ghost function Pointers(bindings: map<string, Path>, names: set<string>): set<string>
    requires names <= bindings.Keys
  {
    set name | name in names :: Pointer(bindings[name])
  }

  /** The names met so far bind apart paths, and these are their supplied values. */
  ghost predicate Placed(bindings: map<string, Path>, values: Fields, names: set<string>, placed: map<Path, Value>)
    requires names <= bindings.Keys
  {
    (forall name | name in names :: bindings[name] != []) &&
    (forall a, b | a in names && b in names && a != b :: !Comparable(bindings[a], bindings[b])) &&
    (forall name | name in names && name in values :: bindings[name] in placed && placed[bindings[name]] == values[name]) &&
    (forall p | p in placed :: exists name | name in names && name in values :: bindings[name] == p)
  }

  /** What the loop has made of the names met so far. */
  ghost predicate Progress(bindings: map<string, Path>, values: Fields, names: set<string>, fields: Fields, placed: map<Path, Value>)
    requires names <= bindings.Keys
  {
    Holds(fields, placed) && Placed(bindings, values, names, placed)
  }

  lemma NothingYet(bindings: map<string, Path>, values: Fields, id: string)
    ensures Assembled(bindings, values, id, {}, {}, Assembly(map[], map[]), map[])
  {
    forall q: Path ensures PlacedAt(map[], map[], q) {}
  }

  lemma AllMet(bindings: map<string, Path>, values: Fields, fields: Fields, placed: map<Path, Value>)
    requires Progress(bindings, values, bindings.Keys, fields, placed)
    ensures Assignable(bindings) && Holds(fields, Supplied(bindings, values))
  {
    assert placed == Supplied(bindings, values);
  }

  lemma ProgressStep(bindings: map<string, Path>, values: Fields, names: set<string>, fields: Fields, placed: map<Path, Value>, name: string)
    requires names <= bindings.Keys && name in bindings && name !in names
    requires Progress(bindings, values, names, fields, placed) && bindings[name] != []
    requires forall other | other in names :: !Comparable(bindings[other], bindings[name])
    ensures name !in values ==> Progress(bindings, values, names + {name}, fields, placed)
    ensures name in values ==>
              SetPath(fields, bindings[name], values[name]).Some? &&
              Progress(bindings, values, names + {name}, SetPath(fields, bindings[name], values[name]).value,
                placed[bindings[name] := values[name]])
  {
    if name in values {
      SetPathHolds(fields, placed, bindings[name], values[name]);
      var joined := placed[bindings[name] := values[name]];
      forall p | p in joined ensures exists n | n in names + {name} && n in values :: bindings[n] == p {
        if p != bindings[name] {
          var n :| n in names && n in values && bindings[n] == p;
          assert n in names + {name};
        }
      }
    } else {
      forall p | p in placed ensures exists n | n in names + {name} && n in values :: bindings[n] == p {
        var n :| n in names && n in values && bindings[n] == p;
        assert n in names + {name};
      }
    }
  }

  /**
   * The bindings part of Read. Whatever order the names come in, it fails exactly when the
   * bindings overlap or one is empty; otherwise the tree holds the supplied values at their
   * paths and nothing else, and every parent met on the way is an object.
   */
  method Assemble(bindings: map<string, Path>, values: Fields, id: string) returns (r: Result<Assembly, BindError>)
    ensures r.Ok? <==> Assignable(bindings)
    ensures r.Ok? ==> Holds(r.value.fields, Supplied(bindings, values))
    ensures r.Ok? ==> LocatesSupplied(r.value.locations, bindings, values, bindings.Keys, id)
  {
    var built, paths: set<string> := Assembly(map[], map[]), {};
    var rest := bindings.Keys;
    ghost var placed: map<Path, Value> := map[];
    ghost var done: set<string> := {};
    NothingYet(bindings, values, id);
    while rest != {}
      invariant done <= bindings.Keys && rest == bindings.Keys - done
      invariant Assembled(bindings, values, id, done, paths, built, placed)
    {
      var name :| name in rest;
      var step := Place(bindings, values, id, name, paths, built, done, placed);
      if step.Err? { return Err(step.error); }
      paths := paths + {Pointer(bindings[name])};
      built := step.value;
      placed := if name in values then placed[bindings[name] := values[name]] else placed;
      rest, done := rest - {name}, done + {name};
    }
    assert done == bindings.Keys;
    AllMet(bindings, values, built.fields, placed);
    r := Ok(built);
  }

  /** The loop's state after the names in done: the pointers met, and what is built so far. */
  ghost predicate Assembled(bindings: map<string, Path>, values: Fields, id: string, done: set<string>,
                            paths: set<string>, built: Assembly, placed: map<Path, Value>)
    requires done <= bindings.Keys
  {
    paths == Pointers(bindings, done) && Progress(bindings, values, done, built.fields, placed) &&
    LocatesSupplied(built.locations, bindings, values, done, id)
  }

  predicate Clashes(bindings: map<string, Path>, done: set<string>, name: string)
    requires done <= bindings.Keys && name in bindings
  {
    bindings[name] == [] || exists other | other in done :: Comparable(bindings[other], bindings[name])
  }

  lemma ClashRefutes(bindings: map<string, Path>, done: set<string>, name: string)
    requires done <= bindings.Keys && name in bindings && name !in done && Clashes(bindings, done, name)
    ensures !Assignable(bindings)
  {
    if bindings[name] != [] {
      var other :| other in done && Comparable(bindings[other], bindings[name]);
      assert other != name;
    }
  }

  /** The assembly with one name more; without a clash the descent to its parent succeeds. */
  function With(bindings: map<string, Path>, values: Fields, id: string, name: string, built: Assembly): Option<Assembly>
    requires name in bindings && bindings[name] != []
  {
    if name !in values then Some(built)
    else match SetPath(built.fields, bindings[name], values[name])
      case None => None
      case Some(fields) =>
        Some(Assembly(fields, built.locations[Pointer(bindings[name]) := Location(id + "/" + name, 0, 0)]))
  }

  lemma AssembledStep(bindings: map<string, Path>, values: Fields, id: string, done: set<string>, paths: set<string>,
                      built: Assembly, placed: map<Path, Value>, name: string)
    requires done <= bindings.Keys && name in bindings && name !in done && !Clashes(bindings, done, name)
    requires Assembled(bindings, values, id, done, paths, built, placed)
    ensures With(bindings, values, id, name, built).Some?
    ensures Assembled(bindings, values, id, done + {name}, paths + {Pointer(bindings[name])},
              With(bindings, values, id, name, built).value,
              if name in values then placed[bindings[name] := values[name]] else placed)
  {
    assert Pointers(bindings, done + {name}) == Pointers(bindings, done) + {Pointer(bindings[name])};
    ProgressStep(bindings, values, done, built.fields, placed, name);
    LocationStep(built.locations, bindings, values, done, id, name);
  }

  /** One pass of the loop; a refusal shows that the bindings cannot be assembled. */
  method Place(bindings: map<string, Path>, values: Fields, id: string, name: string, paths: set<string>, built: Assembly,
               ghost done: set<string>, ghost placed: map<Path, Value>)
    returns (r: Result<Assembly, BindError>)
    requires done <= bindings.Keys && name in bindings && name !in done
    requires Assembled(bindings, values, id, done, paths, built, placed)
    ensures r.Err? ==> !Assignable(bindings)
    ensures r.Ok? ==>
              Assembled(bindings, values, id, done + {name}, paths + {Pointer(bindings[name])}, r.value,
                if name in values then placed[bindings[name] := values[name]] else placed)
  {
    if bindings[name] == [] {
      ClashRefutes(bindings, done, name);
      return Err(EmptyPath);
    }
    var overlap := Overlaps(paths, Pointer(bindings[name]));
    assert overlap <==> Clashes(bindings, done, name) by { OverlapMeans(bindings, done, bindings[name]); }
    if overlap {
      ClashRefutes(bindings, done, name);
      return Err(Overlap);
    }
    AssembledStep(bindings, values, id, done, paths, built, placed, name);
    r := Ok(With(bindings, values, id, name, built).value);
  }

  lemma LocationStep(locations: map<string, Location>, bindings: map<string, Path>, values: Fields, names: set<string>, id: string, name: string)
    requires names <= bindings.Keys && name in bindings && LocatesSupplied(locations, bindings, values, names, id)
    requires forall other | other in names :: !Comparable(bindings[other], bindings[name])
    ensures var next := if name in values then locations[Pointer(bindings[name]) := Location(id + "/" + name, 0, 0)] else locations;
            LocatesSupplied(next, bindings, values, names + {name}, id)
  {
    forall other | other in names ensures Pointer(bindings[other]) != Pointer(bindings[name]) {
      if Pointer(bindings[other]) == Pointer(bindings[name]) { PointerInjective(bindings[other], bindings[name]); }
    }
    forall key | key in locations ensures exists n | n in names + {name} && n in values :: Pointer(bindings[n]) == key {
      var n :| n in names && n in values && Pointer(bindings[n]) == key;
      assert n in names + {name};
    }
  }

  lemma SameLocations(l: map<string, Location>, r: map<string, Location>, bindings: map<string, Path>, values: Fields, id: string)
    requires LocatesSupplied(l, bindings, values, bindings.Keys, id) && LocatesSupplied(r, bindings, values, bindings.Keys, id)
    ensures l == r
  {
    forall key ensures key in l ==> key in r && l[key] == r[key] {
      if key in l { var n :| n in bindings && n in values && Pointer(bindings[n]) == key; }
    }
    forall key ensures key in r ==> key in l {
      if key in r { var n :| n in bindings && n in values && Pointer(bindings[n]) == key; }
    }
  }

  /** Two assemblies of the same bindings agree, whatever their orders. */
  lemma OrderIsIrrelevant(bindings: map<string, Path>, values: Fields, id: string, a: Assembly, b: Assembly)
    requires Assignable(bindings)
    requires Holds(a.fields, Supplied(bindings, values)) && LocatesSupplied(a.locations, bindings, values, bindings.Keys, id)
    requires Holds(b.fields, Supplied(bindings, values)) && LocatesSupplied(b.locations, bindings, values, bindings.Keys, id)
    ensures a == b
  {
    AssemblyUnique(a.fields, b.fields, Supplied(bindings, values));
    SameLocations(a.locations, b.locations, bindings, values, id);
  }

  /** Without bindings of its own a source always assembles, into the entries themselves. */
  lemma DefaultIsIdentity(values: Fields, f: Fields)
    requires Assignable(DefaultBindings(values)) ==> Holds(f, Supplied(DefaultBindings(values), values))
    ensures Assignable(DefaultBindings(values)) && f == values
  {
    var bindings := DefaultBindings(values);
    forall a, b | a in bindings && b in bindings && a != b ensures !Comparable(bindings[a], bindings[b]) {
      assert bindings[a][0] == a && bindings[b][0] == b;
    }
    assert Assignable(bindings);
    var placed := Supplied(bindings, values);
    forall q: Path ensures PlacedAt(values, placed, q) {
      forall p | p in placed && p <= q ensures Lookup(Object(values), q) == Lookup(placed[p], q[|p|..]) {
        var name :| name in bindings && name in values && bindings[name] == p;
        assert p == [name] && q[0] == name;
      }
      if q != [] && q[0] in values { assert [q[0]] in placed && [q[0]] <= q; }
    }
    AssemblyUnique(f, values, placed);
  }
}
