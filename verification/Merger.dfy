/** merge.go's merger: the tree and the provenance log, updated in place. */
module Merger {
  import opened Basics
  import opened Paths
  import opened Trees
  import opened Merging

  // ---- How far a walk over a node's members has come -------------------

  /** RecordTree's contribution at q once the members in done are recorded. */
  ghost function Recorded(v: Value, path: Path, o: Origin, locations: map<string, Location>, q: Path, done: seq<string>): seq<Origin> {
    if q == path || (StrictlyExtends(q, path) && q[|path|] in done)
    then RecordDelta(v, path, o, locations, q[|path|..]) else []
  }

  lemma RecordedStep(v: Value, c: Value, path: Path, o: Origin, locations: map<string, Location>, q: Path, keys: seq<string>, i: nat)
    requires i < |keys| && keys[i] !in keys[..i] && Child(v, keys[i]) == Some(c)
    ensures Recorded(v, path, o, locations, q, keys[..i + 1]) ==
      Recorded(v, path, o, locations, q, keys[..i]) +
      if Extends(q, path + [keys[i]]) then RecordDelta(c, path + [keys[i]], o, locations, q[|path + [keys[i]]|..]) else []
  {
    var p := path + [keys[i]];
    assert keys[..i + 1] == keys[..i] + [keys[i]];
    assert StrictlyExtends(q, path) && q[|path|] == keys[i] ==> q[..|p|] == p;
    if Extends(q, p) {
      assert q[|path|..][1..] == q[|p|..] && q[|path|] == keys[i];
      assert path + q[|path|..] == q == p + q[|p|..];
    }
  }

  lemma RecordedAll(v: Value, path: Path, o: Origin, locations: map<string, Location>, q: Path, keys: seq<string>)
    requires forall k | Child(v, k).Some? :: k in keys
    ensures Recorded(v, path, o, locations, q, keys) ==
      if Extends(q, path) then RecordDelta(v, path, o, locations, q[|path|..]) else []
  {
    if q == path { assert q[|path|..] == []; }
  }

  lemma RecordedNone(v: Value, path: Path, o: Origin, locations: map<string, Location>, q: Path)
    ensures Recorded(v, path, o, locations, q, []) == if q == path then [Located(o, path, locations)] else []
  {
    if q == path { assert q[|path|..] == [] && path + [] == path; }
  }

  /** Each segment names a member or element of v, and none comes twice. */
  ghost predicate Segments(v: Value, keys: seq<string>) {
    forall i | 0 <= i < |keys| :: Child(v, keys[i]).Some? && keys[i] !in keys[..i]
  }

  lemma SortedMembers(v: Value, keys: seq<string>)
    requires v.Object? && keys == Sorted(v.fields.Keys)
    ensures Segments(v, keys) && forall k | Child(v, k).Some? :: k in keys
  {
    forall i | 0 <= i < |keys| ensures Child(v, keys[i]).Some? && keys[i] !in keys[..i] {
      assert keys[i] in keys;
      forall j | 0 <= j < i ensures keys[..i][j] != keys[i] {
        assert keys[j] != keys[i];
      }
    }
  }

  /** The segments of a list's elements. */
  ghost function Indexes(n: nat): (keys: seq<string>)
    ensures |keys| == n && forall i | 0 <= i < n :: keys[i] == Itoa(i) && keys[i] !in keys[..i]
  {
    var keys := seq(n, i requires 0 <= i => Itoa(i));
    assert forall i, j | 0 <= j < i < n :: keys[j] != keys[i] by {
      forall i, j | 0 <= j < i < n ensures keys[j] != keys[i] {
        if keys[j] == keys[i] { ItoaInjective(j, i); }
      }
    }
    keys
  }

  ghost predicate RecordedLog(was: Log, now: Log, v: Value, path: Path, o: Origin, locations: map<string, Location>, done: seq<string>) {
    forall q :: History(now, q) == History(was, q) + Recorded(v, path, o, locations, q, done)
  }

  lemma RecordedLogStep(was: Log, mid: Log, now: Log, v: Value, c: Value, path: Path, o: Origin,
                        locations: map<string, Location>, keys: seq<string>, i: nat)
    requires i < |keys| && keys[i] !in keys[..i] && Child(v, keys[i]) == Some(c)
    requires RecordedLog(was, mid, v, path, o, locations, keys[..i])
    requires forall q :: History(now, q) == History(mid, q) +
               (if Extends(q, path + [keys[i]]) then RecordDelta(c, path + [keys[i]], o, locations, q[|path + [keys[i]]|..]) else [])
    ensures RecordedLog(was, now, v, path, o, locations, keys[..i + 1])
  {
    forall q ensures History(now, q) == History(was, q) + Recorded(v, path, o, locations, q, keys[..i + 1]) {
      RecordedStep(v, c, path, o, locations, q, keys, i);
    }
  }

  lemma RecordedLogAll(was: Log, now: Log, v: Value, path: Path, o: Origin, locations: map<string, Location>, keys: seq<string>)
    requires forall k | Child(v, k).Some? :: k in keys
    requires RecordedLog(was, now, v, path, o, locations, keys)
    ensures forall q :: History(now, q) == History(was, q) +
              (if Extends(q, path) then RecordDelta(v, path, o, locations, q[|path|..]) else [])
  {
    forall q { RecordedAll(v, path, o, locations, q, keys); }
  }

  /** MergeMap's contribution at q once the members in done are merged. */
  ghost function Merged(root: Schema, shape: Shape, dst: Value, src: Value, path: Path, o: Origin,
                        locations: map<string, Location>, q: Path, done: seq<string>, logged: bool): seq<Origin>
    requires dst.Object? && src.Object?
  {
    if StrictlyExtends(q, path) && q[|path|] in done
    then MergeDelta(root, shape, dst, src, path, o, locations, q[|path|..], logged) else []
  }

  /** One member's contribution, as the two branches of the loop body make it. */
  ghost function MemberDelta(root: Schema, shape: Shape, dst: Value, src: Value, p: Path, key: string, o: Origin,
                             locations: map<string, Location>, q: Path, logged: bool): seq<Origin>
    requires dst.Object? && src.Object? && key in src.fields
  {
    var field, lower, upper := FieldAt(shape, key), Member(dst, key), src.fields[key];
    if Replaces(field, lower, upper) then
      (if lower.Some? && StrictlyExtends(q, p) && logged then [o.(operation := "replaced")] else []) +
      (if Extends(q, p) then RecordDelta(upper, p, o, locations, q[|p|..]) else [])
    else
      (if q == p then [Located(o, p, locations)] else []) +
      (if Extends(q, p) then
         MergeDelta(root, Below(root, field, lower.value.fields), lower.value, upper, p, o, locations, q[|p|..], logged)
       else [])
  }

  lemma MergedStep(root: Schema, shape: Shape, dst: Value, src: Value, path: Path, o: Origin,
                   locations: map<string, Location>, q: Path, keys: seq<string>, i: nat, logged: bool)
    requires dst.Object? && src.Object?
    requires i < |keys| && keys[i] !in keys[..i] && keys[i] in src.fields
    ensures Merged(root, shape, dst, src, path, o, locations, q, keys[..i + 1], logged) ==
      Merged(root, shape, dst, src, path, o, locations, q, keys[..i], logged) +
      MemberDelta(root, shape, dst, src, path + [keys[i]], keys[i], o, locations, q, logged)
    ensures Extends(q, path + [keys[i]]) ==> Merged(root, shape, dst, src, path, o, locations, q, keys[..i], logged) == []
  {
    var p := path + [keys[i]];
    assert keys[..i + 1] == keys[..i] + [keys[i]];
    assert StrictlyExtends(q, path) && q[|path|] == keys[i] ==> q[..|p|] == p;
    if Extends(q, p) {
      assert q[|path|..][1..] == q[|p|..] && q[|path|] == keys[i];
    }
  }

  lemma MergedAll(root: Schema, shape: Shape, dst: Value, src: Value, path: Path, o: Origin,
                  locations: map<string, Location>, q: Path, keys: seq<string>, logged: bool)
    requires dst.Object? && src.Object?
    requires forall k | k in src.fields :: k in keys
    ensures Merged(root, shape, dst, src, path, o, locations, q, keys, logged) ==
      if Extends(q, path) then MergeDelta(root, shape, dst, src, path, o, locations, q[|path|..], logged) else []
  {
  }

  /** The tree in the middle of MergeMap's loop. */
  ghost predicate PartlyMerged(root: Schema, shape: Shape, dst: Value, src: Value, out: Value, done: seq<string>)
    requires dst.Object? && src.Object?
  {
    out.Object? &&
    (forall k :: k in out.fields <==> k in dst.fields || (k in src.fields && k in done)) &&
    (forall k | k in out.fields :: out.fields[k] ==
      if k in src.fields && k in done then MergeField(root, shape, dst, src, k) else dst.fields[k])
  }

  lemma PartlyMergedStep(root: Schema, shape: Shape, dst: Value, src: Value, out: Value, keys: seq<string>, i: nat)
    requires dst.Object? && src.Object?
    requires i < |keys| && keys[i] in src.fields
    requires PartlyMerged(root, shape, dst, src, out, keys[..i])
    ensures PartlyMerged(root, shape, dst, src,
      Object(out.fields[keys[i] := MergeField(root, shape, dst, src, keys[i])]), keys[..i + 1])
  {
    assert keys[..i + 1] == keys[..i] + [keys[i]];
  }

  lemma PartlyMergedAll(root: Schema, shape: Shape, dst: Value, src: Value, out: Value, keys: seq<string>)
    requires dst.Object? && src.Object?
    requires forall k | k in src.fields :: k in keys
    requires PartlyMerged(root, shape, dst, src, out, keys)
    ensures out == MergeObject(root, shape, dst, src)
  {
    assert out.fields == MergeObject(root, shape, dst, src).fields;
  }

  ghost predicate MergedLog(was: Log, now: Log, root: Schema, shape: Shape, dst: Value, src: Value, path: Path, o: Origin,
                            locations: map<string, Location>, done: seq<string>)
    requires dst.Object? && src.Object?
  {
    forall q :: History(now, q) == History(was, q) +
                Merged(root, shape, dst, src, path, o, locations, q, done, History(was, q) != [])
  }

  /** One path's history, from before the walk, over the members in done, to one member more. */
  lemma MergedAt(was: seq<Origin>, mid: seq<Origin>, now: seq<Origin>, root: Schema, shape: Shape, dst: Value, src: Value,
                 path: Path, o: Origin, locations: map<string, Location>, q: Path, keys: seq<string>, i: nat)
    requires dst.Object? && src.Object?
    requires i < |keys| && keys[i] !in keys[..i] && keys[i] in src.fields
    requires mid == was + Merged(root, shape, dst, src, path, o, locations, q, keys[..i], was != [])
    requires now == mid + MemberDelta(root, shape, dst, src, path + [keys[i]], keys[i], o, locations, q, mid != [])
    ensures now == was + Merged(root, shape, dst, src, path, o, locations, q, keys[..i + 1], was != [])
  {
    var p, logged := path + [keys[i]], was != [];
    var before := Merged(root, shape, dst, src, path, o, locations, q, keys[..i], logged);
    var member := MemberDelta(root, shape, dst, src, p, keys[i], o, locations, q, logged);
    MergedStep(root, shape, dst, src, path, o, locations, q, keys, i, logged);
    if Extends(q, p) {
      assert mid == was + [] == was;
    } else {
      MemberDeltaElsewhere(root, shape, dst, src, p, keys[i], o, locations, q, logged);
      MemberDeltaElsewhere(root, shape, dst, src, p, keys[i], o, locations, q, mid != []);
    }
    Reassociate(was, before, member);
  }

  lemma Reassociate(a: seq<Origin>, b: seq<Origin>, c: seq<Origin>)
    ensures (a + b) + c == a + (b + c)
  {
  }

  lemma MemberDeltaElsewhere(root: Schema, shape: Shape, dst: Value, src: Value, p: Path, key: string, o: Origin,
                             locations: map<string, Location>, q: Path, logged: bool)
    requires dst.Object? && src.Object? && key in src.fields && !Extends(q, p)
    ensures MemberDelta(root, shape, dst, src, p, key, o, locations, q, logged) == []
  {
  }

  lemma MergedLogStep(was: Log, mid: Log, now: Log, root: Schema, shape: Shape, dst: Value, src: Value, path: Path,
                      o: Origin, locations: map<string, Location>, keys: seq<string>, i: nat)
    requires dst.Object? && src.Object?
    requires i < |keys| && keys[i] !in keys[..i] && keys[i] in src.fields
    requires MergedLog(was, mid, root, shape, dst, src, path, o, locations, keys[..i])
    requires forall q :: History(now, q) == History(mid, q) +
               MemberDelta(root, shape, dst, src, path + [keys[i]], keys[i], o, locations, q, History(mid, q) != [])
    ensures MergedLog(was, now, root, shape, dst, src, path, o, locations, keys[..i + 1])
  {
    forall q ensures History(now, q) == History(was, q) +
      Merged(root, shape, dst, src, path, o, locations, q, keys[..i + 1], History(was, q) != [])
    {
      MergedAt(History(was, q), History(mid, q), History(now, q), root, shape, dst, src, path, o, locations, q, keys, i);
    }
  }

  lemma ReplacedLog(was: Log, mid: Log, now: Log, root: Schema, shape: Shape, dst: Value, src: Value, key: string, p: Path,
                    o: Origin, locations: map<string, Location>)
    requires dst.Object? && src.Object? && key in src.fields
    requires Replaces(FieldAt(shape, key), Member(dst, key), src.fields[key])
    requires forall q :: History(mid, q) == History(was, q) +
               (if Member(dst, key).Some? && StrictlyExtends(q, p) && History(was, q) != [] then [o.(operation := "replaced")] else [])
    requires forall q :: History(now, q) == History(mid, q) +
               (if Extends(q, p) then RecordDelta(src.fields[key], p, o, locations, q[|p|..]) else [])
    ensures forall q :: History(now, q) == History(was, q) +
              MemberDelta(root, shape, dst, src, p, key, o, locations, q, History(was, q) != [])
  {
  }

  lemma DescendedAt(was: seq<Origin>, mid: seq<Origin>, now: seq<Origin>, root: Schema, shape: Shape, dst: Value, src: Value,
                    key: string, p: Path, o: Origin, locations: map<string, Location>, q: Path)
    requires dst.Object? && src.Object? && key in src.fields
    requires !Replaces(FieldAt(shape, key), Member(dst, key), src.fields[key])
    requires mid == was + (if q == p then [Located(o, p, locations)] else [])
    requires now == mid +
               (if Extends(q, p) then
                  MergeDelta(root, Below(root, FieldAt(shape, key), dst.fields[key].fields), dst.fields[key], src.fields[key],
                             p, o, locations, q[|p|..], mid != [])
                else [])
    ensures now == was + MemberDelta(root, shape, dst, src, p, key, o, locations, q, was != [])
  {
    var field, lower, upper := FieldAt(shape, key), dst.fields[key], src.fields[key];
    var here := if q == p then [Located(o, p, locations)] else [];
    var below := if Extends(q, p) then
                   MergeDelta(root, Below(root, field, lower.fields), lower, upper, p, o, locations, q[|p|..], was != [])
                 else [];
    if q == p {
      assert q[|p|..] == [] && below == [];
    } else {
      assert mid == was;
    }
    assert now == mid + below;
    Reassociate(was, here, below);
  }

  lemma DescendedLog(was: Log, mid: Log, now: Log, root: Schema, shape: Shape, dst: Value, src: Value, key: string, p: Path,
                     o: Origin, locations: map<string, Location>)
    requires dst.Object? && src.Object? && key in src.fields
    requires !Replaces(FieldAt(shape, key), Member(dst, key), src.fields[key])
    requires forall q :: History(mid, q) == History(was, q) + (if q == p then [Located(o, p, locations)] else [])
    requires forall q :: History(now, q) == History(mid, q) +
               (if Extends(q, p) then
                  MergeDelta(root, Below(root, FieldAt(shape, key), dst.fields[key].fields), dst.fields[key], src.fields[key],
                             p, o, locations, q[|p|..], History(mid, q) != [])
                else [])
    ensures forall q :: History(now, q) == History(was, q) +
              MemberDelta(root, shape, dst, src, p, key, o, locations, q, History(was, q) != [])
  {
    forall q ensures History(now, q) == History(was, q) +
      MemberDelta(root, shape, dst, src, p, key, o, locations, q, History(was, q) != [])
    {
      DescendedAt(History(was, q), History(mid, q), History(now, q), root, shape, dst, src, key, p, o, locations, q);
    }
  }

  ghost predicate LayerLogged(was: Log, now: Log, root: Schema, v: Value, name: string, layer: Layer)
    requires v.Object?
  {
    forall q :: History(now, q) == LayerHistory(root, v, name, layer, q, History(was, q))
  }

  /** After i edits the rest of them lead to the same history as all of them did. */
  ghost predicate EditsLogged(was: Log, now: Log, name: string, layer: Layer, i: nat)
    requires i <= |layer.edits|
  {
    forall q :: EditsHistory(name, layer, layer.edits[i..], q, History(now, q)) ==
                EditsHistory(name, layer, layer.edits, q, History(was, q))
  }

  class Merger {
    var values: Fields
    var origins: map<string, seq<Origin>>
    const schema: Schema

    constructor (schema: Schema)
      ensures values == map[] && origins == map[] && this.schema == schema
    {
      this.schema := schema;
      values, origins := map[], map[];
    }

    /** Appends o, with the nearest location of path, to the history of path. */
    method Add(path: Path, o: Origin, locations: map<string, Location>)
      requires LogValid(origins)
      modifies this`origins
      ensures LogValid(origins)
      ensures forall q :: History(origins, q) == old(History(origins, q)) +
                (if q == path then [Located(o, path, locations)] else [])
    {
      var i, found, done := |path|, o, false;
      assert path[..|path|] == path;
      while i >= 0 && !done
        invariant -1 <= i <= |path|
        invariant done ==> found == Located(o, path, locations)
        invariant !done ==> found == o
        invariant !done && i >= 0 ==> Nearest(locations, path) == Nearest(locations, path[..i])
        invariant !done && i < 0 ==> Nearest(locations, path) == None
        decreases i, !done
      {
        if Pointer(path[..i]) in locations {
          found, done := o.(location := locations[Pointer(path[..i])]), true;
        } else {
          assert i > 0 ==> path[..i][..|path[..i]| - 1] == path[..i - 1];
          i := i - 1;
        }
      }
      ghost var was := origins;
      origins := origins[Pointer(path) := History(origins, path) + [found]];
      forall q ensures History(origins, q) == History(was, q) + if q == path then [found] else [] {
        if q != path && Pointer(q) == Pointer(path) { PointerInjective(q, path); }
      }
    }

    /** Appends o to the history of every recorded path strictly below path. */
    method Invalidate(path: Path, o: Origin)
      requires LogValid(origins)
      modifies this`origins
      ensures LogValid(origins)
      ensures forall q :: History(origins, q) == old(History(origins, q)) +
                (if StrictlyExtends(q, path) && old(History(origins, q)) != [] then [o] else [])
    {
      var prefix := Pointer(path) + "/";
      ghost var was := origins;
      var todo := origins.Keys;
      while todo != {}
        invariant todo <= was.Keys == origins.Keys
        invariant forall k | k in was :: origins[k] == was[k] + if k !in todo && prefix <= k then [o] else []
        decreases todo
      {
        var key :| key in todo;
        if prefix <= key { origins := origins[key := origins[key] + [o]]; }
        todo := todo - {key};
      }
      forall q ensures History(origins, q) ==
        History(was, q) + if StrictlyExtends(q, path) && History(was, q) != [] then [o] else []
      {
        PrefixIsDescent(path, q);
      }
    }

    /** Records o at path and at everything within v, lists and objects alike. */
    method RecordTree(v: Value, path: Path, o: Origin, locations: map<string, Location>)
      requires LogValid(origins)
      modifies this`origins
      ensures LogValid(origins)
      ensures forall q :: History(origins, q) == old(History(origins, q)) +
                (if Extends(q, path) then RecordDelta(v, path, o, locations, q[|path|..]) else [])
      decreases v, 1
    {
      ghost var was := origins;
      Add(path, o, locations);
      forall q { RecordedNone(v, path, o, locations, q); }
      match v
      case Object(fields) => RecordFields(v, path, o, locations, was);
      case List(items) => RecordItems(v, path, o, locations, was);
      case _ => RecordedLogAll(was, origins, v, path, o, locations, []);
    }

    method RecordFields(v: Value, path: Path, o: Origin, locations: map<string, Location>, ghost was: Log)
      requires v.Object? && LogValid(origins) && RecordedLog(was, origins, v, path, o, locations, [])
      modifies this`origins
      ensures LogValid(origins)
      ensures forall q :: History(origins, q) == History(was, q) +
                (if Extends(q, path) then RecordDelta(v, path, o, locations, q[|path|..]) else [])
      decreases v, 0, 1
    {
      var keys := Sorted(v.fields.Keys);
      SortedMembers(v, keys);
      RecordEach(v, keys, path, o, locations, was);
      RecordedLogAll(was, origins, v, path, o, locations, keys);
    }

    method RecordEach(v: Value, keys: seq<string>, path: Path, o: Origin, locations: map<string, Location>, ghost was: Log)
      requires Segments(v, keys) && LogValid(origins) && RecordedLog(was, origins, v, path, o, locations, [])
      modifies this`origins
      ensures LogValid(origins) && RecordedLog(was, origins, v, path, o, locations, keys)
      decreases v, 0, 0
    {
      for i := 0 to |keys|
        invariant LogValid(origins) && RecordedLog(was, origins, v, path, o, locations, keys[..i])
      {
        RecordChild(v, Child(v, keys[i]).value, keys[i], path, o, locations, was, keys, i);
      }
      assert keys[..|keys|] == keys;
    }

    method RecordItems(v: Value, path: Path, o: Origin, locations: map<string, Location>, ghost was: Log)
      requires v.List? && LogValid(origins) && RecordedLog(was, origins, v, path, o, locations, [])
      modifies this`origins
      ensures LogValid(origins)
      ensures forall q :: History(origins, q) == History(was, q) +
                (if Extends(q, path) then RecordDelta(v, path, o, locations, q[|path|..]) else [])
      decreases v, 0
    {
      ghost var keys := Indexes(|v.items|);
      for i := 0 to |v.items|
        invariant LogValid(origins) && RecordedLog(was, origins, v, path, o, locations, keys[..i])
      {
        IndexOfItoa(i, |v.items|);
        RecordChild(v, v.items[i], Itoa(i), path, o, locations, was, keys, i);
      }
      assert keys[..|keys|] == keys;
      forall k | Child(v, k).Some? ensures k in keys {
        assert keys[IndexOf(k, |v.items|).value] == k;
      }
      RecordedLogAll(was, origins, v, path, o, locations, keys);
    }

    /** The body of both loops: one member or element of v. */
    method RecordChild(v: Value, c: Value, key: string, path: Path, o: Origin, locations: map<string, Location>,
                       ghost was: Log, ghost keys: seq<string>, ghost i: nat)
      requires i < |keys| && keys[i] == key && key !in keys[..i] && Child(v, key) == Some(c)
      requires LogValid(origins) && RecordedLog(was, origins, v, path, o, locations, keys[..i])
      modifies this`origins
      ensures LogValid(origins) && RecordedLog(was, origins, v, path, o, locations, keys[..i + 1])
      decreases c, 2
    {
      ghost var mid := origins;
      RecordTree(c, path + [key], o, locations);
      RecordedLogStep(was, mid, origins, v, c, path, o, locations, keys, i);
    }

    /** Merges src into dst, which both stand at path, and logs every write. */
    method MergeMap(dst: Value, src: Value, path: Path, shape: Shape, o: Origin, locations: map<string, Location>)
      returns (out: Value)
      requires dst.Object? && src.Object? && LogValid(origins)
      modifies this`origins
      ensures out == MergeObject(schema, shape, dst, src)
      ensures LogValid(origins)
      ensures forall q :: History(origins, q) == old(History(origins, q)) +
                (if Extends(q, path) then
                   MergeDelta(schema, shape, dst, src, path, o, locations, q[|path|..], old(History(origins, q)) != [])
                 else [])
      decreases src, 1
    {
      ghost var was := origins;
      out := dst;
      var keys := Sorted(src.fields.Keys);
      for i := 0 to |keys|
        invariant LogValid(origins)
        invariant PartlyMerged(schema, shape, dst, src, out, keys[..i])
        invariant MergedLog(was, origins, schema, shape, dst, src, path, o, locations, keys[..i])
      {
        assert keys[i] !in keys[..i];
        ghost var mid := origins;
        PartlyMergedStep(schema, shape, dst, src, out, keys, i);
        var merged := MergeMember(dst, src, keys[i], path + [keys[i]], shape, o, locations);
        out := Object(out.fields[keys[i] := merged]);
        MergedLogStep(was, mid, origins, schema, shape, dst, src, path, o, locations, keys, i);
      }
      assert keys[..|keys|] == keys;
      forall q { MergedAll(schema, shape, dst, src, path, o, locations, q, keys, History(was, q) != []); }
      PartlyMergedAll(schema, shape, dst, src, out, keys);
    }

    /** The body of MergeMap's loop: one member of src, whose path is p. */
    method MergeMember(dst: Value, src: Value, key: string, p: Path, shape: Shape, o: Origin, locations: map<string, Location>)
      returns (merged: Value)
      requires dst.Object? && src.Object? && key in src.fields && LogValid(origins)
      modifies this`origins
      ensures merged == MergeField(schema, shape, dst, src, key)
      ensures LogValid(origins)
      ensures forall q :: History(origins, q) == old(History(origins, q)) +
                MemberDelta(schema, shape, dst, src, p, key, o, locations, q, old(History(origins, q)) != [])
      decreases src, 0
    {
      var field, lower, upper := FieldAt(shape, key), Member(dst, key), src.fields[key];
      ghost var was := origins;
      if Replaces(field, lower, upper) {
        if lower.Some? { Invalidate(p, o.(operation := "replaced")); }
        merged := upper;
        ghost var mid := origins;
        RecordTree(upper, p, o, locations);
        ReplacedLog(was, mid, origins, schema, shape, dst, src, key, p, o, locations);
      } else {
        Add(p, o, locations);
        ghost var mid := origins;
        merged := MergeMap(lower.value, upper, p, Below(schema, field, lower.value.fields), o, locations);
        DescendedLog(was, mid, origins, schema, shape, dst, src, key, p, o, locations);
      }
    }

    /** Applies a layer: its values, then its edits in order. On an error the merger is discarded. */
    method Apply(name: string, layer: Layer) returns (failure: Option<MergeError>)
      requires LogValid(origins)
      modifies this
      ensures failure.Some? ==> ApplyLayer(schema, Object(old(values)), layer) == Err(failure.value)
      ensures failure.None? ==> LogValid(origins)
      ensures failure.None? ==> ApplyLayer(schema, Object(old(values)), layer) == Ok(Object(values))
      ensures failure.None? ==> LayerLogged(old(origins), origins, schema, Object(old(values)), name, layer)
    {
      ghost var was := origins;
      if layer.values.Some? {
        if !Clonable(Object(layer.values.value), 0) { return Some(NestingExceeded); }
        var merged := MergeMap(Object(values), Object(layer.values.value), [], RootShape(schema), SetOrigin(name, layer), layer.locations);
        values := merged.fields;
        forall q: Path ensures q[0..] == q {}
      }
      ghost var mid := origins;
      ghost var start := Object(values);
      assert layer.edits[0..] == layer.edits;
      assert ApplyValues(schema, Object(old(values)), layer.values) == Ok(start);
      for i := 0 to |layer.edits|
        invariant LogValid(origins)
        invariant ApplyEdits(start, layer.edits) == ApplyEdits(Object(values), layer.edits[i..])
        invariant EditsLogged(mid, origins, name, layer, i)
      {
        var problem := ApplyOne(name, layer, i);
        if problem.Some? { return problem; }
      }
      forall q ensures History(origins, q) ==
        LayerHistory(schema, Object(old(values)), name, layer, q, History(was, q)) {
        assert layer.edits[|layer.edits|..] == [];
      }
      failure := None;
    }

    /** One pass of Apply's loop over the edits. */
    method ApplyOne(name: string, layer: Layer, i: nat) returns (failure: Option<MergeError>)
      requires i < |layer.edits| && LogValid(origins)
      modifies this
      ensures failure.Some? ==> ApplyEdits(Object(old(values)), layer.edits[i..]) == Err(failure.value)
      ensures failure.None? ==> LogValid(origins)
      ensures failure.None? ==> ApplyEdits(Object(old(values)), layer.edits[i..]) == ApplyEdits(Object(values), layer.edits[i + 1..])
      ensures failure.None? ==>
                forall q :: History(origins, q) == old(History(origins, q)) +
                  EditDelta(layer.edits[i], EditOrigin(name, layer, layer.edits[i]), layer.locations, q, old(History(origins, q)) != [])
    {
      var edit := layer.edits[i];
      assert layer.edits[i..][0] == edit && layer.edits[i..][1..] == layer.edits[i + 1..];
      if edit.kind == UnknownKind { return Some(UnknownEdit); }
      if edit.path == [] { return Some(RootEdit); }
      var edited := EditTree(Object(values), edit.path, edit);
      if edited.Err? { return Some(edited.error); }
      var o := EditOrigin(name, layer, edit);
      Invalidate(edit.path, o);
      if edit.kind == Delete {
        Add(edit.path, o, layer.locations);
      } else {
        if !Clonable(edit.value, 0) { return Some(NestingExceeded); }
        RecordTree(edit.value, edit.path, o, layer.locations);
      }
      values := edited.value.fields;
      failure := None;
    }
  }
}
