/** runtime.go's changedPaths: a diff of two trees that is exact as a patch. */
module Diffing {
  import opened Basics
  import opened Paths
  import opened Trees

  // ---- The diff, as paths relative to the two trees --------------------

  function Under(segment: string, ps: seq<Path>): (r: seq<Path>)
    ensures |r| == |ps| && forall i | 0 <= i < |r| :: r[i] == [segment] + ps[i]
  {
    if ps == [] then [] else [[segment] + ps[0]] + Under(segment, ps[1..])
  }

  function Diff(a: Option<Value>, b: Option<Value>): seq<Path>
    decreases if a.Some? && b.Some? then 1 else 0, if a.Some? then a.value else Null, 1
  {
    if a == b then []
    else if a.Some? && b.Some? && a.value.Object? && b.value.Object? then
      DiffMembers(a.value, b.value, Sorted(a.value.fields.Keys + b.value.fields.Keys))
    else if a.Some? && b.Some? && a.value.List? && b.value.List? && |a.value.items| == |b.value.items| then
      DiffItems(a.value, b.value, 0)
    else [[]]
  }

  function DiffMembers(a: Value, b: Value, keys: seq<string>): seq<Path>
    requires a.Object? && b.Object?
    decreases 1, a, 0, |keys|
  {
    if keys == [] then []
    else Under(keys[0], Diff(Get(a.fields, keys[0]), Get(b.fields, keys[0]))) + DiffMembers(a, b, keys[1..])
  }

  function DiffItems(a: Value, b: Value, i: nat): seq<Path>
    requires a.List? && b.List? && |a.items| == |b.items| && i <= |a.items|
    decreases 1, a, 0, |a.items| - i
  {
    if i == |a.items| then []
    else Under(Itoa(i), Diff(Some(a.items[i]), Some(b.items[i]))) + DiffItems(a, b, i + 1)
  }

  // ---- The walk ---------------------------------------------------------

  function Prefixed(path: Path, ps: seq<Path>): (r: seq<Path>)
    ensures |r| == |ps| && forall i | 0 <= i < |r| :: r[i] == path + ps[i]
  {
    if ps == [] then [] else [path + ps[0]] + Prefixed(path, ps[1..])
  }

  lemma PrefixedConcat(path: Path, ps: seq<Path>, qs: seq<Path>)
    ensures Prefixed(path, ps + qs) == Prefixed(path, ps) + Prefixed(path, qs)
  {
  }

  lemma PrefixedUnder(path: Path, segment: string, ps: seq<Path>)
    ensures Prefixed(path, Under(segment, ps)) == Prefixed(path + [segment], ps)
  {
    forall i | 0 <= i < |ps| ensures path + ([segment] + ps[i]) == path + [segment] + ps[i] {}
  }

  /** The recursive closure and the slice it appends to. */
  class Walker {
    var out: seq<Path>

    constructor ()
      ensures out == []
    {
      out := [];
    }

    method Walk(a: Option<Value>, b: Option<Value>, path: Path)
      modifies this
      ensures out == old(out) + Prefixed(path, Diff(a, b))
      decreases if a.Some? && b.Some? then 1 else 0, if a.Some? then a.value else Null, 1
    {
      if a == b {
      } else if a.Some? && b.Some? && a.value.Object? && b.value.Object? {
        WalkMembers(a.value, b.value, path);
      } else if a.Some? && b.Some? && a.value.List? && b.value.List? && |a.value.items| == |b.value.items| {
        WalkItems(a.value, b.value, path);
      } else {
        out := out + [path];
        ghost var here: seq<Path> := [[]];
        assert path + [] == path && Prefixed(path, here) == [path];
      }
    }

    method WalkMembers(a: Value, b: Value, path: Path)
      requires a.Object? && b.Object?
      modifies this
      ensures out == old(out) + Prefixed(path, DiffMembers(a, b, Sorted(a.fields.Keys + b.fields.Keys)))
      decreases 1, a, 0
    {
      var keys := Sorted(a.fields.Keys + b.fields.Keys);
      ghost var whole := Prefixed(path, DiffMembers(a, b, keys));
      for i := 0 to |keys|
        invariant out + Prefixed(path, DiffMembers(a, b, keys[i..])) == old(out) + whole
      {
        ghost var was := out;
        MembersStep(a, b, path, keys, i, was);
        Walk(Get(a.fields, keys[i]), Get(b.fields, keys[i]), path + [keys[i]]);
      }
      assert keys[|keys|..] == [];
      assert out + [] == out;
    }

    method WalkItems(a: Value, b: Value, path: Path)
      requires a.List? && b.List? && |a.items| == |b.items|
      modifies this
      ensures out == old(out) + Prefixed(path, DiffItems(a, b, 0))
      decreases 1, a, 0
    {
      ghost var whole := Prefixed(path, DiffItems(a, b, 0));
      for i := 0 to |a.items|
        invariant out + Prefixed(path, DiffItems(a, b, i)) == old(out) + whole
      {
        ghost var was := out;
        ItemsStep(a, b, path, i, was);
        Walk(Some(a.items[i]), Some(b.items[i]), path + [Itoa(i)]);
      }
      assert out + [] == out;
    }
  }

  lemma MembersStep(a: Value, b: Value, path: Path, keys: seq<string>, i: nat, was: seq<Path>)
    requires a.Object? && b.Object? && i < |keys|
    ensures was + Prefixed(path, DiffMembers(a, b, keys[i..])) ==
            was + Prefixed(path + [keys[i]], Diff(Get(a.fields, keys[i]), Get(b.fields, keys[i]))) +
            Prefixed(path, DiffMembers(a, b, keys[i + 1..]))
  {
    var first := Diff(Get(a.fields, keys[i]), Get(b.fields, keys[i]));
    assert keys[i..][0] == keys[i] && keys[i..][1..] == keys[i + 1..];
    PrefixedConcat(path, Under(keys[i], first), DiffMembers(a, b, keys[i + 1..]));
    PrefixedUnder(path, keys[i], first);
  }

  lemma ItemsStep(a: Value, b: Value, path: Path, i: nat, was: seq<Path>)
    requires a.List? && b.List? && |a.items| == |b.items| && i < |a.items|
    ensures was + Prefixed(path, DiffItems(a, b, i)) ==
            was + Prefixed(path + [Itoa(i)], Diff(Some(a.items[i]), Some(b.items[i]))) + Prefixed(path, DiffItems(a, b, i + 1))
  {
    var first := Diff(Some(a.items[i]), Some(b.items[i]));
    PrefixedConcat(path, Under(Itoa(i), first), DiffItems(a, b, i + 1));
    PrefixedUnder(path, Itoa(i), first);
  }

  lemma PrefixedNothing(ps: seq<Path>)
    ensures Prefixed([], ps) == ps
  {
    forall i | 0 <= i < |ps| ensures Prefixed([], ps)[i] == ps[i] {
      assert [] + ps[i] == ps[i];
    }
  }

  /** The paths reported between two published trees. */
  method ChangedPaths(a: Fields, b: Fields) returns (out: seq<Path>)
    ensures out == Diff(Some(Object(a)), Some(Object(b)))
  {
    var x, y := Some(Object(a)), Some(Object(b));
    ghost var diff := Diff(x, y);
    PrefixedNothing(diff);
    assert [] + diff == diff;
    var walker := new Walker();
    walker.Walk(x, y, []);
    out := walker.out;
  }

  // ---- Patching ---------------------------------------------------------

  function ReachIn(v: Option<Value>, path: Path): Option<Value> {
    if v.None? then None else Reach(v.value, path)
  }

  function SetMember(f: Fields, key: string, x: Option<Value>): Fields {
    if x.Some? then f[key := x.value] else f - {key}
  }

  /** Puts x, or its absence, at a path; where the path leads nowhere nothing changes. */
  function Put(v: Option<Value>, path: Path, x: Option<Value>): Option<Value>
    decreases path
  {
    if path == [] then x
    else if v.None? then None
    else match v.value
      case Object(f) => Some(Object(SetMember(f, path[0], Put(Get(f, path[0]), path[1..], x))))
      case List(items) =>
        (match IndexOf(path[0], |items|)
         case None => v
         case Some(i) =>
           match Put(Some(items[i]), path[1..], x)
           case None => v
           case Some(c) => Some(List(items[i := c])))
      case _ => v
  }

  /** Copies b's value, or absence, into a at each path in turn. */
  function Patch(a: Option<Value>, b: Option<Value>, ps: seq<Path>): Option<Value>
    decreases |ps|
  {
    if ps == [] then a else Patch(Put(a, ps[0], ReachIn(b, ps[0])), b, ps[1..])
  }

  lemma {:induction false} PatchConcat(a: Option<Value>, b: Option<Value>, ps: seq<Path>, qs: seq<Path>)
    ensures Patch(a, b, ps + qs) == Patch(Patch(a, b, ps), b, qs)
    decreases |ps|
  {
    if ps == [] {
      assert ps + qs == qs;
    } else {
      assert (ps + qs)[0] == ps[0] && (ps + qs)[1..] == ps[1..] + qs;
      PatchConcat(Put(a, ps[0], ReachIn(b, ps[0])), b, ps[1..], qs);
    }
  }

  lemma {:induction false} PatchUnderMember(f: Fields, g: Fields, key: string, ps: seq<Path>)
    ensures Patch(Some(Object(f)), Some(Object(g)), Under(key, ps)) ==
            Some(Object(SetMember(f, key, Patch(Get(f, key), Get(g, key), ps))))
    decreases |ps|
  {
    var us := Under(key, ps);
    if ps == [] {
      assert SetMember(f, key, Get(f, key)) == f;
    } else {
      assert us[0][1..] == ps[0] && us[1..] == Under(key, ps[1..]);
      var x := Put(Get(f, key), ps[0], ReachIn(Get(g, key), ps[0]));
      var f' := SetMember(f, key, x);
      PatchUnderMember(f', g, key, ps[1..]);
      var y := Patch(x, Get(g, key), ps[1..]);
      assert Get(f', key) == x;
      assert SetMember(f', key, y) == SetMember(f, key, y);
    }
  }

  lemma {:induction false} PatchUnderItem(items: seq<Value>, others: seq<Value>, i: nat, ps: seq<Path>)
    requires i < |items| == |others|
    requires forall j | 0 <= j < |ps| :: ReachIn(Some(others[i]), ps[j]).Some? || ps[j] != []
    requires Patch(Some(items[i]), Some(others[i]), ps).Some?
    ensures var c := Patch(Some(items[i]), Some(others[i]), ps).value;
      Patch(Some(List(items)), Some(List(others)), Under(Itoa(i), ps)) == Some(List(items[i := c]))
    decreases |ps|
  {
    var us := Under(Itoa(i), ps);
    IndexOfItoa(i, |items|);
    if ps == [] {
      assert items[i := items[i]] == items;
    } else {
      assert us[0][0] == Itoa(i) && us[0][1..] == ps[0] && us[1..] == Under(Itoa(i), ps[1..]);
      var x := Put(Some(items[i]), ps[0], ReachIn(Some(others[i]), ps[0]));
      PutSome(items[i], ps[0], ReachIn(Some(others[i]), ps[0]));
      PatchUnderItem(items[i := x.value], others, i, ps[1..]);
      var c := Patch(x, Some(others[i]), ps[1..]).value;
      assert items[i := x.value][i := c] == items[i := c];
    }
  }

  lemma PutSome(v: Value, path: Path, x: Option<Value>)
    requires x.Some? || path != []
    ensures Put(Some(v), path, x).Some?
  {
  }

  // ---- The diff is exact -------------------------------------------------

  lemma {:induction false} PatchMakesEqual(a: Option<Value>, b: Option<Value>)
    ensures Patch(a, b, Diff(a, b)) == b
    decreases if a.Some? && b.Some? then 1 else 0, if a.Some? then a.value else Null, 1
  {
    if a == b {
    } else if a.Some? && b.Some? && a.value.Object? && b.value.Object? {
      var keys := Sorted(a.value.fields.Keys + b.value.fields.Keys);
      var f := PatchMembers(a.value, b.value, keys, a.value.fields);
      SameMembers(f, b.value.fields);
    } else if a.Some? && b.Some? && a.value.List? && b.value.List? && |a.value.items| == |b.value.items| {
      PatchItems(a.value, b.value, 0);
      assert b.value.items[..0] + a.value.items[0..] == a.value.items;
    } else {
      var root: seq<Path> := [[]];
      assert Diff(a, b) == root && root[1..] == [];
      assert ReachIn(b, []) == b;
      assert Patch(b, b, []) == b;
    }
  }

  lemma SameMembers(f: Fields, g: Fields)
    requires forall k :: Get(f, k) == Get(g, k)
    ensures f == g
  {
    forall k ensures k in f <==> k in g { assert Get(f, k) == Get(g, k); }
    forall k | k in f ensures f[k] == g[k] { assert Get(f, k) == Get(g, k); }
  }

  lemma {:induction false} PatchMembers(a: Value, b: Value, keys: seq<string>, f: Fields) returns (out: Fields)
    requires a.Object? && b.Object?
    requires forall k | k in keys :: Get(f, k) == Get(a.fields, k)
    requires forall i, j | 0 <= i < j < |keys| :: keys[i] != keys[j]
    ensures Patch(Some(Object(f)), Some(b), DiffMembers(a, b, keys)) == Some(Object(out))
    ensures forall k :: Get(out, k) == if k in keys then Get(b.fields, k) else Get(f, k)
    decreases 1, a, 0, |keys|
  {
    out := f;
    if keys != [] {
      var k := keys[0];
      var ps := Diff(Get(a.fields, k), Get(b.fields, k));
      PatchMakesEqual(Get(a.fields, k), Get(b.fields, k));
      PatchUnderMember(f, b.fields, k, ps);
      PatchConcat(Some(Object(f)), Some(b), Under(k, ps), DiffMembers(a, b, keys[1..]));
      var mid := SetMember(f, k, Get(b.fields, k));
      assert b == Object(b.fields);
      forall j | j in keys[1..] ensures Get(mid, j) == Get(a.fields, j) {
        assert j in keys && j != k;
      }
      out := PatchMembers(a, b, keys[1..], mid);
    }
  }

  /** One element more of b, then the rest of a. */
  lemma OneItemMore(xs: seq<Value>, ys: seq<Value>, i: nat)
    requires i < |xs| == |ys|
    ensures var now := ys[..i] + xs[i..];
      |now| == |ys| && now[i] == xs[i] && now[i := ys[i]] == ys[..i + 1] + xs[i + 1..]
  {
  }

  lemma {:induction false} PatchItems(a: Value, b: Value, i: nat)
    requires a.List? && b.List? && |a.items| == |b.items| && i <= |a.items|
    ensures Patch(Some(List(b.items[..i] + a.items[i..])), Some(b), DiffItems(a, b, i)) == Some(b)
    decreases 1, a, 0, |a.items| - i
  {
    var now := b.items[..i] + a.items[i..];
    if i < |a.items| {
      PatchMakesEqual(Some(a.items[i]), Some(b.items[i]));
      PatchItem(a, b, i);
      PatchItems(a, b, i + 1);
    } else {
      assert now == b.items;
    }
  }

  lemma PatchItem(a: Value, b: Value, i: nat)
    requires a.List? && b.List? && |a.items| == |b.items| && i < |a.items|
    requires Patch(Some(a.items[i]), Some(b.items[i]), Diff(Some(a.items[i]), Some(b.items[i]))) == Some(b.items[i])
    ensures Patch(Some(List(b.items[..i] + a.items[i..])), Some(b), DiffItems(a, b, i)) ==
            Patch(Some(List(b.items[..i + 1] + a.items[i + 1..])), Some(b), DiffItems(a, b, i + 1))
  {
    var now, ps := b.items[..i] + a.items[i..], Diff(Some(a.items[i]), Some(b.items[i]));
    OneItemMore(a.items, b.items, i);
    PatchUnderItem(now, b.items, i, ps);
    assert b == List(b.items);
    PatchConcat(Some(List(now)), Some(b), Under(Itoa(i), ps), DiffItems(a, b, i + 1));
  }

  // ---- Its paths are independent, and each marks a difference -------------

  ghost predicate Antichain(ps: seq<Path>) {
    forall i, j | 0 <= i < j < |ps| :: !Comparable(ps[i], ps[j])
  }

  /** A difference that lies here and not further down: a side is missing, or the two have no common shape. */
  predicate Part(x: Option<Value>, y: Option<Value>) {
    x != y &&
    (x.None? || y.None? ||
     (!(x.value.Object? && y.value.Object?) &&
      !(x.value.List? && y.value.List? && |x.value.items| == |y.value.items|)))
  }

  ghost predicate Differ(a: Option<Value>, b: Option<Value>, ps: seq<Path>) {
    forall i | 0 <= i < |ps| :: Part(ReachIn(a, ps[i]), ReachIn(b, ps[i]))
  }

  lemma {:induction false} DiffIsSharp(a: Option<Value>, b: Option<Value>)
    ensures Antichain(Diff(a, b)) && Differ(a, b, Diff(a, b))
    decreases if a.Some? && b.Some? then 1 else 0, if a.Some? then a.value else Null, 1
  {
    if a == b {
    } else if a.Some? && b.Some? && a.value.Object? && b.value.Object? {
      MembersSharp(a.value, b.value, Sorted(a.value.fields.Keys + b.value.fields.Keys));
    } else if a.Some? && b.Some? && a.value.List? && b.value.List? && |a.value.items| == |b.value.items| {
      ItemsSharp(a.value, b.value, 0);
    }
  }

  lemma ConsComparable(segment: string, p: Path, q: Path)
    ensures Comparable([segment] + p, [segment] + q) <==> Comparable(p, q)
  {
    var sp, sq := [segment] + p, [segment] + q;
    assert sp[1..] == p && sq[1..] == q;
    assert sp <= sq ==> sp[1..] <= sq[1..];
    assert sq <= sp ==> sq[1..] <= sp[1..];
  }

  lemma UnderSharp(segment: string, ps: seq<Path>, rest: seq<Path>)
    requires Antichain(ps) && Antichain(rest)
    requires forall i | 0 <= i < |rest| :: rest[i] != [] && rest[i][0] != segment
    ensures Antichain(Under(segment, ps) + rest)
  {
    var us := Under(segment, ps);
    forall i, j | 0 <= i < j < |us + rest| ensures !Comparable((us + rest)[i], (us + rest)[j]) {
      if j < |us| {
        assert !Comparable(ps[i], ps[j]);
        ConsComparable(segment, ps[i], ps[j]);
      } else if i < |us| {
        assert us[i][0] == segment && rest[j - |us|][0] != segment;
      } else {
        assert !Comparable(rest[i - |us|], rest[j - |us|]);
      }
    }
  }

  lemma {:induction false} MembersSharp(a: Value, b: Value, keys: seq<string>)
    requires a.Object? && b.Object?
    requires forall i, j | 0 <= i < j < |keys| :: keys[i] != keys[j]
    ensures Antichain(DiffMembers(a, b, keys)) && Differ(Some(a), Some(b), DiffMembers(a, b, keys))
    ensures forall i | 0 <= i < |DiffMembers(a, b, keys)| ::
              DiffMembers(a, b, keys)[i] != [] && DiffMembers(a, b, keys)[i][0] in keys
    decreases 1, a, 0, |keys|
  {
    if keys != [] {
      var ps, rest := Diff(Get(a.fields, keys[0]), Get(b.fields, keys[0])), DiffMembers(a, b, keys[1..]);
      DiffIsSharp(Get(a.fields, keys[0]), Get(b.fields, keys[0]));
      MembersSharp(a, b, keys[1..]);
      assert keys[0] !in keys[1..];
      UnderSharp(keys[0], ps, rest);
      assert Child(a, keys[0]) == Get(a.fields, keys[0]) && Child(b, keys[0]) == Get(b.fields, keys[0]);
      UnderDiffers(a, b, keys[0], ps);
      DifferConcat(Some(a), Some(b), Under(keys[0], ps), rest);
    }
  }

  lemma {:induction false} ItemsHeads(a: Value, b: Value, i: nat, n: nat)
    requires a.List? && b.List? && |a.items| == |b.items| && i <= |a.items| && n < |DiffItems(a, b, i)|
    ensures DiffItems(a, b, i)[n] != []
    ensures var j := IndexOf(DiffItems(a, b, i)[n][0], |a.items|); j.Some? && j.value >= i
    decreases |a.items| - i
  {
    var first := Under(Itoa(i), Diff(Some(a.items[i]), Some(b.items[i])));
    IndexOfItoa(i, |a.items|);
    if n >= |first| { ItemsHeads(a, b, i + 1, n - |first|); }
  }

  /** A difference below one child is a difference of the whole. */
  lemma UnderDiffers(a: Value, b: Value, key: string, ps: seq<Path>)
    requires a.Object? == b.Object?
    requires Differ(Child(a, key), Child(b, key), ps)
    ensures Differ(Some(a), Some(b), Under(key, ps))
  {
    var us := Under(key, ps);
    forall n | 0 <= n < |us| ensures Part(ReachIn(Some(a), us[n]), ReachIn(Some(b), us[n])) {
      assert us[n][1..] == ps[n] && us[n][0] == key;
      assert Part(ReachIn(Child(a, key), ps[n]), ReachIn(Child(b, key), ps[n]));
    }
  }

  lemma DifferConcat(a: Option<Value>, b: Option<Value>, ps: seq<Path>, qs: seq<Path>)
    requires Differ(a, b, ps) && Differ(a, b, qs)
    ensures Differ(a, b, ps + qs)
  {
  }

  lemma {:induction false} ItemsSharp(a: Value, b: Value, i: nat)
    requires a.List? && b.List? && |a.items| == |b.items| && i <= |a.items|
    ensures Antichain(DiffItems(a, b, i)) && Differ(Some(a), Some(b), DiffItems(a, b, i))
    decreases 1, a, 0, |a.items| - i
  {
    if i < |a.items| {
      var ps, rest := Diff(Some(a.items[i]), Some(b.items[i])), DiffItems(a, b, i + 1);
      DiffIsSharp(Some(a.items[i]), Some(b.items[i]));
      ItemsSharp(a, b, i + 1);
      forall n | 0 <= n < |rest| ensures rest[n] != [] && rest[n][0] != Itoa(i) {
        ItemsHeads(a, b, i + 1, n);
        IndexOfItoa(i, |a.items|);
      }
      UnderSharp(Itoa(i), ps, rest);
      IndexOfItoa(i, |a.items|);
      UnderDiffers(a, b, Itoa(i), ps);
      DifferConcat(Some(a), Some(b), Under(Itoa(i), ps), rest);
    }
  }

  // ---- Its order ------------------------------------------------------------

  /** Where two paths part, members come in code-point order and elements by index. */
  predicate Before(a: Option<Value>, p: Path, q: Path)
    decreases p
  {
    p != [] && q != [] && a.Some? &&
    if p[0] == q[0] then Before(Child(a.value, p[0]), p[1..], q[1..])
    else match a.value
      case Object(_) => Less(p[0], q[0])
      case List(items) =>
        var i, j := IndexOf(p[0], |items|), IndexOf(q[0], |items|);
        i.Some? && j.Some? && i.value < j.value
      case _ => false
  }

  ghost predicate Ordered(a: Option<Value>, ps: seq<Path>) {
    forall i, j | 0 <= i < j < |ps| :: Before(a, ps[i], ps[j])
  }

  lemma UnderOrdered(a: Value, key: string, ps: seq<Path>, rest: seq<Path>)
    requires Ordered(Child(a, key), ps) && Ordered(Some(a), rest)
    requires forall q | q in rest :: Before(Some(a), [key], q) && q[0] != key
    ensures Ordered(Some(a), Under(key, ps) + rest)
  {
    var us := Under(key, ps);
    forall i, j | 0 <= i < j < |us + rest| ensures Before(Some(a), (us + rest)[i], (us + rest)[j]) {
      if j < |us| {
        assert us[i][1..] == ps[i] && us[j][1..] == ps[j];
        assert Before(Child(a, key), ps[i], ps[j]);
      } else if i < |us| {
        var q := rest[j - |us|];
        assert q in rest && us[i][0] == key;
      } else {
        assert Before(Some(a), rest[i - |us|], rest[j - |us|]);
      }
    }
  }

  lemma {:induction false} DiffIsOrdered(a: Option<Value>, b: Option<Value>)
    ensures Ordered(a, Diff(a, b))
    decreases if a.Some? && b.Some? then 1 else 0, if a.Some? then a.value else Null, 1
  {
    if a == b {
    } else if a.Some? && b.Some? && a.value.Object? && b.value.Object? {
      MembersOrdered(a.value, b.value, Sorted(a.value.fields.Keys + b.value.fields.Keys));
    } else if a.Some? && b.Some? && a.value.List? && b.value.List? && |a.value.items| == |b.value.items| {
      ItemsOrdered(a.value, b.value, 0);
    }
  }

  lemma {:induction false} MembersOrdered(a: Value, b: Value, keys: seq<string>)
    requires a.Object? && b.Object?
    requires forall i, j | 0 <= i < j < |keys| :: Less(keys[i], keys[j]) && keys[i] != keys[j]
    ensures Ordered(Some(a), DiffMembers(a, b, keys))
    decreases 1, a, 0, |keys|
  {
    if keys != [] {
      var key, rest := keys[0], DiffMembers(a, b, keys[1..]);
      DiffIsOrdered(Get(a.fields, key), Get(b.fields, key));
      MembersOrdered(a, b, keys[1..]);
      MembersSharp(a, b, keys[1..]);
      forall q | q in rest ensures Before(Some(a), [key], q) && q[0] != key {
        var n :| 0 <= n < |rest| && rest[n] == q;
        assert q[0] in keys[1..];
        assert Less(key, q[0]) && key != q[0];
      }
      UnderOrdered(a, key, Diff(Get(a.fields, key), Get(b.fields, key)), rest);
    }
  }

  lemma {:induction false} ItemsOrdered(a: Value, b: Value, i: nat)
    requires a.List? && b.List? && |a.items| == |b.items| && i <= |a.items|
    ensures Ordered(Some(a), DiffItems(a, b, i))
    decreases 1, a, 0, |a.items| - i
  {
    if i < |a.items| {
      var rest := DiffItems(a, b, i + 1);
      DiffIsOrdered(Some(a.items[i]), Some(b.items[i]));
      ItemsOrdered(a, b, i + 1);
      IndexOfItoa(i, |a.items|);
      forall q | q in rest ensures Before(Some(a), [Itoa(i)], q) && q[0] != Itoa(i) {
        var n :| 0 <= n < |rest| && rest[n] == q;
        ItemsHeads(a, b, i + 1, n);
      }
      UnderOrdered(a, Itoa(i), Diff(Some(a.items[i]), Some(b.items[i])), rest);
    }
  }

  /**
   * The reported paths: a patch; pairwise independent; each a real difference that lies
   * nowhere further down; in order; and none exactly when the trees are equal.
   */
  lemma ChangedPathsAreExact(a: Fields, b: Fields)
    ensures var x, y := Some(Object(a)), Some(Object(b));
      Patch(x, y, Diff(x, y)) == y && Antichain(Diff(x, y)) && Differ(x, y, Diff(x, y)) && Ordered(x, Diff(x, y)) &&
      (Diff(x, y) == [] <==> a == b) && [] !in Diff(x, y)
  {
    var x, y := Some(Object(a)), Some(Object(b));
    PatchMakesEqual(x, y);
    DiffIsSharp(x, y);
    DiffIsOrdered(x, y);
  }
}
