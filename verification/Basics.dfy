/** Stock result types and the ordered enumeration of a map's keys. */
module Basics {
  datatype Option<+T> = None | Some(value: T)

  datatype Result<+T, +E> = Ok(value: T) | Err(error: E)

  function Get<K, V>(m: map<K, V>, key: K): Option<V> {
    if key in m then Some(m[key]) else None
  }

  /** Code-point order, the order in which Go sorts strings. */
  predicate Less(a: string, b: string) {
    b != [] && (a == [] || a[0] < b[0] || (a[0] == b[0] && Less(a[1..], b[1..])))
  }

  lemma {:induction false} LessTotal(a: string, b: string)
    ensures !(Less(a, b) && Less(b, a))
    ensures a == b || Less(a, b) || Less(b, a)
    ensures !Less(a, a)
  {
    if a != [] && b != [] {
      LessTotal(a[1..], b[1..]);
      LessTotal(a[1..], a[1..]);
      assert a == [a[0]] + a[1..] && b == [b[0]] + b[1..];
    } else if a != [] {
      LessTotal(a[1..], a[1..]);
    }
  }

  lemma {:induction false} LessTransitive(a: string, b: string, c: string)
    requires Less(a, b) && Less(b, c)
    ensures Less(a, c)
  {
    if a != [] && a[0] == b[0] == c[0] {
      LessTransitive(a[1..], b[1..], c[1..]);
    }
  }

  predicate IsLeast(k: string, keys: set<string>) {
    k in keys && forall j | j in keys :: j == k || Less(k, j)
  }

  lemma {:induction false} LeastExists(keys: set<string>) returns (k: string)
    requires keys != {}
    ensures IsLeast(k, keys)
    decreases |keys|
  {
    k :| k in keys;
    var rest := keys - {k};
    assert forall j | j in keys :: j == k || j in rest;
    if rest != {} {
      var m := LeastExists(rest);
      LessTotal(k, m);
      forall j | j in rest && Less(k, m)
        ensures Less(k, j)
      {
        if j != m { LessTransitive(k, m, j); }
      }
      if !Less(k, m) { k := m; }
    }
  }

  lemma LeastUnique(k: string, m: string, keys: set<string>)
    requires IsLeast(k, keys) && IsLeast(m, keys)
    ensures k == m
  {
    LessTotal(k, m);
  }

  function Least(keys: set<string>): (k: string)
    requires keys != {}
    ensures IsLeast(k, keys)
  {
    assert exists k :: IsLeast(k, keys) by { var k := LeastExists(keys); }
    assert forall k, m | IsLeast(k, keys) && IsLeast(m, keys) :: k == m by {
      forall k, m | IsLeast(k, keys) && IsLeast(m, keys) ensures k == m { LeastUnique(k, m, keys); }
    }
    var k :| IsLeast(k, keys);
    k
  }

  predicate Ascending(ks: seq<string>) {
    forall i, j | 0 <= i < j < |ks| :: Less(ks[i], ks[j]) && ks[i] != ks[j]
  }

  lemma AscendingCons(k: string, ks: seq<string>, keys: set<string>)
    requires IsLeast(k, keys) && Ascending(ks)
    requires forall j :: j in ks <==> j in keys - {k}
    ensures Ascending([k] + ks)
    ensures forall j :: j in [k] + ks <==> j in keys
  {
    var all := [k] + ks;
    forall i, j | 0 <= i < j < |all| ensures Less(all[i], all[j]) && all[i] != all[j] {
      assert all[j] == ks[j - 1] && ks[j - 1] in keys - {k};
      if i > 0 { assert all[i] == ks[i - 1]; }
    }
  }

  /** The keys in ascending order, as slices.Sorted(maps.Keys(m)) lists them. */
  function Sorted(keys: set<string>): (ks: seq<string>)
    ensures |ks| == |keys|
    ensures forall k :: k in ks <==> k in keys
    ensures forall i, j | 0 <= i < j < |ks| :: Less(ks[i], ks[j]) && ks[i] != ks[j]
    decreases |keys|
  {
    if keys == {} then []
    else
      var k := Least(keys);
      var rest := Sorted(keys - {k});
      assert Ascending(rest);
      AscendingCons(k, rest, keys);
      [k] + rest
  }

  /** Code-point order: a proper prefix first, otherwise decided where the strings first part. */
  predicate PartAt(a: string, b: string, n: int) {
    0 <= n <= |a| && n < |b| && a[..n] == b[..n] && (n == |a| || a[n] < b[n])
  }

  lemma {:induction false} LessIff(a: string, b: string)
    ensures Less(a, b) <==> exists n :: PartAt(a, b, n)
  {
    if a == [] {
      assert b != [] ==> PartAt(a, b, 0);
    } else if b != [] {
      LessIff(a[1..], b[1..]);
      assert a == [a[0]] + a[1..] && b == [b[0]] + b[1..];
      if a[0] < b[0] { assert PartAt(a, b, 0); }
      if n :| PartAt(a[1..], b[1..], n) && a[0] == b[0] {
        assert a[..n + 1] == [a[0]] + a[1..][..n] && b[..n + 1] == [b[0]] + b[1..][..n];
        assert PartAt(a, b, n + 1);
      }
      if n :| PartAt(a, b, n) && !(a[0] < b[0]) {
        assert n > 0 && a[..n][0] == a[0] && b[..n][0] == b[0];
        assert a[1..][..n - 1] == a[..n][1..] && b[1..][..n - 1] == b[..n][1..];
        assert PartAt(a[1..], b[1..], n - 1);
      }
    }
  }
}
