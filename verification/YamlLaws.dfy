/** What the YAML walk accepts, what its value and locations are, and how large they get. */
module YamlLaws {
  import opened Basics
  import opened Paths
  import opened Trees
  import opened YamlWalk

  // ---- The graph, independently of the walk ---------------------------

  /** The walk goes from a to b: along a value, an item or an alias. */
  predicate Edge(d: Document, a: nat, b: nat)
  {
    match d.At(a).kind
    case Mapping => exists i | 0 <= i < Pairs(d.At(a)) :: ValueNode(d, a, i) == b
    case Sequence => b in d.At(a).content
    case Alias => b == d.At(a).target
    case _ => false
  }

  predicate IsTrail(d: Document, trail: seq<nat>)
  {
    trail != [] && forall i | 0 < i < |trail| :: Edge(d, trail[i - 1], trail[i])
  }

  /** A node that is acceptable by itself: string keys without a repeat, a plain scalar. */
  predicate Sane(d: Document, n: nat)
  {
    match d.At(n).kind
    case Mapping =>
      (forall i | 0 <= i < Pairs(d.At(n)) :: KeyNode(d, n, i).tag == "!!str") &&
      (forall i, j | 0 <= i < j < Pairs(d.At(n)) :: KeyNode(d, n, i).text != KeyNode(d, n, j).text)
    case Scalar => ScalarValue(d, d.At(n)).Some?
    case OtherNode => false
    case _ => true
  }

  /** The position of a mapping's member among the first k. */
  function FindMember(d: Document, n: nat, k: nat, name: string): (i: Option<nat>)
    requires d.At(n).kind == Mapping && k <= Pairs(d.At(n))
    ensures match i
            case Some(j) => j < k && KeyNode(d, n, j).text == name
            case None => forall j | 0 <= j < k :: KeyNode(d, n, j).text != name
  {
    if k == 0 then None
    else if KeyNode(d, n, k - 1).text == name then Some(k - 1)
    else FindMember(d, n, k - 1, name)
  }

  /** The node a path segment leads to. */
  function StepTo(d: Document, n: nat, name: string): (m: Option<nat>)
  {
    match d.At(n).kind
    case Mapping =>
      (match FindMember(d, n, Pairs(d.At(n)), name)
       case Some(i) => Some(ValueNode(d, n, i))
       case None => None)
    case Sequence =>
      (match IndexOf(name, |d.At(n).content|)
       case Some(i) => Some(d.At(n).content[i])
       case None => None)
    case _ => None
  }

  /** The node a path leads to, aliases followed; None past the nesting limit. */
  function NodeAt(d: Document, n: nat, depth: nat, q: Path): (m: Option<nat>)
    decreases MAX_DEPTH + 1 - depth
  {
    if depth > MAX_DEPTH then None
    else if d.At(n).kind == Alias then NodeAt(d, d.At(n).target, depth + 1, q)
    else if q == [] then Some(n)
    else match StepTo(d, n, q[0])
      case Some(m) => NodeAt(d, m, depth + 1, q[1..])
      case None => None
  }

  /** A value has the node's own shape. */
  ghost predicate Mirrors(d: Document, n: nat, v: Value)
  {
    match d.At(n).kind
    case Mapping => v.Object? && |v.fields| == Pairs(d.At(n)) && forall k :: k in v.fields <==> StepTo(d, n, k).Some?
    case Sequence => v.List? && |v.items| == |d.At(n).content|
    case Scalar => ScalarValue(d, d.At(n)) == Some(v)
    case _ => false
  }

  /** A plain scalar is what the parser read; anything else the parser makes of a scalar is refused. */
  lemma ScalarIsParsed(d: Document, n: Node)
    ensures ScalarValue(d, n) ==
            if d.scalar(n).Some? && !d.scalar(n).value.List? && !d.scalar(n).value.Object? then d.scalar(n) else None
  {
  }

  // ---- Which documents the walk accepts -------------------------------

  /** The field of a name is what the member of that name expands to. */
  lemma {:induction false} FieldExpands(d: Document, n: nat, k: nat, depth: nat, name: string)
    requires d.At(n).kind == Mapping && k <= Pairs(d.At(n))
    requires depth <= MAX_DEPTH && ExpandMembers(d, n, k, depth).Some?
    ensures var fields := ExpandMembers(d, n, k, depth).value.fields;
            |fields| == k &&
            match FindMember(d, n, k, name)
            case None => name !in fields
            case Some(i) =>
              var t := Expand(d, ValueNode(d, n, i), depth + 1);
              name in fields && t.Some? && fields[name] == t.value.value
    decreases k
  {
    if k > 0 {
      FieldExpands(d, n, k - 1, depth, name);
    }
  }

  predicate MemberExpands(d: Document, n: nat, k: nat, depth: nat)
    requires d.At(n).kind == Mapping && k < Pairs(d.At(n))
  {
    KeyNode(d, n, k).tag == STRING_TAG && FindMember(d, n, k, KeyNode(d, n, k).text).None? &&
    Expand(d, ValueNode(d, n, k), depth + 1).Some?
  }

  /** The first k members expand iff each does, under a string key not used before. */
  lemma {:induction false} MembersExpand(d: Document, n: nat, k: nat, depth: nat)
    requires d.At(n).kind == Mapping && k <= Pairs(d.At(n))
    requires depth <= MAX_DEPTH
    ensures ExpandMembers(d, n, k, depth).Some? <==> forall i | 0 <= i < k :: MemberExpands(d, n, i, depth)
    decreases k
  {
    if k > 0 {
      MembersExpand(d, n, k - 1, depth);
      if ExpandMembers(d, n, k - 1, depth).Some? {
        FieldExpands(d, n, k - 1, depth, KeyNode(d, n, k - 1).text);
      }
      assert ExpandMembers(d, n, k, depth).Some? <==>
        ExpandMembers(d, n, k - 1, depth).Some? && MemberExpands(d, n, k - 1, depth);
    }
  }

  /** Distinct keys, said of all pairs and of each key against its predecessors. */
  lemma MappingExpands(d: Document, n: nat, depth: nat)
    requires d.At(n).kind == Mapping
    ensures (forall i | 0 <= i < Pairs(d.At(n)) :: MemberExpands(d, n, i, depth)) <==>
            Sane(d, n) && forall m | Edge(d, n, m) :: Expand(d, m, depth + 1).Some?
  {
    var k := Pairs(d.At(n));
    if forall i | 0 <= i < k :: MemberExpands(d, n, i, depth) {
      forall i, j | 0 <= i < j < k ensures KeyNode(d, n, i).text != KeyNode(d, n, j).text {
        assert MemberExpands(d, n, j, depth);
      }
      forall i | 0 <= i < k ensures KeyNode(d, n, i).tag == STRING_TAG {
        assert MemberExpands(d, n, i, depth);
      }
      forall m | Edge(d, n, m) ensures Expand(d, m, depth + 1).Some? {
        var i :| 0 <= i < k && ValueNode(d, n, i) == m;
        assert MemberExpands(d, n, i, depth);
      }
    } else {
      var i :| 0 <= i < k && !MemberExpands(d, n, i, depth);
      assert Edge(d, n, ValueNode(d, n, i));
    }
  }

  lemma {:induction false} ItemsExpand(d: Document, n: nat, k: nat, depth: nat)
    requires k <= |d.At(n).content|
    requires depth <= MAX_DEPTH
    ensures ExpandItems(d, n, k, depth).Some? <==> forall i | 0 <= i < k :: Expand(d, d.At(n).content[i], depth + 1).Some?
    ensures var l := ExpandItems(d, n, k, depth);
            l.Some? ==>
              forall i | 0 <= i < k :: Expand(d, d.At(n).content[i], depth + 1).Some? &&
                l.value.items[i] == Expand(d, d.At(n).content[i], depth + 1).value.value
  {
    if k > 0 { ItemsExpand(d, n, k - 1, depth); }
  }

  /** A node expands iff it is acceptable, not too deep, and every edge leads to one that does. */
  lemma NodeExpands(d: Document, n: nat, depth: nat)
    ensures Expand(d, n, depth).Some? <==>
            depth <= MAX_DEPTH && Sane(d, n) && forall m | Edge(d, n, m) :: Expand(d, m, depth + 1).Some?
  {
    if depth <= MAX_DEPTH {
      match d.At(n).kind
      case Mapping =>
        MembersExpand(d, n, Pairs(d.At(n)), depth);
        MappingExpands(d, n, depth);
      case Sequence =>
        ItemsExpand(d, n, |d.At(n).content|, depth);
        assert forall i | 0 <= i < |d.At(n).content| :: Edge(d, n, d.At(n).content[i]);
      case Alias => assert Edge(d, n, d.At(n).target);
      case _ =>
    }
  }

  lemma {:induction false} ExpandsAlong(d: Document, trail: seq<nat>, depth: nat)
    requires IsTrail(d, trail) && Expand(d, trail[0], depth).Some?
    ensures var end := trail[|trail| - 1];
            Sane(d, end) && Expand(d, end, depth + |trail| - 1).Some?
  {
    NodeExpands(d, trail[0], depth);
    if |trail| > 1 {
      assert Edge(d, trail[0], trail[1]);
      var rest := trail[1..];
      assert forall i | 0 < i < |rest| :: rest[i - 1] == trail[i] && rest[i] == trail[i + 1];
      ExpandsAlong(d, rest, depth + 1);
    }
  }

  /** A way down that ends at an acceptable node within the nesting limit. */
  predicate Fits(d: Document, trail: seq<nat>, depth: nat)
  {
    trail != [] && depth + |trail| <= 129 && Sane(d, trail[|trail| - 1])
  }

  /** Every way down from the node fits. */
  ghost predicate TrailsFit(d: Document, n: nat, depth: nat)
  {
    forall trail: seq<nat> | IsTrail(d, trail) && trail[0] == n :: Fits(d, trail, depth)
  }

  lemma FitBelow(d: Document, n: nat, m: nat, depth: nat)
    requires TrailsFit(d, n, depth) && Edge(d, n, m)
    ensures TrailsFit(d, m, depth + 1)
  {
    forall trail: seq<nat> | IsTrail(d, trail) && trail[0] == m
      ensures Fits(d, trail, depth + 1)
    {
      var longer := [n] + trail;
      forall i | 0 < i < |longer| ensures Edge(d, longer[i - 1], longer[i]) {
        if i > 1 { assert Edge(d, trail[i - 2], trail[i - 1]); }
      }
      assert longer[0] == n && IsTrail(d, longer);
      assert Fits(d, longer, depth);
      assert longer[|longer| - 1] == trail[|trail| - 1];
    }
  }

  lemma {:induction false} FitExpands(d: Document, n: nat, depth: nat)
    requires TrailsFit(d, n, depth)
    ensures Expand(d, n, depth).Some?
    decreases MAX_DEPTH + 1 - depth
  {
    assert IsTrail(d, [n]);
    assert Fits(d, [n], depth);
    forall m | Edge(d, n, m)
      ensures Expand(d, m, depth + 1).Some?
    {
      FitBelow(d, n, m, depth);
      FitExpands(d, m, depth + 1);
    }
    NodeExpands(d, n, depth);
  }

  /** Budget aside, the walk accepts a node iff all ways down from it fit. */
  lemma AcceptedIffTrailsFit(d: Document, n: nat, depth: nat)
    ensures Expand(d, n, depth).Some? <==> TrailsFit(d, n, depth)
  {
    if Expand(d, n, depth).Some? {
      forall trail: seq<nat> | IsTrail(d, trail) && trail[0] == n
        ensures Fits(d, trail, depth)
      {
        ExpandsAlong(d, trail, depth);
      }
    } else if TrailsFit(d, n, depth) {
      FitExpands(d, n, depth);
      assert false;
    }
  }

  /** A node on a cycle is never accepted, however it is reached. */
  lemma {:induction false} CyclesAreRefused(d: Document, cycle: seq<nat>, depth: nat)
    requires IsTrail(d, cycle) && |cycle| > 1 && cycle[|cycle| - 1] == cycle[0]
    ensures Expand(d, cycle[0], depth).None?
    decreases MAX_DEPTH + 1 - depth
  {
    if Expand(d, cycle[0], depth).Some? {
      ExpandsAlong(d, cycle, depth);
      CyclesAreRefused(d, cycle, depth + |cycle| - 1);
      assert false;
    }
  }

  // ---- What the value is ----------------------------------------------

  lemma MappingMirrored(d: Document, n: nat, depth: nat)
    requires d.At(n).kind == Mapping && Expand(d, n, depth).Some?
    ensures Mirrors(d, n, Expand(d, n, depth).value.value)
  {
    FieldExpands(d, n, Pairs(d.At(n)), depth, "");
    forall k ensures k in Expand(d, n, depth).value.value.fields <==> StepTo(d, n, k).Some? {
      FieldExpands(d, n, Pairs(d.At(n)), depth, k);
    }
  }

  /** At every path the value has the shape of the node the path leads to, and no more paths exist. */
  lemma {:induction false} ValueMirrorsGraph(d: Document, n: nat, depth: nat, q: Path)
    requires Expand(d, n, depth).Some?
    ensures match NodeAt(d, n, depth, q)
            case Some(m) => Reach(Expand(d, n, depth).value.value, q).Some? &&
                            Mirrors(d, m, Reach(Expand(d, n, depth).value.value, q).value)
            case None => Reach(Expand(d, n, depth).value.value, q).None?
    decreases MAX_DEPTH + 1 - depth
  {
    var node := d.At(n);
    match node.kind
    case Alias => ValueMirrorsGraph(d, node.target, depth + 1, q);
    case Mapping =>
      MappingMirrored(d, n, depth);
      if q != [] {
        FieldExpands(d, n, Pairs(node), depth, q[0]);
        var i := FindMember(d, n, Pairs(node), q[0]);
        if i.Some? { ValueMirrorsGraph(d, ValueNode(d, n, i.value), depth + 1, q[1..]); }
      }
    case Sequence =>
      ItemsExpand(d, n, |node.content|, depth);
      if q != [] {
        var i := IndexOf(q[0], |node.content|);
        if i.Some? { ValueMirrorsGraph(d, node.content[i.value], depth + 1, q[1..]); }
      }
    case _ =>
  }

  /** What the walk accepts is never too deep to be cloned. */
  lemma {:induction false} AcceptedIsClonable(d: Document, n: nat, depth: nat, at: nat)
    requires Expand(d, n, depth).Some? && at <= depth
    ensures Clonable(Expand(d, n, depth).value.value, at)
    decreases MAX_DEPTH + 1 - depth
  {
    var node := d.At(n);
    match node.kind
    case Alias => AcceptedIsClonable(d, node.target, depth + 1, at);
    case Mapping =>
      var fields := Expand(d, n, depth).value.value.fields;
      forall k | k in fields ensures Clonable(fields[k], at + 1) {
        FieldExpands(d, n, Pairs(node), depth, k);
        var i := FindMember(d, n, Pairs(node), k).value;
        AcceptedIsClonable(d, ValueNode(d, n, i), depth + 1, at + 1);
      }
    case Sequence =>
      ItemsExpand(d, n, |node.content|, depth);
      forall i | 0 <= i < |node.content| ensures Clonable(Expand(d, n, depth).value.value.items[i], at + 1) {
        AcceptedIsClonable(d, node.content[i], depth + 1, at + 1);
      }
    case _ =>
  }

  // ---- What the locations are -----------------------------------------

  /** The key is the pointer of a path at or below p. */
  predicate Under(p: Path, key: string) {
    Parse(key).Some? && p <= Parse(key).value && Pointer(Parse(key).value) == key
  }

  /** Walking a node writes only at and below its path. */
  lemma {:induction false} PlacesStayBelow(loc: map<string, Location>, d: Document, n: nat, p: Path, depth: nat, key: string)
    requires !Under(p, key)
    ensures Get(Places(loc, d, n, p, depth), key) == Get(loc, key)
    decreases MAX_DEPTH + 1 - depth, 1, 0
  {
    if depth <= MAX_DEPTH {
      ParseInvertsPointer(p);
      var here := loc[Pointer(p) := d.At(n).place];
      match d.At(n).kind
      case Mapping => MembersStayBelow(here, d, n, Pairs(d.At(n)), p, depth, key);
      case Sequence => ItemsStayBelow(here, d, n, |d.At(n).content|, p, depth, key);
      case Alias => PlacesStayBelow(here, d, d.At(n).target, p, depth + 1, key);
      case _ =>
    }
  }

  lemma {:induction false} MembersStayBelow(loc: map<string, Location>, d: Document, n: nat, k: nat, p: Path, depth: nat, key: string)
    requires d.At(n).kind == Mapping && k <= Pairs(d.At(n))
    requires depth <= MAX_DEPTH && (!Under(p, key) || key == Pointer(p))
    ensures Get(MemberPlaces(loc, d, n, k, p, depth), key) == Get(loc, key)
    decreases MAX_DEPTH + 1 - depth, 0, k
  {
    if k > 0 {
      MembersStayBelow(loc, d, n, k - 1, p, depth, key);
      var before, name := MemberPlaces(loc, d, n, k - 1, p, depth), KeyNode(d, n, k - 1).text;
      ParseInvertsPointer(p);
      assert !Under(p + [name], key);
      PlacesStayBelow(before, d, ValueNode(d, n, k - 1), p + [name], depth + 1, key);
    }
  }

  lemma {:induction false} ItemsStayBelow(loc: map<string, Location>, d: Document, n: nat, k: nat, p: Path, depth: nat, key: string)
    requires k <= |d.At(n).content|
    requires depth <= MAX_DEPTH && (!Under(p, key) || key == Pointer(p))
    ensures Get(ItemPlaces(loc, d, n, k, p, depth), key) == Get(loc, key)
    decreases MAX_DEPTH + 1 - depth, 0, k
  {
    if k > 0 {
      ItemsStayBelow(loc, d, n, k - 1, p, depth, key);
      var before, name := ItemPlaces(loc, d, n, k - 1, p, depth), Itoa(k - 1);
      ParseInvertsPointer(p);
      assert !Under(p + [name], key);
      PlacesStayBelow(before, d, d.At(n).content[k - 1], p + [name], depth + 1, key);
    }
  }

  lemma OtherChild(p: Path, a: string, b: string, q: Path)
    requires a != b
    ensures !Under(p + [a], Pointer(p + [b] + q))
  {
    ParseInvertsPointer(p + [b] + q);
    assert (p + [b] + q)[|p|] == b;
    assert (p + [a])[|p|] == a;
  }

  /** The place recorded for a path is that of the node it leads to, aliases followed. */
  lemma {:induction false} PlacesAreTheNodes(loc: map<string, Location>, d: Document, n: nat, p: Path, depth: nat, q: Path)
    requires Expand(d, n, depth).Some?
    ensures Get(Places(loc, d, n, p, depth), Pointer(p + q)) ==
            PlaceOr(d, NodeAt(d, n, depth, q), loc, Pointer(p + q))
    decreases MAX_DEPTH + 1 - depth, 1, 0
  {
    var node := d.At(n);
    var here := loc[Pointer(p) := node.place];
    var key := Pointer(p + q);
    if q == [] {
      assert p + q == p;
    } else if key == Pointer(p) {
      PointerInjective(p, p + q);
      assert false;
    }
    match node.kind
    case Alias =>
      PlacesAreTheNodes(here, d, node.target, p, depth + 1, q);
      if q == [] { AliasEnds(d, node.target, depth + 1); }
    case Mapping =>
      if q == [] { MembersStayBelow(here, d, n, Pairs(node), p, depth, key); }
      else { MemberPlacesAreTheNodes(here, d, n, Pairs(node), p, depth, q); }
    case Sequence =>
      if q == [] { ItemsStayBelow(here, d, n, |node.content|, p, depth, key); }
      else { ItemPlacesAreTheNodes(here, d, n, |node.content|, p, depth, q); }
    case _ =>
  }

  lemma {:induction false} AliasEnds(d: Document, n: nat, depth: nat)
    requires Expand(d, n, depth).Some?
    ensures NodeAt(d, n, depth, []).Some?
    decreases MAX_DEPTH + 1 - depth
  {
    if d.At(n).kind == Alias { AliasEnds(d, d.At(n).target, depth + 1); }
  }

  /** One child's walk settles the paths through it and leaves the others alone. */
  lemma {:induction false} ChildPlaces(
    loc: map<string, Location>, d: Document, c: nat, p: Path, name: string, depth: nat, q: Path)
    requires Expand(d, c, depth).Some? && q != []
    ensures Get(Places(loc, d, c, p + [name], depth), Pointer(p + q)) ==
            PlaceOr(d, if name == q[0] then NodeAt(d, c, depth, q[1..]) else None, loc, Pointer(p + q))
    decreases MAX_DEPTH + 1 - depth, 2, 0
  {
    assert p + q == p + [q[0]] + q[1..];
    if name == q[0] {
      PlacesAreTheNodes(loc, d, c, p + [name], depth, q[1..]);
    } else {
      OtherChild(p, name, q[0], q[1..]);
      PlacesStayBelow(loc, d, c, p + [name], depth, Pointer(p + q));
    }
  }

  function MemberAt(d: Document, n: nat, k: nat, depth: nat, q: Path): (m: Option<nat>)
    requires d.At(n).kind == Mapping && k <= Pairs(d.At(n)) && q != []
  {
    match FindMember(d, n, k, q[0])
    case Some(i) => NodeAt(d, ValueNode(d, n, i), depth + 1, q[1..])
    case None => None
  }

  lemma LastMember(d: Document, n: nat, k: nat, depth: nat)
    requires d.At(n).kind == Mapping && 0 < k <= Pairs(d.At(n))
    requires depth <= MAX_DEPTH && ExpandMembers(d, n, k, depth).Some?
    ensures ExpandMembers(d, n, k - 1, depth).Some? && Expand(d, ValueNode(d, n, k - 1), depth + 1).Some?
    ensures FindMember(d, n, k - 1, KeyNode(d, n, k - 1).text).None?
  {
    FieldExpands(d, n, k - 1, depth, KeyNode(d, n, k - 1).text);
  }

  lemma MemberAtStep(d: Document, n: nat, k: nat, depth: nat, q: Path)
    requires d.At(n).kind == Mapping && 0 < k <= Pairs(d.At(n)) && q != []
    ensures MemberAt(d, n, k, depth, q) ==
            if KeyNode(d, n, k - 1).text == q[0] then NodeAt(d, ValueNode(d, n, k - 1), depth + 1, q[1..])
            else MemberAt(d, n, k - 1, depth, q)
  {
  }

  function PlaceOr(d: Document, m: Option<nat>, loc: map<string, Location>, key: string): Option<Location> {
    if m.Some? then Some(d.At(m.value).place) else Get(loc, key)
  }

  lemma {:induction false} MemberPlacesAreTheNodes(
    loc: map<string, Location>, d: Document, n: nat, k: nat, p: Path, depth: nat, q: Path)
    requires d.At(n).kind == Mapping && k <= Pairs(d.At(n))
    requires depth <= MAX_DEPTH && ExpandMembers(d, n, k, depth).Some? && q != []
    ensures Get(MemberPlaces(loc, d, n, k, p, depth), Pointer(p + q)) == PlaceOr(d, MemberAt(d, n, k, depth, q), loc, Pointer(p + q))
    decreases MAX_DEPTH + 1 - depth, 0, k
  {
    if k > 0 {
      LastMember(d, n, k, depth);
      MemberPlacesAreTheNodes(loc, d, n, k - 1, p, depth, q);
      var before, name := MemberPlaces(loc, d, n, k - 1, p, depth), KeyNode(d, n, k - 1).text;
      ChildPlaces(before, d, ValueNode(d, n, k - 1), p, name, depth + 1, q);
      MemberAtStep(d, n, k, depth, q);
      assert name == q[0] ==> MemberAt(d, n, k - 1, depth, q).None?;
    }
  }

  lemma {:induction false} ItemPlacesAreTheNodes(
    loc: map<string, Location>, d: Document, n: nat, k: nat, p: Path, depth: nat, q: Path)
    requires k <= |d.At(n).content|
    requires depth <= MAX_DEPTH && ExpandItems(d, n, k, depth).Some? && q != []
    ensures Get(ItemPlaces(loc, d, n, k, p, depth), Pointer(p + q)) ==
            PlaceOr(d, match IndexOf(q[0], k)
                       case Some(i) => NodeAt(d, d.At(n).content[i], depth + 1, q[1..])
                       case None => None, loc, Pointer(p + q))
    decreases MAX_DEPTH + 1 - depth, 0, k
  {
    if k > 0 {
      ItemPlacesAreTheNodes(loc, d, n, k - 1, p, depth, q);
      var before, name := ItemPlaces(loc, d, n, k - 1, p, depth), Itoa(k - 1);
      if name == q[0] && IndexOf(name, k - 1).Some? {
        ItoaInjective(IndexOf(name, k - 1).value, k - 1);
        assert false;
      }
      ChildPlaces(before, d, d.At(n).content[k - 1], p, name, depth + 1, q);
    }
  }

  /** A visit records at most one new place. */
  lemma {:induction false} PlacesWithinCost(loc: map<string, Location>, d: Document, n: nat, p: Path, depth: nat)
    requires Expand(d, n, depth).Some?
    ensures |Places(loc, d, n, p, depth)| <= |loc| + Expand(d, n, depth).value.cost
    decreases MAX_DEPTH + 1 - depth, 1, 0
  {
    var here := loc[Pointer(p) := d.At(n).place];
    AddedOne(loc, Pointer(p), d.At(n).place);
    match d.At(n).kind
    case Mapping => MembersWithinCost(here, d, n, Pairs(d.At(n)), p, depth);
    case Sequence => ItemsWithinCost(here, d, n, |d.At(n).content|, p, depth);
    case Alias => PlacesWithinCost(here, d, d.At(n).target, p, depth + 1);
    case _ =>
  }

  lemma AddedOne(loc: map<string, Location>, key: string, place: Location)
    ensures |loc[key := place]| <= |loc| + 1
  {
    if key in loc {
      assert loc[key := place].Keys == loc.Keys;
      assert |loc[key := place].Keys| == |loc.Keys|;
    } else {
      assert loc[key := place].Keys == loc.Keys + {key};
      assert |loc[key := place].Keys| == |loc.Keys| + 1;
    }
  }

  lemma {:induction false} MembersWithinCost(loc: map<string, Location>, d: Document, n: nat, k: nat, p: Path, depth: nat)
    requires d.At(n).kind == Mapping && k <= Pairs(d.At(n))
    requires depth <= MAX_DEPTH && ExpandMembers(d, n, k, depth).Some?
    ensures |MemberPlaces(loc, d, n, k, p, depth)| <= |loc| + ExpandMembers(d, n, k, depth).value.cost
    decreases MAX_DEPTH + 1 - depth, 0, k
  {
    if k > 0 {
      MembersWithinCost(loc, d, n, k - 1, p, depth);
      PlacesWithinCost(MemberPlaces(loc, d, n, k - 1, p, depth), d, ValueNode(d, n, k - 1), p + [KeyNode(d, n, k - 1).text], depth + 1);
    }
  }

  lemma {:induction false} ItemsWithinCost(loc: map<string, Location>, d: Document, n: nat, k: nat, p: Path, depth: nat)
    requires k <= |d.At(n).content|
    requires depth <= MAX_DEPTH && ExpandItems(d, n, k, depth).Some?
    ensures |ItemPlaces(loc, d, n, k, p, depth)| <= |loc| + ExpandItems(d, n, k, depth).value.cost
    decreases MAX_DEPTH + 1 - depth, 0, k
  {
    if k > 0 {
      ItemsWithinCost(loc, d, n, k - 1, p, depth);
      PlacesWithinCost(ItemPlaces(loc, d, n, k - 1, p, depth), d, d.At(n).content[k - 1], p + [Itoa(k - 1)], depth + 1);
    }
  }

  // ---- A decoded document ---------------------------------------------

  /**
   * A decoded document has at most 100000 nodes, one recorded place for each and none
   * besides, and it nests no deeper than a layer may.
   */
  lemma DecodedIsBounded(d: Document, root: nat)
    requires Expand(d, root, 0).Some? && Expand(d, root, 0).value.cost <= 100000
    ensures var v, loc := Expand(d, root, 0).value.value, Places(map[], d, root, [], 0);
            Clonable(v, 0) && |loc| <= 100000 &&
            (forall key | key in loc :: Under([], key)) &&
            (forall q: Path :: Reach(v, q).Some? <==> Pointer(q) in loc)
  {
    var v, loc := Expand(d, root, 0).value.value, Places(map[], d, root, [], 0);
    AcceptedIsClonable(d, root, 0, 0);
    PlacesWithinCost(map[], d, root, [], 0);
    forall key | !Under([], key) ensures key !in loc {
      PlacesStayBelow(map[], d, root, [], 0, key);
    }
    forall q: Path ensures Reach(v, q).Some? <==> Pointer(q) in loc {
      ValueMirrorsGraph(d, root, 0, q);
      PlacesAreTheNodes(map[], d, root, [], 0, q);
      assert [] + q == q;
    }
  }
}
