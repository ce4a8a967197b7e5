/**
 * contrib/decoders/yaml/yaml.go: the walk of a node graph whose aliases may share nodes or
 * close cycles, bounded by a shared budget and by depth.
 */
module YamlWalk {
  import opened Basics
  import opened Paths
  import opened Trees

  datatype NodeKind = Mapping | Sequence | Alias | Scalar | OtherNode

  /** A parsed node. A mapping's content alternates keys and values. */
  datatype Node = Node(kind: NodeKind, tag: string, text: string, content: seq<nat>, target: nat, place: Location)

  const NO_NODE := Node(OtherNode, "", "", [], 0, NOWHERE)

  /** The nodes, numbered, and the parser's own reading of a scalar. */
  datatype Document = Document(nodes: seq<Node>, scalar: Node -> Option<Value>) {
    function At(n: nat): Node {
      if n < |nodes| then nodes[n] else NO_NODE
    }
  }

  /** What the parser hands over: references stay inside the document, mappings come in pairs. */
  predicate WellFormed(d: Document) {
    forall n | 0 <= n < |d.nodes| ::
      (d.nodes[n].kind == Mapping ==> |d.nodes[n].content| % 2 == 0) &&
      (d.nodes[n].kind == Alias ==> d.nodes[n].target < |d.nodes|) &&
      forall i | 0 <= i < |d.nodes[n].content| :: d.nodes[n].content[i] < |d.nodes|
  }

  const MAX_DEPTH: nat := 128
  const NODE_LIMIT: nat := 100000
  const STRING_TAG := "!!str"

  datatype WalkError = NodeLimit | NestingLimit | BadKey | DuplicateKey | BadScalar | BadNode | BadRoot

  /** Only null, text and plain scalar kinds pass. */
  function ScalarValue(d: Document, n: Node): (v: Option<Value>)
    ensures v.Some? ==> !v.value.List? && !v.value.Object?
  {
    match d.scalar(n)
    case Some(Null) => Some(Null)
    case Some(Str(text)) => Some(Str(text))
    case Some(Other(token)) => Some(Other(token))
    case _ => None
  }

  function Pairs(node: Node): nat {
    |node.content| / 2
  }

  function KeyNode(d: Document, n: nat, i: nat): (key: Node)
    requires d.At(n).kind == Mapping && i < Pairs(d.At(n))
  {
    d.At(d.At(n).content[2 * i])
  }

  function ValueNode(d: Document, n: nat, i: nat): (value: nat)
    requires d.At(n).kind == Mapping && i < Pairs(d.At(n))
  {
    d.At(n).content[2 * i + 1]
  }

  // ---- The tree a node stands for, budget aside -----------------------

  /** A value and the number of visits spent on it. */
  datatype Tree = Tree(value: Value, cost: nat)

  datatype Members = Members(fields: Fields, cost: nat)

  datatype Items = Items(items: seq<Value>, cost: nat)

  function Expand(d: Document, n: nat, depth: nat): (t: Option<Tree>)
    ensures t.Some? ==> depth <= MAX_DEPTH && t.value.cost >= 1
    decreases MAX_DEPTH + 1 - depth, 1, 0
  {
    var node := d.At(n);
    if depth > MAX_DEPTH then None
    else match node.kind
      case Mapping =>
        (match ExpandMembers(d, n, Pairs(node), depth)
         case Some(m) => Some(Tree(Object(m.fields), m.cost + 1))
         case None => None)
      case Sequence =>
        (match ExpandItems(d, n, |node.content|, depth)
         case Some(l) => Some(Tree(List(l.items), l.cost + 1))
         case None => None)
      case Alias =>
        (match Expand(d, node.target, depth + 1)
         case Some(t) => Some(Tree(t.value, t.cost + 1))
         case None => None)
      case Scalar =>
        (match ScalarValue(d, node)
         case Some(v) => Some(Tree(v, 1))
         case None => None)
      case OtherNode => None
  }

  /** The first k members of a mapping. */
  function ExpandMembers(d: Document, n: nat, k: nat, depth: nat): Option<Members>
    requires d.At(n).kind == Mapping && k <= Pairs(d.At(n))
    requires depth <= MAX_DEPTH
    decreases MAX_DEPTH + 1 - depth, 0, k
  {
    if k == 0 then Some(Members(map[], 0))
    else match ExpandMembers(d, n, k - 1, depth)
      case None => None
      case Some(m) =>
        var key := KeyNode(d, n, k - 1);
        if key.tag != STRING_TAG || key.text in m.fields then None
        else match Expand(d, ValueNode(d, n, k - 1), depth + 1)
          case Some(t) => Some(Members(m.fields[key.text := t.value], m.cost + t.cost))
          case None => None
  }

  /** The first k items of a sequence. */
  function ExpandItems(d: Document, n: nat, k: nat, depth: nat): (l: Option<Items>)
    requires k <= |d.At(n).content|
    requires depth <= MAX_DEPTH
    ensures l.Some? ==> |l.value.items| == k
    decreases MAX_DEPTH + 1 - depth, 0, k
  {
    if k == 0 then Some(Items([], 0))
    else match ExpandItems(d, n, k - 1, depth)
      case None => None
      case Some(l) =>
        match Expand(d, d.At(n).content[k - 1], depth + 1)
        case Some(t) => Some(Items(l.items + [t.value], l.cost + t.cost))
        case None => None
  }

  /** The locations after the walk of a node; a later visit of the same path overwrites. */
  function Places(loc: map<string, Location>, d: Document, n: nat, p: Path, depth: nat): map<string, Location>
    decreases MAX_DEPTH + 1 - depth, 1, 0
  {
    var node := d.At(n);
    if depth > MAX_DEPTH then loc
    else
      var here := loc[Pointer(p) := node.place];
      match node.kind
      case Mapping => MemberPlaces(here, d, n, Pairs(node), p, depth)
      case Sequence => ItemPlaces(here, d, n, |node.content|, p, depth)
      case Alias => Places(here, d, node.target, p, depth + 1)
      case _ => here
  }

  function MemberPlaces(loc: map<string, Location>, d: Document, n: nat, k: nat, p: Path, depth: nat): map<string, Location>
    requires d.At(n).kind == Mapping && k <= Pairs(d.At(n))
    requires depth <= MAX_DEPTH
    decreases MAX_DEPTH + 1 - depth, 0, k
  {
    if k == 0 then loc
    else
      var before := MemberPlaces(loc, d, n, k - 1, p, depth);
      Places(before, d, ValueNode(d, n, k - 1), p + [KeyNode(d, n, k - 1).text], depth + 1)
  }

  function ItemPlaces(loc: map<string, Location>, d: Document, n: nat, k: nat, p: Path, depth: nat): map<string, Location>
    requires k <= |d.At(n).content|
    requires depth <= MAX_DEPTH
    decreases MAX_DEPTH + 1 - depth, 0, k
  {
    if k == 0 then loc
    else
      var before := ItemPlaces(loc, d, n, k - 1, p, depth);
      Places(before, d, d.At(n).content[k - 1], p + [Itoa(k - 1)], depth + 1)
  }

  // ---- The walk --------------------------------------------------------

  lemma {:induction false} MembersGrow(d: Document, n: nat, j: nat, k: nat, depth: nat)
    requires d.At(n).kind == Mapping && j <= k <= Pairs(d.At(n))
    requires depth <= MAX_DEPTH
    ensures var few, many := ExpandMembers(d, n, j, depth), ExpandMembers(d, n, k, depth);
            many.Some? ==> few.Some? && few.value.cost <= many.value.cost
    decreases k
  {
    if j < k { MembersGrow(d, n, j, k - 1, depth); }
  }

  lemma {:induction false} ItemsGrow(d: Document, n: nat, j: nat, k: nat, depth: nat)
    requires j <= k <= |d.At(n).content|
    requires depth <= MAX_DEPTH
    ensures var few, many := ExpandItems(d, n, j, depth), ExpandItems(d, n, k, depth);
            many.Some? ==> few.Some? && few.value.cost <= many.value.cost
    decreases k
  {
    if j < k { ItemsGrow(d, n, j, k - 1, depth); }
  }

  /** Succeeds exactly when the node stands for a tree that the budget covers. */
  ghost predicate Settles(r: Result<Value, WalkError>, t: Option<Tree>, before: int, after: int) {
    (r.Ok? <==> t.Some? && t.value.cost <= before) &&
    (r.Ok? ==> r.value == t.value.value && after == before - t.value.cost) &&
    -1 <= after < before
  }

  class Walker {
    const d: Document
    var budget: int
    var loc: map<string, Location>
    ghost var visits: nat

    constructor (d: Document)
      ensures this.d == d && budget == NODE_LIMIT && loc == map[] && visits == 0
    {
      this.d, budget, loc, visits := d, NODE_LIMIT, map[], 0;
    }

    method Walk(n: nat, p: Path, depth: nat) returns (r: Result<Value, WalkError>)
      requires budget >= 0 && depth <= MAX_DEPTH + 1
      modifies this
      ensures Settles(r, Expand(d, n, depth), old(budget), budget)
      ensures visits - old(visits) == old(budget) - budget
      ensures r.Ok? ==> loc == Places(old(loc), d, n, p, depth)
      decreases MAX_DEPTH + 1 - depth, 1, 0
    {
      budget, visits := budget - 1, visits + 1;
      if budget < 0 { return Err(NodeLimit); }
      if depth > MAX_DEPTH { return Err(NestingLimit); }
      var node := d.At(n);
      loc := loc[Pointer(p) := node.place];
      match node.kind
      case Mapping => r := WalkMapping(n, p, depth);
      case Sequence => r := WalkSequence(n, p, depth);
      case Alias => r := Walk(node.target, p, depth + 1);
      case Scalar =>
        var v := ScalarValue(d, node);
        r := if v.Some? then Ok(v.value) else Err(BadScalar);
      case OtherNode => r := Err(BadNode);
    }

    method WalkMapping(n: nat, p: Path, depth: nat) returns (r: Result<Value, WalkError>)
      requires d.At(n).kind == Mapping
      requires budget >= 0 && depth <= MAX_DEPTH
      modifies this
      ensures var m := ExpandMembers(d, n, Pairs(d.At(n)), depth);
              (r.Ok? <==> m.Some? && m.value.cost <= old(budget)) &&
              (r.Ok? ==> r.value == Object(m.value.fields) && budget == old(budget) - m.value.cost)
      ensures -1 <= budget <= old(budget) && visits - old(visits) == old(budget) - budget
      ensures r.Ok? ==> loc == MemberPlaces(old(loc), d, n, Pairs(d.At(n)), p, depth)
      decreases MAX_DEPTH + 1 - depth, 0, 1
    {
      var out: Fields := map[];
      for i := 0 to Pairs(d.At(n))
        invariant 0 <= budget <= old(budget) && visits - old(visits) == old(budget) - budget
        invariant ExpandMembers(d, n, i, depth) == Some(Members(out, old(budget) - budget))
        invariant loc == MemberPlaces(old(loc), d, n, i, p, depth)
      {
        MembersGrow(d, n, i + 1, Pairs(d.At(n)), depth);
        var more := WalkMember(n, i, p, depth, out, old(budget) - budget);
        if more.Err? { return Err(more.error); }
        out := more.value;
      }
      r := Ok(Object(out));
    }

    method WalkMember(n: nat, i: nat, p: Path, depth: nat, out: Fields, ghost spent: nat) returns (r: Result<Fields, WalkError>)
      requires d.At(n).kind == Mapping && i < Pairs(d.At(n))
      requires budget >= 0 && depth <= MAX_DEPTH
      requires ExpandMembers(d, n, i, depth) == Some(Members(out, spent))
      modifies this
      ensures var m := ExpandMembers(d, n, i + 1, depth);
              (r.Ok? <==> m.Some? && m.value.cost - spent <= old(budget)) &&
              (r.Ok? ==> r.value == m.value.fields && budget == old(budget) - (m.value.cost - spent))
      ensures -1 <= budget <= old(budget) && visits - old(visits) == old(budget) - budget
      ensures r.Ok? ==> budget >= 0
      ensures r.Ok? ==> loc == Places(old(loc), d, ValueNode(d, n, i), p + [KeyNode(d, n, i).text], depth + 1)
      decreases MAX_DEPTH + 1 - depth, 0, 0
    {
      var k := KeyNode(d, n, i);
      if k.tag != STRING_TAG { return Err(BadKey); }
      if k.text in out { return Err(DuplicateKey); }
      var v := Walk(ValueNode(d, n, i), p + [k.text], depth + 1);
      if v.Err? { return Err(v.error); }
      r := Ok(out[k.text := v.value]);
    }

    method WalkSequence(n: nat, p: Path, depth: nat) returns (r: Result<Value, WalkError>)
      requires budget >= 0 && depth <= MAX_DEPTH
      modifies this
      ensures var l := ExpandItems(d, n, |d.At(n).content|, depth);
              (r.Ok? <==> l.Some? && l.value.cost <= old(budget)) &&
              (r.Ok? ==> r.value == List(l.value.items) && budget == old(budget) - l.value.cost)
      ensures -1 <= budget <= old(budget) && visits - old(visits) == old(budget) - budget
      ensures r.Ok? ==> loc == ItemPlaces(old(loc), d, n, |d.At(n).content|, p, depth)
      decreases MAX_DEPTH + 1 - depth, 0, 1
    {
      var out: seq<Value> := [];
      for i := 0 to |d.At(n).content|
        invariant 0 <= budget <= old(budget) && visits - old(visits) == old(budget) - budget
        invariant ExpandItems(d, n, i, depth) == Some(Items(out, old(budget) - budget))
        invariant loc == ItemPlaces(old(loc), d, n, i, p, depth)
      {
        ItemsGrow(d, n, i + 1, |d.At(n).content|, depth);
        var v := Walk(d.At(n).content[i], p + [Itoa(i)], depth + 1);
        if v.Err? { return v; }
        out := out + [v.value];
      }
      r := Ok(List(out));
    }
  }

  /** Decode: one walk of the root with the full budget; at most 100001 visits on any graph. */
  method Decode(d: Document, root: nat) returns (r: Result<Fields, WalkError>, loc: map<string, Location>, ghost visits: nat)
    requires WellFormed(d) && root < |d.nodes|
    ensures visits <= 100001
    ensures var t := Expand(d, root, 0);
            (r.Ok? <==> t.Some? && t.value.cost <= 100000 && t.value.value.Object?) &&
            (r.Ok? ==> t.value.value == Object(r.value) && loc == Places(map[], d, root, [], 0))
  {
    var w := new Walker(d);
    var v := w.Walk(root, [], 0);
    visits, loc := w.visits, map[];
    if v.Err? { r := Err(v.error); return; }
    if !v.value.Object? { r := Err(BadRoot); return; }
    r, loc := Ok(v.value.fields), w.loc;
  }
}
