/** sources.go's Memory: a source set from outside, which tells its watchers of every Set. */
module Memory {
  import opened Basics
  import opened Int64
  import opened Paths
  import opened Trees
  import opened Filtering

  datatype ReadError = Cancelled | NestingExceeded

  /** The layer kept by the n-th successful Set; a blank revision becomes the 64-bit counter's. */
  function Stamped(layer: Layer, n: nat): Layer {
    if layer.revision == "" then layer.(revision := Itoa(n % TWO_64)) else layer
  }

  lemma CounterStep(n: nat)
    ensures (n % TWO_64 + 1) % TWO_64 == (n + 1) % TWO_64
  {
  }

  class Memory {
    var layer: Layer
    var revision: nat
    /** How often each registered watcher has been notified. */
    var watchers: map<nat, nat>
    var next: nat
    ghost var sets: seq<Layer>

    ghost predicate Valid()
      reads this
    {
      revision == |sets| % TWO_64 && LayerClonable(layer) &&
      (sets != [] ==> layer == Stamped(sets[|sets| - 1], |sets|)) &&
      forall w | w in watchers :: w < next
    }

    constructor ()
      ensures Valid() && sets == [] && watchers == map[]
    {
      layer, revision, watchers, next, sets := Layer(None, "", map[], [], None), 0, map[], 0, [];
    }

    /** A layer that cannot be copied changes nothing; any other is kept, and every watcher told once. */
    method Set(l: Layer) returns (ok: bool)
      requires Valid()
      modifies this
      ensures Valid()
      ensures ok <==> LayerClonable(l)
      ensures !ok ==> sets == old(sets) && layer == old(layer) && watchers == old(watchers)
      ensures ok ==> sets == old(sets) + [l] && layer == Stamped(l, |sets|)
      ensures ok ==> watchers.Keys == old(watchers).Keys && forall w | w in watchers :: watchers[w] == old(watchers)[w] + 1
      ensures next == old(next)
    {
      if !LayerClonable(l) { return false; }
      CounterStep(|sets|);
      revision := (revision + 1) % TWO_64;
      layer := if l.revision == "" then l.(revision := Itoa(revision)) else l;
      sets := sets + [l];
      NotifyAll();
      ok := true;
    }

    /** Set's loop over the watchers. */
    method NotifyAll()
      modifies this`watchers
      ensures watchers.Keys == old(watchers).Keys && forall w | w in watchers :: watchers[w] == old(watchers)[w] + 1
    {
      var todo := watchers.Keys;
      while todo != {}
        invariant todo <= watchers.Keys == old(watchers).Keys
        invariant forall w | w in watchers :: watchers[w] == old(watchers)[w] + if w in todo then 0 else 1
        decreases todo
      {
        var w :| w in todo;
        watchers := watchers[w := watchers[w] + 1];
        todo := todo - {w};
      }
    }

    /** Gives the layer last set unless the context has ended, and never fails to copy it. */
    method Read(ended: bool) returns (r: Result<Layer, ReadError>)
      requires Valid()
      ensures r == if ended then Err(Cancelled) else Ok(layer)
    {
      if ended { return Err(Cancelled); }
      r := if LayerClonable(layer) then Ok(layer) else Err(NestingExceeded);
    }

    /** Registers a watcher under an id no other has had. */
    method Watch() returns (id: nat)
      requires Valid()
      modifies this`watchers, this`next
      ensures Valid() && id !in old(watchers) && watchers == old(watchers)[id := 0]
      ensures id == old(next) && next == id + 1
    {
      id := next;
      next := next + 1;
      watchers := watchers[id := 0];
    }

    /** The stop function Watch returns. */
    method Stop(id: nat)
      requires Valid()
      modifies this`watchers
      ensures Valid() && watchers == old(watchers) - {id}
    {
      watchers := watchers - {id};
    }
  }

  /** Sets without a revision of their own share one only when the counter has come round. */
  lemma StampsEqualIff(a: Layer, i: nat, b: Layer, j: nat)
    requires a.revision == "" && b.revision == ""
    ensures Stamped(a, i).revision == Stamped(b, j).revision <==> i % TWO_64 == j % TWO_64
  {
    if Itoa(i % TWO_64) == Itoa(j % TWO_64) { ItoaInjective(i % TWO_64, j % TWO_64); }
  }

  /** A layer keeps a revision of its own, and gets the counter's decimal if it has none; nothing else changes. */
  lemma StampKeepsGiven(layer: Layer, n: nat)
    ensures Stamped(layer, n).(revision := layer.revision) == layer
    ensures layer.revision != "" ==> Stamped(layer, n) == layer
    ensures layer.revision == "" ==> exists count: nat | count < TWO_64 :: (n - count) % TWO_64 == 0 && Stamped(layer, n).revision == Itoa(count)
  {
    var count := n % TWO_64;
    assert n == n / TWO_64 * TWO_64 + count;
    assert (n - count) % TWO_64 == 0;
  }
}
