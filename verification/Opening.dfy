/** runtime.go's openLoader and the run loop's exit: which watchers are stopped, and in what order. */
module Opening {
  /** What registering a source gives: not a watcher, or a stop function that may be nil, or an error. */
  datatype Watching = NotAWatcher | Registered(hasStop: bool) | Failed(hasStop: bool)

  datatype BuildResult = Succeeds | Degraded | Fails

  /** One build of the initial load, and whether the context has ended after it. */
  datatype Attempt = Attempt(result: BuildResult, ended: bool)

  /** The sources, by position, whose stop function is kept, up to the first that fails. */
  function Kept(ws: seq<Watching>, i: nat): seq<nat>
    requires i <= |ws|
    decreases |ws| - i
  {
    if i == |ws| || ws[i].Failed? then []
    else (if ws[i] == Registered(true) then [i] else []) + Kept(ws, i + 1)
  }

  /** The stop functions called: the failing registration's own, then the kept ones, last first. */
  function StoppedOnFailure(ws: seq<Watching>): seq<nat> {
    FailingStop(ws, 0) + Reversed(Kept(ws, 0))
  }

  function FailingStop(ws: seq<Watching>, i: nat): seq<nat>
    requires i <= |ws|
    decreases |ws| - i
  {
    if i == |ws| then []
    else if ws[i].Failed? then (if ws[i].hasStop then [i] else [])
    else FailingStop(ws, i + 1)
  }

  function Reversed(s: seq<nat>): (r: seq<nat>)
    ensures |r| == |s| && forall i | 0 <= i < |s| :: r[i] == s[|s| - 1 - i]
  {
    if s == [] then [] else Reversed(s[1..]) + [s[0]]
  }

  predicate AllRegister(ws: seq<Watching>) {
    forall i | 0 <= i < |ws| :: !ws[i].Failed?
  }

  /** The load is held while it fails only by degraded sources; running out means the context ended. */
  predicate LoadOpens(attempts: seq<Attempt>) {
    attempts != [] &&
    if attempts[0].result.Degraded? && !attempts[0].ended then LoadOpens(attempts[1..])
    else attempts[0].result.Succeeds? && !attempts[0].ended
  }

  /** The n-th build succeeds, after builds that all failed by degraded sources, and the context lasts. */
  predicate OpensAt(attempts: seq<Attempt>, n: int) {
    0 <= n < |attempts| && attempts[n] == Attempt(Succeeds, false) &&
    forall m | 0 <= m < n :: attempts[m] == Attempt(Degraded, false)
  }

  lemma {:induction false} LoadOpensIff(attempts: seq<Attempt>)
    ensures LoadOpens(attempts) <==> exists n :: OpensAt(attempts, n)
    decreases |attempts|
  {
    if attempts != [] {
      var rest := attempts[1..];
      LoadOpensIff(rest);
      if attempts[0] == Attempt(Degraded, false) {
        if n :| OpensAt(rest, n) {
          forall m | 0 <= m < n + 1 ensures attempts[m] == Attempt(Degraded, false) {
            if m > 0 { assert attempts[m] == rest[m - 1]; }
          }
          assert OpensAt(attempts, n + 1);
        }
        if n :| OpensAt(attempts, n) {
          assert forall m | 0 <= m < n - 1 :: rest[m] == attempts[m + 1];
          assert OpensAt(rest, n - 1);
        }
      } else if LoadOpens(attempts) {
        assert OpensAt(attempts, 0);
      }
    }
  }

  class Opener {
    var stops: seq<nat>
    /** The stop functions called so far, in order. */
    var called: seq<nat>

    constructor ()
      ensures stops == [] && called == []
    {
      stops, called := [], [];
    }

    /** Calls every kept stop function, last registered first. */
    method StopAll()
      modifies this`called
      ensures called == old(called) + Reversed(stops)
    {
      var i := |stops|;
      while i > 0
        invariant 0 <= i <= |stops|
        invariant called == old(called) + Reversed(stops)[..|stops| - i]
      {
        i := i - 1;
        called := called + [stops[i]];
      }
    }

    /** Registers the watchers, then loads; on any failure everything registered is stopped. */
    method Open(ws: seq<Watching>, attempts: seq<Attempt>) returns (isOpen: bool)
      requires stops == [] && called == []
      modifies this
      ensures isOpen <==> AllRegister(ws) && LoadOpens(attempts)
      ensures isOpen ==> stops == Kept(ws, 0) && called == []
      ensures !isOpen ==> called == StoppedOnFailure(ws)
    {
      for i := 0 to |ws|
        invariant called == [] && forall j | 0 <= j < i :: !ws[j].Failed?
        invariant stops + Kept(ws, i) == Kept(ws, 0)
        invariant FailingStop(ws, i) == FailingStop(ws, 0)
      {
        if ws[i].Failed? {
          if ws[i].hasStop { called := [i]; }
          assert stops + [] == stops;
          StopAll();
          return false;
        }
        if ws[i] == Registered(true) { stops := stops + [i]; }
      }
      assert stops + [] == stops;
      var n := 0;
      while n < |attempts| && attempts[n].result.Degraded? && !attempts[n].ended
        invariant n <= |attempts|
        invariant LoadOpens(attempts) == LoadOpens(attempts[n..])
      {
        assert attempts[n..][0] == attempts[n] && attempts[n..][1..] == attempts[n + 1..];
        n := n + 1;
      }
      if n < |attempts| {
        assert attempts[n..][0] == attempts[n];
      }
      isOpen := n < |attempts| && attempts[n].result.Succeeds? && !attempts[n].ended;
      if !isOpen { StopAll(); }
    }
  }

  /** An opener used to the end: opened and later shut down, or failed; either way all stopped. */
  method OpenAndClose(ws: seq<Watching>, attempts: seq<Attempt>) returns (isOpen: bool, called: seq<nat>)
    ensures called == StoppedOnFailure(ws)
  {
    var opener := new Opener();
    isOpen := opener.Open(ws, attempts);
    if isOpen {
      NoFailingStop(ws, 0);
      opener.StopAll();
    }
    called := opener.called;
  }

  lemma {:induction false} NoFailingStop(ws: seq<Watching>, i: nat)
    requires AllRegister(ws) && i <= |ws|
    ensures FailingStop(ws, i) == []
    decreases |ws| - i
  {
    if i < |ws| { NoFailingStop(ws, i + 1); }
  }

  predicate AscendingFrom(k: seq<nat>, ws: seq<Watching>, i: nat) {
    (forall a | 0 <= a < |k| :: i <= k[a] < |ws| && ws[k[a]] == Registered(true)) &&
    (forall a, b | 0 <= a < b < |k| :: k[a] < k[b])
  }

  lemma AscendingCons(k: seq<nat>, ws: seq<Watching>, i: nat)
    requires AscendingFrom(k, ws, i + 1) && i < |ws| && ws[i] == Registered(true)
    ensures AscendingFrom([i] + k, ws, i)
  {
    var all := [i] + k;
    forall a | 0 <= a < |all| ensures i <= all[a] < |ws| && ws[all[a]] == Registered(true) {
      if a > 0 { assert all[a] == k[a - 1]; }
    }
    forall a, b | 0 <= a < b < |all| ensures all[a] < all[b] {
      assert all[b] == k[b - 1];
      if a > 0 { assert all[a] == k[a - 1]; }
    }
  }

  lemma {:induction false} KeptAscending(ws: seq<Watching>, i: nat)
    requires i <= |ws|
    ensures AscendingFrom(Kept(ws, i), ws, i)
    decreases |ws| - i
  {
    if i < |ws| && !ws[i].Failed? {
      KeptAscending(ws, i + 1);
      if ws[i] == Registered(true) { AscendingCons(Kept(ws, i + 1), ws, i); } else { assert [] + Kept(ws, i + 1) == Kept(ws, i + 1); }
    }
  }

  lemma {:induction false} FailingStopIsFirst(ws: seq<Watching>, i: nat)
    requires i <= |ws|
    ensures |FailingStop(ws, i)| <= 1
    ensures forall f | f in FailingStop(ws, i) :: i <= f < |ws| && ws[f] == Failed(true) && f !in Kept(ws, i)
    decreases |ws| - i
  {
    if i < |ws| && !ws[i].Failed? {
      FailingStopIsFirst(ws, i + 1);
    }
    KeptAscending(ws, i);
  }

  /** A short front before an ascending sequence in reverse: no repeats, descending after the front. */
  lemma FrontThenReversed(f: seq<nat>, k: seq<nat>)
    requires |f| <= 1 && forall x | x in f :: x !in k
    requires forall a, b | 0 <= a < b < |k| :: k[a] < k[b]
    ensures var c := f + Reversed(k);
      (forall a, b | 0 <= a < b < |c| :: c[a] != c[b]) &&
      (forall a, b | |f| <= a < b < |c| :: c[a] > c[b]) &&
      (forall x :: x in c <==> x in f || x in k)
  {
    var r := Reversed(k);
    assert forall b | 0 <= b < |r| :: r[b] in k;
    forall x | x in k ensures x in r {
      var a :| 0 <= a < |k| && k[a] == x;
      assert r[|k| - 1 - a] == x;
    }
  }

  /** None of the registrations from i up to x fails. */
  predicate NoneFails(ws: seq<Watching>, i: nat, x: nat)
    requires x <= |ws|
  {
    forall m | i <= m < x :: !ws[m].Failed?
  }

  lemma {:induction false} KeptExactly(ws: seq<Watching>, i: nat, x: nat)
    requires i <= |ws|
    ensures x in Kept(ws, i) <==> i <= x < |ws| && ws[x] == Registered(true) && NoneFails(ws, i, x)
    decreases |ws| - i
  {
    if i < |ws| && !ws[i].Failed? {
      KeptExactly(ws, i + 1, x);
      assert i < x < |ws| ==> (NoneFails(ws, i, x) <==> NoneFails(ws, i + 1, x));
      assert x in Kept(ws, i) <==> (x == i && ws[i] == Registered(true)) || x in Kept(ws, i + 1);
    } else {
      assert i < x < |ws| ==> !NoneFails(ws, i, x);
    }
  }

  lemma {:induction false} FailingStopExactly(ws: seq<Watching>, i: nat, x: nat)
    requires i <= |ws|
    ensures x in FailingStop(ws, i) <==> i <= x < |ws| && ws[x] == Failed(true) && NoneFails(ws, i, x)
    decreases |ws| - i
  {
    if i < |ws| && !ws[i].Failed? {
      FailingStopExactly(ws, i + 1, x);
      assert i < x < |ws| ==> (NoneFails(ws, i, x) <==> NoneFails(ws, i + 1, x));
    } else {
      assert i < x < |ws| ==> !NoneFails(ws, i, x);
    }
  }

  /** A stop function came with this registration, none before it having failed. */
  predicate Obtained(ws: seq<Watching>, x: nat) {
    x < |ws| && (ws[x] == Registered(true) || ws[x] == Failed(true)) && NoneFails(ws, 0, x)
  }

  /**
   * On every way out exactly the stop functions that were obtained are called, each once: the
   * failing registration's own, then those of the registered watchers in reverse order.
   */
  lemma EachStopOnce(ws: seq<Watching>)
    ensures var c := StoppedOnFailure(ws);
      (forall a, b | 0 <= a < b < |c| :: c[a] != c[b]) &&
      (forall a, b | |FailingStop(ws, 0)| <= a < b < |c| :: c[a] > c[b]) &&
      (forall x: nat :: x in c <==> Obtained(ws, x)) &&
      (forall x: nat | Obtained(ws, x) && ws[x].Failed? :: c[0] == x)
  {
    KeptAscending(ws, 0);
    FailingStopIsFirst(ws, 0);
    FrontThenReversed(FailingStop(ws, 0), Kept(ws, 0));
    forall x: nat ensures x in StoppedOnFailure(ws) <==> Obtained(ws, x) {
      KeptExactly(ws, 0, x);
      FailingStopExactly(ws, 0, x);
    }
    forall x: nat | Obtained(ws, x) && ws[x].Failed? ensures StoppedOnFailure(ws)[0] == x {
      FailingStopExactly(ws, 0, x);
    }
  }
}
