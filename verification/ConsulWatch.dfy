/** contrib/sources/consul/consul.go: the blocking-query cursor of the watch loop. */
module ConsulWatch {
  import opened Basics
  import opened Int64

  function Max(a: nat, b: nat): nat {
    if a < b then b else a
  }

  /** One query of the loop: an error, or the index of the response. */
  type Reply = Option<nat>

  const FIRST_BACKOFF := 250
  const LAST_BACKOFF := 5000

  class Watcher {
    var index: nat
    var failed: bool
    /** Milliseconds. */
    var backoff: nat
    /** The index of the baseline query, then the loop's replies. */
    ghost const baseline: nat
    ghost var replies: seq<Reply>

    ghost predicate Valid()
      reads this
    {
      index == Cursor(baseline, replies) &&
      (failed <==> replies != [] && replies[|replies| - 1].None?) &&
      FIRST_BACKOFF <= backoff <= LAST_BACKOFF &&
      (!failed ==> backoff == FIRST_BACKOFF)
    }

    constructor (lastIndex: nat)
      ensures Valid() && baseline == lastIndex && replies == []
    {
      index, failed, backoff := Max(lastIndex, 1), false, FIRST_BACKOFF;
      baseline, replies := lastIndex, [];
    }

    /** One pass of the loop. */
    method Query(reply: Reply) returns (notify: bool)
      requires Valid()
      modifies this
      ensures Valid() && replies == old(replies) + [reply]
      ensures notify == Notifies(baseline, old(replies), reply)
      ensures reply.None? ==> backoff == (if old(backoff) * 2 < LAST_BACKOFF then old(backoff) * 2 else LAST_BACKOFF)
    {
      replies := replies + [reply];
      assert replies[..|replies| - 1] == old(replies);
      if reply.None? {
        failed := true;
        backoff := if backoff * 2 < LAST_BACKOFF then backoff * 2 else LAST_BACKOFF;
        return true;
      }
      notify := failed || reply.value != index;
      failed, backoff := false, FIRST_BACKOFF;
      var next := Max(reply.value, 1);
      index := if next < index then 0 else next;
    }
  }

  /** The cursor after the replies: a regressing index restarts the query from zero. */
  function Cursor(baseline: nat, replies: seq<Reply>): nat {
    if replies == [] then Max(baseline, 1)
    else
      var before := Cursor(baseline, replies[..|replies| - 1]);
      match replies[|replies| - 1]
      case None => before
      case Some(i) => if Max(i, 1) < before then 0 else Max(i, 1)
  }

  function Notifies(baseline: nat, replies: seq<Reply>, reply: Reply): bool {
    reply.None? || (replies != [] && replies[|replies| - 1].None?) || reply.value != Cursor(baseline, replies)
  }

  /** The index of the last response that succeeded, the baseline included. */
  function LastSeen(baseline: nat, replies: seq<Reply>): nat {
    if replies == [] then baseline
    else match replies[|replies| - 1]
      case None => LastSeen(baseline, replies[..|replies| - 1])
      case Some(i) => i
  }

  lemma {:induction false} CursorIsZeroOrLast(baseline: nat, replies: seq<Reply>)
    ensures Cursor(baseline, replies) == 0 || Cursor(baseline, replies) == Max(LastSeen(baseline, replies), 1)
  {
    if replies != [] { CursorIsZeroOrLast(baseline, replies[..|replies| - 1]); }
  }

  /**
   * A response whose index differs from the last one seen, the baseline included, notifies,
   * and so does any that follows a failure, provided responses carry a positive index.
   */
  lemma EveryChangeNotifies(baseline: nat, replies: seq<Reply>, index: nat)
    requires index >= 1
    requires index != Max(LastSeen(baseline, replies), 1) || (replies != [] && replies[|replies| - 1].None?)
    ensures Notifies(baseline, replies, Some(index))
  {
    CursorIsZeroOrLast(baseline, replies);
  }

  /** How many successes, up to the last, came each below the one before it. */
  function Falls(baseline: nat, replies: seq<Reply>): nat {
    if replies == [] then 0
    else
      var before := replies[..|replies| - 1];
      match replies[|replies| - 1]
      case None => Falls(baseline, before)
      case Some(i) => if Max(i, 1) < Max(LastSeen(baseline, before), 1) then Falls(baseline, before) + 1 else 0
  }

  /** A fall restarts the query from zero, and the reply to that is taken as it comes. */
  lemma {:induction false} CursorIsZeroIff(baseline: nat, replies: seq<Reply>)
    ensures Cursor(baseline, replies) == 0 <==> Falls(baseline, replies) % 2 == 1
  {
    if replies != [] {
      CursorIsZeroIff(baseline, replies[..|replies| - 1]);
      CursorIsZeroOrLast(baseline, replies[..|replies| - 1]);
    }
  }

  /**
   * With indexes of zero allowed, a response whose index differs from the last one seen, the
   * baseline included, is missed exactly when it does not follow a failure and either goes
   * from zero to one without an odd number of falls, or to zero after an odd number of them.
   */
  lemma ChangeMissedIff(baseline: nat, replies: seq<Reply>, index: nat)
    requires index != LastSeen(baseline, replies)
    ensures !Notifies(baseline, replies, Some(index)) <==>
            (replies == [] || replies[|replies| - 1].Some?) &&
            ((index == 1 && LastSeen(baseline, replies) == 0 && Falls(baseline, replies) % 2 == 0) ||
             (index == 0 && Falls(baseline, replies) % 2 == 1))
  {
    CursorIsZeroOrLast(baseline, replies);
    CursorIsZeroIff(baseline, replies);
  }

  /** An unchanged index is silent, unless it follows a failure, a fall, or is zero and was not asked for as such. */
  lemma UnchangedNotifiesIff(baseline: nat, replies: seq<Reply>)
    ensures Notifies(baseline, replies, Some(LastSeen(baseline, replies))) <==>
            (replies != [] && replies[|replies| - 1].None?) ||
            (LastSeen(baseline, replies) == 0 <==> Falls(baseline, replies) % 2 == 0)
  {
    CursorIsZeroOrLast(baseline, replies);
    CursorIsZeroIff(baseline, replies);
  }

  /** From zero to one, right after the baseline or later, and to zero after a fall. */
  lemma MissedChanges()
    ensures LastSeen(0, []) == 0 && !Notifies(0, [], Some(1))
    ensures LastSeen(1, [Some(1), Some(0)]) == 0 && !Notifies(1, [Some(1), Some(0)], Some(1))
    ensures LastSeen(5, [Some(3)]) == 3 && !Notifies(5, [Some(3)], Some(0))
  {
    var up: seq<Reply>, down: seq<Reply> := [Some(1), Some(0)], [Some(3)];
    assert up[..1] == [Some(1)] && up[..1][..0] == [] && down[..0] == [];
    ChangeMissedIff(0, [], 1);
    ChangeMissedIff(1, up, 1);
    ChangeMissedIff(5, down, 0);
  }

  // ---- The request's time limit, in 64-bit nanoseconds ----------------------

  const MAX_WAIT: int := 600_000_000_000

  /** valid's guards on the durations, computed as the code computes them. */
  predicate DurationsValid(timeout: int, wait: int) {
    timeout > 0 && 0 <= wait <= MAX_WAIT &&
    timeout <= Wrap(Wrap(MAX_INT64 - wait) - wait / 16)
  }

  lemma WrapIsSameIff(x: int)
    requires 0 <= x < TWO_64
    ensures Wrap(x) == x <==> x <= MAX_INT64
  {
    assert x % TWO_64 == x;
  }

  /** Among admissible waits the guard on timeout accepts exactly those whose limit does not wrap around. */
  lemma TimeoutAcceptedIffItFits(timeout: int, wait: int)
    requires 0 < timeout <= MAX_INT64 && 0 <= wait <= MAX_WAIT
    ensures DurationsValid(timeout, wait) <==>
            Wrap(Wrap(wait + wait / 16) + timeout) == wait + wait / 16 + timeout
  {
    var jitter := wait / 16;
    assert 0 <= jitter <= MAX_WAIT;
    WrapIsSameIff(MAX_INT64 - wait);
    WrapIsSameIff(MAX_INT64 - wait - jitter);
    WrapIsSameIff(wait + jitter);
    WrapIsSameIff(wait + jitter + timeout);
  }

  // ---- Ignored keys -----------------------------------------------------------

  /** The key itself, or what is left of it before one of its slashes. */
  predicate CutAt(key: string, i: int) {
    0 <= i <= |key| && (i == |key| || key[i] == '/')
  }

  function LastSlash(key: string): (i: Option<nat>)
    ensures match i
            case Some(j) => j < |key| && key[j] == '/' && forall m | j < m < |key| :: key[m] != '/'
            case None => '/' !in key
  {
    if key == "" then None
    else if key[|key| - 1] == '/' then Some(|key| - 1)
    else
      assert key == key[..|key| - 1] + [key[|key| - 1]];
      LastSlash(key[..|key| - 1])
  }

  /** A key is ignored iff a pattern matches it or anything it is below. */
  method Ignored(patterns: seq<string>, matches: (string, string) -> bool, key: string) returns (r: bool)
    ensures r <==> exists p, i | p in patterns && CutAt(key, i) :: matches(p, key[..i])
  {
    if patterns == [] { return false; }
    var rest := key;
    assert key[..|key|] == key;
    while true
      invariant CutAt(key, |rest|) && rest == key[..|rest|]
      invariant forall p, i | p in patterns && CutAt(key, i) && i > |rest| :: !matches(p, key[..i])
      decreases |rest|
    {
      for n := 0 to |patterns|
        invariant forall m | 0 <= m < n :: !matches(patterns[m], rest)
      {
        if matches(patterns[n], rest) {
          assert patterns[n] in patterns && CutAt(key, |rest|) && key[..|rest|] == rest;
          return true;
        }
      }
      var slash := LastSlash(rest);
      assert forall i | 0 <= i < |rest| && CutAt(key, i) :: rest[i] == '/';
      if slash.None? { return false; }
      rest := rest[..slash.value];
    }
  }
}
