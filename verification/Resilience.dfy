/** sources.go's resilient wrapper: its cache, its backoff, and its wake-or-wait loop. */
module Resilience {
  import opened Basics
  import opened Int64
  import opened Trees
  import opened Filtering

  // ---- Read: the last good layer stands in for a failing source -----------

  /** What the wrapped source's Read gives. */
  datatype Reading = Layered(layer: Layer) | Broken(error: string)

  /** A layer that cannot be copied counts as a failure too. */
  predicate Good(r: Reading) {
    r.Layered? && LayerClonable(r.layer)
  }

  /** A read error and a layer that nests too deep to be copied are failures alike, and nothing else is. */
  lemma GoodIff(r: Reading)
    ensures Good(r) <==>
            match r
            case Broken(_) => false
            case Layered(layer) =>
              (layer.values.Some? ==> Clonable(Object(layer.values.value), 0)) &&
              forall i | 0 <= i < |layer.edits| :: Clonable(layer.edits[i].value, 0)
  {
  }

  const EMPTY_LAYER := Layer(None, "", map[], [], None)

  /** The most recent layer read well, or an empty one. */
  function LastGood(history: seq<Reading>): Layer {
    if history == [] then EMPTY_LAYER
    else if Good(history[|history| - 1]) then history[|history| - 1].layer.(stale := None)
    else LastGood(history[..|history| - 1])
  }

  /** The latest good reading, by position. */
  ghost predicate LatestGood(history: seq<Reading>, i: nat) {
    i < |history| && Good(history[i]) && forall j | i < j < |history| :: !Good(history[j])
  }

  lemma {:induction false} LastGoodIs(history: seq<Reading>)
    ensures forall i: nat | LatestGood(history, i) :: LastGood(history) == history[i].layer.(stale := None)
    ensures (forall i | 0 <= i < |history| :: !Good(history[i])) ==> LastGood(history) == Layer(None, "", map[], [], None)
  {
    if history != [] {
      var last, before := |history| - 1, history[..|history| - 1];
      LastGoodIs(before);
      forall i: nat | LatestGood(history, i)
        ensures LastGood(history) == history[i].layer.(stale := None)
      {
        if i < last {
          assert LatestGood(before, i) && before[i] == history[i];
        }
      }
    }
  }

  function FailureOf(r: Reading): string {
    match r
    case Layered(_) => "input exceeds maximum nesting"
    case Broken(error) => error
  }

  class Resilient {
    var last: Layer
    var failing: bool
    /** The one-slot wake channels of the watch loops: true when a wake is in the slot. */
    var wakes: map<nat, bool>
    ghost var history: seq<Reading>

    ghost predicate Valid()
      reads this
    {
      last == LastGood(history) &&
      (failing <==> history != [] && !Good(history[|history| - 1])) &&
      last.stale.None?
    }

    constructor ()
      ensures Valid() && history == [] && wakes == map[]
    {
      last, failing, wakes, history := EMPTY_LAYER, false, map[], [];
    }

    /**
     * Read never fails. While the source fails it gives the layer of the latest good read,
     * with nothing but Stale changed, or an empty one if there was none, and wakes every loop.
     */
    method Read(inner: Reading) returns (r: Layer)
      requires Valid()
      modifies this
      ensures Valid() && history == old(history) + [inner]
      ensures Good(inner) ==> r == inner.layer && wakes == old(wakes)
      ensures !Good(inner) ==>
                (forall i: nat | LatestGood(old(history), i) :: r == old(history)[i].layer.(stale := Some(FailureOf(inner)))) &&
                ((forall i | 0 <= i < |old(history)| :: !Good(old(history)[i])) ==>
                   r == Layer(None, "", map[], [], Some(FailureOf(inner))))
      ensures !Good(inner) ==> wakes.Keys == old(wakes.Keys) && forall w | w in wakes :: wakes[w]
    {
      history := history + [inner];
      assert history[..|history| - 1] == old(history);
      if inner.Layered? && LayerClonable(inner.layer) {
        last, failing := inner.layer.(stale := None), false;
        return inner.layer;
      }
      LastGoodIs(old(history));
      failing := true;
      var todo := wakes.Keys;
      while todo != {}
        invariant todo <= wakes.Keys == old(wakes.Keys)
        invariant forall w | w in wakes && w !in todo :: wakes[w]
        invariant last == old(last) && failing && history == old(history) + [inner]
        decreases todo
      {
        var w :| w in todo;
        wakes := wakes[w := true];
        todo := todo - {w};
      }
      assert history[..|history| - 1] == old(history);
      r := last.(stale := Some(FailureOf(inner)));
    }
  }

  // ---- Backoff in 64-bit arithmetic ----------------------------------------

  function Min(a: int, b: int): int {
    if a < b then a else b
  }

  function NextDelay(delay: int, hi: int): int {
    Min(Wrap(delay * 2), hi)
  }

  /** The delay after k consecutive waits. */
  function DelayAfter(delay: int, hi: int, k: nat): int
    decreases k
  {
    if k == 0 then delay else DelayAfter(NextDelay(delay, hi), hi, k - 1)
  }

  function Pow2(k: nat): (p: nat)
    ensures p >= 1
  {
    if k == 0 then 1 else 2 * Pow2(k - 1)
  }

  lemma DoubleNoWrap(d: int)
    requires 0 <= d <= MAX_INT64 / 2
    ensures Wrap(d * 2) == d * 2
  {
  }

  lemma DoubleWraps(d: int)
    requires MAX_INT64 / 2 < d <= MAX_INT64
    ensures Wrap(d * 2) < 0
  {
    assert d * 2 % TWO_64 == d * 2;
  }

  lemma TimesPow(d: int, k: nat)
    requires k > 0
    ensures d * Pow2(k) == (d * 2) * Pow2(k - 1)
  {
    var p := Pow2(k - 1);
    assert d * (2 * p) == (d * 2) * p;
  }

  lemma TimesPowAtLeast(d: int, k: nat)
    requires d >= 0
    ensures d * Pow2(k) >= d
  {
    var p := Pow2(k);
    assert d * p >= d * 1;
  }

  lemma {:induction false} DelayDoubles(d: int, hi: int, k: nat)
    requires 0 < d <= hi <= MAX_INT64 / 2
    ensures DelayAfter(d, hi, k) == Min(d * Pow2(k), hi)
    decreases k
  {
    if k > 0 {
      DoubleNoWrap(d);
      TimesPow(d, k);
      DelayDoubles(NextDelay(d, hi), hi, k - 1);
      if d * 2 > hi {
        TimesPowAtLeast(hi, k - 1);
        TimesPowAtLeast(d * 2, k - 1);
      }
    }
  }

  lemma {:induction false} DelayOverflows(lo: int, d: int, hi: int) returns (k: nat)
    requires 0 < lo <= d <= hi <= MAX_INT64 && hi > MAX_INT64 / 2
    ensures DelayAfter(d, hi, k) < lo
    decreases hi - d
  {
    if d > MAX_INT64 / 2 {
      DoubleWraps(d);
      assert DelayAfter(d, hi, 1) == DelayAfter(NextDelay(d, hi), hi, 0);
      k := 1;
    } else {
      DoubleNoWrap(d);
      var rest := DelayOverflows(lo, NextDelay(d, hi), hi);
      k := rest + 1;
    }
  }

  ghost predicate DelayWithin(lo: int, hi: int, k: nat) {
    lo <= DelayAfter(lo, hi, k) <= hi
  }

  /**
   * The retry delay is min(lo * 2^k, hi) after k waits, and stays within its bounds, exactly
   * when the upper bound is at most half of the largest duration; Watch asks only lo <= hi.
   */
  lemma BackoffWithinIffNoOverflow(lo: int, hi: int)
    requires 0 < lo <= hi <= MAX_INT64
    ensures (forall k :: DelayWithin(lo, hi, k)) <==> hi <= MAX_INT64 / 2
    ensures hi <= MAX_INT64 / 2 ==> forall k :: DelayAfter(lo, hi, k) == Min(lo * Pow2(k), hi)
  {
    if hi <= MAX_INT64 / 2 {
      forall k ensures DelayAfter(lo, hi, k) == Min(lo * Pow2(k), hi) && DelayWithin(lo, hi, k) {
        DelayDoubles(lo, hi, k);
        TimesPowAtLeast(lo, k);
      }
    } else {
      var k := DelayOverflows(lo, lo, hi);
      assert !DelayWithin(lo, hi, k);
    }
  }

  // ---- The watch loops against concurrent reads ------------------------------

  /** Where a loop is: at its top, parked on its wake channel, or waiting for its timer. */
  datatype Pc = Top | Parked | Waiting(register: bool) | Stopped

  /** waits counts the timer waits since delay was last reset; notified the notifications given. */
  datatype LoopState = LoopState(pc: Pc, unregistered: bool, wake: bool, delay: int, waits: nat, notified: nat)

  datatype State = State(failing: bool, loops: map<nat, LoopState>, lo: int, hi: int)

  datatype Step =
    | ReadOk | ReadFails
    | StartLoop(w: nat, watcher: bool)
    | RegisterOk(w: nat) | RegisterFails(w: nat) | CheckStale(w: nat)
    | TakeWake(w: nat) | TimerFires(w: nat) | Stop(w: nat)

  predicate Enabled(s: State, step: Step) {
    match step
    case StartLoop(w, _) => w !in s.loops
    case RegisterOk(w) => w in s.loops && s.loops[w].pc.Top? && s.loops[w].unregistered
    case RegisterFails(w) => w in s.loops && s.loops[w].pc.Top? && s.loops[w].unregistered
    case CheckStale(w) => w in s.loops && s.loops[w].pc.Top? && !s.loops[w].unregistered
    case TakeWake(w) => w in s.loops && s.loops[w].pc.Parked? && s.loops[w].wake
    case TimerFires(w) => w in s.loops && s.loops[w].pc.Waiting?
    case Stop(w) => w in s.loops && (s.loops[w].pc.Parked? || s.loops[w].pc.Waiting?)
    case _ => true
  }

  /** A loop's own step; stale is what it sees under the mutex if it looks. */
  function LoopApply(l: LoopState, stale: bool, lo: int, hi: int, step: Step): LoopState {
    match step
    case RegisterOk(_) => l.(unregistered := false, delay := lo, waits := 0, notified := l.notified + 1)
    case RegisterFails(_) => l.(pc := Waiting(true))
    case CheckStale(_) => if stale then l.(pc := Waiting(false)) else l.(pc := Parked, delay := lo, waits := 0)
    case TakeWake(_) => l.(pc := Top, wake := false)
    case TimerFires(_) =>
      l.(pc := Top, delay := NextDelay(l.delay, hi), waits := l.waits + 1,
         notified := if l.pc.Waiting? && !l.pc.register then l.notified + 1 else l.notified)
    case Stop(_) => l.(pc := Stopped)
    case _ => l
  }

  function Apply(s: State, step: Step): State
    requires Enabled(s, step)
  {
    match step
    case ReadOk => s.(failing := false)
    case ReadFails => s.(failing := true, loops := map w | w in s.loops :: s.loops[w].(wake := true))
    case StartLoop(w, watcher) => s.(loops := s.loops[w := LoopState(Top, watcher, false, s.lo, 0, 0)])
    case _ => s.(loops := s.loops[step.w := LoopApply(s.loops[step.w], s.failing, s.lo, s.hi, step)])
  }

  ghost predicate LoopInv(l: LoopState, failing: bool, lo: int, hi: int) {
    (l.pc.Parked? && failing ==> l.wake) &&
    (l.pc.Parked? ==> !l.unregistered) &&
    (l.pc.Waiting? ==> l.pc.register == l.unregistered) &&
    l.delay == DelayAfter(lo, hi, l.waits)
  }

  ghost predicate Inv(s: State) {
    forall w | w in s.loops :: LoopInv(s.loops[w], s.failing, s.lo, s.hi)
  }

  lemma {:induction false} DelayAfterSnoc(d: int, hi: int, k: nat)
    ensures NextDelay(DelayAfter(d, hi, k), hi) == DelayAfter(d, hi, k + 1)
    decreases k
  {
    if k > 0 { DelayAfterSnoc(NextDelay(d, hi), hi, k - 1); }
  }

  lemma InvKept(s: State, step: Step)
    requires Inv(s) && Enabled(s, step)
    ensures Inv(Apply(s, step))
  {
    var t := Apply(s, step);
    forall w | w in t.loops ensures LoopInv(t.loops[w], t.failing, t.lo, t.hi) {
      if w in s.loops {
        assert LoopInv(s.loops[w], s.failing, s.lo, s.hi);
        DelayAfterSnoc(s.lo, s.hi, s.loops[w].waits);
      }
    }
  }

  ghost predicate Run(states: seq<State>, steps: seq<Step>) {
    |states| == |steps| + 1 && states[0].loops == map[] &&
    forall i | 0 <= i < |steps| :: Enabled(states[i], steps[i]) && states[i + 1] == Apply(states[i], steps[i])
  }

  lemma {:induction false} Reachable(states: seq<State>, steps: seq<Step>, i: nat)
    requires Run(states, steps) && i < |states|
    ensures Inv(states[i])
  {
    if i > 0 {
      Reachable(states, steps, i - 1);
      InvKept(states[i - 1], steps[i - 1]);
    }
  }

  /** How many of its own steps a registered loop is away from notifying while the source fails. */
  function Distance(pc: Pc): nat {
    match pc
    case Parked => 3
    case Top => 2
    case _ => 1
  }

  /**
   * In every interleaving, a loop whose inner watcher is registered or absent is never stuck
   * while the source fails: it always has a step, and each brings it nearer to a notification.
   */
  lemma FailingSourceIsRetried(states: seq<State>, steps: seq<Step>, i: nat, w: nat)
    requires Run(states, steps) && i < |states| && states[i].failing
    requires w in states[i].loops && !states[i].loops[w].unregistered && !states[i].loops[w].pc.Stopped?
    ensures var s, l := states[i], states[i].loops[w];
      var step := match l.pc case Parked => TakeWake(w) case Top => CheckStale(w) case _ => TimerFires(w);
      Enabled(s, step) &&
      var l' := Apply(s, step).loops[w];
      (l'.notified == l.notified + 1 && l.pc.Waiting?) || (l'.notified == l.notified && Distance(l'.pc) < Distance(l.pc))
    ensures states[i].loops[w].delay == DelayAfter(states[i].lo, states[i].hi, states[i].loops[w].waits)
  {
    Reachable(states, steps, i);
    assert LoopInv(states[i].loops[w], states[i].failing, states[i].lo, states[i].hi);
  }

  /** A loop whose source recovers, or whose watcher registers, waits from the lower bound again. */
  lemma BackoffRestarts(s: State, step: Step)
    requires Enabled(s, step) && (step.RegisterOk? || (step.CheckStale? && !s.failing))
    ensures Apply(s, step).loops[step.w].delay == s.lo
  {
  }

  /** A healthy source is left alone: its loop parks and stays silent until a read fails. */
  lemma HealthyLoopParks(s: State, w: nat)
    requires Inv(s) && !s.failing && Enabled(s, CheckStale(w))
    ensures var l := Apply(s, CheckStale(w)).loops[w];
      l.pc.Parked? && l.notified == s.loops[w].notified && l.wake == s.loops[w].wake
    ensures !Apply(s, ReadOk).failing && Apply(s, ReadOk).loops == s.loops
  {
  }
}
