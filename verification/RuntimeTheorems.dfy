/** The runtime's guarantees, for every state of every run. */
module RuntimeTheorems {
  import opened Basics
  import opened RuntimeProtocol
  import opened RuntimeSafety
  import opened RuntimeInvalidation
  import opened RuntimeFeed
  import opened RuntimePublication

  ghost predicate Invariant(s: State) {
    GateInv(s) && RevisionInv(s) && EndInv(s) && NoticedInv(s) && FeedOk(s)
  }

  lemma InvariantStart(n: nat, watched: set<nat>)
    ensures Invariant(Start(n, watched))
  {
    GateStart(n, watched);
    RevisionStart(n, watched);
    NoticedStart(n, watched);
    FeedStart(n, watched);
  }

  lemma InvariantKept(s: State, step: Step)
    requires Invariant(s) && Enabled(s, step)
    ensures Invariant(Apply(s, step))
  {
    assert GateInv(Apply(s, step)) by { GateKept(s, step); }
    assert RevisionInv(Apply(s, step)) by { RevisionKept(s, step); }
    assert EndInv(Apply(s, step)) by { EndKept(s, step); }
    assert NoticedInv(Apply(s, step)) by { NoticedInvKept(s, step); }
    assert FeedOk(Apply(s, step)) by { FeedKept(s, step); }
  }

  lemma SourcesKept(s: State, step: Step)
    requires Enabled(s, step)
    ensures |Apply(s, step).world.revs| == |s.world.revs| && Apply(s, step).world.watched == s.world.watched
  {
  }

  lemma {:induction false} Reachable(states: seq<State>, steps: seq<Step>, n: nat, watched: set<nat>, i: nat)
    requires Run(states, steps, n, watched) && i < |states|
    ensures Invariant(states[i])
    ensures |states[i].world.revs| == n && states[i].world.watched == watched
  {
    if i == 0 {
      InvariantStart(n, watched);
    } else {
      Reachable(states, steps, n, watched, i - 1);
      InvariantKept(states[i - 1], steps[i - 1]);
      SourcesKept(states[i - 1], steps[i - 1]);
    }
  }

  lemma {:induction false} ReachableReads(states: seq<State>, steps: seq<Step>, n: nat, watched: set<nat>, i: nat)
    requires Run(states, steps, n, watched) && i < |states|
    ensures LatestInv(states[i]) && ShownInv(states[i])
  {
    if i == 0 {
      LatestStart(n, watched);
    } else {
      ReachableReads(states, steps, n, watched, i - 1);
      Reachable(states, steps, n, watched, i - 1);
      LatestKept(states[i - 1], steps[i - 1]);
      ShownKept(states[i - 1], steps[i - 1]);
    }
  }

  /** At most one actor is between taking the gate and leaving it. */
  lemma BuildsAreSerial(states: seq<State>, steps: seq<Step>, n: nat, watched: set<nat>, i: nat, a: Actor, b: Actor)
    requires Run(states, steps, n, watched) && i < |states|
    requires Inside(At(states[i], a)) && Inside(At(states[i], b))
    ensures a == b
  {
    Reachable(states, steps, n, watched, i);
  }

  /**
   * While the runtime is open and its context has not ended, a watched source set since the
   * latest build read it is noticed, or a failure is being reported to subscribers.
   */
  lemma NoLostInvalidation(states: seq<State>, steps: seq<Step>, n: nat, watched: set<nat>, i: nat, source: nat)
    requires Run(states, steps, n, watched) && i < |states| && source in watched
    requires Opened(states[i]) && !states[i].ended && Stale(states[i], source)
    ensures Noticed(states[i], source) || Reporting(states[i])
  {
    Reachable(states, steps, n, watched, i);
  }

  /** No older than: every source's revision, and the version once open. */
  predicate NotAfter(s: State, t: State, source: nat) {
    source < |s.store.current.revisions| && source < |t.store.current.revisions| &&
    s.store.current.revisions[source] <= t.store.current.revisions[source] &&
    (Opened(s) ==> Opened(t) && s.store.current.version <= t.store.current.version)
  }

  lemma StepNotAfter(s: State, step: Step, source: nat)
    requires Invariant(s) && Enabled(s, step) && source < |s.world.revs|
    ensures NotAfter(s, Apply(s, step), source)
  {
    assert s.store.current.revisions[source] <= Apply(s, step).store.current.revisions[source] by {
      CurrentNeverGoesBack(s, step, source);
    }
    if Opened(s) {
      VersionCountsChanges(s, step);
    }
  }

  lemma RunNotAfter(states: seq<State>, steps: seq<Step>, n: nat, watched: set<nat>, i: nat, source: nat)
    requires Run(states, steps, n, watched) && i < |states| && source < n
    ensures NotAfter(states[i], states[i], source)
    ensures i + 1 < |states| ==> NotAfter(states[i], states[i + 1], source)
  {
    Reachable(states, steps, n, watched, i);
    if i + 1 < |states| { StepNotAfter(states[i], steps[i], source); }
  }

  lemma {:induction false} NotAfterChain(states: seq<State>, i: nat, k: nat, source: nat)
    requires i <= k < |states| && NotAfter(states[i], states[i], source)
    requires forall j | i <= j < k :: NotAfter(states[j], states[j + 1], source)
    ensures NotAfter(states[i], states[k], source)
    decreases k
  {
    if i < k { NotAfterChain(states, i, k - 1, source); }
  }

  /** Over any stretch of a run, every source's revision in the current snapshot only moves forward. */
  lemma RevisionsOnlyGrow(states: seq<State>, steps: seq<Step>, n: nat, watched: set<nat>, i: nat, k: nat, source: nat)
    requires Run(states, steps, n, watched) && i <= k < |states| && source < n
    ensures NotAfter(states[i], states[k], source)
  {
    forall j: nat | i <= j <= k
      ensures NotAfter(states[j], states[j], source) && (j < k ==> NotAfter(states[j], states[j + 1], source))
    {
      RunNotAfter(states, steps, n, watched, j, source);
    }
    NotAfterChain(states, i, k, source);
  }

  /** The last event whose publication was started in the first i steps. */
  function LastPublished(states: seq<State>, steps: seq<Step>, i: nat): Option<Event>
    requires i <= |steps| < |states| && forall k | 0 <= k < |steps| :: Enabled(states[k], steps[k])
  {
    if i == 0 then None
    else Latest(LastPublished(states, steps, i - 1), Publication(states[i - 1], steps[i - 1]))
  }

  /** The last good build that was not refused in the first i steps. */
  function LastBuilt(states: seq<State>, steps: seq<Step>, i: nat): Option<Snapshot>
    requires i <= |steps| < |states| && forall k | 0 <= k < |steps| :: Enabled(states[k], steps[k])
  {
    if i == 0 then None
    else Latest(LastBuilt(states, steps, i - 1), Completion(states[i - 1], steps[i - 1]))
  }

  lemma {:induction false} StoreAccounts(states: seq<State>, steps: seq<Step>, n: nat, watched: set<nat>, i: nat)
    requires Run(states, steps, n, watched) && i < |states|
    ensures Accounts(states[i], LastPublished(states, steps, i), LastBuilt(states, steps, i))
  {
    if i > 0 {
      StoreAccounts(states, steps, n, watched, i - 1);
      Reachable(states, steps, n, watched, i - 1);
      AccountsKept(states[i - 1], steps[i - 1], LastPublished(states, steps, i - 1), LastBuilt(states, steps, i - 1));
    }
  }

  /**
   * In every state of a run: failed holds exactly when the last event published carried an
   * error; that event's snapshot is the current one; and once open the current snapshot has
   * the body, the revisions and the degraded sources of the last good build not refused.
   */
  lemma CurrentIsLastGood(states: seq<State>, steps: seq<Step>, n: nat, watched: set<nat>, i: nat)
    requires Run(states, steps, n, watched) && i < |states|
    ensures var st, published, built := states[i].store, LastPublished(states, steps, i), LastBuilt(states, steps, i);
      (st.failed <==> published.Some? && published.value.failed) &&
      (published.Some? ==> published.value.snapshot == st.current) &&
      (Opened(states[i]) ==>
         built.Some? && st.current.body == built.value.body && st.current.revisions == built.value.revisions &&
         st.current.degraded.Keys == built.value.degraded.Keys)
  {
    StoreAccounts(states, steps, n, watched, i);
  }

  /**
   * With the mutex free, every registered subscriber's newest event carries the current
   * snapshot, and waits in its buffer unless it was received.
   */
  lemma SubscribersAreCurrent(states: seq<State>, steps: seq<Step>, n: nat, watched: set<nat>, i: nat, ch: nat)
    requires Run(states, steps, n, watched) && i < |states| && ch in states[i].feed.subs
    ensures var f, current := states[i].feed, states[i].store.current;
      !f.panicked && |f.subs[ch].buffer| <= 1 &&
      (f.subs[ch].buffer != [] ==> f.subs[ch].buffer[0] == f.subs[ch].newest) &&
      (ch in f.registered && f.mu.Free? ==>
         f.subs[ch].newest.snapshot == current && (f.subs[ch].buffer != [] || f.subs[ch].taken == Some(f.subs[ch].newest))) &&
      (ch in f.registered <==> !f.subs[ch].closed)
  {
    Reachable(states, steps, n, watched, i);
    assert SubscriptionInv(states[i].feed.subs[ch], ch in states[i].feed.registered, states[i].store.current);
  }

  // ---- Exactly when a change can go unpublished ---------------------------

  /**
   * While the runtime is open and its context has not ended, a watched source that has moved
   * on from what is published is noticed, or a build that has read it is under way, or a
   * failure is being reported to subscribers.
   */
  lemma NoLostPublication(states: seq<State>, steps: seq<Step>, n: nat, watched: set<nat>, i: nat, source: nat)
    requires Run(states, steps, n, watched) && i < |states| && source in watched
    requires Opened(states[i]) && !states[i].ended && Lags(states[i], source)
    ensures Noticed(states[i], source) || UnderWay(states[i], source) || Reporting(states[i])
  {
    Reachable(states, steps, n, watched, i);
    ReachableReads(states, steps, n, watched, i);
    if ShowsRead(states[i], source) {
      assert Stale(states[i], source);
    }
  }

  /** Once the runtime is open, no build of the run loop's comes to nothing. */
  ghost predicate NeverDiscards(states: seq<State>, steps: seq<Step>)
    requires |states| == |steps| + 1
  {
    forall k | 0 <= k < |steps| && Opened(states[k]) :: !Discards(states[k], steps[k])
  }

  lemma AttendedStep(s: State, step: Step, source: nat)
    requires Invariant(s) && LatestInv(s) && Enabled(s, step) && !Apply(s, step).ended && source in s.world.watched
    requires Opened(s) ==> !Discards(s, step) && (Lags(s, source) ==> Attended(s, source))
    ensures Opened(Apply(s, step)) && Lags(Apply(s, step), source) ==> Attended(Apply(s, step), source)
  {
    var t := Apply(s, step);
    if Opened(t) && Lags(t, source) {
      if !Opened(s) {
        LagAfterOpen(s, source);
      } else if step != Env(SetSource(source)) {
        LagsBefore(s, step, source);
        AttentionLostIff(s, step, source);
      }
    }
  }

  /**
   * If no build of the run loop's comes to nothing, a watched source that has moved on from
   * what is published is always noticed, or read by the run loop on the way to publishing it.
   */
  lemma {:induction false} AttendedUnlessDiscarded(states: seq<State>, steps: seq<Step>, n: nat, watched: set<nat>, i: nat, source: nat)
    requires Run(states, steps, n, watched) && i < |states| && source in watched
    requires NeverDiscards(states, steps) && !states[i].ended
    ensures Opened(states[i]) && Lags(states[i], source) ==> Attended(states[i], source)
  {
    if i > 0 {
      Reachable(states, steps, n, watched, i - 1);
      ReachableReads(states, steps, n, watched, i - 1);
      EndKept(states[i - 1], steps[i - 1]);
      AttendedUnlessDiscarded(states, steps, n, watched, i - 1, source);
      AttendedStep(states[i - 1], steps[i - 1], source);
    }
  }

  // ---- And unread ----------------------------------------------------------

  /** The opener's or run loop's build stops, with an error, before it has read the source. */
  predicate StopsShort(s: State, step: Step, source: nat) {
    step == Build(RunLoop, FailBuild) && At(s, RunLoop).Reading? && |At(s, RunLoop).got| <= source
  }

  /** One step loses a notice exactly when a build stops short and no token is there or coming. */
  lemma NoticeLostIff(s: State, step: Step, source: nat)
    requires GateInv(s) && Enabled(s, step) && !Apply(s, step).ended
    requires source in s.world.watched && Noticed(s, source) && Stale(Apply(s, step), source)
    ensures !Noticed(Apply(s, step), source) <==>
            StopsShort(s, step, source) && !s.world.dirty && source !in s.world.notifying
  {
  }

  ghost predicate NeverStopsShort(states: seq<State>, steps: seq<Step>, source: nat)
    requires |states| == |steps| + 1
  {
    forall k | 0 <= k < |steps| :: !StopsShort(states[k], steps[k], source)
  }

  lemma NoticedWhileStale(s: State, step: Step, source: nat)
    requires Invariant(s) && Enabled(s, step) && !StopsShort(s, step, source) && !Apply(s, step).ended
    requires source in s.world.watched && (Stale(s, source) ==> Noticed(s, source))
    ensures Stale(Apply(s, step), source) ==> Noticed(Apply(s, step), source)
  {
    if Stale(Apply(s, step), source) && step != Env(SetSource(source)) {
      StaleBefore(s, step, source);
      NoticeLostIff(s, step, source);
    }
  }

  /** If no build of the run loop's stops short of it, a source's change is noticed until it is read. */
  lemma {:induction false} NoticedUnlessStopped(states: seq<State>, steps: seq<Step>, n: nat, watched: set<nat>, i: nat, source: nat)
    requires Run(states, steps, n, watched) && i < |states| && source in watched
    requires NeverStopsShort(states, steps, source) && !states[i].ended
    ensures Stale(states[i], source) ==> Noticed(states[i], source)
  {
    if i > 0 {
      Reachable(states, steps, n, watched, i - 1);
      EndKept(states[i - 1], steps[i - 1]);
      NoticedUnlessStopped(states, steps, n, watched, i - 1, source);
      NoticedWhileStale(states[i - 1], steps[i - 1], source);
    }
  }

  ghost predicate RunTo(states: seq<State>, steps: seq<Step>, n: nat, watched: set<nat>, s: State) {
    Run(states, steps, n, watched) && states[|states| - 1] == s
  }

  lemma Extend(states: seq<State>, steps: seq<Step>, n: nat, watched: set<nat>, s: State, step: Step)
    returns (states': seq<State>, steps': seq<Step>, s': State)
    requires RunTo(states, steps, n, watched, s) && Enabled(s, step)
    ensures s' == Apply(s, step) && RunTo(states', steps', n, watched, s')
  {
    s' := Apply(s, step);
    states', steps' := states + [s'], steps + [step];
  }

  /** Open and undisturbed: no other actor, no subscriber, no token. */
  predicate Quiet(s: State, n: nat, watched: set<nat>) {
    Opened(s) && s.gate.None? && !s.ended && !s.store.closed && s.feed.mu.Free? && s.feed.registered == {} &&
    !s.world.dirty && s.world.notifying == {} && s.world.watched == watched && |s.world.revs| == |s.world.lastRead| == n
  }

  /** Reading sources one after the other, undisturbed. */
  lemma ReadUpTo(states: seq<State>, steps: seq<Step>, n: nat, watched: set<nat>, s: State, upTo: nat)
    returns (states': seq<State>, steps': seq<Step>, s': State)
    requires RunTo(states, steps, n, watched, s) && At(s, RunLoop) == Reading([]) && s.world.notifying == {}
    requires |s.world.revs| == |s.world.lastRead| == n && upTo <= n
    ensures RunTo(states', steps', n, watched, s') && At(s', RunLoop).Reading? && |At(s', RunLoop).got| == upTo
    ensures s' == s.(builders := s'.builders, world := s.world.(lastRead := s'.world.lastRead))
    ensures |s'.world.lastRead| == n && forall j | upTo <= j < n :: s'.world.lastRead[j] == s.world.lastRead[j]
  {
    states', steps', s' := states, steps, s;
    for i := 0 to upTo
      invariant RunTo(states', steps', n, watched, s') && At(s', RunLoop).Reading? && |At(s', RunLoop).got| == i
      invariant s' == s.(builders := s'.builders, world := s.world.(lastRead := s'.world.lastRead))
      invariant |s'.world.lastRead| == n && forall j | i <= j < n :: s'.world.lastRead[j] == s.world.lastRead[j]
    {
      states', steps', s' := Extend(states', steps', n, watched, s', Build(RunLoop, ReadSource));
    }
  }

  lemma OpenQuietly(n: nat, watched: set<nat>) returns (states: seq<State>, steps: seq<Step>, s: State)
    ensures RunTo(states, steps, n, watched, s) && Quiet(s, n, watched) && s.run.Selecting?
  {
    states, steps, s := [Start(n, watched)], [], Start(n, watched);
    states, steps, s := ReadUpTo(states, steps, n, watched, s, n);
    states, steps, s := Extend(states, steps, n, watched, s, Build(RunLoop, FinishBuild(0, map[])));
    states, steps, s := Extend(states, steps, n, watched, s, Open(OpenSucceeds));
  }

  lemma SetAndWake(n: nat, watched: set<nat>, source: nat) returns (states: seq<State>, steps: seq<Step>, s: State)
    requires source < n && source in watched
    ensures RunTo(states, steps, n, watched, s) && Quiet(s, n, watched)
    ensures s.run.Reloading? && At(s, RunLoop).Waiting? && Stale(s, source) && Lags(s, source)
  {
    states, steps, s := OpenQuietly(n, watched);
    Reachable(states, steps, n, watched, |states| - 1);
    states, steps, s := Extend(states, steps, n, watched, s, Env(SetSource(source)));
    states, steps, s := Extend(states, steps, n, watched, s, Env(NotifySet(source)));
    states, steps, s := Extend(states, steps, n, watched, s, Loop(Wake));
    states, steps, s := Extend(states, steps, n, watched, s, Loop(TimerFires));
    states, steps, s := Extend(states, steps, n, watched, s, Loop(Drain));
    states, steps, s := Extend(states, steps, n, watched, s, Loop(CallReload));
  }

  /** The run loop's reload, undisturbed up to where its build comes to nothing. */
  lemma FailAfter(n: nat, watched: set<nat>, source: nat, reached: nat, held: bool)
    returns (states: seq<State>, steps: seq<Step>, s: State)
    requires source < n && source in watched && reached <= n && (held ==> reached == n)
    ensures RunTo(states, steps, n, watched, s) && Quiet(s.(gate := None), n, watched) && s.run.Reloading?
    ensures At(s, RunLoop) == Built(if held then HeldBack else Bad) && s.gate == Some(RunLoop)
    ensures Lags(s, source) && (reached <= source ==> Stale(s, source))
  {
    states, steps, s := SetAndWake(n, watched, source);
    states, steps, s := Extend(states, steps, n, watched, s, Reload(RunLoop, Acquire));
    states, steps, s := ReadUpTo(states, steps, n, watched, s, reached);
    states, steps, s := Extend(states, steps, n, watched, s, Build(RunLoop, if held then HoldBuild else FailBuild));
  }

  /**
   * The other half: wherever the run loop's build may come to nothing, after reading any
   * number of sources or turned down after all of them, there is a run that comes back to
   * rest, tokenless and with no build under way, while what is published lags behind a
   * watched source; and the source itself is unread if the build stopped short of it. Only
   * the failure report tells of it.
   */
  lemma FailureHidesAChange(n: nat, watched: set<nat>, source: nat, reached: nat, held: bool)
    returns (states: seq<State>, steps: seq<Step>, s: State)
    requires source < n && source in watched && reached <= n && (held ==> reached == n)
    ensures RunTo(states, steps, n, watched, s) && Opened(s) && !s.ended && s.run.Selecting?
    ensures Lags(s, source) && !Attended(s, source) && !UnderWay(s, source)
    ensures reached <= source ==> Stale(s, source) && !Noticed(s, source)
  {
    states, steps, s := FailAfter(n, watched, source, reached, held);
    states, steps, s := Extend(states, steps, n, watched, s, Commit(RunLoop));
    states, steps, s := Extend(states, steps, n, watched, s, Publish(EndPublication));
    states, steps, s := Extend(states, steps, n, watched, s, Reload(RunLoop, Leave));
    NothingUnderWay(states, steps, n, watched, s, source);
  }

  /** With the gate free nobody has a read under way. */
  lemma NothingUnderWay(states: seq<State>, steps: seq<Step>, n: nat, watched: set<nat>, s: State, source: nat)
    requires RunTo(states, steps, n, watched, s) && Opened(s) && s.gate.None?
    ensures !UnderWay(s, source) && !HasRead(At(s, RunLoop), source)
  {
    Reachable(states, steps, n, watched, |states| - 1);
    forall a ensures !HasRead(At(s, a), source) { assert !Inside(At(s, a)); }
  }
}
