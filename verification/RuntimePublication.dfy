/** How far what is published lags behind the sources, and who will make up for it. */
module RuntimePublication {
  import opened Basics
  import opened RuntimeProtocol
  import opened RuntimeSafety
  import opened RuntimeInvalidation

  // ---- Builds hold the latest reads, and current shows them ---------------

  predicate HoldsLatest(s: State, b: Builder) {
    (b.Reading? ==> b.got <= s.world.lastRead) &&
    (b.Built? && b.outcome.Good? ==> b.outcome.next.revisions == s.world.lastRead)
  }

  ghost predicate LatestInv(s: State) {
    forall a :: HoldsLatest(s, At(s, a))
  }

  lemma LatestStart(n: nat, watched: set<nat>)
    ensures LatestInv(Start(n, watched))
  {
  }

  /** Moving one builder, while the reads stay as they are. */
  lemma LatestMoved(s: State, t: State, a: Actor, b: Builder)
    requires LatestInv(s) && t.builders == s.builders[a := b] && t.world.lastRead == s.world.lastRead && HoldsLatest(t, b)
    ensures LatestInv(t)
  {
    AtSet(s, t, a, b);
    forall c ensures HoldsLatest(t, At(t, c)) { assert HoldsLatest(s, At(s, c)); }
  }

  lemma LatestUnmoved(s: State, t: State)
    requires LatestInv(s) && t.builders == s.builders && t.world.lastRead == s.world.lastRead
    ensures LatestInv(t)
  {
    AtSame(s, t);
    forall c ensures HoldsLatest(t, At(t, c)) { assert HoldsLatest(s, At(s, c)); }
  }

  /** Only the one inside reads, so its own reads are the latest. */
  lemma LatestKeptByBuild(s: State, a: Actor, b: BuildStep)
    requires GateInv(s) && RevisionInv(s) && LatestInv(s) && BuildEnabled(s, a, b)
    ensures LatestInv(BuildApply(s, a, b))
  {
    var t := BuildApply(s, a, b);
    AtSet(s, t, a, At(t, a));
    assert HoldsLatest(s, At(s, a));
    forall c ensures HoldsLatest(t, At(t, c)) {
      assert Inside(At(s, a));
      if c != a { assert !Inside(At(s, c)); }
    }
  }

  lemma LatestKeptByOpen(s: State, o: OpenStep)
    requires LatestInv(s) && OpenEnabled(s, o)
    ensures LatestInv(OpenApply(s, o))
  {
    LatestMoved(s, OpenApply(s, o), RunLoop, At(OpenApply(s, o), RunLoop));
  }

  lemma LatestKeptByReload(s: State, a: Actor, r: ReloadStep)
    requires LatestInv(s) && ReloadEnabled(s, a, r)
    ensures LatestInv(ReloadApply(s, a, r))
  {
    LatestMoved(s, ReloadApply(s, a, r), a, At(ReloadApply(s, a, r), a));
  }

  lemma LatestKeptByCommit(s: State, a: Actor)
    requires LatestInv(s) && CommitEnabled(s, a)
    ensures LatestInv(CommitApply(s, a))
  {
    LatestMoved(s, CommitApply(s, a), a, At(CommitApply(s, a), a));
  }

  lemma LatestKept(s: State, step: Step)
    requires GateInv(s) && RevisionInv(s) && LatestInv(s) && Enabled(s, step)
    ensures LatestInv(Apply(s, step))
  {
    match step
    case Build(a, b) => LatestKeptByBuild(s, a, b);
    case Open(o) => LatestKeptByOpen(s, o);
    case Reload(a, r) => LatestKeptByReload(s, a, r);
    case Commit(a) => LatestKeptByCommit(s, a);
    case _ => LatestKeptElsewhere(s, step);
  }

  lemma LatestKeptElsewhere(s: State, step: Step)
    requires LatestInv(s) && Enabled(s, step) && !step.Build? && !step.Open? && !step.Reload? && !step.Commit?
    ensures LatestInv(Apply(s, step))
  {
    var t := Apply(s, step);
    if t.builders == s.builders {
      LatestUnmoved(s, t);
    } else if step.Loop? {
      LatestMoved(s, t, RunLoop, Waiting);
    } else {
      LatestMoved(s, t, s.feed.mu.holder, Leaving);
    }
  }

  /** A build that has read the source is under way. */
  ghost predicate UnderWay(s: State, i: nat) {
    exists a :: HasRead(At(s, a), i)
  }

  predicate ShowsRead(s: State, i: nat) {
    i < |s.store.current.revisions| && i < |s.world.lastRead| && s.store.current.revisions[i] == s.world.lastRead[i]
  }

  /** What was last read of a source is current, or a build is on its way with it, or a failure is reported. */
  ghost predicate ShownInv(s: State) {
    Opened(s) && !s.ended ==> forall i | 0 <= i < |s.world.revs| :: ShowsRead(s, i) || Reporting(s) || UnderWay(s, i)
  }

  lemma ShownKeptByBuild(s: State, a: Actor, b: BuildStep, i: nat)
    requires GateInv(s) && RevisionInv(s) && BuildEnabled(s, a, b) && i < |s.world.revs|
    requires ShowsRead(s, i) || Reporting(s) || UnderWay(s, i)
    ensures var t := BuildApply(s, a, b); ShowsRead(t, i) || Reporting(t) || UnderWay(t, i)
  {
    var t := BuildApply(s, a, b);
    AtSet(s, t, a, At(t, a));
    assert Inside(At(s, a));
    assert forall c :: c != a ==> !Inside(At(s, c));
    if b.FailBuild? || b.HoldBuild? {
      assert Errored(At(t, a));
    } else if HasRead(At(t, a), i) {
    } else {
      assert !HasRead(At(s, a), i) && forall c :: !HasRead(At(s, c), i) && !Errored(At(s, c));
    }
  }

  lemma ShownKeptByCommit(s: State, a: Actor, i: nat)
    requires GateInv(s) && RevisionInv(s) && LatestInv(s) && CommitEnabled(s, a) && !Refused(s) && i < |s.world.revs|
    ensures var t := CommitApply(s, a); ShowsRead(t, i) || Reporting(t)
  {
    assert HoldsLatest(s, At(s, a));
  }

  lemma ShownKeptByOpen(s: State, i: nat)
    requires GateInv(s) && RevisionInv(s) && LatestInv(s) && OpenEnabled(s, OpenSucceeds) && i < |s.world.revs|
    ensures ShowsRead(OpenApply(s, OpenSucceeds), i)
  {
    assert HoldsLatest(s, At(s, RunLoop));
  }

  /** The steps that neither build nor commit move no builder that has read or failed. */
  lemma BuildersStay(s: State, step: Step)
    requires GateInv(s) && Opened(s) && Enabled(s, step) && !step.Build? && !step.Commit? && !step.Open?
    ensures forall a | At(s, a).Reading? || At(s, a).Built? :: At(Apply(s, step), a) == At(s, a)
    ensures var t := Apply(s, step);
      t.store.current == s.store.current && t.store.failed == s.store.failed && t.world.lastRead == s.world.lastRead
  {
  }

  lemma ShownKeptElsewhere(s: State, step: Step, i: nat)
    requires GateInv(s) && Opened(s) && Enabled(s, step) && !step.Build? && !step.Commit? && !step.Open?
    requires ShowsRead(s, i) || Reporting(s) || UnderWay(s, i)
    ensures var t := Apply(s, step); ShowsRead(t, i) || Reporting(t) || UnderWay(t, i)
  {
    BuildersStay(s, step);
    StaysShown(s, Apply(s, step), i);
  }

  lemma StaysShown(s: State, t: State, i: nat)
    requires forall a | At(s, a).Reading? || At(s, a).Built? :: At(t, a) == At(s, a)
    requires t.store.current == s.store.current && t.store.failed == s.store.failed && t.world.lastRead == s.world.lastRead
    requires ShowsRead(s, i) || Reporting(s) || UnderWay(s, i)
    ensures ShowsRead(t, i) || Reporting(t) || UnderWay(t, i)
  {
    if UnderWay(s, i) {
      var a :| HasRead(At(s, a), i);
      assert HasRead(At(t, a), i);
    } else if Reporting(s) && !s.store.failed {
      var a :| Errored(At(s, a));
      assert Errored(At(t, a));
    }
  }

  lemma ShownKept(s: State, step: Step)
    requires GateInv(s) && RevisionInv(s) && EndInv(s) && LatestInv(s) && ShownInv(s) && Enabled(s, step)
    ensures ShownInv(Apply(s, step))
  {
    var t := Apply(s, step);
    EndKept(s, step);
    if Opened(t) && !t.ended {
      forall i | 0 <= i < |t.world.revs| ensures ShowsRead(t, i) || Reporting(t) || UnderWay(t, i) {
        match step
        case Build(a, b) => ShownKeptByBuild(s, a, b, i);
        case Commit(a) => ShownKeptByCommit(s, a, i);
        case Open(o) => ShownKeptByOpen(s, i);
        case _ => ShownKeptElsewhere(s, step, i);
      }
    }
  }

  // ---- A lag, and what attends to it ---------------------------------------

  /** What is published of the source is older than what the source holds. */
  predicate Lags(s: State, i: nat) {
    i < |s.world.revs| && i < |s.store.current.revisions| && s.store.current.revisions[i] < s.world.revs[i]
  }

  /** The change is noticed, or the run loop has read it and has not failed since. */
  predicate Attended(s: State, i: nat) {
    Noticed(s, i) || HasRead(At(s, RunLoop), i)
  }

  /** The run loop's build fails, or is turned down because a source is degraded. */
  predicate Discards(s: State, step: Step) {
    step == Build(RunLoop, FailBuild) || (step == Commit(RunLoop) && At(s, RunLoop) == Built(HeldBack))
  }

  /** A lag is new only where the source is set. */
  lemma LagsBefore(s: State, step: Step, i: nat)
    requires GateInv(s) && RevisionInv(s) && Opened(s) && Enabled(s, step) && Lags(Apply(s, step), i)
    ensures Lags(s, i) || step == Env(SetSource(i))
  {
    if !step.Env? { CurrentNeverGoesBack(s, step, i); }
  }

  /** A lag after the run loop's good commit means a set since the read, which is noticed. */
  lemma LagAfterCommit(s: State, i: nat)
    requires GateInv(s) && RevisionInv(s) && LatestInv(s) && NoticedInv(s) && CommitEnabled(s, RunLoop) && !Refused(s)
    requires At(s, RunLoop).outcome.Good? && i in s.world.watched && Lags(CommitApply(s, RunLoop), i)
    ensures Noticed(CommitApply(s, RunLoop), i)
  {
    assert HoldsLatest(s, At(s, RunLoop)) && HasRead(At(s, RunLoop), i);
    assert Stale(s, i) && Noticed(s, i);
  }

  lemma LagAfterOpen(s: State, i: nat)
    requires GateInv(s) && RevisionInv(s) && LatestInv(s) && NoticedInv(s) && OpenEnabled(s, OpenSucceeds)
    requires i in s.world.watched && Lags(OpenApply(s, OpenSucceeds), i)
    ensures Noticed(OpenApply(s, OpenSucceeds), i)
  {
    assert HoldsLatest(s, At(s, RunLoop)) && HasRead(At(s, RunLoop), i);
    assert Stale(s, i) && Noticed(s, i);
  }

  /** Other steps than the run loop's commits and failures keep attention. */
  lemma AttendedKept(s: State, step: Step, i: nat)
    requires GateInv(s) && Opened(s) && Enabled(s, step) && !Apply(s, step).ended && i < |s.world.revs|
    requires Attended(s, i) && step != Commit(RunLoop) && step != Build(RunLoop, FailBuild)
    ensures Attended(Apply(s, step), i)
  {
  }

  /**
   * While open, one step leaves a lag unattended exactly when the run loop's build comes to
   * nothing and no token is there or coming.
   */
  lemma AttentionLostIff(s: State, step: Step, i: nat)
    requires GateInv(s) && RevisionInv(s) && EndInv(s) && LatestInv(s) && NoticedInv(s)
    requires Opened(s) && Enabled(s, step) && !Apply(s, step).ended
    requires i in s.world.watched && Attended(s, i) && Lags(Apply(s, step), i)
    ensures !Attended(Apply(s, step), i) <==> Discards(s, step) && !s.world.dirty && i !in s.world.notifying
  {
    var t := Apply(s, step);
    EndKept(s, step);
    if step == Commit(RunLoop) {
      if At(s, RunLoop).outcome.Good? { LagAfterCommit(s, i); }
    } else if step == Build(RunLoop, FailBuild) {
      assert s.run.Reloading? && At(t, RunLoop) == Built(Bad);
    } else {
      AttendedKept(s, step, i);
    }
  }
}
