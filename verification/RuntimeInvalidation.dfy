/** No change of a watched source goes unnoticed, unless a failure is being reported. */
module RuntimeInvalidation {
  import opened RuntimeProtocol
  import opened RuntimeSafety

  /** The source was set after the latest build read it. */
  predicate Stale(s: State, i: nat) {
    i < |s.world.revs| && i < |s.world.lastRead| && s.world.lastRead[i] < s.world.revs[i]
  }

  /** The opener or the run loop has consumed a token and has yet to read the source. */
  predicate Committed(s: State, i: nat) {
    s.run.Settling? || s.run.Settled? || s.run.Drained? ||
    ((s.run.Reloading? || s.run.Opening?) &&
     (At(s, RunLoop).Waiting? || (At(s, RunLoop).Reading? && |At(s, RunLoop).got| <= i)))
  }

  /** The change will be noticed: there is a token, one is about to be put, or one was consumed for it. */
  predicate Noticed(s: State, i: nat) {
    s.world.dirty || i in s.world.notifying || Committed(s, i)
  }

  predicate Errored(b: Builder) {
    b.Built? && !b.outcome.Good?
  }

  /** The builder has read source i and has not failed since. */
  predicate HasRead(b: Builder, i: nat) {
    (b.Reading? && i < |b.got|) || (b.Built? && !b.outcome.Bad?)
  }

  /** A failure is being reported: it was published last, or a failed build is on its way to be. */
  ghost predicate Reporting(s: State) {
    s.store.failed || exists a :: Errored(At(s, a))
  }

  ghost predicate NoticedInv(s: State) {
    !s.ended ==> forall i | i in s.world.watched && Stale(s, i) ::
      (Noticed(s, i) || Reporting(s) || s.run.OpenFailed?) &&
      (s.run.HeldOpen? ==> Noticed(s, i)) &&
      (forall a | HasRead(At(s, a), i) :: Noticed(s, i))
  }

  lemma NoticedStart(n: nat, watched: set<nat>)
    ensures NoticedInv(Start(n, watched))
  {
  }

  /** Nothing that is noticed is forgotten, except by a failing build of the run loop's. */
  lemma NoticedKept(s: State, step: Step, i: nat)
    requires GateInv(s) && Enabled(s, step) && !Apply(s, step).ended
    requires i in s.world.watched && Noticed(s, i) && Stale(Apply(s, step), i)
    ensures Noticed(Apply(s, step), i) || step == Build(RunLoop, FailBuild)
  {
  }

  lemma StaleBefore(s: State, step: Step, i: nat)
    requires RevisionInv(s) && Enabled(s, step) && Stale(Apply(s, step), i)
    ensures Stale(s, i) || step == Env(SetSource(i))
    ensures forall a | step == Build(a, ReadSource) :: |At(s, a).got| != i
  {
  }

  /** The loop closes the runtime only once the context has ended. */
  ghost predicate EndInv(s: State) {
    (s.store.closed || s.run.Exiting? || s.run.Exited?) ==> s.ended
  }

  lemma EndKept(s: State, step: Step)
    requires EndInv(s) && Enabled(s, step)
    ensures EndInv(Apply(s, step)) && (s.ended ==> Apply(s, step).ended)
  {
  }

  /** A report under way stays one, or ends with a build that read everything. */
  lemma ReportingKept(s: State, step: Step, i: nat)
    requires GateInv(s) && EndInv(s) && Enabled(s, step) && !Apply(s, step).ended
    requires Reporting(s) || s.run.OpenFailed?
    requires forall a :: !HasRead(At(s, a), i)
    ensures Reporting(Apply(s, step)) || Apply(s, step).run.OpenFailed?
  {
    var t := Apply(s, step);
    EndKept(s, step);
    if !s.store.failed && Reporting(s) {
      var a :| Errored(At(s, a));
      assert !HasRead(At(s, a), i);
      if At(t, a) != At(s, a) {
        assert step == Commit(a) || (a == RunLoop && step.Open?);
      } else {
        assert Errored(At(t, a));
      }
    } else if s.store.failed && step.Commit? {
      assert !HasRead(At(s, step.actor), i);
    }
  }

  lemma NoticedInvKept(s: State, step: Step)
    requires GateInv(s) && RevisionInv(s) && EndInv(s) && NoticedInv(s) && Enabled(s, step)
    ensures NoticedInv(Apply(s, step))
  {
    var t := Apply(s, step);
    EndKept(s, step);
    GateKept(s, step);
    if !t.ended {
      forall i | i in t.world.watched && Stale(t, i)
        ensures (Noticed(t, i) || Reporting(t) || t.run.OpenFailed?) && (t.run.HeldOpen? ==> Noticed(t, i)) &&
                (forall a | HasRead(At(t, a), i) :: Noticed(t, i))
      {
        StaleBefore(s, step, i);
        if step != Env(SetSource(i)) {
          NoticedAt(s, step, i);
        }
      }
    }
  }

  lemma NoticedAt(s: State, step: Step, i: nat)
    requires GateInv(s) && RevisionInv(s) && EndInv(s) && NoticedInv(s) && Enabled(s, step)
    requires i in s.world.watched && Stale(s, i) && Stale(Apply(s, step), i) && !Apply(s, step).ended
    ensures var t := Apply(s, step);
      (Noticed(t, i) || Reporting(t) || t.run.OpenFailed?) && (t.run.HeldOpen? ==> Noticed(t, i)) &&
      (forall a | HasRead(At(t, a), i) :: Noticed(t, i))
  {
    var t := Apply(s, step);
    StaleBefore(s, step, i);
    EndKept(s, step);
    if Noticed(s, i) {
      NoticedKept(s, step, i);
      if step == Build(RunLoop, FailBuild) {
        assert Errored(At(t, RunLoop));
        OnlyRunLoop(s, t);
      }
    } else {
      assert forall a :: !HasRead(At(s, a), i);
      ReportingKept(s, step, i);
      NewlyRead(s, step, i);
    }
  }

  /** While the run loop is inside, nobody else is. */
  lemma OnlyRunLoop(s: State, t: State)
    requires GateInv(s) && At(s, RunLoop).Reading? && t.builders == s.builders[RunLoop := Built(Bad)]
    ensures forall a, i :: !HasRead(At(t, a), i)
  {
    AtSet(s, t, RunLoop, Built(Bad));
    forall a, i ensures !HasRead(At(t, a), i) {
      if a != RunLoop { assert Inside(At(s, RunLoop)) && !Inside(At(s, a)); }
    }
  }

  /** A builder comes to have read a source only by reading it. */
  lemma NewlyRead(s: State, step: Step, i: nat)
    requires RevisionInv(s) && Enabled(s, step) && i < |s.world.revs| && forall a :: !HasRead(At(s, a), i)
    requires forall a | step == Build(a, ReadSource) :: |At(s, a).got| != i
    ensures forall a :: !HasRead(At(Apply(s, step), a), i)
  {
    forall a ensures !HasRead(At(Apply(s, step), a), i) {
      assert !HasRead(At(s, a), i);
    }
  }

  /** The loop's wake-up, its drain and a held opener's retry take the token; notifications put it; nothing else touches it. */
  lemma TokenMoves(s: State, step: Step)
    requires Enabled(s, step)
    ensures Apply(s, step).world.dirty ==
            match step
            case Loop(Wake) => false
            case Loop(Drain) => false
            case Open(OpenRetries) => false
            case Env(NotifySet(_)) => true
            case Env(OtherNotify) => true
            case _ => s.world.dirty
  {
  }

  /** A finished build is made of what it read and what the schema engine made of it, and has yet no version. */
  lemma BuildIsWhatWasRead(s: State, a: Actor, body: int, degraded: map<string, string>)
    requires Enabled(s, Build(a, FinishBuild(body, degraded)))
    ensures At(Apply(s, Build(a, FinishBuild(body, degraded))), a) == Built(Good(Snapshot(body, At(s, a).got, degraded, 0)))
    ensures |At(s, a).got| == |s.world.revs|
  {
  }
}
