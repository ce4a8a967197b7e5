/** What every reachable state of the runtime satisfies, and what every step keeps. */
module RuntimeSafety {
  import opened Basics
  import opened RuntimeProtocol

  // ---- The gate: one build or publication at a time ----------------------

  predicate Inside(b: Builder) {
    b.Reading? || b.Built? || b.Announcing? || b.Leaving?
  }

  /** Before the runtime is open there is only the opener. */
  ghost predicate OpenerInv(s: State) {
    s.gate.None? && s.feed.mu.Free? && s.feed.subs == map[] && s.feed.registered == {} && !s.store.closed &&
    (s.run.Opening? ==> At(s, RunLoop).Reading? || At(s, RunLoop).Built?) &&
    (!s.run.Opening? ==> At(s, RunLoop).Idle?) &&
    forall a: Actor | a.Manual? :: At(s, a).Idle?
  }

  /** Afterwards only the gate's holder is inside Reload, and only it publishes. */
  ghost predicate HolderInv(s: State) {
    (forall a :: Inside(At(s, a)) <==> s.gate == Some(a)) &&
    (s.run.Reloading? <==> !At(s, RunLoop).Idle?) &&
    (s.feed.mu.Publishing? ==> At(s, s.feed.mu.holder).Announcing?) &&
    (forall a | At(s, a).Announcing? :: s.feed.mu.Publishing? && s.feed.mu.holder == a)
  }

  ghost predicate GateInv(s: State) {
    if Opened(s) then HolderInv(s) else OpenerInv(s)
  }

  lemma GateStart(n: nat, watched: set<nat>)
    ensures GateInv(Start(n, watched))
  {
  }

  lemma AtSet(s: State, t: State, a: Actor, b: Builder)
    requires t.builders == s.builders[a := b]
    ensures At(t, a) == b
    ensures forall c | c != a :: At(t, c) == At(s, c)
  {
  }

  lemma AtSame(s: State, t: State)
    requires t.builders == s.builders
    ensures forall c :: At(t, c) == At(s, c)
  {
  }

  /** Steps that move nobody, and neither the gate nor the holder of the mutex. */
  lemma GateUnmoved(s: State, t: State)
    requires GateInv(s) && t.builders == s.builders && t.gate == s.gate && t.feed.mu == s.feed.mu
    requires Opened(t) == Opened(s) && t.run.Reloading? == s.run.Reloading? && t.run.Opening? == s.run.Opening?
    requires !Opened(s) ==> t.feed == s.feed && t.store.closed == s.store.closed
    ensures GateInv(t)
  {
    AtSame(s, t);
  }

  lemma GateKeptByBuild(s: State, a: Actor, b: BuildStep)
    requires GateInv(s) && BuildEnabled(s, a, b)
    ensures GateInv(BuildApply(s, a, b))
  {
    var t := BuildApply(s, a, b);
    AtSet(s, t, a, At(t, a));
    assert At(t, a).Reading? || At(t, a).Built?;
  }

  lemma GateKeptByOpen(s: State, o: OpenStep)
    requires GateInv(s) && OpenEnabled(s, o)
    ensures GateInv(OpenApply(s, o))
  {
    var t := OpenApply(s, o);
    AtSet(s, t, RunLoop, At(t, RunLoop));
  }

  lemma GateKeptByLoop(s: State, l: LoopStep)
    requires GateInv(s) && LoopEnabled(s, l)
    ensures GateInv(LoopApply(s, l))
  {
    var t := LoopApply(s, l);
    if l.CallReload? && !s.ended { AtSet(s, t, RunLoop, Waiting); } else { GateUnmoved(s, t); }
  }

  lemma GateKeptByReload(s: State, a: Actor, r: ReloadStep)
    requires GateInv(s) && ReloadEnabled(s, a, r)
    ensures GateInv(ReloadApply(s, a, r))
  {
    var t := ReloadApply(s, a, r);
    AtSet(s, t, a, At(t, a));
  }

  lemma GateKeptByCommit(s: State, a: Actor)
    requires GateInv(s) && CommitEnabled(s, a)
    ensures GateInv(CommitApply(s, a))
  {
    var t := CommitApply(s, a);
    AtSet(s, t, a, At(t, a));
    assert At(t, a).Announcing? || At(t, a).Leaving?;
  }

  lemma GateKeptByPublish(s: State, p: PublishStep)
    requires GateInv(s) && PublishEnabled(s.feed, p)
    ensures GateInv(PublishApply(s, p))
  {
    var t := PublishApply(s, p);
    if p.EndPublication? { AtSet(s, t, s.feed.mu.holder, Leaving); } else { AtSame(s, t); }
  }

  lemma GateKept(s: State, step: Step)
    requires GateInv(s) && Enabled(s, step)
    ensures GateInv(Apply(s, step))
  {
    match step
    case Build(a, b) => GateKeptByBuild(s, a, b);
    case Open(o) => GateKeptByOpen(s, o);
    case Loop(l) => GateKeptByLoop(s, l);
    case Reload(a, r) => GateKeptByReload(s, a, r);
    case Commit(a) => GateKeptByCommit(s, a);
    case Publish(p) => GateKeptByPublish(s, p);
    case _ => GateUnmoved(s, Apply(s, step));
  }

  // ---- Revisions ----------------------------------------------------------

  /** A build under way, or done, read no source before what is current and none that is yet to be. */
  ghost predicate Between(s: State, got: seq<nat>) {
    |got| <= |s.world.revs| == |s.store.current.revisions| &&
    forall j | 0 <= j < |got| :: s.store.current.revisions[j] <= got[j] <= s.world.revs[j]
  }

  ghost predicate BuilderBetween(s: State, b: Builder) {
    (b.Reading? ==> Between(s, b.got)) &&
    (b.Built? && b.outcome.Good? ==> Between(s, b.outcome.next.revisions) && |b.outcome.next.revisions| == |s.world.revs|)
  }

  ghost predicate RevisionInv(s: State) {
    |s.world.lastRead| == |s.world.revs| &&
    (forall j | 0 <= j < |s.world.revs| :: s.world.lastRead[j] <= s.world.revs[j]) &&
    Between(s, s.store.current.revisions) &&
    forall a :: BuilderBetween(s, At(s, a))
  }

  lemma RevisionStart(n: nat, watched: set<nat>)
    ensures RevisionInv(Start(n, watched))
  {
  }

  /** Raising revisions keeps every build between. */
  lemma RevisionRaised(s: State, t: State)
    requires RevisionInv(s) && t.builders == s.builders && t.store.current == s.store.current
    requires |t.world.revs| == |s.world.revs| && t.world.lastRead == s.world.lastRead
    requires forall j | 0 <= j < |s.world.revs| :: s.world.revs[j] <= t.world.revs[j]
    ensures RevisionInv(t)
  {
    AtSame(s, t);
    forall a ensures BuilderBetween(t, At(t, a)) { assert BuilderBetween(s, At(s, a)); }
  }

  /** Moving one builder to a place that is between, with the same revisions and current snapshot. */
  lemma RevisionMoved(s: State, t: State, a: Actor, b: Builder)
    requires RevisionInv(s) && t.builders == s.builders[a := b] && t.store.current == s.store.current
    requires t.world.revs == s.world.revs && |t.world.lastRead| == |t.world.revs|
    requires forall j | 0 <= j < |t.world.revs| :: t.world.lastRead[j] <= t.world.revs[j]
    requires BuilderBetween(s, b)
    ensures RevisionInv(t)
  {
    AtSet(s, t, a, b);
    forall c ensures BuilderBetween(t, At(t, c)) { assert BuilderBetween(s, At(s, c)); }
  }

  /** Replacing the current snapshot by the holder's build, while nobody else is inside. */
  lemma RevisionReplaced(s: State, t: State, a: Actor, b: Builder)
    requires RevisionInv(s) && t.builders == s.builders[a := b] && t.world == s.world
    requires At(s, a).Built? && At(s, a).outcome.Good? && t.store.current.revisions == At(s, a).outcome.next.revisions
    requires forall c | c != a :: !At(s, c).Reading? && !At(s, c).Built?
    requires !b.Reading? && !b.Built?
    ensures RevisionInv(t)
  {
    AtSet(s, t, a, b);
    assert BuilderBetween(s, At(s, a));
  }

  lemma RevisionKeptByBuild(s: State, a: Actor, b: BuildStep)
    requires GateInv(s) && RevisionInv(s) && BuildEnabled(s, a, b)
    ensures RevisionInv(BuildApply(s, a, b))
  {
    assert BuilderBetween(s, At(s, a));
    RevisionMoved(s, BuildApply(s, a, b), a, At(BuildApply(s, a, b), a));
  }

  lemma RevisionKeptByLoop(s: State, l: LoopStep)
    requires GateInv(s) && RevisionInv(s) && LoopEnabled(s, l)
    ensures RevisionInv(LoopApply(s, l))
  {
    var t := LoopApply(s, l);
    if l.CallReload? && !s.ended { RevisionMoved(s, t, RunLoop, Waiting); } else { RevisionRaised(s, t); }
  }

  lemma RevisionKeptByReload(s: State, a: Actor, r: ReloadStep)
    requires GateInv(s) && RevisionInv(s) && ReloadEnabled(s, a, r)
    ensures RevisionInv(ReloadApply(s, a, r))
  {
    RevisionMoved(s, ReloadApply(s, a, r), a, At(ReloadApply(s, a, r), a));
  }

  lemma RevisionKeptByPublish(s: State, p: PublishStep)
    requires GateInv(s) && RevisionInv(s) && PublishEnabled(s.feed, p)
    ensures RevisionInv(PublishApply(s, p))
  {
    var t := PublishApply(s, p);
    if p.EndPublication? { RevisionMoved(s, t, s.feed.mu.holder, Leaving); } else { RevisionRaised(s, t); }
  }

  lemma RevisionKept(s: State, step: Step)
    requires GateInv(s) && RevisionInv(s) && Enabled(s, step)
    ensures RevisionInv(Apply(s, step))
  {
    match step
    case Build(a, b) => RevisionKeptByBuild(s, a, b);
    case Open(o) => RevisionKeptByOpen(s, o);
    case Loop(l) => RevisionKeptByLoop(s, l);
    case Reload(a, r) => RevisionKeptByReload(s, a, r);
    case Commit(a) => RevisionKeptByCommit(s, a);
    case Publish(p) => RevisionKeptByPublish(s, p);
    case _ => RevisionRaised(s, Apply(s, step));
  }

  lemma RevisionKeptByOpen(s: State, o: OpenStep)
    requires GateInv(s) && RevisionInv(s) && OpenEnabled(s, o)
    ensures RevisionInv(OpenApply(s, o))
  {
    var t := OpenApply(s, o);
    if o.OpenSucceeds? { RevisionReplaced(s, t, RunLoop, Idle); } else { RevisionMoved(s, t, RunLoop, At(t, RunLoop)); }
  }

  lemma RevisionKeptByCommit(s: State, a: Actor)
    requires GateInv(s) && RevisionInv(s) && CommitEnabled(s, a)
    ensures RevisionInv(CommitApply(s, a))
  {
    var t := CommitApply(s, a);
    if t.store.current == s.store.current {
      RevisionMoved(s, t, a, At(t, a));
    } else {
      forall c | c != a ensures !At(s, c).Reading? && !At(s, c).Built? { assert !Inside(At(s, c)); }
      RevisionReplaced(s, t, a, At(t, a));
    }
  }

  /** No step takes the current snapshot back to an older revision of any source. */
  lemma CurrentNeverGoesBack(s: State, step: Step, j: nat)
    requires GateInv(s) && RevisionInv(s) && Enabled(s, step) && j < |s.world.revs|
    ensures var t := Apply(s, step);
      |t.store.current.revisions| == |t.world.revs| == |s.world.revs| &&
      s.store.current.revisions[j] <= t.store.current.revisions[j] <= t.world.revs[j]
  {
    RevisionKept(s, step);
    match step
    case Commit(a) => assert BuilderBetween(s, At(s, a));
    case Open(o) => assert BuilderBetween(s, At(s, RunLoop));
    case _ =>
  }

  // ---- Versions and the failure flag ----------------------------------------

  /** The event whose publication a step starts: it takes the mutex with it. */
  function Publication(s: State, step: Step): Option<Event>
    requires Enabled(s, step)
  {
    var was, now := s.feed.mu, Apply(s, step).feed.mu;
    if was.Free? && now.Publishing? then Some(now.event) else None
  }

  /** The good build that a step brings to an end, unless the runtime refuses it. */
  function Completion(s: State, step: Step): Option<Snapshot>
    requires Enabled(s, step)
  {
    match step
    case Open(OpenSucceeds) => Some(At(s, RunLoop).outcome.next)
    case Commit(a) => if !Refused(s) && At(s, a).outcome.Good? then Some(At(s, a).outcome.next) else None
    case _ => None
  }

  function Latest<T>(earlier: Option<T>, now: Option<T>): Option<T> {
    if now.Some? then now else earlier
  }

  /** The snapshot has the build's values, origins and validation, its revisions and its degraded sources. */
  predicate Shows(current: Snapshot, built: Snapshot) {
    current.body == built.body && current.revisions == built.revisions &&
    current.degraded.Keys == built.degraded.Keys
  }

  /** The store agrees with what a run has published and built so far. */
  predicate Accounts(s: State, published: Option<Event>, built: Option<Snapshot>) {
    (s.store.failed <==> published.Some? && published.value.failed) &&
    (published.Some? ==> published.value.snapshot == s.store.current) &&
    (Opened(s) ==> built.Some? && Shows(s.store.current, built.value) && s.store.current.version >= 1) &&
    (!Opened(s) ==> published.None? && built.None?)
  }

  lemma AccountsKeptByCommit(s: State, a: Actor, published: Option<Event>, built: Option<Snapshot>)
    requires Accounts(s, published, built) && CommitEnabled(s, a)
    ensures Accounts(CommitApply(s, a), Latest(published, Publication(s, Commit(a))), Latest(built, Completion(s, Commit(a))))
  {
  }

  /** Only a commit or the opening touches the store's fields or starts a publication. */
  lemma OtherStepsSayNothing(s: State, step: Step)
    requires GateInv(s) && Enabled(s, step) && !step.Commit? && !step.Open?
    ensures Publication(s, step).None? && Completion(s, step).None?
    ensures var t := Apply(s, step);
      t.store.current == s.store.current && t.store.failed == s.store.failed && (Opened(t) <==> Opened(s))
  {
  }

  lemma AccountsKept(s: State, step: Step, published: Option<Event>, built: Option<Snapshot>)
    requires Accounts(s, published, built) && GateInv(s) && Enabled(s, step)
    ensures Accounts(Apply(s, step), Latest(published, Publication(s, step)), Latest(built, Completion(s, step)))
  {
    match step
    case Commit(a) => AccountsKeptByCommit(s, a, published, built);
    case Open(o) =>
    case _ => OtherStepsSayNothing(s, step);
  }

  /**
   * After opening, a step keeps the version exactly when it keeps the body, the revisions and
   * the names of the degraded sources, and then keeps the whole snapshot; otherwise the
   * version grows by one.
   */
  lemma VersionCountsChanges(s: State, step: Step)
    requires Opened(s) && Enabled(s, step)
    ensures var was, now := s.store.current, Apply(s, step).store.current;
      if now.body == was.body && now.revisions == was.revisions && now.degraded.Keys == was.degraded.Keys
      then now == was else now.version == was.version + 1
  {
  }

  /** The first snapshot is the opener's build, with version one. */
  lemma OpensAtVersionOne(s: State)
    requires Enabled(s, Open(OpenSucceeds))
    ensures var next, now := At(s, RunLoop).outcome.next, Apply(s, Open(OpenSucceeds)).store.current;
      now.version == 1 && now.body == next.body && now.revisions == next.revisions && now.degraded == next.degraded
  {
  }

  /**
   * What a commit publishes: nothing once the runtime is closed or its context has ended; an
   * error for a failed build; a build that differs from what is current in its body, its
   * revisions or the names of its degraded sources; an equal one only if it ends a failure.
   */
  lemma CommitPublishes(s: State, a: Actor)
    requires Enabled(s, Commit(a))
    ensures var current, outcome, published := s.store.current, At(s, a).outcome, Publication(s, Commit(a));
      if s.store.closed || s.ended then published == None
      else match outcome
      case Good(next) =>
        if next.body == current.body && next.revisions == current.revisions && next.degraded.Keys == current.degraded.Keys
        then published == if s.store.failed then Some(Event(current, false)) else None
        else published == Some(Event(next.(version := current.version + 1), false))
      case _ => published == Some(Event(current, true))
  {
  }

  /** Once the context has ended no step changes the snapshot, publishes, or registers a subscriber. */
  lemma EndedIsFrozen(s: State, step: Step)
    requires s.ended && Enabled(s, step)
    ensures var t := Apply(s, step);
      t.ended && t.store.current == s.store.current && t.store.failed == s.store.failed &&
      Publication(s, step).None? && t.feed.registered <= s.feed.registered
  {
  }
}
