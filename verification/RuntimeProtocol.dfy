/**
 * runtime.go as a transition system: the opener and the run loop, any number of manual
 * reloaders and subscribers, watched sources being set, and the context ending, interleaved
 * at the points where the code takes a mutex, uses a channel or reads a source.
 */
module RuntimeProtocol {
  import opened Basics

  /** The compared fields of a snapshot, and its version. body is values, origins and validation. */
  datatype Snapshot = Snapshot(body: int, revisions: seq<nat>, degraded: map<string, string>, version: nat)

  /** Reload's comparison: degraded sources by name only, and never the version. */
  predicate Same(a: Snapshot, b: Snapshot) {
    a.body == b.body && a.revisions == b.revisions && a.degraded.Keys == b.degraded.Keys
  }

  /** sameKeys: one pass over the names of one side, after comparing the sizes. */
  method SameKeys(a: map<string, string>, b: map<string, string>) returns (r: bool)
    ensures r <==> a.Keys == b.Keys
  {
    if |a| != |b| {
      assert a.Keys == b.Keys ==> |a.Keys| == |b.Keys|;
      return false;
    }
    var rest := a.Keys;
    while rest != {}
      invariant rest <= a.Keys && a.Keys - rest <= b.Keys
    {
      var k :| k in rest;
      if k !in b { return false; }
      rest := rest - {k};
    }
    SubsetOfSameSize(a.Keys, b.Keys);
    r := true;
  }

  lemma SubsetOfSameSize(a: set<string>, b: set<string>)
    requires a <= b && |a| == |b|
    ensures a == b
  {
    assert |b - a| == |b| - |a|;
  }

  datatype Event = Event(snapshot: Snapshot, failed: bool)

  /** A subscription: its one-slot channel, the newest event sent to it, the event last received. */
  datatype Subscription = Subscription(buffer: seq<Event>, closed: bool, newest: Event, taken: Option<Event>)

  datatype Actor = RunLoop | Manual(id: nat)

  datatype Outcome = Good(next: Snapshot) | Bad | HeldBack

  /** Where an actor is inside Reload (or the opener inside its first build). */
  datatype Builder = Idle | Waiting | Reading(got: seq<nat>) | Built(outcome: Outcome) | Announcing | Leaving

  datatype RunPc = Opening | HeldOpen | OpenFailed | Selecting | Settling | Settled | Drained | Reloading | Exiting | Exited

  /** The runtime's mutex; only a publication holds it for more than one step. */
  datatype Mutex = Free | Publishing(holder: Actor, event: Event, todo: set<nat>, drained: Option<nat>)

  /**
   * The sources and the dirty token: each source's revision and the revision at its latest
   * read, which sources are watched, whose Set holds the source's mutex and is about to notify.
   */
  datatype World = World(revs: seq<nat>, lastRead: seq<nat>, watched: set<nat>, notifying: set<nat>, dirty: bool)

  /** The fields under the mutex, apart from the subscribers. */
  datatype Store = Store(current: Snapshot, closed: bool, failed: bool)

  /** The mutex and the subscriptions. */
  datatype Feed = Feed(mu: Mutex, subs: map<nat, Subscription>, registered: set<nat>, panicked: bool)

  datatype State = State(run: RunPc, builders: map<Actor, Builder>, gate: Option<Actor>, ended: bool,
                         world: World, store: Store, feed: Feed)

  datatype Step =
    | Env(env: EnvStep)
    | Build(actor: Actor, build: BuildStep)
    | Open(open: OpenStep)
    | Loop(loop: LoopStep)
    | Reload(actor: Actor, reload: ReloadStep)
    | Commit(actor: Actor)
    | Publish(publish: PublishStep)
    | Subscriber(ch: nat, subscriber: SubscriberStep)
    | CloseAll

  datatype EnvStep = SetSource(i: nat) | NotifySet(i: nat) | OtherNotify | EndContext
  datatype BuildStep = ReadSource | FailBuild | HoldBuild | FinishBuild(body: int, degraded: map<string, string>)
  datatype OpenStep = OpenSucceeds | OpenHolds | OpenRetries | OpenAborts
  datatype LoopStep = Wake | TimerFires | Drain | CallReload | SeeEnd
  datatype ReloadStep = CallManual | Acquire | GiveUp | Leave
  datatype PublishStep = DrainSubscriber(ch: nat) | SendSubscriber(ch: nat) | EndPublication
  datatype SubscriberStep = Subscribe | Receive | Unsubscribe

  function At(s: State, a: Actor): Builder {
    if a in s.builders then s.builders[a] else Idle
  }

  function Set(s: State, a: Actor, b: Builder): State {
    s.(builders := s.builders[a := b])
  }

  predicate Opened(s: State) {
    !s.run.Opening? && !s.run.HeldOpen? && !s.run.OpenFailed?
  }

  function Start(n: nat, watched: set<nat>): State {
    var zeros := seq(n, _ => 0);
    var none := Snapshot(0, zeros, map[], 0);
    State(Opening, map[RunLoop := Reading([])], None, false,
          World(zeros, zeros, watched, {}, false), Store(none, false, false), Feed(Free, map[], {}, false))
  }

  // ---- The environment: Memory.Set in two steps, other notifiers, the context ----

  predicate EnvEnabled(s: State, step: EnvStep) {
    match step
    case SetSource(i) => i < |s.world.revs| && i !in s.world.notifying
    case NotifySet(i) => i in s.world.notifying
    case _ => true
  }

  function EnvApply(s: State, step: EnvStep): State
    requires EnvEnabled(s, step)
  {
    var w := s.world;
    match step
    case SetSource(i) =>
      s.(world := w.(revs := w.revs[i := w.revs[i] + 1], notifying := if i in w.watched then w.notifying + {i} else w.notifying))
    case NotifySet(i) => s.(world := w.(dirty := true, notifying := w.notifying - {i}))
    case OtherNotify => s.(world := w.(dirty := true))
    case EndContext => s.(ended := true)
  }

  // ---- A build: sources are read in order, each under its own mutex ----

  predicate BuildEnabled(s: State, a: Actor, step: BuildStep) {
    At(s, a).Reading? &&
    match step
    case ReadSource =>
      |At(s, a).got| < |s.world.revs| && |At(s, a).got| < |s.world.lastRead| && |At(s, a).got| !in s.world.notifying
    case FailBuild => true
    case _ => |At(s, a).got| == |s.world.revs|
  }

  function BuildApply(s: State, a: Actor, step: BuildStep): State
    requires BuildEnabled(s, a, step)
  {
    var got := At(s, a).got;
    match step
    case ReadSource =>
      Set(s, a, Reading(got + [s.world.revs[|got|]])).(world := s.world.(lastRead := s.world.lastRead[|got| := s.world.revs[|got|]]))
    case FailBuild => Set(s, a, Built(Bad))
    case HoldBuild => Set(s, a, Built(HeldBack))
    case FinishBuild(body, degraded) => Set(s, a, Built(Good(Snapshot(body, got, degraded, 0))))
  }

  // ---- The opener: the first build, retried on a token while it is held ----

  predicate OpenEnabled(s: State, step: OpenStep) {
    match step
    case OpenSucceeds => s.run.Opening? && At(s, RunLoop).Built? && At(s, RunLoop).outcome.Good? && !s.ended
    case OpenHolds => s.run.Opening? && At(s, RunLoop) == Built(HeldBack) && !s.ended
    case OpenRetries => s.run.HeldOpen? && s.world.dirty
    case OpenAborts =>
      (s.run.Opening? && At(s, RunLoop).Built? && (s.ended || At(s, RunLoop).outcome.Bad?)) || (s.run.HeldOpen? && s.ended)
  }

  function OpenApply(s: State, step: OpenStep): State
    requires OpenEnabled(s, step)
  {
    match step
    case OpenSucceeds =>
      var next := At(s, RunLoop).outcome.next;
      Set(s, RunLoop, Idle).(run := Selecting, store := s.store.(current := next.(version := 1)))
    case OpenHolds => Set(s, RunLoop, Idle).(run := HeldOpen)
    case OpenRetries => Set(s, RunLoop, Reading([])).(run := Opening, world := s.world.(dirty := false))
    case OpenAborts => Set(s, RunLoop, Idle).(run := OpenFailed)
  }

  // ---- The run loop: take a token, settle for 20 ms, drain, reload ----

  predicate LoopEnabled(s: State, step: LoopStep) {
    match step
    case Wake => s.run.Selecting? && s.world.dirty
    case TimerFires => s.run.Settling?
    case Drain => s.run.Settled?
    case CallReload => s.run.Drained?
    case SeeEnd => (s.run.Selecting? || s.run.Settling?) && s.ended
  }

  function LoopApply(s: State, step: LoopStep): State
    requires LoopEnabled(s, step)
  {
    match step
    case Wake => s.(run := Settling, world := s.world.(dirty := false))
    case TimerFires => s.(run := Settled)
    case Drain => s.(run := Drained, world := s.world.(dirty := false))
    case CallReload => if s.ended then s.(run := Selecting) else Set(s, RunLoop, Waiting).(run := Reloading)
    case SeeEnd => s.(run := Exiting)
  }

  // ---- Reload up to its locked section, and out of it ----

  predicate ReloadEnabled(s: State, a: Actor, step: ReloadStep) {
    match step
    case CallManual => a.Manual? && Opened(s) && At(s, a).Idle? && !s.ended
    case Acquire => At(s, a).Waiting? && s.gate.None?
    case GiveUp => At(s, a).Waiting? && (a.Manual? || s.ended)
    case Leave => At(s, a).Leaving?
  }

  function ReloadApply(s: State, a: Actor, step: ReloadStep): State
    requires ReloadEnabled(s, a, step)
  {
    match step
    case CallManual => Set(s, a, Waiting)
    case Acquire => Set(s, a, Reading([])).(gate := Some(a))
    case GiveUp => Set(s, a, Idle).(run := if a.RunLoop? then Selecting else s.run)
    case Leave => Set(s, a, Idle).(gate := None, run := if a.RunLoop? then Selecting else s.run)
  }

  // ---- Reload's locked section ----

  predicate CommitEnabled(s: State, a: Actor) {
    At(s, a).Built? && Opened(s) && s.feed.mu.Free?
  }

  predicate Refused(s: State) {
    s.store.closed || s.ended
  }

  /** Refused leaves everything; otherwise the failure is noted, the version kept, or the next one stored. */
  function CommitStore(s: State, outcome: Outcome): Store {
    var st := s.store;
    if Refused(s) then st
    else if !outcome.Good? then st.(failed := true)
    else if Same(st.current, outcome.next) then st.(failed := false)
    else st.(failed := false, current := outcome.next.(version := st.current.version + 1))
  }

  /** An equal rebuild is announced only when it ends a failure. */
  predicate Announces(s: State, outcome: Outcome) {
    !Refused(s) && (!outcome.Good? || !Same(s.store.current, outcome.next) || s.store.failed)
  }

  function CommitApply(s: State, a: Actor): State
    requires CommitEnabled(s, a)
  {
    var outcome := At(s, a).outcome;
    var store := CommitStore(s, outcome);
    if Announces(s, outcome) then
      Set(s, a, Announcing).(store := store,
        feed := s.feed.(mu := Publishing(a, Event(store.current, !outcome.Good?), s.feed.registered, None)))
    else Set(s, a, Leaving).(store := store)
  }

  // ---- publish: for each subscriber, drain its slot, then send ----

  predicate PublishEnabled(f: Feed, step: PublishStep) {
    f.mu.Publishing? &&
    match step
    case DrainSubscriber(ch) => f.mu.drained.None? && ch in f.mu.todo && ch in f.subs
    case SendSubscriber(ch) => f.mu.drained == Some(ch) && ch in f.subs && (f.subs[ch].closed || |f.subs[ch].buffer| < 1)
    case EndPublication => f.mu.drained.None? && f.mu.todo == {}
  }

  function PublishFeed(f: Feed, step: PublishStep): Feed
    requires PublishEnabled(f, step)
  {
    match step
    case DrainSubscriber(ch) =>
      f.(subs := f.subs[ch := f.subs[ch].(buffer := [])], mu := f.mu.(drained := Some(ch)))
    case SendSubscriber(ch) =>
      if f.subs[ch].closed then f.(panicked := true)
      else f.(subs := f.subs[ch := f.subs[ch].(buffer := f.subs[ch].buffer + [f.mu.event], newest := f.mu.event)],
              mu := f.mu.(todo := f.mu.todo - {ch}, drained := None))
    case EndPublication => f.(mu := Free)
  }

  function PublishApply(s: State, step: PublishStep): State
    requires PublishEnabled(s.feed, step)
  {
    var t := s.(feed := PublishFeed(s.feed, step));
    if step.EndPublication? then Set(t, s.feed.mu.holder, Leaving) else t
  }

  // ---- Subscribers, and the end of the run loop ----

  predicate SubscriberEnabled(s: State, ch: nat, step: SubscriberStep) {
    match step
    case Subscribe => Opened(s) && s.feed.mu.Free? && ch !in s.feed.subs
    case Receive => ch in s.feed.subs && s.feed.subs[ch].buffer != []
    case Unsubscribe => s.feed.mu.Free? && ch in s.feed.registered && ch in s.feed.subs
  }

  function SubscriberFeed(s: State, ch: nat, step: SubscriberStep): Feed
    requires SubscriberEnabled(s, ch, step)
  {
    var f := s.feed;
    match step
    case Subscribe =>
      var first := Event(s.store.current, false);
      if Refused(s) then f.(subs := f.subs[ch := Subscription([], true, first, None)])
      else f.(subs := f.subs[ch := Subscription([first], false, first, None)], registered := f.registered + {ch})
    case Receive =>
      f.(subs := f.subs[ch := f.subs[ch].(buffer := f.subs[ch].buffer[1..], taken := Some(f.subs[ch].buffer[0]))])
    case Unsubscribe =>
      f.(subs := f.subs[ch := f.subs[ch].(closed := true)], registered := f.registered - {ch},
         panicked := f.panicked || f.subs[ch].closed)
  }

  /** The run loop's deferred function: the runtime closes, and with it every registered channel. */
  function CloseFeed(f: Feed): Feed {
    Feed(f.mu,
         map ch | ch in f.subs :: if ch in f.registered then f.subs[ch].(closed := true) else f.subs[ch],
         {},
         f.panicked || exists ch | ch in f.registered && ch in f.subs :: f.subs[ch].closed)
  }

  // ---- All steps --------------------------------------------------------

  predicate Enabled(s: State, step: Step) {
    match step
    case Env(e) => EnvEnabled(s, e)
    case Build(a, b) => BuildEnabled(s, a, b)
    case Open(o) => OpenEnabled(s, o)
    case Loop(l) => LoopEnabled(s, l)
    case Reload(a, r) => ReloadEnabled(s, a, r)
    case Commit(a) => CommitEnabled(s, a)
    case Publish(p) => PublishEnabled(s.feed, p)
    case Subscriber(ch, u) => SubscriberEnabled(s, ch, u)
    case CloseAll => s.run.Exiting? && s.feed.mu.Free?
  }

  function Apply(s: State, step: Step): State
    requires Enabled(s, step)
  {
    match step
    case Env(e) => EnvApply(s, e)
    case Build(a, b) => BuildApply(s, a, b)
    case Open(o) => OpenApply(s, o)
    case Loop(l) => LoopApply(s, l)
    case Reload(a, r) => ReloadApply(s, a, r)
    case Commit(a) => CommitApply(s, a)
    case Publish(p) => PublishApply(s, p)
    case Subscriber(ch, u) => s.(feed := SubscriberFeed(s, ch, u))
    case CloseAll => s.(run := Exited, store := s.store.(closed := true), feed := CloseFeed(s.feed))
  }

  /** The states of a run: each step is enabled where it is taken. */
  ghost predicate Run(states: seq<State>, steps: seq<Step>, n: nat, watched: set<nat>) {
    |states| == |steps| + 1 && states[0] == Start(n, watched) &&
    forall i | 0 <= i < |steps| :: Enabled(states[i], steps[i]) && states[i + 1] == Apply(states[i], steps[i])
  }
}
