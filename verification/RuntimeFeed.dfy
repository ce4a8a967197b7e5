/** Subscribers: one newest event each, no panic and no blocking under the mutex. */
module RuntimeFeed {
  import opened Basics
  import opened RuntimeProtocol
  import opened RuntimeSafety

  ghost predicate SubscriptionInv(sub: Subscription, registered: bool, current: Snapshot) {
    |sub.buffer| <= 1 && (sub.buffer != [] ==> sub.buffer[0] == sub.newest) &&
    (sub.taken.Some? ==> sub.taken.value.snapshot.version <= sub.newest.snapshot.version) &&
    sub.newest.snapshot.version <= current.version &&
    (registered <==> !sub.closed)
  }

  /** A registered subscriber has been sent the current snapshot, unless a publication is yet to reach it. */
  ghost predicate FeedInv(f: Feed, current: Snapshot) {
    !f.panicked && f.registered <= f.subs.Keys &&
    (forall ch | ch in f.subs :: SubscriptionInv(f.subs[ch], ch in f.registered, current)) &&
    (f.mu.Publishing? ==>
       f.mu.event.snapshot == current && f.mu.todo <= f.registered &&
       (f.mu.drained.Some? ==> f.mu.drained.value in f.mu.todo && f.subs[f.mu.drained.value].buffer == [])) &&
    (forall ch | ch in f.registered && !(f.mu.Publishing? && ch in f.mu.todo) :: f.subs[ch].newest.snapshot == current)
  }

  /** A registered subscriber has its newest event before it or behind it, unless its slot was just drained. */
  ghost predicate WaitingInv(f: Feed) {
    forall ch | ch in f.registered && ch in f.subs && !(f.mu.Publishing? && f.mu.drained == Some(ch)) ::
      f.subs[ch].buffer != [] || f.subs[ch].taken == Some(f.subs[ch].newest)
  }

  /** Whoever a publication has done with was sent its event. */
  ghost predicate SentInv(f: Feed) {
    f.mu.Publishing? ==> forall ch | ch in f.registered && ch in f.subs && ch !in f.mu.todo :: f.subs[ch].newest == f.mu.event
  }

  ghost predicate ClosedInv(s: State) {
    s.store.closed ==> s.feed.registered == {} && s.feed.mu.Free? && s.run.Exited?
  }

  ghost predicate FeedOk(s: State) {
    FeedInv(s.feed, s.store.current) && WaitingInv(s.feed) && SentInv(s.feed) && ClosedInv(s)
  }

  lemma FeedStart(n: nat, watched: set<nat>)
    ensures FeedOk(Start(n, watched))
  {
  }

  lemma FeedKeptByPublish(f: Feed, current: Snapshot, p: PublishStep)
    requires FeedInv(f, current) && WaitingInv(f) && SentInv(f) && PublishEnabled(f, p)
    ensures FeedInv(PublishFeed(f, p), current) && WaitingInv(PublishFeed(f, p)) && SentInv(PublishFeed(f, p))
  {
    var g := PublishFeed(f, p);
    if p.EndPublication? {
    } else {
      assert p.ch in f.subs && SubscriptionInv(f.subs[p.ch], p.ch in f.registered, current);
      assert forall ch | ch in f.subs && ch != p.ch :: g.subs[ch] == f.subs[ch];
    }
  }

  lemma FeedKeptBySubscriber(s: State, ch: nat, u: SubscriberStep)
    requires FeedOk(s) && SubscriberEnabled(s, ch, u)
    ensures FeedInv(SubscriberFeed(s, ch, u), s.store.current) && WaitingInv(SubscriberFeed(s, ch, u)) && SentInv(SubscriberFeed(s, ch, u))
  {
    var f, g := s.feed, SubscriberFeed(s, ch, u);
    assert forall c | c in f.subs && c != ch :: g.subs[c] == f.subs[c];
    if ch in f.subs { assert SubscriptionInv(f.subs[ch], ch in f.registered, s.store.current); }
  }

  lemma FeedKeptByCommit(s: State, a: Actor)
    requires FeedOk(s) && CommitEnabled(s, a)
    ensures FeedOk(CommitApply(s, a))
  {
    var t := CommitApply(s, a);
    forall ch | ch in t.feed.subs ensures SubscriptionInv(t.feed.subs[ch], ch in t.feed.registered, t.store.current) {
      assert SubscriptionInv(s.feed.subs[ch], ch in s.feed.registered, s.store.current);
    }
  }

  lemma FeedKeptByClose(f: Feed, current: Snapshot)
    requires FeedInv(f, current) && f.mu.Free?
    ensures FeedInv(CloseFeed(f), current) && WaitingInv(CloseFeed(f)) && SentInv(CloseFeed(f))
  {
    var g := CloseFeed(f);
    forall ch | ch in f.subs ensures SubscriptionInv(g.subs[ch], false, current) {
      assert SubscriptionInv(f.subs[ch], ch in f.registered, current);
    }
    forall ch | ch in f.registered ensures !f.subs[ch].closed {
      assert SubscriptionInv(f.subs[ch], true, current);
    }
  }

  /** The remaining steps leave the feed alone, and the current snapshot once there are subscribers. */
  lemma FeedKeptElsewhere(s: State, step: Step)
    requires GateInv(s) && FeedOk(s) && Enabled(s, step)
    requires !step.Publish? && !step.Subscriber? && !step.Commit? && !step.CloseAll?
    ensures FeedOk(Apply(s, step))
  {
    var t := Apply(s, step);
    assert t.feed == s.feed && (t.store == s.store || s.feed == Feed(Free, map[], {}, false));
  }

  lemma FeedKept(s: State, step: Step)
    requires GateInv(s) && FeedOk(s) && Enabled(s, step)
    ensures FeedOk(Apply(s, step))
  {
    match step
    case Publish(p) => FeedKeptByPublish(s.feed, s.store.current, p);
    case Subscriber(ch, u) => FeedKeptBySubscriber(s, ch, u);
    case Commit(a) => FeedKeptByCommit(s, a);
    case CloseAll => FeedKeptByClose(s.feed, s.store.current);
    case _ => FeedKeptElsewhere(s, step);
  }

  /** A publication can always go on: it never waits for a subscriber, nor sends to a closed channel. */
  lemma PublishNeverBlocks(s: State)
    requires FeedOk(s) && s.feed.mu.Publishing?
    ensures match s.feed.mu.drained
            case Some(ch) => Enabled(s, Publish(SendSubscriber(ch))) && !s.feed.subs[ch].closed
            case None => if s.feed.mu.todo == {} then Enabled(s, Publish(EndPublication))
                         else forall ch | ch in s.feed.mu.todo :: Enabled(s, Publish(DrainSubscriber(ch)))
  {
    if s.feed.mu.drained.Some? {
      assert SubscriptionInv(s.feed.subs[s.feed.mu.drained.value], true, s.store.current);
    }
  }

  /** A publication ends only when every registered subscriber was sent its event, error or not. */
  lemma PublicationReachesAll(s: State, ch: nat)
    requires FeedOk(s) && Enabled(s, Publish(EndPublication)) && ch in s.feed.registered
    ensures ch in s.feed.subs && s.feed.subs[ch].newest == s.feed.mu.event
    ensures s.feed.subs[ch].buffer == [s.feed.mu.event] || s.feed.subs[ch].taken == Some(s.feed.mu.event)
  {
    assert SubscriptionInv(s.feed.subs[ch], true, s.store.current);
  }

  /** What a subscriber receives is the newest event sent to it, of no older version than its last. */
  lemma ReceiveInOrder(s: State, ch: nat)
    requires FeedOk(s) && Enabled(s, Subscriber(ch, Receive))
    ensures var event, sub := s.feed.subs[ch].buffer[0], Apply(s, Subscriber(ch, Receive)).feed.subs[ch];
      event == s.feed.subs[ch].newest && sub.taken == Some(event) && sub.buffer == [] &&
      (s.feed.subs[ch].taken.Some? ==> s.feed.subs[ch].taken.value.snapshot.version <= event.snapshot.version)
  {
    assert SubscriptionInv(s.feed.subs[ch], ch in s.feed.registered, s.store.current);
  }

  /** A new subscriber finds the current snapshot in its channel, or, once the runtime is ending, a closed channel. */
  lemma SubscribeDelivers(s: State, ch: nat)
    requires Enabled(s, Subscriber(ch, Subscribe))
    ensures var f := Apply(s, Subscriber(ch, Subscribe)).feed;
      ch in f.subs &&
      if s.store.closed || s.ended then f.subs[ch].closed && f.subs[ch].buffer == [] && f.registered == s.feed.registered
      else !f.subs[ch].closed && f.subs[ch].buffer == [Event(s.store.current, false)] && f.registered == s.feed.registered + {ch}
  {
  }

  /** With nobody registered and the mutex free, a step adds at most a closed, empty channel. */
  lemma ClosedFeed(s: State, step: Step)
    requires GateInv(s) && FeedOk(s) && s.store.closed && Enabled(s, step)
    ensures var f, g := s.feed, Apply(s, step).feed;
      Apply(s, step).store == s.store && g.mu == f.mu && g.registered == {} && f.subs.Keys <= g.subs.Keys &&
      (forall ch | ch in f.subs :: g.subs[ch].closed == f.subs[ch].closed &&
         (g.subs[ch].buffer == f.subs[ch].buffer || (f.subs[ch].buffer != [] && g.subs[ch].buffer == f.subs[ch].buffer[1..]))) &&
      (forall ch | ch in g.subs && ch !in f.subs :: g.subs[ch].closed && g.subs[ch].buffer == [])
  {
  }

  /** Once closed: no new snapshot, no new event, no channel reopened. */
  lemma ClosedIsFrozen(s: State, step: Step)
    requires GateInv(s) && FeedOk(s) && s.store.closed && Enabled(s, step)
    ensures var t := Apply(s, step);
      t.store == s.store && t.feed.registered == {} && !t.feed.mu.Publishing? &&
      (forall ch | ch in t.feed.subs :: t.feed.subs[ch].closed) &&
      (forall ch | ch in s.feed.subs :: ch in t.feed.subs &&
         (t.feed.subs[ch].buffer == s.feed.subs[ch].buffer || (s.feed.subs[ch].buffer != [] && t.feed.subs[ch].buffer == []))) &&
      (forall ch | ch in t.feed.subs && ch !in s.feed.subs :: t.feed.subs[ch].buffer == [])
  {
    ClosedFeed(s, step);
    forall ch | ch in s.feed.subs ensures s.feed.subs[ch].closed && |s.feed.subs[ch].buffer| <= 1 {
      assert SubscriptionInv(s.feed.subs[ch], ch in s.feed.registered, s.store.current);
    }
  }
}
