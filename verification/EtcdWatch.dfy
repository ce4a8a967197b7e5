/** contrib/sources/etcd/etcd.go: read a revision, watch from its successor, reconnect and notify. */
module EtcdWatch {
  import opened Basics

  /** An acknowledged stream: events of the key after delivered are queued or still to come. */
  datatype Stream = Stream(delivered: nat)

  /**
   * The loop: selecting on an open stream; about to notify, with or without a stream; waiting
   * out its backoff; reading a revision; or registering a stream from the revision read.
   */
  datatype Pc = Selecting | Notifying | WaitingBackoff | ReadingRevision | Registering(revision: nat) | Stopped

  /**
   * revision is the store's, modified the revisions that changed the key; notifiedAt is the
   * store's revision when the runtime was last told to read everything again.
   */
  datatype State = State(pc: Pc, stream: Option<Stream>, revision: nat, modified: set<nat>, notifiedAt: nat)

  datatype Step =
    | OtherWrite | KeyWrite
    | Tick | Deliver(upTo: nat) | Break
    | Notify
    | BackoffOver | ReadOk | ReadFails | RegisterOk | RegisterFails
    | ContextEnds

  /** Watch returns once a stream from the successor of the captured revision is acknowledged. */
  predicate Start(s: State, captured: nat) {
    s.pc.Selecting? && s.stream == Some(Stream(captured)) && captured <= s.revision && s.notifiedAt == captured &&
    forall r | r in s.modified :: r <= s.revision
  }

  predicate Enabled(s: State, step: Step) {
    match step
    case OtherWrite => true
    case KeyWrite => true
    case Tick => s.pc.Selecting?
    case Deliver(upTo) => s.pc.Selecting? && s.stream.Some? && s.stream.value.delivered <= upTo <= s.revision
    case Break => s.pc.Selecting? && s.stream.Some?
    case Notify => s.pc.Notifying?
    case BackoffOver => s.pc.WaitingBackoff?
    case ReadOk => s.pc.ReadingRevision?
    case ReadFails => s.pc.ReadingRevision?
    case RegisterOk => s.pc.Registering?
    case RegisterFails => s.pc.Registering?
    case ContextEnds => !s.pc.Notifying?
  }

  /** Whether a response up to this revision carries events of the key. */
  predicate HasEvents(s: State, upTo: nat)
    requires s.stream.Some?
  {
    exists r | r in s.modified :: s.stream.value.delivered < r <= upTo
  }

  function Apply(s: State, step: Step): State
    requires Enabled(s, step)
  {
    match step
    case OtherWrite => s.(revision := s.revision + 1)
    case KeyWrite => s.(revision := s.revision + 1, modified := s.modified + {s.revision + 1})
    case Tick => s.(pc := Notifying)
    case Deliver(upTo) => s.(stream := Some(Stream(upTo)), pc := if HasEvents(s, upTo) then Notifying else Selecting)
    case Break => s.(stream := None, pc := Notifying)
    case Notify => s.(notifiedAt := s.revision, pc := if s.stream.Some? then Selecting else WaitingBackoff)
    case BackoffOver => s.(pc := ReadingRevision)
    case ReadOk => s.(pc := Registering(s.revision))
    case ReadFails => s.(pc := Notifying)
    case RegisterOk => s.(stream := Some(Stream(s.pc.revision)), pc := Notifying)
    case RegisterFails => s.(pc := Notifying)
    case ContextEnds => s.(pc := Stopped)
  }

  /** The modification will be delivered by the open stream. */
  predicate Queued(s: State, r: nat) {
    s.stream.Some? && s.stream.value.delivered < r
  }

  /** The loop is on its way to a notification, which nothing but the context's end prevents. */
  predicate WillNotify(s: State) {
    s.pc.Notifying? || s.pc.WaitingBackoff? || s.pc.ReadingRevision? || s.pc.Registering?
  }

  ghost predicate Inv(s: State) {
    s.notifiedAt <= s.revision && (forall r | r in s.modified :: r <= s.revision) &&
    (s.pc.Selecting? ==> s.stream.Some?) &&
    (s.pc.WaitingBackoff? || s.pc.ReadingRevision? || s.pc.Registering? ==> s.stream.None?) &&
    (s.stream.Some? ==> s.stream.value.delivered <= s.revision) &&
    (s.pc.Registering? ==> s.pc.revision <= s.revision) &&
    (s.pc.Selecting? ==> forall r | r in s.modified && r > s.notifiedAt :: Queued(s, r))
  }

  lemma InvKept(s: State, step: Step)
    requires Inv(s) && Enabled(s, step)
    ensures Inv(Apply(s, step))
  {
  }

  ghost predicate Run(states: seq<State>, steps: seq<Step>, captured: nat) {
    |states| == |steps| + 1 && Start(states[0], captured) &&
    forall i | 0 <= i < |steps| :: Enabled(states[i], steps[i]) && states[i + 1] == Apply(states[i], steps[i])
  }

  lemma {:induction false} Reachable(states: seq<State>, steps: seq<Step>, captured: nat, i: nat)
    requires Run(states, steps, captured) && i < |states|
    ensures Inv(states[i])
    ensures captured <= states[i].notifiedAt
  {
    if i > 0 {
      Reachable(states, steps, captured, i - 1);
      InvKept(states[i - 1], steps[i - 1]);
    }
  }

  /**
   * In every run, until the context ends, a modification after the captured revision has been
   * followed by a notification, or is queued in the open stream, or the loop will yet notify.
   */
  lemma NoModificationLost(states: seq<State>, steps: seq<Step>, captured: nat, i: nat, r: nat)
    requires Run(states, steps, captured) && i < |states| && !states[i].pc.Stopped?
    requires r in states[i].modified && r > captured
    ensures r <= states[i].notifiedAt || (states[i].pc.Selecting? && Queued(states[i], r)) || WillNotify(states[i])
  {
    Reachable(states, steps, captured, i);
  }

  function Distance(pc: Pc): nat {
    match pc
    case WaitingBackoff => 4
    case ReadingRevision => 3
    case Registering(_) => 2
    case Notifying => 1
    case _ => 0
  }

  /** Each step of a loop that will notify brings it nearer, and the notification covers all so far. */
  lemma NotificationFollows(s: State, step: Step)
    requires WillNotify(s) && Enabled(s, step) && !step.OtherWrite? && !step.KeyWrite? && !step.ContextEnds?
    ensures var t := Apply(s, step);
      if step.Notify? then t.notifiedAt == s.revision else WillNotify(t) && Distance(t.pc) < Distance(s.pc)
  {
  }

  /** A response with events of an unnotified modification makes the loop notify. */
  lemma DeliveryNotifies(s: State, upTo: nat, r: nat)
    requires Inv(s) && Enabled(s, Deliver(upTo)) && r in s.modified && s.notifiedAt < r <= upTo
    ensures Apply(s, Deliver(upTo)).pc.Notifying?
  {
    assert Queued(s, r);
  }

  /** A tick, a broken stream, a failed attempt to reconnect and a successful one all lead to a notification. */
  lemma DisruptionsNotify(s: State, step: Step)
    requires Inv(s) && Enabled(s, step)
    requires step.Tick? || step.Break? || step.ReadFails? || step.RegisterFails? || step.RegisterOk?
    ensures Apply(s, step).pc.Notifying? && (Apply(s, step).stream.Some? <==> (step.Tick? && s.stream.Some?) || step.RegisterOk?)
  {
  }

  /** A response without events of the key is silent; one with any notifies. */
  lemma DeliveryNotifiesIff(s: State, upTo: nat)
    requires Enabled(s, Deliver(upTo))
    ensures Apply(s, Deliver(upTo)).pc.Notifying? <==> exists r | r in s.modified :: s.stream.value.delivered < r <= upTo
  {
  }
}
