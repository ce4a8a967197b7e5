/** xconf.go's loader: the fold of the sources' layers, lowest priority first. */
module Loading {
  import opened Basics
  import opened Paths
  import opened Trees
  import opened Merging
  import Merger
  import opened Provenance

  /** What happens when the loader reaches a source. */
  datatype Reading = ContextEnded | ReadFailed | Read(layer: Layer)

  datatype SourceRead = SourceRead(name: string, reading: Reading)

  datatype LoadError =
    | Cancelled
    | ReadError(source: string)
    | MergeFailure(source: string, cause: MergeError)
    | BakeFailure
    | ValidationFailure
    | DegradedFailure(degraded: map<string, string>)

  /** The merged state handed to the schema engine. */
  datatype Gathered = Gathered(values: Fields, origins: Log, revisions: map<string, string>, degraded: map<string, string>)

  /** What the schema engine reports of one operation of its own. */
  datatype SchemaEvent = SchemaEvent(path: Path, operation: string)

  /** The schema engine's answer: an error, a result with blocking errors, or the baked values. */
  datatype Baking = BakeError | Blocking | Baked(values: Fields, events: seq<SchemaEvent>)

  datatype Snapshot = Snapshot(baked: Fields, origins: Log, revisions: map<string, string>, degraded: map<string, string>)

  /** The loop's outcome: the first source that fails ends it. */
  function LoadOutcome(root: Schema, v: Value, inputs: seq<SourceRead>): Result<Value, LoadError>
    requires v.Object?
    decreases |inputs|
  {
    if inputs == [] then Ok(v)
    else match inputs[0].reading
      case ContextEnded => Err(Cancelled)
      case ReadFailed => Err(ReadError(inputs[0].name))
      case Read(layer) =>
        match ApplyLayer(root, v, layer)
        case Err(e) => Err(MergeFailure(inputs[0].name, e))
        case Ok(w) => LoadOutcome(root, w, inputs[1..])
  }

  /** The layers read, up to the first source that gives none. */
  function Contributions(inputs: seq<SourceRead>): seq<Contribution> {
    if inputs == [] || !inputs[0].reading.Read? then []
    else [Contribution(inputs[0].name, inputs[0].reading.layer)] + Contributions(inputs[1..])
  }

  lemma {:induction false} OutcomeIsRun(root: Schema, v: Value, inputs: seq<SourceRead>)
    requires v.Object?
    ensures LoadOutcome(root, v, inputs).Ok? <==>
            (forall i | 0 <= i < |inputs| :: inputs[i].reading.Read?) && Run(root, v, Contributions(inputs)).Ok?
    ensures LoadOutcome(root, v, inputs).Ok? ==> Run(root, v, Contributions(inputs)) == Ok(LoadOutcome(root, v, inputs).value)
    decreases |inputs|
  {
    if inputs != [] && inputs[0].reading.Read? {
      var layer := inputs[0].reading.layer;
      assert Contributions(inputs)[1..] == Contributions(inputs[1..]);
      if ApplyLayer(root, v, layer).Ok? {
        OutcomeIsRun(root, ApplyLayer(root, v, layer).value, inputs[1..]);
        assert forall i | 1 <= i < |inputs| :: inputs[i] == inputs[1..][i - 1];
        assert forall i | 0 <= i < |inputs| - 1 :: inputs[1..][i] == inputs[i + 1];
      }
    }
  }

  /** The first i sources gave layers that apply in turn, to make w. */
  ghost predicate ReadSoFar(root: Schema, v: Value, inputs: seq<SourceRead>, i: nat, w: Value)
    requires v.Object? && i <= |inputs|
  {
    (forall j | 0 <= j < i :: inputs[j].reading.Read?) && Run(root, v, Contributions(inputs[..i])) == Ok(w)
  }

  /** The error is that of the first source that ends the loop, by name: the context, its read, or its merge. */
  lemma {:induction false} FirstFailure(root: Schema, v: Value, inputs: seq<SourceRead>, i: nat, w: Value)
    requires v.Object? && w.Object? && i < |inputs| && ReadSoFar(root, v, inputs, i, w)
    ensures inputs[i].reading.ContextEnded? ==> LoadOutcome(root, v, inputs) == Err(Cancelled)
    ensures inputs[i].reading.ReadFailed? ==> LoadOutcome(root, v, inputs) == Err(ReadError(inputs[i].name))
    ensures inputs[i].reading.Read? && ApplyLayer(root, w, inputs[i].reading.layer).Err? ==>
              LoadOutcome(root, v, inputs) ==
              Err(MergeFailure(inputs[i].name, ApplyLayer(root, w, inputs[i].reading.layer).error))
    decreases i
  {
    assert inputs[..0] == [];
    if i > 0 {
      var some, rest := inputs[..i], inputs[1..];
      assert some[0] == inputs[0] && some[1..] == rest[..i - 1] && rest[i - 1] == inputs[i];
      assert Contributions(some)[1..] == Contributions(rest[..i - 1]);
      assert forall j | 0 <= j < i - 1 :: rest[j] == inputs[j + 1];
      FirstFailure(root, ApplyLayer(root, v, inputs[0].reading.layer).value, rest, i - 1, w);
    }
  }

  /** bind: every source needs a name of its own. */
  method Bind(names: seq<string>) returns (ok: bool)
    ensures ok <==> (forall i | 0 <= i < |names| :: names[i] != "") && forall i, j | 0 <= i < j < |names| :: names[i] != names[j]
  {
    var seen: set<string> := {};
    for i := 0 to |names|
      invariant forall n :: n in seen <==> n in names[..i]
      invariant forall j | 0 <= j < i :: names[j] != ""
      invariant forall j, k | 0 <= j < k < i :: names[j] != names[k]
    {
      if names[i] == "" || names[i] in seen { return false; }
      seen := seen + {names[i]};
    }
    ok := true;
  }

  /** The rest of the run leads to the same histories as the whole of it. */
  ghost predicate RunLogged(now: Log, root: Schema, v: Value, rest: seq<Contribution>, run: seq<Contribution>)
    requires v.Object? && Run(root, v, rest).Ok? && Run(root, EMPTY, run).Ok?
  {
    forall q :: RunHistory(root, v, rest, q, History(now, q)) == RunHistory(root, EMPTY, run, q, [])
  }

  /** The last record of h names the writer that the annotated merge gives the live value at q. */
  ghost predicate Explained(root: Schema, run: seq<Contribution>, tree: Value, h: seq<Origin>, q: Path) {
    (Reach(tree, q).Some? && !Reach(tree, q).value.Object? ==>
       var t := TReach(TRun(root, TObject(map[]), run), q);
       h != [] && t.Some? && !t.value.TObject? && WriterOf(h[|h| - 1]) == t.value.author) &&
    (h != [] && h[|h| - 1].operation == "set" ==> Reach(tree, q).Some?)
  }

  predicate Noted(read: SourceRead, revisions: map<string, string>, degraded: map<string, string>) {
    read.reading.Read? && Get(revisions, read.name) == Some(read.reading.layer.revision) &&
    Get(degraded, read.name) == read.reading.layer.stale
  }

  function Names(inputs: seq<SourceRead>): (names: set<string>)
    ensures forall i | 0 <= i < |inputs| :: inputs[i].name in names
    ensures forall n | n in names :: exists i | 0 <= i < |inputs| :: inputs[i].name == n
  {
    set i | 0 <= i < |inputs| :: inputs[i].name
  }

  /** Revisions of exactly these sources, and the errors of exactly the stale ones. */
  ghost predicate Accounted(inputs: seq<SourceRead>, revisions: map<string, string>, degraded: map<string, string>) {
    (forall i | 0 <= i < |inputs| :: Noted(inputs[i], revisions, degraded)) &&
    revisions.Keys == Names(inputs) && degraded.Keys <= Names(inputs)
  }

  /** The errors of exactly the stale sources. */
  ghost predicate Stale(inputs: seq<SourceRead>, degraded: map<string, string>) {
    (forall i | 0 <= i < |inputs| ::
       inputs[i].reading.Read? && Get(degraded, inputs[i].name) == inputs[i].reading.layer.stale) &&
    degraded.Keys <= Names(inputs)
  }

  lemma AccountedStep(inputs: seq<SourceRead>, i: nat, revisions: map<string, string>, degraded: map<string, string>)
    requires i < |inputs| && inputs[i].reading.Read? && Accounted(inputs[..i], revisions, degraded)
    requires forall j, k | 0 <= j < k < |inputs| :: inputs[j].name != inputs[k].name
    ensures var layer, name := inputs[i].reading.layer, inputs[i].name;
      Accounted(inputs[..i + 1], revisions[name := layer.revision],
        if layer.stale.Some? then degraded[name := layer.stale.value] else degraded)
  {
    var layer, name := inputs[i].reading.layer, inputs[i].name;
    var revisions', degraded' := revisions[name := layer.revision], if layer.stale.Some? then degraded[name := layer.stale.value] else degraded;
    assert name !in Names(inputs[..i]);
    var more := inputs[..i + 1];
    forall j | 0 <= j < |more| ensures Noted(more[j], revisions', degraded') {
      if j < i { assert Noted(inputs[..i][j], revisions, degraded); }
    }
    NamesStep(inputs, i);
  }

  lemma NamesStep(inputs: seq<SourceRead>, i: nat)
    requires i < |inputs|
    ensures Names(inputs[..i + 1]) == Names(inputs[..i]) + {inputs[i].name}
  {
    forall j | 0 <= j < i ensures inputs[j].name in Names(inputs[..i]) && inputs[j].name in Names(inputs[..i + 1]) {
      assert inputs[..i][j] == inputs[j] == inputs[..i + 1][j];
    }
    assert inputs[..i + 1][i] == inputs[i];
  }

  /** The loop over the sources; ended is the context's state after the last. */
  method Gather(root: Schema, inputs: seq<SourceRead>, ended: bool) returns (r: Result<Gathered, LoadError>)
    requires forall i, j | 0 <= i < j < |inputs| :: inputs[i].name != inputs[j].name
    ensures LoadOutcome(root, EMPTY, inputs).Err? ==> r == Err(LoadOutcome(root, EMPTY, inputs).error)
    ensures LoadOutcome(root, EMPTY, inputs).Ok? ==> if ended then r == Err(Cancelled) else r.Ok?
    ensures r.Ok? ==>
              Object(r.value.values) == LoadOutcome(root, EMPTY, inputs).value && Run(root, EMPTY, Contributions(inputs)).Ok? &&
              LogValid(r.value.origins) && Accounted(inputs, r.value.revisions, r.value.degraded)
    ensures r.Ok? ==> forall q :: History(r.value.origins, q) == RunHistory(root, EMPTY, Contributions(inputs), q, [])
  {
    var state := new Merger.Merger(root);
    var revisions: map<string, string>, degraded: map<string, string> := map[], map[];
    for i := 0 to |inputs|
      invariant fresh(state) && state.schema == root && LogValid(state.origins)
      invariant LoadOutcome(root, EMPTY, inputs) == LoadOutcome(root, Object(state.values), inputs[i..])
      invariant Run(root, EMPTY, Contributions(inputs)) == Run(root, Object(state.values), Contributions(inputs[i..]))
      invariant Run(root, EMPTY, Contributions(inputs)).Ok? ==>
                  RunLogged(state.origins, root, Object(state.values), Contributions(inputs[i..]), Contributions(inputs))
      invariant Accounted(inputs[..i], revisions, degraded)
    {
      ghost var rest := inputs[i..];
      assert rest[0] == inputs[i] && rest[1..] == inputs[i + 1..];
      match inputs[i].reading
      case ContextEnded => return Err(Cancelled);
      case ReadFailed => return Err(ReadError(inputs[i].name));
      case Read(layer) =>
        assert Contributions(rest)[0] == Contribution(inputs[i].name, layer) && Contributions(rest)[1..] == Contributions(inputs[i + 1..]);
        var failure := state.Apply(inputs[i].name, layer);
        if failure.Some? { return Err(MergeFailure(inputs[i].name, failure.value)); }
        AccountedStep(inputs, i, revisions, degraded);
        revisions := revisions[inputs[i].name := layer.revision];
        if layer.stale.Some? { degraded := degraded[inputs[i].name := layer.stale.value]; }
    }
    assert inputs[|inputs|..] == [] && inputs[..|inputs|] == inputs;
    OutcomeIsRun(root, EMPTY, inputs);
    if ended { return Err(Cancelled); }
    r := Ok(Gathered(state.values, state.origins, revisions, degraded));
  }

  /** What the schema engine's events add to the history of q. */
  function SchemaRecords(events: seq<SchemaEvent>, q: Path): seq<Origin> {
    if events == [] then []
    else
      (if events[0].path == q then [Origin("schema", "", events[0].operation, NOWHERE)] else []) + SchemaRecords(events[1..], q)
  }

  /** One event more is one record more, of the schema's own, at its own path. */
  lemma {:induction false} SchemaRecordsGrow(events: seq<SchemaEvent>, event: SchemaEvent, q: Path)
    ensures SchemaRecords([], q) == []
    ensures SchemaRecords(events + [event], q) ==
            SchemaRecords(events, q) +
            (if event.path == q then [Origin("schema", "", event.operation, Location("", 0, 0))] else [])
    decreases |events|
  {
    var all, one := events + [event], if event.path == q then [Origin("schema", "", event.operation, NOWHERE)] else [];
    if events == [] {
      assert all == [event] && all[1..] == [];
    } else {
      var first := if events[0].path == q then [Origin("schema", "", events[0].operation, NOWHERE)] else [];
      assert all[0] == events[0] && all[1..] == events[1..] + [event];
      SchemaRecordsGrow(events[1..], event, q);
      assert first + (SchemaRecords(events[1..], q) + one) == first + SchemaRecords(events[1..], q) + one;
    }
  }

  /** load's last loop: the schema's operations follow the sources' writes. */
  method RecordEvents(log: Log, events: seq<SchemaEvent>) returns (out: Log)
    ensures forall q :: History(out, q) == History(log, q) + SchemaRecords(events, q)
  {
    out := log;
    assert events[0..] == events;
    for i := 0 to |events|
      invariant forall q :: History(out, q) + SchemaRecords(events[i..], q) == History(log, q) + SchemaRecords(events, q)
    {
      ghost var was := out;
      var o := Origin("schema", "", events[i].operation, NOWHERE);
      out := out[Pointer(events[i].path) := History(out, events[i].path) + [o]];
      assert events[i..][0] == events[i] && events[i..][1..] == events[i + 1..];
      forall q ensures History(out, q) + SchemaRecords(events[i + 1..], q) == History(was, q) + SchemaRecords(events[i..], q) {
        if q != events[i].path && Pointer(q) == Pointer(events[i].path) { PointerInjective(q, events[i].path); }
      }
    }
    assert events[|events|..] == [];
  }

  /** withDegraded: a failure while sources are stale may resolve with their recovery. */
  function WithDegraded(degraded: map<string, string>): LoadError {
    if degraded == map[] then ValidationFailure else DegradedFailure(degraded)
  }

  /**
   * load: the sources in order, then the schema engine, which is any function of the merged
   * tree. A snapshot's history is the sources' writes, which explain every value, followed by
   * the schema's operations; blocking errors are a degraded failure exactly when a source is stale.
   */
  method Load(root: Schema, bake: Value -> Baking, inputs: seq<SourceRead>, ended: bool) returns (r: Result<Snapshot, LoadError>)
    requires forall i, j | 0 <= i < j < |inputs| :: inputs[i].name != inputs[j].name
    ensures r.Ok? <==>
              LoadOutcome(root, EMPTY, inputs).Ok? && !ended && bake(LoadOutcome(root, EMPTY, inputs).value).Baked?
    ensures LoadOutcome(root, EMPTY, inputs).Err? ==> r == Err(LoadOutcome(root, EMPTY, inputs).error)
    ensures LoadOutcome(root, EMPTY, inputs).Ok? ==>
              var baking := bake(LoadOutcome(root, EMPTY, inputs).value);
              (ended ==> r == Err(Cancelled)) &&
              (!ended && baking.BakeError? ==> r == Err(BakeFailure)) &&
              (!ended && baking.Blocking? ==>
                 r.Err? && (r.error.ValidationFailure? || r.error.DegradedFailure?) &&
                 (r.error.DegradedFailure? <==> exists i | 0 <= i < |inputs| :: inputs[i].reading.Read? && inputs[i].reading.layer.stale.Some?) &&
                 (r.error.DegradedFailure? ==> Stale(inputs, r.error.degraded)))
    ensures r.Ok? ==> Accounted(inputs, r.value.revisions, r.value.degraded)
    ensures r.Ok? ==>
              var tree, run := LoadOutcome(root, EMPTY, inputs).value, Contributions(inputs);
              r.value.baked == bake(tree).values && Run(root, EMPTY, run) == Ok(tree) &&
              forall q :: History(r.value.origins, q) == RunHistory(root, EMPTY, run, q, []) + SchemaRecords(bake(tree).events, q) &&
                          Explained(root, run, tree, RunHistory(root, EMPTY, run, q, []), q)
  {
    var gathered := Gather(root, inputs, ended);
    if gathered.Err? { return Err(gathered.error); }
    var state := gathered.value;
    OutcomeIsRun(root, EMPTY, inputs);
    var baking := bake(Object(state.values));
    match baking
    case BakeError => return Err(BakeFailure);
    case Blocking =>
      DegradedIffStale(inputs, state.revisions, state.degraded);
      return Err(WithDegraded(state.degraded));
    case Baked(values, events) =>
      var origins := RecordEvents(state.origins, events);
      forall q ensures Explained(root, Contributions(inputs), Object(state.values), RunHistory(root, EMPTY, Contributions(inputs), q, []), q) {
        ProvenanceNamesTheWriter(root, Contributions(inputs), q);
      }
      r := Ok(Snapshot(values, origins, state.revisions, state.degraded));
  }

  lemma DegradedIffStale(inputs: seq<SourceRead>, revisions: map<string, string>, degraded: map<string, string>)
    requires Accounted(inputs, revisions, degraded)
    ensures degraded != map[] <==> exists i | 0 <= i < |inputs| :: inputs[i].reading.Read? && inputs[i].reading.layer.stale.Some?
    ensures Stale(inputs, degraded)
  {
    forall i | 0 <= i < |inputs| ensures inputs[i].reading.Read? && Get(degraded, inputs[i].name) == inputs[i].reading.layer.stale {
      assert Noted(inputs[i], revisions, degraded);
    }
    if degraded != map[] {
      var n :| n in degraded;
      var i :| 0 <= i < |inputs| && inputs[i].name == n;
      assert Noted(inputs[i], revisions, degraded);
    }
    if i :| 0 <= i < |inputs| && inputs[i].reading.Read? && inputs[i].reading.layer.stale.Some? {
      assert Noted(inputs[i], revisions, degraded);
      assert inputs[i].name in degraded;
    }
  }
}
