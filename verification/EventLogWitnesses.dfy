/**
 * Histories on which the store departs from what its log replays to, and one
 * that recovery cannot repair. Each starts from the empty store.
 */
module EventLogWitnesses {
  import opened EventLog
  import opened EventLogProofs
  import opened EventStore
  import opened HashChain
  import opened JsonValue
  import opened Outcomes

  /** A delivery of this workspace whose time the log can store. */
  predicate Deliverable(meta: Meta, workspace: string) {
    meta.workspace == workspace && meta.occurredAt < I64_LIMIT
  }

  // ---------- commands that commit and are not replayed ----------

  /** The first command of a store commits even without a run identifier, and the replay then refuses the log. */
  lemma EmptyRunIdIsCommitted(env: Env, workspace: string, meta: Meta, taskId: string)
    requires Faithful(env) && Deliverable(meta, workspace)
    ensures var c := CreateRun(meta, "", taskId);
            && Commits(env, workspace, EMPTY_TABLES, c)
            && ReplayRuns(env, workspace, Apply(env, workspace, EMPTY_TABLES, c).0.events).Err?
  {
    var c := CreateRun(meta, "", taskId);
    var row := NewRow(env, [], meta, RUN_QUEUED, QueuedPayload("", taskId));
    var events := Apply(env, workspace, EMPTY_TABLES, c).0.events;
    assert events == [] + [row];
    ReplaySnoc(env, workspace, [], row);
    QueuedStep(map[], "", taskId, 1);
    hide RowHash, QueuedPayload, StepQueued;
  }

  /** A core event may carry a run event type: the replay accepts it and has a run that the table lacks. */
  lemma ReservedCoreEventIsCommitted(env: Env, workspace: string, meta: Meta, runId: string, taskId: string)
    requires Faithful(env) && Deliverable(meta, workspace) && runId != "" && taskId != ""
    ensures var c := AppendCore(meta, RUN_QUEUED, QueuedPayload(runId, taskId));
            var t := Apply(env, workspace, EMPTY_TABLES, c).0;
            && Commits(env, workspace, EMPTY_TABLES, c) && t.runs == map[]
            && ReplayRuns(env, workspace, t.events) == Ok(map[runId := RunRow(taskId, "queued", "[]", 1)])
  {
    var c := AppendCore(meta, RUN_QUEUED, QueuedPayload(runId, taskId));
    var row := NewRow(env, [], meta, RUN_QUEUED, QueuedPayload(runId, taskId));
    var events := Apply(env, workspace, EMPTY_TABLES, c).0.events;
    assert events == [] + [row];
    ReplaySnoc(env, workspace, [], row);
    QueuedStep(map[], runId, taskId, 1);
    hide RowHash, QueuedPayload, StepQueued;
  }

  /** A store with one run, as the log says. */
  function OneRun(env: Env, workspace: string, meta: Meta, runId: string, taskId: string): Tables {
    Apply(env, workspace, EMPTY_TABLES, CreateRun(meta, runId, taskId)).0
  }

  lemma OneRunIs(env: Env, workspace: string, meta: Meta, runId: string, taskId: string)
    requires Faithful(env) && Deliverable(meta, workspace) && runId != "" && taskId != ""
    ensures var t := OneRun(env, workspace, meta, runId, taskId);
            && t.events == [NewRow(env, [], meta, RUN_QUEUED, QueuedPayload(runId, taskId))]
            && t.runs == map[runId := RunRow(taskId, "queued", "[]", 1)]
            && t.outbox == [] && t.keys.Keys == {meta.key} && t.artifacts == map[] && t.blobs == map[]
            && ProjectionsHold(env, workspace, t) && LogIntact(env, t)
  {
    var c := CreateRun(meta, runId, taskId);
    EmptyStoreHolds(env, workspace);
    StepKeepsProjections(env, workspace, EMPTY_TABLES, c);
    StepKeepsLog(env, workspace, EMPTY_TABLES, c);
    hide RowHash, QueuedPayload, ProjectionsHold, LogIntact, RequestHash;
  }

  /** The second event of a store is appended unless its hash is that of the first, which is a collision. */
  lemma SecondAppends(env: Env, first: Row, meta: Meta, eventType: string, payload: Json) returns (x: Bytes, y: Bytes)
    requires InjectiveText(env.codec) && meta.occurredAt < I64_LIMIT && first.eventId != meta.eventId
    requires first.hash == RowHash(env.codec, first) && RowFits(env.codec, first)
    requires RowFits(env.codec, NewRow(env, [first], meta, eventType, payload))
    ensures Append(env, [first], meta, eventType, payload)
            == Ok([first] + [NewRow(env, [first], meta, eventType, payload)])
         || (x != y && env.codec.sha(x) == env.codec.sha(y))
  {
    var row := NewRow(env, [first], meta, eventType, payload);
    x, y := Encode(HashedParts(env.codec, first)), Encode(HashedParts(env.codec, row));
    hide Encode, RowFits, InjectiveText;
    assert row.hash == RowHash(env.codec, row);
    if x == y {
      assert first.hash == row.hash;
      RowDetermined(env.codec, first, row);
    }
  }

  /** A queued run can be started with any evidence once the event can be appended. */
  lemma QueuedRunStarts(env: Env, workspace: string, t: Tables, meta: Meta, runId: string, evidence: seq<string>)
    requires Deliverable(meta, workspace) && meta.key !in t.keys && runId in t.runs && t.runs[runId].state == "queued"
    requires Append(env, t.events, meta, RUN_STATE_CHANGED, ChangedPayload(runId, "queued", "running", evidence)).Ok?
    ensures Commits(env, workspace, t, TransitionRun(meta, runId, Running, evidence))
  {
    hide Append, ChangedPayload, RequestHash, EvidenceArray;
  }

  /** An empty evidence item commits on a queued run, and the tables are then not what the log replays to. */
  lemma EmptyEvidenceItemIsCommitted(env: Env, workspace: string, first: Meta, second: Meta, runId: string,
      taskId: string)
    returns (x: Bytes, y: Bytes)
    requires Faithful(env) && InjectiveText(env.codec) && runId != "" && taskId != ""
    requires Deliverable(first, workspace) && Deliverable(second, workspace)
    requires first.eventId != second.eventId && first.key != second.key
    requires var t := OneRun(env, workspace, first, runId, taskId);
             && RowsFit(env.codec, t.events)
             && RowFits(env.codec,
                NewRow(env, t.events, second, RUN_STATE_CHANGED, ChangedPayload(runId, "queued", "running", [""])))
    ensures var t, c := OneRun(env, workspace, first, runId, taskId), TransitionRun(second, runId, Running, [""]);
            || (Commits(env, workspace, t, c) && !ProjectionsHold(env, workspace, Apply(env, workspace, t, c).0))
            || (x != y && env.codec.sha(x) == env.codec.sha(y))
  {
    var t, c := OneRun(env, workspace, first, runId, taskId), TransitionRun(second, runId, Running, [""]);
    OneRunIs(env, workspace, first, runId, taskId);
    StepKeepsProjections(env, workspace, t, c);
    assert "" in c.evidence;
    var payload := ChangedPayload(runId, "queued", "running", [""]);
    hide RowHash, QueuedPayload, ChangedPayload, ProjectionsHold, LogIntact, OneRun, Append, RowFits, Apply, Commits;
    x, y := SecondAppends(env, t.events[0], second, RUN_STATE_CHANGED, payload);
    if Append(env, t.events, second, RUN_STATE_CHANGED, payload).Ok? {
      QueuedRunStarts(env, workspace, t, second, runId, [""]);
    }
  }

  // ---------- a projection that recovery cannot repair ----------

  /** What the foreign keys of the tables ask for. */
  ghost predicate ReferencesHold(t: Tables) {
    && KeysKnown(t)
    && (forall r | r in t.runs :: 1 <= t.runs[r].updatedSequence <= |t.events|)
    && (forall a | a in t.artifacts ::
       t.artifacts[a].runId in t.runs && 1 <= t.artifacts[a].createdSequence <= |t.events|)
    && (forall o | o in t.outbox :: exists i :: 0 <= i < |t.events| && t.events[i].eventId == o.eventId)
  }

  /** The store of one run with a second row in the runs table that no event accounts for. */
  function Strayed(t: Tables, stray: string): Tables {
    t.(runs := t.runs[stray := RunRow("task", "queued", "[]", 1)])
  }

  /** A stray row lets an artifact commit once the event can be appended. */
  lemma StrayTakesArtifact(env: Env, workspace: string, t: Tables, c: Command, row: Row)
    requires c.CommitArtifact? && Deliverable(c.meta, workspace) && c.meta.key !in t.keys && c.mediaType != ""
             && c.classification != ""
    requires c.runId in t.runs && t.artifacts == map[] && t.blobs == map[] && c.blob.byteLength < I64_LIMIT
    requires Append(env, t.events, c.meta, ARTIFACT_COMMITTED, ArtifactPayload(c)) == Ok(t.events + [row])
    ensures var t' := Apply(env, workspace, t, c).0;
            && Commits(env, workspace, t, c) && t'.events == t.events + [row]
            && t'.runs == t.runs && t'.outbox == t.outbox && t'.artifacts.Keys == {c.artifactId}
            && t'.artifacts[c.artifactId].runId == c.runId && t'.artifacts[c.artifactId].createdSequence == |t'.events|
  {
    hide Append, ArtifactPayload, RequestHash;
  }

  /** The log of the stray store replays to its one run. */
  lemma StrayReplays(env: Env, workspace: string, t: Tables, row: Row, payload: Json)
    requires Faithful(env) && ReplayRuns(env, workspace, t.events).Ok?
    requires row.workspace == workspace && row.eventType == ARTIFACT_COMMITTED && row.payloadJson == env.render(payload)
    ensures ReplayRuns(env, workspace, t.events + [row]) == ReplayRuns(env, workspace, t.events)
  {
    EventTypesDistinct();
    ReplaySnoc(env, workspace, t.events, row);
    OtherStep(env, workspace, ReplayRuns(env, workspace, t.events).value, [], row, |t.events| + 1, payload);
    hide ReplayRuns, StepRuns, ReplayOutbox;
  }

  /** The tables after the artifact was committed: sound in every respect but the stray row, which an artifact holds. */
  ghost predicate HeldBack(env: Env, workspace: string, t: Tables, expected: Runs) {
    && ReferencesHold(t) && ChainOk(env.codec, t.events)
    && ReplayRuns(env, workspace, t.events) == Ok(expected) && t.runs != expected && HoldsBack(t, expected)
  }

  lemma StrayedRefers(t: Tables, stray: string)
    requires KeysKnown(t) && |t.events| == 1 && t.outbox == [] && t.artifacts == map[]
    requires forall r | r in t.runs :: t.runs[r].updatedSequence == 1
    ensures ReferencesHold(Strayed(t, stray))
  {
  }

  lemma ArtifactHoldsBack(env: Env, workspace: string, t: Tables, t': Tables, artifactId: string, stray: string,
      row: Row, expected: Runs)
    requires ReferencesHold(t) && t.outbox == [] && stray in t.runs && stray !in expected
    requires t'.events == t.events + [row] && t'.runs == t.runs && t'.outbox == t.outbox
    requires t'.artifacts.Keys == {artifactId} && t'.artifacts[artifactId].runId == stray
             && t'.artifacts[artifactId].createdSequence == |t'.events|
    requires LogIntact(env, t') && ReplayRuns(env, workspace, t'.events) == Ok(expected)
    ensures HeldBack(env, workspace, t', expected)
  {
    hide ChainOk, ReplayRuns, DistinctEvents;
    assert artifactId in t'.artifacts;
  }

  lemma NewRowIs(env: Env, events: seq<Row>, meta: Meta, eventType: string, payload: Json)
    ensures var row := NewRow(env, events, meta, eventType, payload);
            && row.workspace == meta.workspace && row.eventType == eventType && row.payloadJson == env.render(payload)
            && row.eventId == meta.eventId && row.hash == RowHash(env.codec, row)
  {
    NewRowLinks(env, events, meta, eventType, payload);
    hide RowHash;
  }

  lemma StrayFacts(env: Env, workspace: string, first: Meta, runId: string, taskId: string, stray: string, c: Command)
    requires Faithful(env) && Deliverable(first, workspace) && runId != "" && taskId != ""
    ensures var sound := OneRun(env, workspace, first, runId, taskId);
            var t := Strayed(sound, stray);
            && t.events == sound.events && |t.events| == 1 && t.events[0].eventId == first.eventId
            && t.events[0].hash == RowHash(env.codec, t.events[0])
            && t.outbox == [] && t.keys.Keys == {first.key} && t.artifacts == map[] && t.blobs == map[]
            && stray in t.runs && sound.runs == map[runId := RunRow(taskId, "queued", "[]", 1)]
            && ReplayRuns(env, workspace, t.events) == Ok(sound.runs)
            && ReferencesHold(t) && LogIntact(env, Apply(env, workspace, t, c).0)
  {
    var sound := OneRun(env, workspace, first, runId, taskId);
    var t := Strayed(sound, stray);
    OneRunIs(env, workspace, first, runId, taskId);
    NewRowIs(env, [], first, RUN_QUEUED, QueuedPayload(runId, taskId));
    StrayedRefers(sound, stray);
    assert LogIntact(env, t) by { hide ChainOk, DistinctEvents, KeysKnown, OneRun; }
    StepKeepsLog(env, workspace, t, c);
    hide RowHash, QueuedPayload, OneRun, ReplayRuns, ReplayOutbox, Apply, LogIntact, ReferencesHold;
  }

  /**
   * Recovery does not repair every divergent projection of a sound log: once an
   * artifact is committed for the stray row, every reference of the tables
   * holds and the log verifies and replays, but the row cannot be deleted.
   */
  lemma StrayRowWithArtifactIsNotRepaired(
    env: Env, workspace: string, first: Meta, runId: string, taskId: string, stray: string, c: Command)
    returns (x: Bytes, y: Bytes)
    requires Faithful(env) && InjectiveText(env.codec) && runId != "" && taskId != "" && stray != runId
    requires c.CommitArtifact? && c.runId == stray && c.mediaType != "" && c.classification != ""
             && c.blob.byteLength < I64_LIMIT
    requires Deliverable(first, workspace) && Deliverable(c.meta, workspace)
    requires first.eventId != c.meta.eventId && first.key != c.meta.key
    requires var t := OneRun(env, workspace, first, runId, taskId);
             RowsFit(env.codec, t.events)
                 && RowFits(env.codec, NewRow(env, t.events, c.meta, ARTIFACT_COMMITTED, ArtifactPayload(c)))
    ensures var t := Strayed(OneRun(env, workspace, first, runId, taskId), stray);
            || (&& ReferencesHold(t) && Commits(env, workspace, t, c)
                && HeldBack(env, workspace, Apply(env, workspace, t, c).0,
                   map[runId := RunRow(taskId, "queued", "[]", 1)]))
            || (x != y && env.codec.sha(x) == env.codec.sha(y))
  {
    hide OneRun, NewRow, RowHash, RowFits, Append, Apply, Commits, ReplayRuns, ArtifactPayload, Faithful, InjectiveText;
    hide ReferencesHold, HeldBack, LogIntact;
    var sound := OneRun(env, workspace, first, runId, taskId);
    var t, payload := Strayed(sound, stray), ArtifactPayload(c);
    var row := NewRow(env, t.events, c.meta, ARTIFACT_COMMITTED, payload);
    StrayFacts(env, workspace, first, runId, taskId, stray, c);
    NewRowIs(env, t.events, c.meta, ARTIFACT_COMMITTED, payload);
    assert c.meta.occurredAt < I64_LIMIT && row.workspace == workspace && RowFits(env.codec, t.events[0]);
    hide *;
    assert t.events == [t.events[0]];
    x, y := SecondAppends(env, t.events[0], c.meta, ARTIFACT_COMMITTED, payload);
    if Append(env, t.events, c.meta, ARTIFACT_COMMITTED, payload) == Ok(t.events + [row]) {
      StrayTakesArtifact(env, workspace, t, c, row);
      StrayReplays(env, workspace, t, row, payload);
      ArtifactHoldsBack(env, workspace, t, Apply(env, workspace, t, c).0, c.artifactId, stray, row, sound.runs);
    }
  }
}
