/**
 * The store itself: every command is one transaction over the tables, written
 * step by step and rolled back on the first failure, plus replay, projection
 * repair and crash recovery.
 */
module EventStore {
  import opened Outcomes
  import opened JsonValue
  import opened HashChain
  import opened EventLog
  import opened EventLogProofs

  datatype PendingEffect = PendingEffect(intentId: string, effectKind: string, payload: Json)

  datatype RecoveryReport = RecoveryReport(projectionRepaired: bool, pendingEffects: seq<PendingEffect>)

  /** The pending rows with their request payloads decoded, in insertion order. */
  function PendingEffects(env: Env, outbox: seq<OutboxRow>): Result<seq<PendingEffect>, StoreError> {
    if outbox == [] then Ok([])
    else
      match PendingEffects(env, outbox[..|outbox| - 1])
      case Err(e) => Err(e)
      case Ok(init) =>
        var last := outbox[|outbox| - 1];
        if last.state != "pending" then Ok(init)
        else
          match env.parse(last.payloadJson)
          case None => Err(JsonError)
          case Some(payload) => Ok(init + [PendingEffect(last.intentId, last.effectKind, payload)])
  }

  /** An artifact that references a run row the rebuilt projection does not have. */
  predicate HoldsBack(t: Tables, expected: Runs) {
    exists a :: a in t.artifacts && t.artifacts[a].runId in t.runs && t.artifacts[a].runId !in expected
  }

  function Report(env: Env, repaired: bool, outbox: seq<OutboxRow>): Result<RecoveryReport, StoreError> {
    match PendingEffects(env, outbox)
    case Err(e) => Err(e)
    case Ok(pending) => Ok(RecoveryReport(repaired, pending))
  }

  class Store {
    const env: Env
    const workspace: string
    var events: seq<Row>
    var runs: Runs
    var outbox: seq<OutboxRow>
    var keys: map<string, KeyRow>
    var artifacts: map<string, ArtifactRow>
    var blobs: map<string, BlobRow>

    function Snapshot(): Tables
      reads this
    {
      Tables(events, runs, outbox, keys, artifacts, blobs)
    }

    constructor (env: Env, workspace: string)
      ensures this.env == env && this.workspace == workspace && Snapshot() == EMPTY_TABLES
    {
      this.env, this.workspace := env, workspace;
      events, runs, outbox, keys, artifacts, blobs := [], map[], [], map[], map[], map[];
    }

    /** What dropping an open transaction does. */
    method Rollback(saved: Tables)
      modifies this
      ensures Snapshot() == saved
    {
      events, runs, outbox := saved.events, saved.runs, saved.outbox;
      keys, artifacts, blobs := saved.keys, saved.artifacts, saved.blobs;
    }

    method Replay(key: string, requestHash: Bytes) returns (answer: Option<Answer>)
      ensures answer == if key !in keys then None
                        else if keys[key].requestHash == requestHash then Some(Ok(Replayed(keys[key].eventId)))
                        else Some(Err(IdempotencyConflict))
    {
      if key !in keys {
        return None;
      }
      var known := keys[key];
      if known.requestHash == requestHash {
        return Some(Ok(Replayed(known.eventId)));
      }
      return Some(Err(IdempotencyConflict));
    }

    method AppendEvent(meta: Meta, eventType: string, payload: Json) returns (r: Result<nat, StoreError>)
      modifies this`events
      ensures match Append(env, old(events), meta, eventType, payload)
              case Ok(appended) => events == appended && r == Ok(|appended|)
              case Err(e) => r == Err(e) && events == old(events)
    {
      hide RowHash, Tail;
      var row := NewRow(env, events, meta, eventType, payload);
      if meta.occurredAt >= I64_LIMIT {
        return Err(InvalidTransition);
      }
      if Collides(events, row) {
        return Err(Database);
      }
      events := events + [row];
      return Ok(|events|);
    }

    /** Inserts the key row; the primary key refuses a second one. */
    method RecordIdempotency(meta: Meta, requestHash: Bytes) returns (stored: bool)
      modifies this`keys
      ensures stored == (meta.key !in old(keys))
      ensures keys == if stored then old(keys)[meta.key := KeyRow(requestHash, meta.eventId)] else old(keys)
    {
      if meta.key in keys {
        return false;
      }
      keys := keys[meta.key := KeyRow(requestHash, meta.eventId)];
      return true;
    }

    method CreateRun(meta: Meta, runId: string, taskId: string) returns (answer: Answer)
      modifies this
      ensures (Snapshot(), answer) == Apply(env, workspace, old(Snapshot()), Command.CreateRun(meta, runId, taskId))
    {
      hide Append, RequestHash, QueuedPayload;
      if meta.workspace != workspace {
        return Err(WorkspaceMismatch);
      }
      var requestHash := RequestHash(env, Command.CreateRun(meta, runId, taskId));
      var known := Replay(meta.key, requestHash);
      if known.Some? {
        return known.value;
      }
      var saved := Snapshot();
      var sequence := AppendEvent(meta, RUN_QUEUED, QueuedPayload(runId, taskId));
      if sequence.Err? {
        Rollback(saved);
        return Err(sequence.error);
      }
      if runId in runs {
        Rollback(saved);
        return Err(Database);
      }
      runs := runs[runId := RunRow(taskId, "queued", "[]", sequence.value)];
      var stored := RecordIdempotency(meta, requestHash);
      assert stored;
      return Ok(Committed(meta.eventId));
    }

    method TransitionRun(meta: Meta, runId: string, target: RunState, evidence: seq<string>) returns (answer: Answer)
      modifies this
      ensures (Snapshot(), answer)
              == Apply(env, workspace, old(Snapshot()), Command.TransitionRun(meta, runId, target, evidence))
    {
      hide Append, RequestHash, ChangedPayload, EvidenceArray, ParseState, StateName, ValidTransition;
      if meta.workspace != workspace {
        return Err(WorkspaceMismatch);
      }
      var evidenceJson := env.render(EvidenceArray(evidence));
      var requestHash := RequestHash(env, Command.TransitionRun(meta, runId, target, evidence));
      var known := Replay(meta.key, requestHash);
      if known.Some? {
        return known.value;
      }
      if runId !in runs {
        return Err(Database);
      }
      var current := ParseState(runs[runId].state);
      if current.None? {
        return Err(InvalidPersistedState);
      }
      if !ValidTransition(current.value, target) {
        return Err(InvalidTransition);
      }
      if target.Succeeded? && evidence == [] {
        return Err(AcceptanceEvidenceRequired);
      }
      var saved := Snapshot();
      var sequence := AppendEvent(meta, RUN_STATE_CHANGED,
          ChangedPayload(runId, runs[runId].state, StateName(target), evidence));
      if sequence.Err? {
        Rollback(saved);
        return Err(sequence.error);
      }
      runs := runs[runId := RunRow(runs[runId].taskId, StateName(target), evidenceJson, sequence.value)];
      var stored := RecordIdempotency(meta, requestHash);
      assert stored;
      return Ok(Committed(meta.eventId));
    }

    method CommitArtifact(meta: Meta, artifactId: string, runId: string, mediaType: string, classification: string,
        blob: Blob)
      returns (answer: Answer)
      modifies this
      ensures (Snapshot(), answer)
           == Apply(env, workspace, old(Snapshot()),
              Command.CommitArtifact(meta, artifactId, runId, mediaType, classification, blob))
    {
      hide Append, RequestHash, ArtifactPayload;
      var command := Command.CommitArtifact(meta, artifactId, runId, mediaType, classification, blob);
      if meta.workspace != workspace {
        return Err(WorkspaceMismatch);
      }
      if mediaType == "" || classification == "" {
        return Err(BlobCorrupt);
      }
      var requestHash := RequestHash(env, command);
      var known := Replay(meta.key, requestHash);
      if known.Some? {
        return known.value;
      }
      var saved := Snapshot();
      var sequence := AppendEvent(meta, ARTIFACT_COMMITTED, ArtifactPayload(command));
      if sequence.Err? {
        Rollback(saved);
        return Err(sequence.error);
      }
      if blob.byteLength >= I64_LIMIT {
        Rollback(saved);
        return Err(BlobCorrupt);
      }
      var row := BlobRow(blob.path, blob.byteLength, mediaType, classification, blob.ciphertextHash);
      if blob.contentHash !in blobs {
        blobs := blobs[blob.contentHash := row];
      }
      if blobs[blob.contentHash] != row {
        Rollback(saved);
        return Err(BlobCorrupt);
      }
      if artifactId in artifacts || runId !in runs {
        Rollback(saved);
        return Err(Database);
      }
      artifacts := artifacts[artifactId := ArtifactRow(runId, mediaType, blob.contentHash, classification,
          sequence.value)];
      var stored := RecordIdempotency(meta, requestHash);
      assert stored;
      assert blobs == saved.blobs[blob.contentHash := row];
      return Ok(Committed(meta.eventId));
    }

    method RecordEffectIntent(meta: Meta, intentId: string, effectKind: string, payload: Json) returns (answer: Answer)
      modifies this
      ensures (Snapshot(), answer)
              == Apply(env, workspace, old(Snapshot()), RecordIntent(meta, intentId, effectKind, payload))
    {
      hide Append, RequestHash, IntentPayload, HasIntent;
      if meta.workspace != workspace {
        return Err(WorkspaceMismatch);
      }
      var requestHash := RequestHash(env, RecordIntent(meta, intentId, effectKind, payload));
      var known := Replay(meta.key, requestHash);
      if known.Some? {
        return known.value;
      }
      var saved := Snapshot();
      var sequence := AppendEvent(meta, INTENT_RECORDED, IntentPayload(intentId, effectKind, payload));
      if sequence.Err? {
        Rollback(saved);
        return Err(sequence.error);
      }
      if HasIntent(outbox, intentId) {
        Rollback(saved);
        return Err(Database);
      }
      outbox := outbox + [OutboxRow(intentId, meta.eventId, effectKind, env.render(payload), "pending", None, None)];
      var stored := RecordIdempotency(meta, requestHash);
      assert stored;
      return Ok(Committed(meta.eventId));
    }

    method RecordEffectResult(meta: Meta, intentId: string, result: Json, disposition: Disposition)
        returns (answer: Answer)
      modifies this
      ensures (Snapshot(), answer)
              == Apply(env, workspace, old(Snapshot()), RecordResult(meta, intentId, result, disposition))
    {
      hide Append, RequestHash, ResultPayload, PendingAt;
      if meta.workspace != workspace {
        return Err(WorkspaceMismatch);
      }
      var requestHash := RequestHash(env, RecordResult(meta, intentId, result, disposition));
      var known := Replay(meta.key, requestHash);
      if known.Some? {
        return known.value;
      }
      var saved := Snapshot();
      var sequence := AppendEvent(meta, RESULT_RECORDED, ResultPayload(intentId, DispositionName(disposition), result));
      if sequence.Err? {
        Rollback(saved);
        return Err(sequence.error);
      }
      var at := PendingAt(outbox, intentId);
      if at.None? {
        Rollback(saved);
        return Err(OutboxStateConflict);
      }
      outbox := outbox[at.value := Resolve(outbox[at.value], DispositionName(disposition), meta.eventId,
          env.render(result))];
      var stored := RecordIdempotency(meta, requestHash);
      assert stored;
      return Ok(Committed(meta.eventId));
    }

    method AppendCoreEvent(meta: Meta, eventType: string, payload: Json) returns (answer: Answer)
      modifies this
      ensures (Snapshot(), answer) == Apply(env, workspace, old(Snapshot()), AppendCore(meta, eventType, payload))
    {
      hide Append, RequestHash;
      if meta.workspace != workspace {
        return Err(WorkspaceMismatch);
      }
      var requestHash := RequestHash(env, AppendCore(meta, eventType, payload));
      var known := Replay(meta.key, requestHash);
      if known.Some? {
        return known.value;
      }
      var saved := Snapshot();
      var sequence := AppendEvent(meta, eventType, payload);
      if sequence.Err? {
        Rollback(saved);
        return Err(sequence.error);
      }
      var stored := RecordIdempotency(meta, requestHash);
      assert stored;
      return Ok(Committed(meta.eventId));
    }

    // ---------- recovery ----------

    method ReplayedRuns() returns (r: Result<Runs, StoreError>)
      ensures r == ReplayRuns(env, workspace, events)
    {
      hide StepRuns;
      var projections: Runs, i := map[], 0;
      while i < |events|
        invariant 0 <= i <= |events|
        invariant ReplayRuns(env, workspace, events[..i]) == Ok(projections)
      {
        assert events[..i + 1][..i] == events[..i];
        var step := StepRuns(env, workspace, projections, events[i], i + 1);
        if step.Err? {
          ReplayErrorLasts(env, workspace, events, i + 1);
          return step;
        }
        projections := step.value;
        i := i + 1;
      }
      assert events[..i] == events;
      return Ok(projections);
    }

    method VerifyRunProjection() returns (r: Result<(), StoreError>)
      ensures r == match ReplayRuns(env, workspace, events) {
                     case Err(e) => Err(e)
                     case Ok(expected) => if expected == runs then Ok(()) else Err(ProjectionMismatch)
                   }
    {
      var expected := ReplayedRuns();
      if expected.Err? {
        return Err(expected.error);
      }
      return if expected.value == runs then Ok(()) else Err(ProjectionMismatch);
    }

    /** Replaces the projection by the replay, unless the log is broken or an artifact holds a row back. */
    method RebuildRunProjection() returns (r: Result<(), StoreError>)
      modifies this`runs
      ensures !ChainOk(env.codec, events) ==> r == Err(HashChainBroken)
      ensures ChainOk(env.codec, events) && ReplayRuns(env, workspace, events).Err?
              ==> r == Err(ReplayRuns(env, workspace, events).error)
      ensures ChainOk(env.codec, events) && ReplayRuns(env, workspace, events).Ok?
              ==> r == if HoldsBack(old(Snapshot()), ReplayRuns(env, workspace, events).value) then Err(Database)
                  else Ok(())
      ensures runs == if r.Ok? then ReplayRuns(env, workspace, events).value else old(runs)
    {
      hide ChainOk, ReplayRuns;
      var verified := VerifyHashChain(env.codec, events);
      if !verified {
        return Err(HashChainBroken);
      }
      var expected := ReplayedRuns();
      if expected.Err? {
        return Err(expected.error);
      }
      var rebuilt: Runs, rest := map[], expected.value;
      while rest != map[]
        invariant rest.Keys !! rebuilt.Keys
        invariant rebuilt + rest == expected.value
        decreases rest.Keys
      {
        var id :| id in rest;
        rebuilt, rest := rebuilt[id := rest[id]], rest - {id};
      }
      assert rebuilt == expected.value;
      if exists a :: a in artifacts && artifacts[a].runId in runs && artifacts[a].runId !in rebuilt {
        return Err(Database);
      }
      runs := map id | id in runs && id in rebuilt :: runs[id];
      runs := runs + rebuilt;
      assert runs == rebuilt;
      return Ok(());
    }

    /**
     * Crash recovery. The log and every other table stay as they are; a broken
     * or poisoned log is reported and leaves the projection alone; otherwise
     * the projection ends up equal to the replay and a repair is reported
     * exactly when it differed, unless an artifact holds a stray row back.
     */
    method Recover() returns (r: Result<RecoveryReport, StoreError>)
      modifies this`runs
      ensures !ChainOk(env.codec, events) ==> r == Err(HashChainBroken) && runs == old(runs)
      ensures ChainOk(env.codec, events) && ReplayRuns(env, workspace, events).Err?
              ==> r == Err(ReplayRuns(env, workspace, events).error) && runs == old(runs)
      ensures ChainOk(env.codec, events) && ReplayRuns(env, workspace, events).Ok?
              ==> var expected := ReplayRuns(env, workspace, events).value;
                  if old(runs) == expected then runs == old(runs) && r == Report(env, false, outbox)
                  else if HoldsBack(old(Snapshot()), expected) then runs == old(runs) && r == Err(Database)
                  else runs == expected && r == Report(env, true, outbox)
    {
      hide ChainOk, ReplayRuns, PendingEffects, HoldsBack;
      var verified := VerifyHashChain(env.codec, events);
      if !verified {
        return Err(HashChainBroken);
      }
      var checked := VerifyRunProjection();
      if checked.Err? && checked.error != ProjectionMismatch {
        return Err(checked.error);
      }
      var repaired := checked.Err?;
      if repaired {
        var rebuilt := RebuildRunProjection();
        if rebuilt.Err? {
          return Err(rebuilt.error);
        }
        checked := VerifyRunProjection();
        assert checked.Ok?;
      }
      var pending := PendingEffects(env, outbox);
      return if pending.Err? then Err(pending.error) else Ok(RecoveryReport(repaired, pending.value));
    }
  }

  lemma {:induction false} ReplayErrorLasts(env: Env, workspace: string, events: seq<Row>, n: nat)
    requires n <= |events| && ReplayRuns(env, workspace, events[..n]).Err?
    ensures ReplayRuns(env, workspace, events) == ReplayRuns(env, workspace, events[..n])
  {
    hide StepRuns;
    if n == |events| {
      assert events[..n] == events;
    } else {
      assert events[..|events| - 1][..n] == events[..n];
      ReplayErrorLasts(env, workspace, events[..|events| - 1], n);
    }
  }

  // ---------- recovery over runs ----------

  /** The payload of every replayed outbox row decodes to the request recorded with its intent. */
  predicate Decodable(env: Env, outbox: seq<OutboxRow>) {
    forall i | 0 <= i < |outbox| :: env.parse(outbox[i].payloadJson).Some?
  }

  lemma {:induction false} ReplayedOutboxDecodes(env: Env, events: seq<Row>)
    requires Faithful(env) && ReplayOutbox(env, events).Some?
    ensures Decodable(env, ReplayOutbox(env, events).value)
  {
    hide HasIntent, PendingAt;
    if events == [] {
    } else {
      ReplayedOutboxDecodes(env, events[..|events| - 1]);
    }
  }

  /** The effect of a pending row: its intent, kind and request. */
  predicate Describes(env: Env, effect: PendingEffect, row: OutboxRow) {
    && effect.intentId == row.intentId && effect.effectKind == row.effectKind
    && env.parse(row.payloadJson) == Some(effect.payload)
  }

  lemma {:induction false} DecodableReports(env: Env, outbox: seq<OutboxRow>)
    requires Decodable(env, outbox)
    ensures PendingEffects(env, outbox).Ok?
    ensures |PendingEffects(env, outbox).value| == |PendingRows(outbox)|
    ensures forall i | 0 <= i < |PendingRows(outbox)| ::
              Describes(env, PendingEffects(env, outbox).value[i], PendingRows(outbox)[i])
    ensures forall row | row in PendingRows(outbox) :: row in outbox && row.state == "pending"
  {
    if outbox == [] {
    } else {
      DecodableReports(env, outbox[..|outbox| - 1]);
    }
  }

  /** The report names exactly the unanswered intents of the log, in order, each as its pending row has it. */
  ghost predicate ReportsUnanswered(env: Env, t: Tables, repaired: bool) {
    && Report(env, repaired, t.outbox).Ok?
    && var report := Report(env, repaired, t.outbox).value;
       var unanswered := Unanswered(env, t.events, Intents(env, t.events));
       && report.projectionRepaired == repaired
       && |report.pendingEffects| == |unanswered|
       && forall i | 0 <= i < |unanswered| :: 
            && report.pendingEffects[i].intentId == unanswered[i]
            && exists row :: row in t.outbox && row.state == "pending" && Describes(env, report.pendingEffects[i], row)
  }

  lemma ConsistentReports(env: Env, workspace: string, t: Tables, repaired: bool)
    requires Faithful(env) && ProjectionsHold(env, workspace, t)
    ensures ReportsUnanswered(env, t, repaired)
  {
    ReplayedOutboxDecodes(env, t.events);
    DecodableReports(env, t.outbox);
    PendingIsUnansweredIntents(env, workspace, t);
    hide PendingEffects, PendingRows, Unanswered, Intents, ProjectionsHold, Faithful, Decodable;
    var ids, rows := Ids(PendingRows(t.outbox)), PendingRows(t.outbox);
    var report := Report(env, repaired, t.outbox).value;
    forall i | 0 <= i < |ids|
      ensures ids[i] == rows[i].intentId && rows[i] in t.outbox && rows[i].state == "pending"
              && Describes(env, report.pendingEffects[i], rows[i])
    {
      assert rows[i] in rows;
    }
  }

  /**
   * After any run of well-formed commands from an empty store, recovery finds
   * nothing to repair and reports exactly the unanswered intents, in order.
   */
  lemma {:induction false} RecoveryAfterAnyRun(env: Env, workspace: string, cs: seq<Command>)
    requires Faithful(env) && forall i | 0 <= i < |cs| :: WellFormed(cs[i])
    ensures var t := RunAll(env, workspace, EMPTY_TABLES, cs);
            && ChainOk(env.codec, t.events) && ReplayRuns(env, workspace, t.events) == Ok(t.runs)
            && ReportsUnanswered(env, t, false)
  {
    EmptyStoreHolds(env, workspace);
    hide WellFormed, Faithful, ReportsUnanswered, ReplayRuns, RunAll, EMPTY_TABLES;
    var t := RunAll(env, workspace, EMPTY_TABLES, cs);
    RunKeepsProjections(env, workspace, EMPTY_TABLES, cs);
    RunKeepsLog(env, workspace, EMPTY_TABLES, cs);
    ConsistentReports(env, workspace, t, false);
  }
}
