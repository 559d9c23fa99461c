/**
 * What each store command commits, in terms of the stored rows, and how the
 * rows of the runs table move over every history.
 */
module EventLogMeaning {
  import opened EventLog
  import opened EventLogProofs
  import opened HashChain
  import opened JsonValue
  import opened Outcomes

  // ---------- when a command commits ----------

  /** The log can take the event: the time fits 64 bits and no event has its identifier or its hash. */
  predicate Appendable(env: Env, events: seq<Row>, meta: Meta, eventType: string, payload: Json) {
    var row := NewRow(env, events, meta, eventType, payload);
    && meta.occurredAt < 0x8000_0000_0000_0000
    && forall e | e in events :: e.eventId != meta.eventId && e.hash != row.hash
  }

  lemma AppendsIff(env: Env, events: seq<Row>, meta: Meta, eventType: string, payload: Json)
    ensures Appendable(env, events, meta, eventType, payload)
            ==> && Append(env, events, meta, eventType, payload)
                   == Ok(events + [NewRow(env, events, meta, eventType, payload)])
                && IsEvent(env, NewRow(env, events, meta, eventType, payload), meta, eventType, payload)
    ensures !Appendable(env, events, meta, eventType, payload) ==> Append(env, events, meta, eventType, payload).Err?
  {
    hide RowHash;
  }

  lemma AppendedAs(env: Env, events: seq<Row>, meta: Meta, eventType: string, payload: Json)
    ensures Append(env, events, meta, eventType, payload).Ok?
            ==> Append(env, events, meta, eventType, payload).value
                == events + [NewRow(env, events, meta, eventType, payload)]
  {
    hide RowHash;
  }

  /** A delivery of this workspace whose idempotency key is new. */
  predicate NewHere(workspace: string, t: Tables, meta: Meta) {
    meta.workspace == workspace && meta.key !in t.keys
  }

  /** The logged row says who, where, what and when. */
  predicate IsEvent(env: Env, row: Row, meta: Meta, eventType: string, payload: Json) {
    && row.eventId == meta.eventId && row.workspace == meta.workspace && row.occurredAt == meta.occurredAt
    && row.eventType == eventType && row.payloadJson == env.render(payload)
  }

  lemma NewRowIsEvent(env: Env, events: seq<Row>, meta: Meta, eventType: string, payload: Json)
    ensures IsEvent(env, NewRow(env, events, meta, eventType, payload), meta, eventType, payload)
  {
    hide RowHash;
  }

  /** The tables after a commit, outside the command's own rows: one more event, and the key with its event. */
  ghost predicate Logged(env: Env, t: Tables, t': Tables, meta: Meta, eventType: string, payload: Json) {
    && |t'.events| == |t.events| + 1 && t'.events[..|t.events|] == t.events
    && IsEvent(env, t'.events[|t.events|], meta, eventType, payload)
    && t'.keys.Keys == t.keys.Keys + {meta.key} && t'.keys[meta.key].eventId == meta.eventId
    && forall k | k in t.keys :: t'.keys[k] == t.keys[k]
  }

  lemma CommitsFresh(env: Env, workspace: string, t: Tables, c: Command)
    requires Commits(env, workspace, t, c)
    ensures Fresh(env, t, c).Ok? && c.meta.key !in t.keys
    ensures var next := Fresh(env, t, c).value;
            Apply(env, workspace, t, c).0
            == next.(keys := next.keys[c.meta.key := KeyRow(RequestHash(env, c), c.meta.eventId)])
  {
    hide Fresh, RequestHash;
  }

  lemma FreshLogs(env: Env, t: Tables, next: Tables, meta: Meta, eventType: string, payload: Json, hash: Bytes)
    requires next.events == t.events + [NewRow(env, t.events, meta, eventType, payload)]
    requires next.keys == t.keys && meta.key !in t.keys
    ensures Logged(env, t, next.(keys := next.keys[meta.key := KeyRow(hash, meta.eventId)]), meta, eventType, payload)
  {
    NewRowIsEvent(env, t.events, meta, eventType, payload);
    hide NewRow, IsEvent;
  }

  lemma RunCreatedIff(env: Env, workspace: string, t: Tables, meta: Meta, runId: string, taskId: string)
    ensures var c := CreateRun(meta, runId, taskId);
            var t' := Apply(env, workspace, t, c).0;
            var payload := QueuedPayload(runId, taskId);
            && (Commits(env, workspace, t, c)
                <==> NewHere(workspace, t, meta) && Appendable(env, t.events, meta, "run.queued", payload)
                     && runId !in t.runs)
            && (Commits(env, workspace, t, c) ==>
                  && Logged(env, t, t', meta, "run.queued", payload)
                  && t'.runs == t.runs[runId := RunRow(taskId, "queued", "[]", |t.events| + 1)]
                  && t'.outbox == t.outbox && t'.artifacts == t.artifacts && t'.blobs == t.blobs)
  {
    AppendsIff(env, t.events, meta, RUN_QUEUED, QueuedPayload(runId, taskId));
    hide Appendable, Append, IsEvent, RequestHash, QueuedPayload, NewRow;
  }

  /** The nine moves of a run: the stored name it moves from, the target, and the stored name it moves to. */
  predicate Move(from: string, target: RunState, to: string) {
    || (from == "queued" && ((target.Running? && to == "running") || (target.Cancelled? && to == "cancelled")))
    || (from == "running" && ((target.Blocked? && to == "blocked") || (target.Succeeded? && to == "succeeded")))
    || (from == "running" && ((target.Failed? && to == "failed") || (target.Cancelled? && to == "cancelled")))
    || (from == "blocked" && ((target.Running? && to == "running") || (target.Failed? && to == "failed")))
    || (from == "blocked" && target.Cancelled? && to == "cancelled")
  }

  /** The stored text is a JSON list of exactly these items. */
  ghost predicate ListsEvidence(env: Env, text: string, evidence: seq<string>) {
    exists items :: env.parse(text) == Some(Array(items)) && |items| == |evidence|
                    && forall i | 0 <= i < |items| :: items[i] == Str(evidence[i])
  }

  lemma EvidenceIsListed(env: Env, evidence: seq<string>)
    requires Faithful(env)
    ensures ListsEvidence(env, env.render(EvidenceArray(evidence)), evidence)
  {
    assert env.parse(env.render(EvidenceArray(evidence))) == Some(EvidenceArray(evidence));
  }

  lemma MovesAreTransitions(from: string, target: RunState)
    ensures ParseState(from).Some? && ValidTransition(ParseState(from).value, target)
            <==> Move(from, target, StateName(target))
    ensures forall to :: Move(from, target, to) ==> to == StateName(target)
  {
    hide *;
    SpelledFrom(from);
    SpelledTo(target);
    MoveCases(from, target);
  }

  lemma SpelledFrom(from: string)
    ensures ParseState(from) == Some(Queued) <==> from == "queued"
    ensures ParseState(from) == Some(Running) <==> from == "running"
    ensures ParseState(from) == Some(Blocked) <==> from == "blocked"
  {
    assert "queued"[0] == 'q' && "running"[0] == 'r' && "blocked"[0] == 'b';
  }

  lemma SpelledTo(target: RunState)
    ensures target.Running? ==> StateName(target) == "running"
    ensures target.Blocked? ==> StateName(target) == "blocked"
    ensures target.Succeeded? ==> StateName(target) == "succeeded"
    ensures target.Failed? ==> StateName(target) == "failed"
    ensures target.Cancelled? ==> StateName(target) == "cancelled"
  {
  }

  lemma MoveCases(from: string, target: RunState)
    requires ParseState(from) == Some(Queued) <==> from == "queued"
    requires ParseState(from) == Some(Running) <==> from == "running"
    requires ParseState(from) == Some(Blocked) <==> from == "blocked"
    requires target.Running? ==> StateName(target) == "running"
    requires target.Blocked? ==> StateName(target) == "blocked"
    requires target.Succeeded? ==> StateName(target) == "succeeded"
    requires target.Failed? ==> StateName(target) == "failed"
    requires target.Cancelled? ==> StateName(target) == "cancelled"
    ensures ParseState(from).Some? && ValidTransition(ParseState(from).value, target)
            <==> Move(from, target, StateName(target))
    ensures forall to :: Move(from, target, to) ==> to == StateName(target)
  {
    hide ParseState, StateName;
  }

  /**
   * A transition commits exactly when the stored state and the target are one
   * of the nine moves, success brings evidence, and the event can be logged;
   * the row then has the new state and evidence, and no other row changes.
   */
  lemma RunMovedIff(env: Env, workspace: string, t: Tables, meta: Meta, runId: string, target: RunState,
      evidence: seq<string>)
    requires Faithful(env)
    ensures var c := TransitionRun(meta, runId, target, evidence);
            var t' := Apply(env, workspace, t, c).0;
            && (Commits(env, workspace, t, c)
                <==> && NewHere(workspace, t, meta) && runId in t.runs
                     && (target.Succeeded? ==> evidence != [])
                     && exists to ::
                          && Move(t.runs[runId].state, target, to)
                          && Appendable(env, t.events, meta, "run.state_changed",
                                        ChangedPayload(runId, t.runs[runId].state, to, evidence)))
            && (Commits(env, workspace, t, c) ==>
                  exists to ::
                    && Move(t.runs[runId].state, target, to)
                    && Logged(env, t, t', meta, "run.state_changed",
                       ChangedPayload(runId, t.runs[runId].state, to, evidence))
                    && t'.runs.Keys == t.runs.Keys && t'.runs[runId].taskId == t.runs[runId].taskId
                    && t'.runs[runId].state == to && t'.runs[runId].updatedSequence == |t.events| + 1
                    && ListsEvidence(env, t'.runs[runId].evidenceJson, evidence)
                    && (forall r | r in t.runs && r != runId :: t'.runs[r] == t.runs[r])
                    && t'.outbox == t.outbox && t'.artifacts == t.artifacts && t'.blobs == t.blobs)
  {
    hide Appendable, Append, IsEvent, RequestHash, ChangedPayload, NewRow, Move, ParseState, ValidTransition,
        StateName, ListsEvidence;
    hide EvidenceArray, Faithful;
    EvidenceIsListed(env, evidence);
    if runId in t.runs {
      var from, to := t.runs[runId].state, StateName(target);
      MovesAreTransitions(from, target);
      AppendsIff(env, t.events, meta, RUN_STATE_CHANGED, ChangedPayload(runId, from, to, evidence));
    }
  }

  /** Why a delivery with a new key is refused, in the order the checks are made. */
  lemma TransitionRefusals(env: Env, workspace: string, t: Tables, meta: Meta, runId: string, target: RunState,
      evidence: seq<string>)
    requires !Commits(env, workspace, t, TransitionRun(meta, runId, target, evidence)) && meta.key !in t.keys
    ensures var answer := Apply(env, workspace, t, TransitionRun(meta, runId, target, evidence)).1;
            if meta.workspace != workspace then answer == Err(WorkspaceMismatch)
            else if runId !in t.runs then answer == Err(Database)
            else if !Terminal(t.runs[runId]) && t.runs[runId].state !in {"queued", "running", "blocked"} then
              answer == Err(InvalidPersistedState)
            else if forall to :: !Move(t.runs[runId].state, target, to) then answer == Err(InvalidTransition)
            else if target.Succeeded? && evidence == [] then answer == Err(AcceptanceEvidenceRequired)
            else if meta.occurredAt >= 0x8000_0000_0000_0000 then answer == Err(InvalidTransition)
            else answer == Err(Database)
  {
    hide Appendable, IsEvent, RequestHash, ChangedPayload, NewRow, Move, ValidTransition, StateName, Collides,
        EvidenceArray;
    if runId in t.runs {
      ParsesKnown(t.runs[runId].state);
      MovesAreTransitions(t.runs[runId].state, target);
    }
    hide ParseState, Terminal;
  }

  lemma ParsesKnown(name: string)
    ensures ParseState(name).Some? <==>
            name in {"queued", "running", "blocked", "succeeded", "failed", "cancelled"}
  {
  }

  /** A delivery of another workspace is refused, and a remembered key is answered from memory, whatever the command. */
  lemma DeliveryAnswers(env: Env, workspace: string, t: Tables, c: Command)
    ensures c.meta.workspace != workspace ==> Apply(env, workspace, t, c) == (t, Err(WorkspaceMismatch))
    ensures c.meta.workspace == workspace && c.meta.key in t.keys
            && (c.CommitArtifact? ==> c.mediaType != "" && c.classification != "")
            ==> Apply(env, workspace, t, c)
                == (t, if t.keys[c.meta.key].requestHash == RequestHash(env, c)
                   then Ok(Replayed(t.keys[c.meta.key].eventId))
                       else Err(IdempotencyConflict))
  {
    hide Fresh, RequestHash;
  }

  /** The event cannot be logged: a time beyond 64 bits, or an identifier or hash the log has. */
  function LogError(meta: Meta): Answer {
    if meta.occurredAt >= 0x8000_0000_0000_0000 then Err(InvalidTransition) else Err(Database)
  }

  lemma AppendErrors(env: Env, events: seq<Row>, meta: Meta, eventType: string, payload: Json)
    requires !Appendable(env, events, meta, eventType, payload)
    ensures Append(env, events, meta, eventType, payload)
            == if meta.occurredAt >= 0x8000_0000_0000_0000 then Err(InvalidTransition) else Err(Database)
  {
    hide RowHash;
  }

  /** Why a new result is refused: its event cannot be logged, or no such intent is pending. */
  lemma ResultRefusals(env: Env, workspace: string, t: Tables, meta: Meta, intentId: string, result: Json,
      d: Disposition)
    requires NewHere(workspace, t, meta) && !Commits(env, workspace, t, RecordResult(meta, intentId, result, d))
    ensures var recorded := ResultPayload(intentId, DispositionName(d), result);
            Apply(env, workspace, t, RecordResult(meta, intentId, result, d)).1
            == if Appendable(env, t.events, meta, "tool.result_recorded", recorded) then Err(OutboxStateConflict)
               else LogError(meta)
  {
    var recorded := ResultPayload(intentId, DispositionName(d), result);
    AppendsIff(env, t.events, meta, RESULT_RECORDED, recorded);
    if !Appendable(env, t.events, meta, RESULT_RECORDED, recorded) {
      AppendErrors(env, t.events, meta, RESULT_RECORDED, recorded);
    }
    hide Append, Appendable, IsEvent, NewRow, RequestHash, ResultPayload, PendingAt;
  }

  /**
   * Why a new artifact is refused: unlabelled, not loggable, another blob
   * under its hash, or dangling or taken names.
   */
  lemma ArtifactRefusals(env: Env, workspace: string, t: Tables, c: Command)
    requires c.CommitArtifact? && NewHere(workspace, t, c.meta) && !Commits(env, workspace, t, c)
    ensures var row := BlobRow(c.blob.path, c.blob.byteLength, c.mediaType, c.classification, c.blob.ciphertextHash);
            Apply(env, workspace, t, c).1
            == if c.mediaType == "" || c.classification == "" then Err(BlobCorrupt)
               else if !Appendable(env, t.events, c.meta, "artifact.committed", ArtifactPayload(c))
                   then LogError(c.meta)
               else if c.blob.byteLength >= 0x8000_0000_0000_0000 then Err(BlobCorrupt)
               else if c.blob.contentHash in t.blobs && t.blobs[c.blob.contentHash] != row then Err(BlobCorrupt)
               else Err(Database)
  {
    AppendsIff(env, t.events, c.meta, ARTIFACT_COMMITTED, ArtifactPayload(c));
    if !Appendable(env, t.events, c.meta, ARTIFACT_COMMITTED, ArtifactPayload(c)) {
      AppendErrors(env, t.events, c.meta, ARTIFACT_COMMITTED, ArtifactPayload(c));
    }
    hide Append, Appendable, IsEvent, NewRow, RequestHash, ArtifactPayload;
  }

  /** Every other new command is refused as its event cannot be logged, or for a run or intent that exists already. */
  lemma OtherRefusals(env: Env, workspace: string, t: Tables, c: Command)
    requires NewHere(workspace, t, c.meta) && !Commits(env, workspace, t, c)
    requires c.CreateRun? || c.RecordIntent? || c.AppendCore?
    ensures Apply(env, workspace, t, c).1 == LogError(c.meta)
  {
    hide NewRow, RequestHash, IntentPayload, QueuedPayload, HasIntent, Collides;
  }

  /** An artifact commits exactly when it is labelled, its event can be logged and its names are new or fit. */
  lemma ArtifactCommittedIff(env: Env, workspace: string, t: Tables, c: Command)
    requires c.CommitArtifact?
    ensures var row := BlobRow(c.blob.path, c.blob.byteLength, c.mediaType, c.classification, c.blob.ciphertextHash);
            Commits(env, workspace, t, c)
            <==> && NewHere(workspace, t, c.meta) && c.mediaType != "" && c.classification != ""
                 && Appendable(env, t.events, c.meta, "artifact.committed", ArtifactPayload(c))
                 && c.blob.byteLength < 0x8000_0000_0000_0000
                 && (c.blob.contentHash in t.blobs ==> t.blobs[c.blob.contentHash] == row)
                 && c.artifactId !in t.artifacts && c.runId in t.runs
  {
    AppendsIff(env, t.events, c.meta, ARTIFACT_COMMITTED, ArtifactPayload(c));
    hide Appendable, Append, IsEvent, RequestHash, ArtifactPayload, NewRow;
  }

  /** A committed artifact is one more row, for the blob written with it. */
  lemma ArtifactEffect(env: Env, workspace: string, t: Tables, c: Command)
    requires c.CommitArtifact? && Commits(env, workspace, t, c)
    ensures var t' := Apply(env, workspace, t, c).0;
            var row := BlobRow(c.blob.path, c.blob.byteLength, c.mediaType, c.classification, c.blob.ciphertextHash);
            && Logged(env, t, t', c.meta, "artifact.committed", ArtifactPayload(c))
            && t'.artifacts
               == t.artifacts[c.artifactId := ArtifactRow(c.runId, c.mediaType, c.blob.contentHash, c.classification,
                                                          |t.events| + 1)]
            && t'.blobs == t.blobs[c.blob.contentHash := row] && t'.runs == t.runs && t'.outbox == t.outbox
  {
    hide Logged, Apply, Commits, Append, Appendable, IsEvent, RequestHash, ArtifactPayload, NewRow;
    CommitsFresh(env, workspace, t, c);
    AppendedAs(env, t.events, c.meta, ARTIFACT_COMMITTED, ArtifactPayload(c));
    FreshLogs(env, t, Fresh(env, t, c).value, c.meta, ARTIFACT_COMMITTED, ArtifactPayload(c), RequestHash(env, c));
  }

  /** The event of an artifact names it, its run, its labels and its content. */
  lemma ArtifactIsDescribed(c: Command)
    requires c.CommitArtifact?
    ensures Get(ArtifactPayload(c), "artifact_id") == Some(Str(c.artifactId))
    ensures Get(ArtifactPayload(c), "run_id") == Some(Str(c.runId))
    ensures Get(ArtifactPayload(c), "media_type") == Some(Str(c.mediaType))
    ensures Get(ArtifactPayload(c), "classification") == Some(Str(c.classification))
    ensures Get(ArtifactPayload(c), "content_hash") == Some(Str(c.blob.contentHash))
    ensures Get(ArtifactPayload(c), "byte_length") == Some(Number(c.blob.byteLength))
  {
    assert "artifact_id"[0] == 'a' && "byte_length"[0] == 'b' && "media_type"[0] == 'm' && "run_id"[0] == 'r';
    assert "classification"[1] == 'l' && "content_hash"[1] == 'o';
  }

  lemma IntentRecordedIff(env: Env, workspace: string, t: Tables, meta: Meta, intentId: string, effectKind: string,
      payload: Json)
    ensures var c := RecordIntent(meta, intentId, effectKind, payload);
            var t' := Apply(env, workspace, t, c).0;
            var recorded := IntentPayload(intentId, effectKind, payload);
            && (Commits(env, workspace, t, c)
                <==> && NewHere(workspace, t, meta)
                     && Appendable(env, t.events, meta, "tool.intent_recorded", recorded)
                     && forall o | o in t.outbox :: o.intentId != intentId)
            && (Commits(env, workspace, t, c) ==>
                  && Logged(env, t, t', meta, "tool.intent_recorded", recorded)
                  && t'.outbox
                     == t.outbox + [OutboxRow(intentId, meta.eventId, effectKind, env.render(payload), "pending", None,
                        None)]
                  && t'.runs == t.runs && t'.artifacts == t.artifacts && t'.blobs == t.blobs)
  {
    AppendsIff(env, t.events, meta, INTENT_RECORDED, IntentPayload(intentId, effectKind, payload));
    hide Appendable, Append, IsEvent, RequestHash, IntentPayload, NewRow;
    assert HasIntent(t.outbox, intentId) <==> exists o :: o in t.outbox && o.intentId == intentId;
  }

  /** The pending row of the intent is resolved as the disposition says, and no other row changes. */
  ghost predicate ResolvedAs(env: Env, outbox: seq<OutboxRow>, outbox': seq<OutboxRow>, at: nat, meta: Meta,
      result: Json, disposition: Disposition)
    requires at < |outbox|
  {
    var before := outbox[at];
    var state := match disposition case Completed => "completed" case Abandoned => "abandoned";
    outbox' == outbox[at := OutboxRow(before.intentId, before.eventId, before.effectKind, before.payloadJson,
                                      state, Some(meta.eventId), Some(env.render(result)))]
  }

  predicate IsPending(outbox: seq<OutboxRow>, at: nat, intentId: string) {
    at < |outbox| && outbox[at].intentId == intentId && outbox[at].state == "pending"
  }

  /** A result commits exactly when its event can be logged and the intent is pending. */
  lemma ResultRecordedIff(env: Env, workspace: string, t: Tables, c: Command)
    requires c.RecordResult?
    ensures var recorded := ResultPayload(c.intentId, DispositionName(c.disposition), c.result);
            Commits(env, workspace, t, c)
            <==> && NewHere(workspace, t, c.meta)
                 && Appendable(env, t.events, c.meta, "tool.result_recorded", recorded)
                 && exists at: nat :: IsPending(t.outbox, at, c.intentId)
  {
    var recorded := ResultPayload(c.intentId, DispositionName(c.disposition), c.result);
    AppendsIff(env, t.events, c.meta, RESULT_RECORDED, recorded);
    hide Appendable, Append, IsEvent, RequestHash, ResultPayload, NewRow, DispositionName;
    var found := PendingAt(t.outbox, c.intentId);
    assert found.Some? ==> IsPending(t.outbox, found.value, c.intentId);
    hide PendingAt;
  }

  /** A committed result resolves one pending row of its intent. */
  lemma ResultEffect(env: Env, workspace: string, t: Tables, c: Command)
    requires c.RecordResult? && Commits(env, workspace, t, c)
    ensures var t' := Apply(env, workspace, t, c).0;
            && Logged(env, t, t', c.meta, "tool.result_recorded",
                      ResultPayload(c.intentId, DispositionName(c.disposition), c.result))
            && (exists at: nat ::
                  IsPending(t.outbox, at, c.intentId)
                  && ResolvedAs(env, t.outbox, t'.outbox, at, c.meta, c.result, c.disposition))
            && t'.runs == t.runs && t'.artifacts == t.artifacts && t'.blobs == t.blobs
  {
    hide Logged, Apply, Commits, Append, Appendable, IsEvent, RequestHash, ResultPayload, NewRow, PendingAt;
    var recorded := ResultPayload(c.intentId, DispositionName(c.disposition), c.result);
    CommitsFresh(env, workspace, t, c);
    AppendedAs(env, t.events, c.meta, RESULT_RECORDED, recorded);
    FreshLogs(env, t, Fresh(env, t, c).value, c.meta, RESULT_RECORDED, recorded, RequestHash(env, c));
    var found := PendingAt(t.outbox, c.intentId);
    assert IsPending(t.outbox, found.value, c.intentId)
        && ResolvedAs(env, t.outbox, Fresh(env, t, c).value.outbox, found.value, c.meta, c.result, c.disposition);
  }

  lemma CoreAppendedIff(env: Env, workspace: string, t: Tables, meta: Meta, eventType: string, payload: Json)
    ensures var c := AppendCore(meta, eventType, payload);
            var t' := Apply(env, workspace, t, c).0;
            && (Commits(env, workspace, t, c)
                <==> NewHere(workspace, t, meta) && Appendable(env, t.events, meta, eventType, payload))
            && (Commits(env, workspace, t, c) ==>
                  && Logged(env, t, t', meta, eventType, payload)
                  && t'.runs == t.runs && t'.outbox == t.outbox && t'.artifacts == t.artifacts && t'.blobs == t.blobs)
  {
    AppendsIff(env, t.events, meta, eventType, payload);
    hide Appendable, Append, IsEvent, RequestHash, NewRow;
  }

  // ---------- how runs move ----------

  /**
   * What one step may do to a row: nothing, or one of the nine moves;
   * `succeeded` only from `running`, with evidence.
   */
  ghost predicate RowMoves(env: Env, before: RunRow, after: RunRow) {
    || after == before
    || ((exists target :: Move(before.state, target, after.state)) && after.taskId == before.taskId
        && (after.state == "succeeded" ==>
              before.state == "running" && exists evidence ::
                  evidence != [] && ListsEvidence(env, after.evidenceJson, evidence)))
  }

  /** No row goes away, every row moves legally, and a new row starts queued. */
  ghost predicate RunsMove(env: Env, before: Runs, after: Runs) {
    && (forall r | r in before :: r in after && RowMoves(env, before[r], after[r]))
    && (forall r | r in after && r !in before :: after[r].state == "queued")
  }

  lemma SucceedsFromRunning(from: string, target: RunState)
    ensures Move(from, target, "succeeded") ==> from == "running" && target.Succeeded?
  {
    assert "succeeded"[0] == 's' && "cancelled"[0] == 'c';
  }

  lemma TerminalsDoNotMove(from: string, target: RunState, to: string)
    requires from == "succeeded" || from == "failed" || from == "cancelled"
    ensures !Move(from, target, to)
  {
    assert "succeeded"[0] == 's' && "failed"[0] == 'f' && "cancelled"[0] == 'c';
    assert "queued"[0] == 'q' && "running"[0] == 'r' && "blocked"[0] == 'b';
  }

  lemma TransitionMoves(env: Env, workspace: string, t: Tables, c: Command)
    requires Faithful(env) && c.TransitionRun? && Commits(env, workspace, t, c)
    ensures RunsMove(env, t.runs, Apply(env, workspace, t, c).0.runs)
  {
    hide Apply, Commits, Move, Appendable, Logged, ListsEvidence, Faithful, ChangedPayload;
    RunMovedIff(env, workspace, t, c.meta, c.runId, c.target, c.evidence);
    var after := Apply(env, workspace, t, c).0.runs;
    SucceedsFromRunning(t.runs[c.runId].state, c.target);
    assert RowMoves(env, t.runs[c.runId], after[c.runId]);
    forall row ensures RowMoves(env, row, row) {
    }
    hide RowMoves;
  }

  lemma OtherCommandsMove(env: Env, workspace: string, t: Tables, c: Command)
    requires !c.TransitionRun? && Commits(env, workspace, t, c)
    ensures RunsMove(env, t.runs, Apply(env, workspace, t, c).0.runs)
  {
    hide Apply, Commits, Appendable, Logged, Move, ListsEvidence, ResolvedAs, NewHere, IsPending;
    hide QueuedPayload, ArtifactPayload, IntentPayload, ResultPayload;
    match c
    case CreateRun(meta, runId, taskId) => RunCreatedIff(env, workspace, t, meta, runId, taskId);
    case CommitArtifact(_, _, _, _, _, _) => ArtifactEffect(env, workspace, t, c);
    case RecordIntent(meta, intentId, kind, payload) => IntentRecordedIff(env, workspace, t, meta, intentId, kind,
        payload);
    case RecordResult(_, _, _, _) => ResultEffect(env, workspace, t, c);
    case AppendCore(meta, eventType, payload) => CoreAppendedIff(env, workspace, t, meta, eventType, payload);
  }

  lemma StepMoves(env: Env, workspace: string, t: Tables, c: Command)
    requires Faithful(env)
    ensures RunsMove(env, t.runs, Apply(env, workspace, t, c).0.runs)
  {
    hide Apply, Commits, Move, ListsEvidence, Faithful;
    OnlyCommitsChange(env, workspace, t, c);
    if Commits(env, workspace, t, c) {
      if c.TransitionRun? {
        TransitionMoves(env, workspace, t, c);
      } else {
        OtherCommandsMove(env, workspace, t, c);
      }
    }
  }

  /** Over every history, whatever is refused or repeated in it, rows only move along the nine moves. */
  lemma {:induction false} EveryHistoryMoves(env: Env, workspace: string, t: Tables, cs: seq<Command>, n: nat)
    requires Faithful(env) && n < |cs|
    ensures RunsMove(env, RunAll(env, workspace, t, cs[..n]).runs, RunAll(env, workspace, t, cs[..n + 1]).runs)
  {
    assert cs[..n + 1][..n] == cs[..n] && cs[..n + 1][n] == cs[n];
    hide Apply, RunsMove, Faithful;
    StepMoves(env, workspace, RunAll(env, workspace, t, cs[..n]), cs[n]);
  }

  predicate Terminal(row: RunRow) {
    row.state == "succeeded" || row.state == "failed" || row.state == "cancelled"
  }

  /** A run that succeeded, failed or was cancelled never changes again. */
  lemma {:induction false} TerminalRunsStay(env: Env, workspace: string, t: Tables, cs: seq<Command>, runId: string)
    requires Faithful(env) && runId in t.runs && Terminal(t.runs[runId])
    ensures var later := RunAll(env, workspace, t, cs).runs; runId in later && later[runId] == t.runs[runId]
  {
    if cs == [] {
    } else {
      var init := cs[..|cs| - 1];
      TerminalRunsStay(env, workspace, t, init, runId);
      var before := RunAll(env, workspace, t, init);
      StepMoves(env, workspace, before, cs[|cs| - 1]);
      forall target, to ensures !Move(t.runs[runId].state, target, to) {
        TerminalsDoNotMove(t.runs[runId].state, target, to);
      }
      hide Apply, Move, ListsEvidence, Faithful;
    }
  }

  // ---------- how runs began ----------

  /** The state texts of every row of every history from the empty store are the six names. */
  predicate Known(runs: Runs) {
    forall r | r in runs ::
        Terminal(runs[r]) || runs[r].state == "queued" || runs[r].state == "running" || runs[r].state == "blocked"
  }

  lemma {:induction false} StatesAreKnown(env: Env, workspace: string, cs: seq<Command>)
    requires Faithful(env)
    ensures Known(RunAll(env, workspace, EMPTY_TABLES, cs).runs)
  {
    if cs == [] {
    } else {
      StatesAreKnown(env, workspace, cs[..|cs| - 1]);
      StepMoves(env, workspace, RunAll(env, workspace, EMPTY_TABLES, cs[..|cs| - 1]), cs[|cs| - 1]);
      hide Apply, ListsEvidence, Faithful, EMPTY_TABLES;
    }
  }
}
