/**
 * The event-sourced store as values: an append-only log, the tables written
 * beside it in the same transaction, the commands, and the replay of the log.
 */
module EventLog {
  import opened Outcomes
  import opened JsonValue
  import opened HashChain

  datatype StoreError =
    | Database
    | JsonError
    | WorkspaceMismatch
    | BlobCorrupt
    | OutboxStateConflict
    | ProjectionMismatch
    | InvalidTransition
    | AcceptanceEvidenceRequired
    | IdempotencyConflict
    | HashChainBroken
    | InvalidPersistedState

  datatype RunState = Queued | Running | Blocked | Succeeded | Failed | Cancelled

  function StateName(state: RunState): string {
    match state
    case Queued => "queued"
    case Running => "running"
    case Blocked => "blocked"
    case Succeeded => "succeeded"
    case Failed => "failed"
    case Cancelled => "cancelled"
  }

  function ParseState(name: string): Option<RunState> {
    if name == "queued" then Some(Queued)
    else if name == "running" then Some(Running)
    else if name == "blocked" then Some(Blocked)
    else if name == "succeeded" then Some(Succeeded)
    else if name == "failed" then Some(Failed)
    else if name == "cancelled" then Some(Cancelled)
    else None
  }

  predicate ValidTransition(from: RunState, to: RunState) {
    match from
    case Queued => to.Running? || to.Cancelled?
    case Running => to.Blocked? || to.Succeeded? || to.Failed? || to.Cancelled?
    case Blocked => to.Running? || to.Failed? || to.Cancelled?
    case _ => false
  }

  const RUN_QUEUED := "run.queued"
  const RUN_STATE_CHANGED := "run.state_changed"
  const INTENT_RECORDED := "tool.intent_recorded"
  const RESULT_RECORDED := "tool.result_recorded"
  const ARTIFACT_COMMITTED := "artifact.committed"

  /** The event types the projections are folded from. */
  predicate IsProjected(eventType: string) {
    eventType == RUN_QUEUED || eventType == RUN_STATE_CHANGED || eventType == INTENT_RECORDED
        || eventType == RESULT_RECORDED
  }

  lemma EventTypesDistinct()
    ensures RUN_QUEUED != RUN_STATE_CHANGED && RUN_QUEUED != INTENT_RECORDED && RUN_QUEUED != RESULT_RECORDED
    ensures RUN_STATE_CHANGED != INTENT_RECORDED && RUN_STATE_CHANGED != RESULT_RECORDED
    ensures INTENT_RECORDED != RESULT_RECORDED && !IsProjected(ARTIFACT_COMMITTED)
  {
    assert INTENT_RECORDED[5] != RESULT_RECORDED[5];
  }

  /** Hashing, and the JSON printer and parser. */
  datatype Env = Env(codec: Codec, render: Json -> string, parse: string -> Option<Json>)

  ghost predicate Faithful(env: Env) {
    forall v :: env.parse(env.render(v)) == Some(v)
  }

  // ---------- tables ----------

  datatype RunRow = RunRow(taskId: string, state: string, evidenceJson: string, updatedSequence: nat)

  datatype OutboxRow = OutboxRow(
    intentId: string, eventId: string, effectKind: string, payloadJson: string,
    state: string, resultEventId: Option<string>, resultJson: Option<string>)

  datatype KeyRow = KeyRow(requestHash: Bytes, eventId: string)

  datatype BlobRow = BlobRow(path: string, byteLength: nat, mediaType: string, classification: string,
      ciphertextHash: string)

  /** `runId` is a foreign key into `runs`, `createdSequence` one into `events`. */
  datatype ArtifactRow = ArtifactRow(runId: string, mediaType: string, contentHash: string, classification: string,
      createdSequence: nat)

  datatype Tables = Tables(
    events: seq<Row>,
    runs: map<string, RunRow>,
    outbox: seq<OutboxRow>,
    keys: map<string, KeyRow>,
    artifacts: map<string, ArtifactRow>,
    blobs: map<string, BlobRow>)

  const EMPTY_TABLES := Tables([], map[], [], map[], map[], map[])

  // ---------- commands ----------

  datatype Meta = Meta(eventId: string, workspace: string, occurredAt: nat, key: string)

  datatype Disposition = Completed | Abandoned

  function DispositionName(d: Disposition): string {
    if d.Completed? then "completed" else "abandoned"
  }

  /** What the encrypted blob store reports about written content. */
  datatype Blob = Blob(contentHash: string, path: string, byteLength: nat, ciphertextHash: string)

  datatype Command =
    | CreateRun(meta: Meta, runId: string, taskId: string)
    | TransitionRun(meta: Meta, runId: string, target: RunState, evidence: seq<string>)
    | CommitArtifact(meta: Meta, artifactId: string, runId: string, mediaType: string, classification: string,
        blob: Blob)
    | RecordIntent(meta: Meta, intentId: string, effectKind: string, payload: Json)
    | RecordResult(meta: Meta, intentId: string, result: Json, disposition: Disposition)
    | AppendCore(meta: Meta, eventType: string, payload: Json)

  datatype CommitOutcome = Committed(eventId: string) | Replayed(eventId: string)

  type Answer = Result<CommitOutcome, StoreError>

  function EvidenceArray(evidence: seq<string>): Json {
    Array(seq(|evidence|, i requires 0 <= i < |evidence| => Str(evidence[i])))
  }

  function RequestParts(env: Env, c: Command): seq<Bytes> {
    var u := env.codec.utf8;
    match c
    case CreateRun(_, runId, taskId) => [u("create"), u(runId), u(taskId)]
    case TransitionRun(_, runId, target, evidence) =>
      [u("transition"), u(runId), u(StateName(target)), u(env.render(EvidenceArray(evidence)))]
    case CommitArtifact(_, artifactId, runId, mediaType, classification, blob) =>
      [u("artifact"), u(artifactId), u(runId), u(mediaType), u(classification), u(blob.contentHash)]
    case RecordIntent(_, intentId, effectKind, payload) =>
      [u("effect-intent"), u(intentId), u(effectKind), u(env.render(payload))]
    case RecordResult(_, intentId, result, disposition) =>
      [u("effect-result"), u(intentId), u(DispositionName(disposition)), u(env.render(result))]
    case AppendCore(_, eventType, payload) => [u("core-event"), u(eventType), u(env.render(payload))]
  }

  function RequestHash(env: Env, c: Command): Bytes {
    Digest(env.codec, RequestParts(env, c))
  }

  function NewRow(env: Env, events: seq<Row>, meta: Meta, eventType: string, payload: Json): Row {
    var unhashed := Row(meta.eventId, meta.workspace, eventType, meta.occurredAt, env.render(payload), Tail(events),
        []);
    unhashed.(hash := RowHash(env.codec, unhashed))
  }

  /** The unique columns of `events`. */
  predicate Collides(events: seq<Row>, row: Row) {
    exists i :: 0 <= i < |events| && (events[i].eventId == row.eventId || events[i].hash == row.hash)
  }

  function Append(env: Env, events: seq<Row>, meta: Meta, eventType: string, payload: Json)
    : Result<seq<Row>, StoreError>
  {
    var row := NewRow(env, events, meta, eventType, payload);
    if meta.occurredAt >= I64_LIMIT then Err(InvalidTransition)
    else if Collides(events, row) then Err(Database)
    else Ok(events + [row])
  }

  function QueuedPayload(runId: string, taskId: string): Json {
    Object(map["run_id" := Str(runId), "task_id" := Str(taskId), "state" := Str("queued")])
  }

  function ChangedPayload(runId: string, from: string, to: string, evidence: seq<string>): Json {
    Object(map["run_id" := Str(runId), "from" := Str(from), "to" := Str(to),
        "acceptance_evidence" := EvidenceArray(evidence)])
  }

  function ArtifactPayload(c: Command): Json
    requires c.CommitArtifact?
  {
    Object(map["artifact_id" := Str(c.artifactId), "byte_length" := Number(c.blob.byteLength),
               "classification" := Str(c.classification), "content_hash" := Str(c.blob.contentHash),
               "media_type" := Str(c.mediaType), "run_id" := Str(c.runId)])
  }

  function IntentPayload(intentId: string, effectKind: string, payload: Json): Json {
    Object(map["effect_kind" := Str(effectKind), "intent_id" := Str(intentId), "payload" := payload])
  }

  function ResultPayload(intentId: string, disposition: string, result: Json): Json {
    Object(map["disposition" := Str(disposition), "intent_id" := Str(intentId), "result" := result])
  }

  /** The position of the pending row of an intent, if there is one. */
  function PendingAt(outbox: seq<OutboxRow>, intentId: string): (at: Option<nat>)
    ensures at.Some?
            ==> at.value < |outbox| && outbox[at.value].intentId == intentId && outbox[at.value].state == "pending"
    ensures at.None? ==> forall i | 0 <= i < |outbox| :: outbox[i].intentId != intentId || outbox[i].state != "pending"
  {
    if outbox == [] then None
    else
      var n := |outbox| - 1;
      if outbox[n].intentId == intentId && outbox[n].state == "pending" then Some(n)
      else PendingAt(outbox[..n], intentId)
  }

  predicate HasIntent(outbox: seq<OutboxRow>, intentId: string) {
    exists i :: 0 <= i < |outbox| && outbox[i].intentId == intentId
  }

  /** A command that is not a repeat: its event and the tables it writes, or the error that rolls all of it back. */
  function Fresh(env: Env, t: Tables, c: Command): Result<Tables, StoreError> {
    match c
    case CreateRun(meta, runId, taskId) =>
      (match Append(env, t.events, meta, RUN_QUEUED, QueuedPayload(runId, taskId))
       case Err(e) => Err(e)
       case Ok(events) =>
         if runId in t.runs then Err(Database)
         else Ok(t.(events := events, runs := t.runs[runId := RunRow(taskId, "queued", "[]", |events|)])))
    case TransitionRun(meta, runId, target, evidence) =>
      if runId !in t.runs then Err(Database)
      else
        var run := t.runs[runId];
        (match ParseState(run.state)
         case None => Err(InvalidPersistedState)
         case Some(current) =>
           if !ValidTransition(current, target) then Err(InvalidTransition)
           else if target.Succeeded? && evidence == [] then Err(AcceptanceEvidenceRequired)
           else
             match Append(env, t.events, meta, RUN_STATE_CHANGED,
                 ChangedPayload(runId, run.state, StateName(target), evidence))
             case Err(e) => Err(e)
             case Ok(events) =>
               Ok(t.(events := events,
                     runs := t.runs[runId := RunRow(run.taskId, StateName(target), env.render(EvidenceArray(evidence)),
                         |events|)])))
    case CommitArtifact(meta, artifactId, runId, mediaType, classification, blob) =>
      (match Append(env, t.events, meta, ARTIFACT_COMMITTED, ArtifactPayload(c))
       case Err(e) => Err(e)
       case Ok(events) =>
         var row := BlobRow(blob.path, blob.byteLength, mediaType, classification, blob.ciphertextHash);
         if blob.byteLength >= I64_LIMIT || (blob.contentHash in t.blobs && t.blobs[blob.contentHash] != row)
             then Err(BlobCorrupt)
         else if artifactId in t.artifacts || runId !in t.runs then Err(Database)
         else
           var artifact := ArtifactRow(runId, mediaType, blob.contentHash, classification, |events|);
           Ok(t.(events := events, artifacts := t.artifacts[artifactId := artifact],
               blobs := t.blobs[blob.contentHash := row])))
    case RecordIntent(meta, intentId, effectKind, payload) =>
      (match Append(env, t.events, meta, INTENT_RECORDED, IntentPayload(intentId, effectKind, payload))
       case Err(e) => Err(e)
       case Ok(events) =>
         if HasIntent(t.outbox, intentId) then Err(Database)
         else Ok(t.(events := events,
                    outbox := t.outbox + [OutboxRow(intentId, meta.eventId, effectKind, env.render(payload), "pending",
                        None, None)])))
    case RecordResult(meta, intentId, result, disposition) =>
      (match Append(env, t.events, meta, RESULT_RECORDED, ResultPayload(intentId, DispositionName(disposition), result))
       case Err(e) => Err(e)
       case Ok(events) =>
         match PendingAt(t.outbox, intentId)
         case None => Err(OutboxStateConflict)
         case Some(at) =>
           Ok(t.(events := events,
               outbox := t.outbox[at := Resolve(t.outbox[at], DispositionName(disposition), meta.eventId,
               env.render(result))])))
    case AppendCore(meta, eventType, payload) =>
      (match Append(env, t.events, meta, eventType, payload)
       case Err(e) => Err(e)
       case Ok(events) => Ok(t.(events := events)))
  }

  function Resolve(row: OutboxRow, state: string, eventId: string, resultJson: string): OutboxRow {
    row.(state := state, resultEventId := Some(eventId), resultJson := Some(resultJson))
  }

  /** Checks made before the transaction begins. */
  function Precheck(workspace: string, c: Command): Option<StoreError> {
    if c.meta.workspace != workspace then Some(WorkspaceMismatch)
    else if c.CommitArtifact? && (c.mediaType == "" || c.classification == "") then Some(BlobCorrupt)
    else None
  }

  /** One command as one transaction. */
  function Apply(env: Env, workspace: string, t: Tables, c: Command): (Tables, Answer) {
    match Precheck(workspace, c)
    case Some(e) => (t, Err(e))
    case None =>
      if c.meta.key in t.keys then
        var known := t.keys[c.meta.key];
        (t, if known.requestHash == RequestHash(env, c) then Ok(Replayed(known.eventId)) else Err(IdempotencyConflict))
      else
        match Fresh(env, t, c)
        case Err(e) => (t, Err(e))
        case Ok(t') =>
          (t'.(keys := t'.keys[c.meta.key := KeyRow(RequestHash(env, c), c.meta.eventId)]),
              Ok(Committed(c.meta.eventId)))
  }

  predicate Commits(env: Env, workspace: string, t: Tables, c: Command) {
    Apply(env, workspace, t, c).1 == Ok(Committed(c.meta.eventId))
  }

  /** The tables after a run of commands, failed ones included. */
  function RunAll(env: Env, workspace: string, t: Tables, cs: seq<Command>): Tables {
    if cs == [] then t
    else Apply(env, workspace, RunAll(env, workspace, t, cs[..|cs| - 1]), cs[|cs| - 1]).0
  }

  // ---------- replay ----------

  function RequiredString(payload: Json, field: string): Option<string> {
    match Get(payload, field)
    case Some(Str(s)) => if s == "" then None else Some(s)
    case _ => None
  }

  function StringItems(items: seq<Json>): Option<seq<string>> {
    if items == [] then Some([])
    else
      match (StringItems(items[..|items| - 1]), items[|items| - 1])
      case (Some(init), Str(s)) => if s == "" then None else Some(init + [s])
      case _ => None
  }

  function RequiredStrings(payload: Json, field: string): Option<seq<string>> {
    match Get(payload, field)
    case Some(Array(items)) => StringItems(items)
    case _ => None
  }

  type Runs = map<string, RunRow>

  function StepQueued(runs: Runs, payload: Json, sequence: nat): Result<Runs, StoreError> {
    match (RequiredString(payload, "run_id"), RequiredString(payload, "task_id"), RequiredString(payload, "state"))
    case (Some(runId), Some(taskId), Some(state)) =>
      if state != "queued" || runId in runs then Err(ProjectionMismatch)
      else Ok(runs[runId := RunRow(taskId, "queued", "[]", sequence)])
    case _ => Err(ProjectionMismatch)
  }

  function StepChanged(env: Env, runs: Runs, payload: Json, sequence: nat): Result<Runs, StoreError> {
    match (RequiredString(payload, "run_id"), RequiredString(payload, "from"),
           RequiredString(payload, "to"), RequiredStrings(payload, "acceptance_evidence"))
    case (Some(runId), Some(from), Some(to), Some(evidence)) =>
      if runId !in runs then Err(ProjectionMismatch)
      else
        var run := runs[runId];
        (match (ParseState(run.state), ParseState(to))
         case (Some(current), Some(target)) =>
           if run.state != from || !ValidTransition(current, target) || (target.Succeeded? && evidence == [])
               then Err(ProjectionMismatch)
           else Ok(runs[runId := RunRow(run.taskId, to, env.render(EvidenceArray(evidence)), sequence)])
         case _ => Err(InvalidPersistedState))
    case _ => Err(ProjectionMismatch)
  }

  function StepRuns(env: Env, workspace: string, runs: Runs, row: Row, sequence: nat): Result<Runs, StoreError> {
    if row.workspace != workspace then Err(ProjectionMismatch)
    else
      match env.parse(row.payloadJson)
      case None => Err(JsonError)
      case Some(payload) =>
        if row.eventType == RUN_QUEUED then StepQueued(runs, payload, sequence)
        else if row.eventType == RUN_STATE_CHANGED then StepChanged(env, runs, payload, sequence)
        else Ok(runs)
  }

  /** The run projection recomputed from the log, or the first error met. */
  function ReplayRuns(env: Env, workspace: string, events: seq<Row>): Result<Runs, StoreError> {
    if events == [] then Ok(map[])
    else
      match ReplayRuns(env, workspace, events[..|events| - 1])
      case Err(e) => Err(e)
      case Ok(runs) => StepRuns(env, workspace, runs, events[|events| - 1], |events|)
  }

  /**
   * The outbox as a fold of the log: each intent adds a pending row with a new
   * identifier, each result resolves the pending row of its intent. Anything
   * else under these event types is no history of the outbox.
   */
  function StepOutbox(env: Env, outbox: seq<OutboxRow>, row: Row): Option<seq<OutboxRow>> {
    match env.parse(row.payloadJson)
    case None => None
    case Some(payload) =>
      if row.eventType == INTENT_RECORDED then
        match (Get(payload, "intent_id"), Get(payload, "effect_kind"), Get(payload, "payload"))
        case (Some(Str(intentId)), Some(Str(kind)), Some(request)) =>
          if HasIntent(outbox, intentId) then None
          else Some(outbox + [OutboxRow(intentId, row.eventId, kind, env.render(request), "pending", None, None)])
        case _ => None
      else if row.eventType == RESULT_RECORDED then
        match (Get(payload, "intent_id"), Get(payload, "disposition"), Get(payload, "result"))
        case (Some(Str(intentId)), Some(Str(state)), Some(result)) =>
          (match PendingAt(outbox, intentId)
           case None => None
           case Some(at) =>
             if state == "pending" then None
             else Some(outbox[at := Resolve(outbox[at], state, row.eventId, env.render(result))]))
        case _ => None
      else Some(outbox)
  }

  function ReplayOutbox(env: Env, events: seq<Row>): Option<seq<OutboxRow>> {
    if events == [] then Some([])
    else
      match ReplayOutbox(env, events[..|events| - 1])
      case None => None
      case Some(outbox) => StepOutbox(env, outbox, events[|events| - 1])
  }

  /** The tables are what the log says. */
  predicate ProjectionsHold(env: Env, workspace: string, t: Tables) {
    ReplayRuns(env, workspace, t.events) == Ok(t.runs) && ReplayOutbox(env, t.events) == Some(t.outbox)
  }

  predicate DistinctEvents(events: seq<Row>) {
    forall i, j | 0 <= i < j < |events| :: events[i].eventId != events[j].eventId
  }

  /** Every remembered key names an event of the log. */
  predicate KeysKnown(t: Tables) {
    forall k | k in t.keys :: exists i :: 0 <= i < |t.events| && t.events[i].eventId == t.keys[k].eventId
  }

  /**
   * Commands whose committed effect the replay accepts: no empty identifier or
   * evidence item, no reserved event type.
   */
  predicate WellFormed(c: Command) {
    match c
    case CreateRun(_, runId, taskId) => runId != "" && taskId != ""
    case TransitionRun(_, _, _, evidence) => "" !in evidence
    case AppendCore(_, eventType, _) => !IsProjected(eventType)
    case _ => true
  }
}
