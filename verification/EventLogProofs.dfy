/** What every run of store commands keeps, and why repeated deliveries change nothing. */
module EventLogProofs {
  import opened Outcomes
  import opened JsonValue
  import opened HashChain
  import opened EventLog

  // ---------- single transactions ----------

  /** Only a committed command changes the tables, and it appends exactly one event. */
  lemma OnlyCommitsChange(env: Env, workspace: string, t: Tables, c: Command)
    ensures var (t', answer) := Apply(env, workspace, t, c);
            && (!Commits(env, workspace, t, c) ==> t' == t)
            && (Commits(env, workspace, t, c) ==>
                  && Precheck(workspace, c).None? && c.meta.key !in t.keys && Fresh(env, t, c).Ok?
                  && var row := KeyRow(RequestHash(env, c), c.meta.eventId);
                     t' == Fresh(env, t, c).value.(keys := t.keys[c.meta.key := row]))
  {
    hide *;
    FreshKeepsKeys(env, t, c);
    OnlyCommitsChangeStep(env, workspace, t, c);
  }

  lemma OnlyCommitsChangeStep(env: Env, workspace: string, t: Tables, c: Command)
    requires Fresh(env, t, c).Ok? ==> Fresh(env, t, c).value.keys == t.keys
    ensures var (t', answer) := Apply(env, workspace, t, c);
            && (!Commits(env, workspace, t, c) ==> t' == t)
            && (Commits(env, workspace, t, c) ==>
                  && Precheck(workspace, c).None? && c.meta.key !in t.keys && Fresh(env, t, c).Ok?
                  && var row := KeyRow(RequestHash(env, c), c.meta.eventId);
                     t' == Fresh(env, t, c).value.(keys := t.keys[c.meta.key := row]))
  {
    hide Fresh, RequestHash;
  }

  /** The event type and payload a command records against the given tables. */
  function EventOf(t: Tables, c: Command): (string, Json) {
    match c
    case CreateRun(_, runId, taskId) => (RUN_QUEUED, QueuedPayload(runId, taskId))
    case TransitionRun(_, runId, target, evidence) =>
      var from := if runId in t.runs then t.runs[runId].state else "";
      (RUN_STATE_CHANGED, ChangedPayload(runId, from, StateName(target), evidence))
    case CommitArtifact(_, _, _, _, _, _) => (ARTIFACT_COMMITTED, ArtifactPayload(c))
    case RecordIntent(_, intentId, kind, payload) => (INTENT_RECORDED, IntentPayload(intentId, kind, payload))
    case RecordResult(_, intentId, result, disposition) =>
      (RESULT_RECORDED, ResultPayload(intentId, DispositionName(disposition), result))
    case AppendCore(_, eventType, payload) => (eventType, payload)
  }

  lemma FreshKeepsKeys(env: Env, t: Tables, c: Command)
    ensures Fresh(env, t, c).Ok? ==>
              var t' := Fresh(env, t, c).value;
              var (eventType, payload) := EventOf(t, c);
              var row := NewRow(env, t.events, c.meta, eventType, payload);
              && t'.keys == t.keys && t'.events == t.events + [row]
              && c.meta.occurredAt < I64_LIMIT && !Collides(t.events, row)
  {
    hide NewRow, Collides, QueuedPayload, ChangedPayload, ArtifactPayload, IntentPayload, ResultPayload;
  }

  // ---------- the chain and the keys ----------

  /** The log verifies, its event identifiers are distinct and every key names one of them. */
  predicate LogIntact(env: Env, t: Tables) {
    ChainOk(env.codec, t.events) && DistinctEvents(t.events) && KeysKnown(t)
  }

  lemma {:induction false} StepKeepsLog(env: Env, workspace: string, t: Tables, c: Command)
    requires LogIntact(env, t)
    ensures LogIntact(env, Apply(env, workspace, t, c).0)
  {
    OnlyCommitsChange(env, workspace, t, c);
    FreshKeepsKeys(env, t, c);
    hide Fresh, RequestHash, Apply, EventOf, RowHash, Precheck;
    if Commits(env, workspace, t, c) {
      var t' := Apply(env, workspace, t, c).0;
      var (eventType, payload) := EventOf(t, c);
      var row := NewRow(env, t.events, c.meta, eventType, payload);
      ChainAppend(env.codec, t.events, row);
      NewRowLinks(env, t.events, c.meta, eventType, payload);
      forall k | k in t'.keys ensures exists i :: 0 <= i < |t'.events| && t'.events[i].eventId == t'.keys[k].eventId {
        if k == c.meta.key {
          assert t'.events[|t.events|] == row;
        } else {
          var i :| 0 <= i < |t.events| && t.events[i].eventId == t.keys[k].eventId;
          assert t'.events[i] == t.events[i];
        }
      }
    }
  }

  lemma NewRowLinks(env: Env, events: seq<Row>, meta: Meta, eventType: string, payload: Json)
    ensures LinkOk(env.codec, Tail(events), NewRow(env, events, meta, eventType, payload))
  {
    var row := NewRow(env, events, meta, eventType, payload);
    assert HashedParts(env.codec, row) == HashedParts(env.codec, row.(hash := []));
  }

  /** Verification succeeds after every command of every run. */
  lemma {:induction false} RunKeepsLog(env: Env, workspace: string, t: Tables, cs: seq<Command>)
    requires LogIntact(env, t)
    ensures LogIntact(env, RunAll(env, workspace, t, cs))
  {
    if cs == [] {
    } else {
      RunKeepsLog(env, workspace, t, cs[..|cs| - 1]);
      StepKeepsLog(env, workspace, RunAll(env, workspace, t, cs[..|cs| - 1]), cs[|cs| - 1]);
    }
  }

  // ---------- one step of the replay ----------

  lemma ReplaySnoc(env: Env, workspace: string, events: seq<Row>, row: Row)
    ensures ReplayRuns(env, workspace, events + [row])
         == match ReplayRuns(env, workspace, events) {
              case Err(e) => Err(e)
              case Ok(runs) => StepRuns(env, workspace, runs, row, |events| + 1)
            }
    ensures ReplayOutbox(env, events + [row])
         == match ReplayOutbox(env, events) { case None => None case Some(outbox) => StepOutbox(env, outbox, row) }
  {
    hide StepRuns, StepOutbox;
    assert (events + [row])[..|events|] == events;
  }

  /** Rows of a replayed projection: named, in a known state, written by an event of the log. */
  predicate SoundRuns(runs: Runs, bound: nat) {
    forall id | id in runs :: id != "" && ParseState(runs[id].state).Some? && runs[id].updatedSequence <= bound
  }

  lemma StepIsSound(env: Env, workspace: string, runs: Runs, row: Row, sequence: nat)
    requires sequence > 0 && SoundRuns(runs, sequence - 1) && StepRuns(env, workspace, runs, row, sequence).Ok?
    ensures SoundRuns(StepRuns(env, workspace, runs, row, sequence).value, sequence)
  {
    hide StringItems, EvidenceArray;
  }

  lemma {:induction false} ReplayIsSound(env: Env, workspace: string, events: seq<Row>)
    requires ReplayRuns(env, workspace, events).Ok?
    ensures SoundRuns(ReplayRuns(env, workspace, events).value, |events|)
  {
    hide StepRuns;
    if events == [] {
    } else {
      ReplayIsSound(env, workspace, events[..|events| - 1]);
      StepIsSound(env, workspace, ReplayRuns(env, workspace, events[..|events| - 1]).value, events[|events| - 1],
          |events|);
    }
  }

  lemma {:induction false} EvidenceItems(evidence: seq<string>)
    ensures StringItems(EvidenceArray(evidence).items) == if "" in evidence then None else Some(evidence)
  {
    if evidence == [] {
    } else {
      var init, last := evidence[..|evidence| - 1], evidence[|evidence| - 1];
      EvidenceItems(init);
      assert evidence == init + [last];
      assert EvidenceArray(evidence).items[..|evidence| - 1] == EvidenceArray(init).items;
    }
  }

  lemma QueuedStep(runs: Runs, runId: string, taskId: string, sequence: nat)
    ensures StepQueued(runs, QueuedPayload(runId, taskId), sequence)
         == if runId == "" || taskId == "" || runId in runs then Err(ProjectionMismatch)
            else Ok(runs[runId := RunRow(taskId, "queued", "[]", sequence)])
  {
    var payload := QueuedPayload(runId, taskId);
    assert Get(payload, "run_id") == Some(Str(runId)) && Get(payload, "task_id") == Some(Str(taskId));
    assert Get(payload, "state") == Some(Str("queued"));
  }

  lemma ChangedFields(runId: string, from: string, to: string, evidence: seq<string>)
    ensures var p := ChangedPayload(runId, from, to, evidence);
            && Get(p, "run_id") == Some(Str(runId)) && Get(p, "from") == Some(Str(from))
               && Get(p, "to") == Some(Str(to))
            && Get(p, "acceptance_evidence") == Some(EvidenceArray(evidence))
  {
  }

  lemma ParseStateName(state: RunState)
    ensures ParseState(StateName(state)) == Some(state)
  {
  }

  lemma ChangedStep(env: Env, runs: Runs, runId: string, target: RunState, evidence: seq<string>, sequence: nat)
    requires runId in runs && runId != "" && ParseState(runs[runId].state).Some?
    requires ValidTransition(ParseState(runs[runId].state).value, target) && (target.Succeeded? ==> evidence != [])
    ensures StepChanged(env, runs, ChangedPayload(runId, runs[runId].state, StateName(target), evidence), sequence)
         == if "" in evidence then Err(ProjectionMismatch)
            else Ok(runs[runId := RunRow(runs[runId].taskId, StateName(target), env.render(EvidenceArray(evidence)),
                sequence)])
  {
    ChangedFields(runId, runs[runId].state, StateName(target), evidence);
    EvidenceItems(evidence);
    ParseStateName(target);
    assert runs[runId].state != "";
    assert StateName(target) != "";
    hide EvidenceArray, ChangedPayload, StringItems;
  }

  lemma IntentStep(env: Env, outbox: seq<OutboxRow>, row: Row, intentId: string, kind: string, payload: Json)
    requires Faithful(env) && row.eventType == INTENT_RECORDED
             && row.payloadJson == env.render(IntentPayload(intentId, kind, payload))
    ensures StepOutbox(env, outbox, row)
         == if HasIntent(outbox, intentId) then None
            else Some(outbox + [OutboxRow(intentId, row.eventId, kind, env.render(payload), "pending", None, None)])
  {
    var p := IntentPayload(intentId, kind, payload);
    assert Get(p, "intent_id") == Some(Str(intentId)) && Get(p, "effect_kind") == Some(Str(kind))
        && Get(p, "payload") == Some(payload);
  }

  lemma ResultStep(env: Env, outbox: seq<OutboxRow>, row: Row, intentId: string, d: Disposition, result: Json)
    requires Faithful(env) && row.eventType == RESULT_RECORDED
    requires row.payloadJson == env.render(ResultPayload(intentId, DispositionName(d), result))
    ensures StepOutbox(env, outbox, row)
         == match PendingAt(outbox, intentId) {
              case None => None
              case Some(at) => Some(outbox[at := Resolve(outbox[at], DispositionName(d), row.eventId,
                  env.render(result))])
            }
  {
    EventTypesDistinct();
    var p := ResultPayload(intentId, DispositionName(d), result);
    assert Get(p, "intent_id") == Some(Str(intentId)) && Get(p, "disposition") == Some(Str(DispositionName(d)));
    assert Get(p, "result") == Some(result);
  }

  /** Events of other types leave both projections alone, whatever their payload. */
  lemma OtherStep(env: Env, workspace: string, runs: Runs, outbox: seq<OutboxRow>, row: Row, sequence: nat,
      payload: Json)
    requires Faithful(env) && row.workspace == workspace && row.payloadJson == env.render(payload)
    ensures row.eventType != RUN_QUEUED && row.eventType != RUN_STATE_CHANGED
            ==> StepRuns(env, workspace, runs, row, sequence) == Ok(runs)
    ensures row.eventType != INTENT_RECORDED && row.eventType != RESULT_RECORDED
            ==> StepOutbox(env, outbox, row) == Some(outbox)
  {
  }

  /** A projected event always changes a projection or poisons the replay. */
  lemma ProjectedEventMatters(env: Env, workspace: string, runs: Runs, outbox: seq<OutboxRow>, row: Row, sequence: nat)
    requires sequence > 0 && IsProjected(row.eventType) && SoundRuns(runs, sequence - 1)
    ensures StepRuns(env, workspace, runs, row, sequence) != Ok(runs) || StepOutbox(env, outbox, row) != Some(outbox)
  {
    EventTypesDistinct();
    match env.parse(row.payloadJson)
    case None =>
    case Some(payload) =>
      if row.eventType == RUN_QUEUED {
        match StepQueued(runs, payload, sequence)
        case Err(_) =>
        case Ok(next) => assert next.Keys != runs.Keys;
      } else if row.eventType == RUN_STATE_CHANGED {
        match StepChanged(env, runs, payload, sequence)
        case Err(_) =>
        case Ok(next) =>
          var runId := RequiredString(payload, "run_id").value;
          assert next[runId].updatedSequence == sequence;
      } else if row.eventType == INTENT_RECORDED {
        match StepOutbox(env, outbox, row)
        case None =>
        case Some(next) => assert |next| == |outbox| + 1;
      } else {
        match StepOutbox(env, outbox, row)
        case None =>
        case Some(next) =>
          var at := PendingAt(outbox, Get(payload, "intent_id").value.s).value;
          assert next[at].state != outbox[at].state;
      }
  }

  // ---------- the projections ----------

  /** The log after a fresh command, and what the replay makes of its event. */
  lemma FreshReplay(env: Env, workspace: string, t: Tables, c: Command) returns (row: Row)
    requires Faithful(env) && ProjectionsHold(env, workspace, t) && c.meta.workspace == workspace
             && Fresh(env, t, c).Ok?
    ensures row.eventId == c.meta.eventId && row.workspace == workspace
    ensures row.eventType == EventOf(t, c).0 && row.payloadJson == env.render(EventOf(t, c).1)
    ensures SoundRuns(t.runs, |t.events|)
    ensures var t' := Fresh(env, t, c).value;
            && |t'.events| == |t.events| + 1
            && ReplayRuns(env, workspace, t'.events) == StepRuns(env, workspace, t.runs, row, |t.events| + 1)
            && ReplayOutbox(env, t'.events) == StepOutbox(env, t.outbox, row)
  {
    var (eventType, payload) := EventOf(t, c);
    row := NewRow(env, t.events, c.meta, eventType, payload);
    FreshKeepsKeys(env, t, c);
    ReplayIsSound(env, workspace, t.events);
    hide Fresh, EventOf, StepRuns, StepOutbox, RowHash;
    ReplaySnoc(env, workspace, t.events, row);
  }

  lemma FreshCreate(env: Env, workspace: string, t: Tables, c: Command)
    requires Faithful(env) && ProjectionsHold(env, workspace, t) && c.meta.workspace == workspace
             && Fresh(env, t, c).Ok?
    requires c.CreateRun?
    ensures ProjectionsHold(env, workspace, Fresh(env, t, c).value) <==> WellFormed(c)
  {
    var row := FreshReplay(env, workspace, t, c);
    EventTypesDistinct();
    OtherStep(env, workspace, t.runs, t.outbox, row, |t.events| + 1, EventOf(t, c).1);
    QueuedStep(t.runs, c.runId, c.taskId, |t.events| + 1);
    hide StepQueued, QueuedPayload, StepOutbox, Append;
  }

  lemma FreshTransition(env: Env, workspace: string, t: Tables, c: Command)
    requires Faithful(env) && ProjectionsHold(env, workspace, t) && c.meta.workspace == workspace
             && Fresh(env, t, c).Ok?
    requires c.TransitionRun?
    ensures ProjectionsHold(env, workspace, Fresh(env, t, c).value) <==> WellFormed(c)
  {
    var row := FreshReplay(env, workspace, t, c);
    EventTypesDistinct();
    OtherStep(env, workspace, t.runs, t.outbox, row, |t.events| + 1, EventOf(t, c).1);
    ChangedStep(env, t.runs, c.runId, c.target, c.evidence, |t.events| + 1);
    hide StepChanged, ChangedPayload, StepOutbox, Append, ParseState, EvidenceArray, StateName;
  }

  lemma FreshIntent(env: Env, workspace: string, t: Tables, c: Command)
    requires Faithful(env) && ProjectionsHold(env, workspace, t) && c.meta.workspace == workspace
             && Fresh(env, t, c).Ok?
    requires c.RecordIntent?
    ensures ProjectionsHold(env, workspace, Fresh(env, t, c).value)
  {
    var row := FreshReplay(env, workspace, t, c);
    EventTypesDistinct();
    OtherStep(env, workspace, t.runs, t.outbox, row, |t.events| + 1, EventOf(t, c).1);
    IntentStep(env, t.outbox, row, c.intentId, c.effectKind, c.payload);
    hide StepRuns, IntentPayload, StepOutbox, Append, HasIntent;
  }

  lemma FreshResult(env: Env, workspace: string, t: Tables, c: Command)
    requires Faithful(env) && ProjectionsHold(env, workspace, t) && c.meta.workspace == workspace
             && Fresh(env, t, c).Ok?
    requires c.RecordResult?
    ensures ProjectionsHold(env, workspace, Fresh(env, t, c).value)
  {
    var row := FreshReplay(env, workspace, t, c);
    EventTypesDistinct();
    OtherStep(env, workspace, t.runs, t.outbox, row, |t.events| + 1, EventOf(t, c).1);
    ResultStep(env, t.outbox, row, c.intentId, c.disposition, c.result);
    hide StepRuns, ResultPayload, StepOutbox, Append, PendingAt;
  }

  lemma FreshArtifact(env: Env, workspace: string, t: Tables, c: Command)
    requires Faithful(env) && ProjectionsHold(env, workspace, t) && c.meta.workspace == workspace
             && Fresh(env, t, c).Ok?
    requires c.CommitArtifact?
    ensures ProjectionsHold(env, workspace, Fresh(env, t, c).value)
  {
    var row := FreshReplay(env, workspace, t, c);
    EventTypesDistinct();
    OtherStep(env, workspace, t.runs, t.outbox, row, |t.events| + 1, EventOf(t, c).1);
    hide StepRuns, StepOutbox, Append, ArtifactPayload;
  }

  lemma FreshCore(env: Env, workspace: string, t: Tables, c: Command)
    requires Faithful(env) && ProjectionsHold(env, workspace, t) && c.meta.workspace == workspace
             && Fresh(env, t, c).Ok?
    requires c.AppendCore?
    ensures ProjectionsHold(env, workspace, Fresh(env, t, c).value) <==> WellFormed(c)
  {
    var row := FreshReplay(env, workspace, t, c);
    if WellFormed(c) {
      OtherStep(env, workspace, t.runs, t.outbox, row, |t.events| + 1, c.payload);
    } else {
      ProjectedEventMatters(env, workspace, t.runs, t.outbox, row, |t.events| + 1);
    }
    hide StepRuns, StepOutbox, Append;
  }

  /**
   * From tables that are what the log says, a command leaves them so exactly
   * when it is refused, or carries no empty identifier or evidence item and no
   * reserved event type.
   */
  lemma {:induction false} StepKeepsProjections(env: Env, workspace: string, t: Tables, c: Command)
    requires Faithful(env) && ProjectionsHold(env, workspace, t)
    ensures ProjectionsHold(env, workspace, Apply(env, workspace, t, c).0)
       <==> (Commits(env, workspace, t, c) ==> WellFormed(c))
  {
    OnlyCommitsChange(env, workspace, t, c);
    if Commits(env, workspace, t, c) {
      match c
      case CreateRun(_, _, _) => FreshCreate(env, workspace, t, c);
      case TransitionRun(_, _, _, _) => FreshTransition(env, workspace, t, c);
      case CommitArtifact(_, _, _, _, _, _) => FreshArtifact(env, workspace, t, c);
      case RecordIntent(_, _, _, _) => FreshIntent(env, workspace, t, c);
      case RecordResult(_, _, _, _) => FreshResult(env, workspace, t, c);
      case AppendCore(_, _, _) => FreshCore(env, workspace, t, c);
    }
    hide Fresh, Apply, Commits, ReplayRuns, ReplayOutbox;
  }

  /** After any run of well-formed commands, refused ones included, every table is the replay of the log. */
  lemma {:induction false} RunKeepsProjections(env: Env, workspace: string, t: Tables, cs: seq<Command>)
    requires Faithful(env) && ProjectionsHold(env, workspace, t)
    requires forall i | 0 <= i < |cs| :: WellFormed(cs[i])
    ensures ProjectionsHold(env, workspace, RunAll(env, workspace, t, cs))
  {
    hide ProjectionsHold, Apply, WellFormed;
    if cs == [] {
    } else {
      RunKeepsProjections(env, workspace, t, cs[..|cs| - 1]);
      StepKeepsProjections(env, workspace, RunAll(env, workspace, t, cs[..|cs| - 1]), cs[|cs| - 1]);
    }
  }

  lemma EmptyStoreHolds(env: Env, workspace: string)
    ensures ProjectionsHold(env, workspace, EMPTY_TABLES) && LogIntact(env, EMPTY_TABLES)
  {
  }

  // ---------- the pending outbox is the unanswered intents ----------

  /** The intent identifier an outbox event names. */
  function NamedIntent(env: Env, row: Row): Option<string> {
    match env.parse(row.payloadJson)
    case None => None
    case Some(payload) =>
      match Get(payload, "intent_id")
      case Some(Str(intentId)) => Some(intentId)
      case _ => None
  }

  /** The identifiers of the recorded intents, in log order. */
  function Intents(env: Env, events: seq<Row>): seq<string> {
    if events == [] then []
    else
      var init, last := Intents(env, events[..|events| - 1]), events[|events| - 1];
      if last.eventType == INTENT_RECORDED && NamedIntent(env, last).Some? then init + [NamedIntent(env, last).value]
          else init
  }

  /** Some event of the log records a result for the intent. */
  predicate Answered(env: Env, events: seq<Row>, intentId: string) {
    exists i :: 0 <= i < |events| && events[i].eventType == RESULT_RECORDED
        && NamedIntent(env, events[i]) == Some(intentId)
  }

  function Unanswered(env: Env, events: seq<Row>, intents: seq<string>): seq<string> {
    if intents == [] then []
    else
      var init, last := Unanswered(env, events, intents[..|intents| - 1]), intents[|intents| - 1];
      if Answered(env, events, last) then init else init + [last]
  }

  /** `SELECT ... WHERE state = 'pending' ORDER BY rowid`. */
  function PendingRows(outbox: seq<OutboxRow>): seq<OutboxRow> {
    if outbox == [] then []
    else
      var init, last := PendingRows(outbox[..|outbox| - 1]), outbox[|outbox| - 1];
      if last.state == "pending" then init + [last] else init
  }

  function Ids(rows: seq<OutboxRow>): (ids: seq<string>)
    ensures |ids| == |rows| && forall i | 0 <= i < |rows| :: ids[i] == rows[i].intentId
  {
    seq(|rows|, i requires 0 <= i < |rows| => rows[i].intentId)
  }

  /** One outbox row per intent, in order, pending exactly while unanswered. */
  ghost predicate OutboxMatches(env: Env, events: seq<Row>, outbox: seq<OutboxRow>) {
    && Ids(outbox) == Intents(env, events)
    && (forall i, j | 0 <= i < j < |outbox| :: outbox[i].intentId != outbox[j].intentId)
    && (forall i | 0 <= i < |outbox| :: outbox[i].state == "pending" <==> !Answered(env, events, outbox[i].intentId))
    && (forall id | Answered(env, events, id) :: HasIntent(outbox, id))
  }

  lemma IntentsSnoc(env: Env, events: seq<Row>, row: Row)
    ensures Intents(env, events + [row])
         == if row.eventType == INTENT_RECORDED && NamedIntent(env, row).Some?
            then Intents(env, events) + [NamedIntent(env, row).value]
            else Intents(env, events)
  {
    hide NamedIntent;
    assert (events + [row])[..|events|] == events;
  }

  lemma AnsweredSnoc(env: Env, events: seq<Row>, row: Row, id: string)
    ensures Answered(env, events + [row], id)
       <==> Answered(env, events, id) || (row.eventType == RESULT_RECORDED && NamedIntent(env, row) == Some(id))
  {
    hide NamedIntent;
    var longer := events + [row];
    assert longer[|events|] == row && forall i | 0 <= i < |events| :: longer[i] == events[i];
    if Answered(env, events, id) {
      var i :| 0 <= i < |events| && events[i].eventType == RESULT_RECORDED && NamedIntent(env, events[i]) == Some(id);
      assert longer[i] == events[i];
    }
    if row.eventType == RESULT_RECORDED && NamedIntent(env, row) == Some(id) {
      assert longer[|events|].eventType == RESULT_RECORDED;
    }
  }

  /** What one accepted event does to the outbox. */
  lemma StepOutboxCases(env: Env, outbox: seq<OutboxRow>, row: Row)
    requires StepOutbox(env, outbox, row).Some?
    ensures var next := StepOutbox(env, outbox, row).value;
            && (row.eventType == INTENT_RECORDED ==>
                  NamedIntent(env, row).Some? && !HasIntent(outbox, NamedIntent(env, row).value)
                  && exists r: OutboxRow ::
                     next == outbox + [r] && r.intentId == NamedIntent(env, row).value && r.state == "pending")
            && (row.eventType == RESULT_RECORDED ==>
                  NamedIntent(env, row).Some? && PendingAt(outbox, NamedIntent(env, row).value).Some?
                  && exists r: OutboxRow :: next == outbox[PendingAt(outbox, NamedIntent(env, row).value).value := r]
                       && r.intentId == NamedIntent(env, row).value && r.state != "pending")
            && (row.eventType != INTENT_RECORDED && row.eventType != RESULT_RECORDED ==> next == outbox)
  {
    EventTypesDistinct();
    hide HasIntent, PendingAt;
    var payload := env.parse(row.payloadJson).value;
    var next := StepOutbox(env, outbox, row).value;
    if row.eventType == INTENT_RECORDED {
      assert next == outbox + [next[|outbox|]];
    } else if row.eventType == RESULT_RECORDED {
      var at := PendingAt(outbox, NamedIntent(env, row).value).value;
      assert next == outbox[at := next[at]];
    }
  }

  lemma OneMoreIntent(outbox: seq<OutboxRow>, r: OutboxRow)
    ensures Ids(outbox + [r]) == Ids(outbox) + [r.intentId]
    ensures forall id :: HasIntent(outbox, id) ==> HasIntent(outbox + [r], id)
  {
    var longer := outbox + [r];
    forall id | HasIntent(outbox, id) ensures HasIntent(longer, id) {
      var i :| 0 <= i < |outbox| && outbox[i].intentId == id;
      assert longer[i].intentId == id;
    }
  }

  lemma MatchIntent(env: Env, events: seq<Row>, row: Row, outbox: seq<OutboxRow>, r: OutboxRow)
    requires OutboxMatches(env, events, outbox) && row.eventType == INTENT_RECORDED
             && NamedIntent(env, row) == Some(r.intentId)
    requires !HasIntent(outbox, r.intentId) && r.state == "pending"
    ensures OutboxMatches(env, events + [row], outbox + [r])
  {
    hide NamedIntent, Answered, Intents;
    EventTypesDistinct();
    IntentsSnoc(env, events, row);
    OneMoreIntent(outbox, r);
    hide Ids;
    forall id ensures Answered(env, events + [row], id) <==> Answered(env, events, id) {
      AnsweredSnoc(env, events, row, id);
    }
    assert forall i | 0 <= i < |outbox| :: outbox[i].intentId != r.intentId;
    hide HasIntent;
  }

  lemma OneResolved(outbox: seq<OutboxRow>, at: nat, r: OutboxRow)
    requires at < |outbox| && outbox[at].intentId == r.intentId
    ensures Ids(outbox[at := r]) == Ids(outbox)
    ensures forall id :: HasIntent(outbox, id) ==> HasIntent(outbox[at := r], id)
    ensures HasIntent(outbox[at := r], r.intentId)
  {
    var next := outbox[at := r];
    assert next[at].intentId == r.intentId;
    forall id | HasIntent(outbox, id) ensures HasIntent(next, id) {
      var i :| 0 <= i < |outbox| && outbox[i].intentId == id;
      assert next[i].intentId == id;
    }
  }

  lemma MatchResult(env: Env, events: seq<Row>, row: Row, outbox: seq<OutboxRow>, at: nat, r: OutboxRow)
    requires OutboxMatches(env, events, outbox) && row.eventType == RESULT_RECORDED
             && NamedIntent(env, row) == Some(r.intentId)
    requires at < |outbox| && outbox[at].intentId == r.intentId && r.state != "pending"
    ensures OutboxMatches(env, events + [row], outbox[at := r])
  {
    hide NamedIntent, Answered, Intents;
    EventTypesDistinct();
    IntentsSnoc(env, events, row);
    OneResolved(outbox, at, r);
    hide Ids, HasIntent;
    forall id ensures Answered(env, events + [row], id) <==> Answered(env, events, id) || id == r.intentId {
      AnsweredSnoc(env, events, row, id);
    }
  }

  lemma {:induction false} ReplayedOutboxMatches(env: Env, events: seq<Row>)
    requires ReplayOutbox(env, events).Some?
    ensures OutboxMatches(env, events, ReplayOutbox(env, events).value)
  {
    hide StepOutbox, NamedIntent, HasIntent, PendingAt;
    if events == [] {
      assert forall id :: !Answered(env, events, id);
    } else {
      var init, row := events[..|events| - 1], events[|events| - 1];
      assert events == init + [row];
      var outbox := ReplayOutbox(env, init).value;
      ReplayedOutboxMatches(env, init);
      StepOutboxCases(env, outbox, row);
      var next := ReplayOutbox(env, events).value;
      if row.eventType == INTENT_RECORDED {
        var r: OutboxRow :| next == outbox + [r] && r.intentId == NamedIntent(env, row).value && r.state == "pending";
        MatchIntent(env, init, row, outbox, r);
      } else if row.eventType == RESULT_RECORDED {
        var at := PendingAt(outbox, NamedIntent(env, row).value).value;
        var r: OutboxRow :| next == outbox[at := r] && r.intentId == NamedIntent(env, row).value
            && r.state != "pending";
        MatchResult(env, init, row, outbox, at, r);
      } else {
        IntentsSnoc(env, init, row);
        hide OutboxMatches, Answered;
        OtherKeepsMatch(env, init, row, outbox);
      }
    }
  }

  lemma OtherKeepsMatch(env: Env, events: seq<Row>, row: Row, outbox: seq<OutboxRow>)
    requires OutboxMatches(env, events, outbox) && row.eventType != INTENT_RECORDED && row.eventType != RESULT_RECORDED
    ensures OutboxMatches(env, events + [row], outbox)
  {
    hide Answered, NamedIntent;
    IntentsSnoc(env, events, row);
    forall id ensures Answered(env, events + [row], id) <==> Answered(env, events, id) {
      AnsweredSnoc(env, events, row, id);
    }
  }

  lemma {:induction false} PendingAreUnanswered(env: Env, events: seq<Row>, outbox: seq<OutboxRow>)
    requires forall i | 0 <= i < |outbox| ::
             outbox[i].state == "pending" <==> !Answered(env, events, outbox[i].intentId)
    ensures Ids(PendingRows(outbox)) == Unanswered(env, events, Ids(outbox))
  {
    hide Answered;
    if outbox == [] {
    } else {
      var init, last := outbox[..|outbox| - 1], outbox[|outbox| - 1];
      PendingAreUnanswered(env, events, init);
      assert Ids(outbox)[..|outbox| - 1] == Ids(init);
      assert Ids(PendingRows(init) + [last]) == Ids(PendingRows(init)) + [last.intentId];
    }
  }

  /** The effects reported as pending are the intents of the log without a result, in log order. */
  lemma {:induction false} PendingIsUnansweredIntents(env: Env, workspace: string, t: Tables)
    requires ProjectionsHold(env, workspace, t)
    ensures Ids(PendingRows(t.outbox)) == Unanswered(env, t.events, Intents(env, t.events))
  {
    ReplayedOutboxMatches(env, t.events);
    PendingAreUnanswered(env, t.events, t.outbox);
  }

  // ---------- repeated deliveries ----------

  /** The same idempotency key and the same hashed content; event identifier and time may differ. */
  predicate SameRequest(a: Command, b: Command) {
    && a.meta.key == b.meta.key && a.meta.workspace == b.meta.workspace
    && match (a, b) {
         case (CreateRun(_, r, t), CreateRun(_, r', t')) => r == r' && t == t'
         case (TransitionRun(_, r, s, e), TransitionRun(_, r', s', e')) => r == r' && s == s' && e == e'
         case (CommitArtifact(_, a, r, m, c, b), CommitArtifact(_, a', r', m', c', b')) =>
           a == a' && r == r' && m == m' && c == c' && b.contentHash == b'.contentHash
         case (RecordIntent(_, i, k, p), RecordIntent(_, i', k', p')) => i == i' && k == k' && p == p'
         case (RecordResult(_, i, r, d), RecordResult(_, i', r', d')) => i == i' && r == r' && d == d'
         case (AppendCore(_, e, p), AppendCore(_, e', p')) => e == e' && p == p'
         case _ => false
       }
  }

  lemma {:induction false} RunKeepsKeys(env: Env, workspace: string, t: Tables, cs: seq<Command>, key: string)
    requires key in t.keys
    ensures var t' := RunAll(env, workspace, t, cs); key in t'.keys && t'.keys[key] == t.keys[key]
  {
    if cs == [] {
    } else {
      var before := RunAll(env, workspace, t, cs[..|cs| - 1]);
      RunKeepsKeys(env, workspace, t, cs[..|cs| - 1], key);
      OnlyCommitsChange(env, workspace, before, cs[|cs| - 1]);
      FreshKeepsKeys(env, before, cs[|cs| - 1]);
      hide Apply, Fresh, Commits, RequestHash, Precheck;
    }
  }

  /** Once a command has committed, every repeat of it, however much later, only echoes the original event. */
  lemma {:induction false} RepeatIsReplayed(env: Env, workspace: string, t: Tables, c: Command, later: seq<Command>,
      again: Command)
    requires Commits(env, workspace, t, c) && SameRequest(c, again)
    ensures var t' := RunAll(env, workspace, Apply(env, workspace, t, c).0, later);
            Apply(env, workspace, t', again) == (t', Ok(Replayed(c.meta.eventId)))
  {
    var committed := Apply(env, workspace, t, c).0;
    var t' := RunAll(env, workspace, committed, later);
    OnlyCommitsChange(env, workspace, t, c);
    RunKeepsKeys(env, workspace, committed, later, c.meta.key);
    assert RequestHash(env, again) == RequestHash(env, c) && Precheck(workspace, again).None? by { hide Fresh, Apply; }
    hide RequestHash, Fresh, RunAll, Precheck, SameRequest;
    assert again.meta.key == c.meta.key;
  }

  /** A delivered command: a first delivery, or a repeat of the first delivery at an earlier position. */
  datatype Delivery = First(c: Command) | Again(c: Command, original: nat)

  function Delivered(ds: seq<Delivery>): (cs: seq<Command>)
    ensures |cs| == |ds|
  {
    if ds == [] then [] else Delivered(ds[..|ds| - 1]) + [ds[|ds| - 1].c]
  }

  /** The run without the repeats. */
  function Once(ds: seq<Delivery>): seq<Command> {
    if ds == [] then []
    else
      var init, last := Once(ds[..|ds| - 1]), ds[|ds| - 1];
      if last.First? then init + [last.c] else init
  }

  /** Delivery `i` repeats an earlier first delivery of the same request, and that one had committed. */
  predicate GenuineRepeat(env: Env, workspace: string, t: Tables, ds: seq<Delivery>, i: nat)
    requires i < |ds| && ds[i].Again?
  {
    var o := ds[i].original;
    && o < i && ds[o].First? && SameRequest(ds[o].c, ds[i].c)
    && Commits(env, workspace, RunAll(env, workspace, t, Once(ds[..o])), ds[o].c)
  }

  predicate AtLeastOnce(env: Env, workspace: string, t: Tables, ds: seq<Delivery>) {
    forall i | 0 <= i < |ds| && ds[i].Again? :: GenuineRepeat(env, workspace, t, ds, i)
  }

  /** Delivery `i`, a repeat, was answered with the event of the delivery it repeats. */
  predicate Echoed(env: Env, workspace: string, t: Tables, ds: seq<Delivery>, i: nat)
    requires i < |ds| && ds[i].Again? && ds[i].original < |ds|
  {
    Apply(env, workspace, RunAll(env, workspace, t, Delivered(ds[..i])), ds[i].c).1
    == Ok(Replayed(ds[ds[i].original].c.meta.eventId))
  }

  lemma {:induction false} RunAllAppend(env: Env, workspace: string, t: Tables, a: seq<Command>, b: seq<Command>)
    ensures RunAll(env, workspace, t, a + b) == RunAll(env, workspace, RunAll(env, workspace, t, a), b)
    decreases |b|
  {
    hide Apply;
    if b == [] {
      assert a + b == a;
    } else {
      var init, last := b[..|b| - 1], b[|b| - 1];
      assert (a + b)[..|a + b| - 1] == a + init && (a + b)[|a + b| - 1] == last;
      RunAllAppend(env, workspace, t, a, init);
    }
  }

  lemma {:induction false} OncePrefix(ds: seq<Delivery>, o: nat) returns (later: seq<Command>)
    requires o < |ds| && ds[o].First?
    ensures Once(ds) == Once(ds[..o]) + [ds[o].c] + later
    decreases |ds|
  {
    var init, last := ds[..|ds| - 1], ds[|ds| - 1];
    if o == |ds| - 1 {
      later := [];
    } else {
      later := OncePrefix(init, o);
      assert init[..o] == ds[..o];
      if last.First? {
        later := later + [last.c];
      }
    }
  }

  lemma AtLeastOncePrefix(env: Env, workspace: string, t: Tables, ds: seq<Delivery>, n: nat)
    requires n <= |ds| && AtLeastOnce(env, workspace, t, ds)
    ensures AtLeastOnce(env, workspace, t, ds[..n])
  {
    hide Commits, SameRequest, RunAll, Once;
    forall i | 0 <= i < n && ds[..n][i].Again? ensures GenuineRepeat(env, workspace, t, ds[..n], i) {
      assert GenuineRepeat(env, workspace, t, ds, i);
      assert ds[..n][..ds[i].original] == ds[..ds[i].original];
    }
  }

  lemma {:induction false} RepeatsChangeNothing(env: Env, workspace: string, t: Tables, ds: seq<Delivery>)
    requires AtLeastOnce(env, workspace, t, ds)
    ensures RunAll(env, workspace, t, Delivered(ds)) == RunAll(env, workspace, t, Once(ds))
  {
    hide Apply, Commits, SameRequest;
    if ds == [] {
    } else {
      var init, last := ds[..|ds| - 1], ds[|ds| - 1];
      AtLeastOncePrefix(env, workspace, t, ds, |ds| - 1);
      RepeatsChangeNothing(env, workspace, t, init);
      assert Delivered(ds)[..|ds| - 1] == Delivered(init);
      if last.Again? {
        RepeatIsEchoed(env, workspace, t, ds, |ds| - 1);
      }
      hide AtLeastOnce;
    }
  }

  /** A repeat delivered after the deliveries before it were deduplicated. */
  lemma RepeatIsEchoed(env: Env, workspace: string, t: Tables, ds: seq<Delivery>, i: nat)
    requires i < |ds| && ds[i].Again? && AtLeastOnce(env, workspace, t, ds)
    ensures ds[i].original < i
    ensures var now := RunAll(env, workspace, t, Once(ds[..i]));
            Apply(env, workspace, now, ds[i].c) == (now, Ok(Replayed(ds[ds[i].original].c.meta.eventId)))
  {
    hide Apply, Commits, SameRequest, RunAll, Once;
    assert GenuineRepeat(env, workspace, t, ds, i);
    assert ds[..i][..ds[i].original] == ds[..ds[i].original];
    RepeatAfterOnce(env, workspace, t, ds[..i], ds[i]);
  }

  /**
   * At-least-once delivery is exactly-once: with any number of repeats of
   * committed commands anywhere later in a run, the log and all tables end up
   * as without them, and each repeat is answered with the original event.
   */
  lemma {:induction false} RepeatsAreInvisible(env: Env, workspace: string, t: Tables, ds: seq<Delivery>)
    requires AtLeastOnce(env, workspace, t, ds)
    ensures RunAll(env, workspace, t, Delivered(ds)) == RunAll(env, workspace, t, Once(ds))
    ensures forall i | 0 <= i < |ds| && ds[i].Again? :: ds[i].original < |ds| && Echoed(env, workspace, t, ds, i)
  {
    hide Apply, Commits, SameRequest, RunAll, Once, Delivered, AtLeastOnce;
    RepeatsChangeNothing(env, workspace, t, ds);
    forall i | 0 <= i < |ds| && ds[i].Again? ensures ds[i].original < |ds| && Echoed(env, workspace, t, ds, i) {
      RepeatIsEchoed(env, workspace, t, ds, i);
      AtLeastOncePrefix(env, workspace, t, ds, i);
      RepeatsChangeNothing(env, workspace, t, ds[..i]);
    }
  }

  lemma RepeatAfterOnce(env: Env, workspace: string, t: Tables, init: seq<Delivery>, last: Delivery)
    requires last.Again? && last.original < |init| && init[last.original].First?
    requires SameRequest(init[last.original].c, last.c)
    requires Commits(env, workspace, RunAll(env, workspace, t, Once(init[..last.original])), init[last.original].c)
    ensures var now := RunAll(env, workspace, t, Once(init));
            Apply(env, workspace, now, last.c) == (now, Ok(Replayed(init[last.original].c.meta.eventId)))
  {
    hide Apply, Commits, SameRequest;
    var o := last.original;
    var before, c := Once(init[..o]), init[o].c;
    var later := OncePrefix(init, o);
    RunAllAppend(env, workspace, t, before + [c], later);
    assert (before + [c])[..|before|] == before;
    RepeatIsReplayed(env, workspace, RunAll(env, workspace, t, before), c, later, last.c);
  }

  // ---------- reused keys ----------

  /** The hashed texts of a request are short enough for the 64-bit length prefix. */
  predicate RequestFits(env: Env, c: Command) {
    ShortParts(RequestParts(env, c))
  }

  lemma EvidenceDetermined(env: Env, a: seq<string>, b: seq<string>)
    requires Faithful(env) && env.render(EvidenceArray(a)) == env.render(EvidenceArray(b))
    ensures a == b
  {
    var x, y := EvidenceArray(a), EvidenceArray(b);
    assert env.parse(env.render(x)) == Some(x) && env.parse(env.render(y)) == Some(y);
    assert |a| == |x.items| && |b| == |y.items|;
    forall i | 0 <= i < |a| ensures a[i] == b[i] {
      assert x.items[i] == Str(a[i]) && y.items[i] == Str(b[i]);
    }
  }

  lemma RenderDetermined(env: Env, v: Json, w: Json)
    requires Faithful(env) && env.render(v) == env.render(w)
    ensures v == w
  {
    assert env.parse(env.render(v)) == Some(v) && env.parse(env.render(w)) == Some(w);
  }

  /** Two requests with the same hash are the same request, or the hash function has a collision (`x` and `y`). */
  lemma SameHashSameRequest(env: Env, a: Command, b: Command) returns (x: Bytes, y: Bytes)
    requires Faithful(env) && InjectiveText(env.codec) && RequestFits(env, a) && RequestFits(env, b)
    requires a.meta.key == b.meta.key && a.meta.workspace == b.meta.workspace
    requires RequestHash(env, a) == RequestHash(env, b)
    ensures SameRequest(a, b) || (x != y && env.codec.sha(x) == env.codec.sha(y))
  {
    var p, q := RequestParts(env, a), RequestParts(env, b);
    x, y := Encode(p), Encode(q);
    if x == y {
      EncodeInjective(p, q);
      SamePartsSameRequest(env, a, b);
    }
  }

  /** The first hashed part of every request names its kind. */
  function Tag(c: Command): string {
    match c
    case CreateRun(_, _, _) => "create"
    case TransitionRun(_, _, _, _) => "transition"
    case CommitArtifact(_, _, _, _, _, _) => "artifact"
    case RecordIntent(_, _, _, _) => "effect-intent"
    case RecordResult(_, _, _, _) => "effect-result"
    case AppendCore(_, _, _) => "core-event"
  }

  lemma SameTagSameKind(a: Command, b: Command)
    requires Tag(a) == Tag(b)
    ensures a.CreateRun? == b.CreateRun? && a.TransitionRun? == b.TransitionRun?
            && a.CommitArtifact? == b.CommitArtifact?
    ensures a.RecordIntent? == b.RecordIntent? && a.RecordResult? == b.RecordResult? && a.AppendCore? == b.AppendCore?
  {
    assert "transition"[0] != "core-event"[0] && "effect-intent"[7] != "effect-result"[7];
  }

  lemma SameTransition(env: Env, a: Command, b: Command)
    requires Faithful(env) && InjectiveText(env.codec) && a.TransitionRun? && b.TransitionRun?
    requires RequestParts(env, a) == RequestParts(env, b)
    ensures a.runId == b.runId && a.target == b.target && a.evidence == b.evidence
  {
    var p, q := RequestParts(env, a), RequestParts(env, b);
    assert p[1] == q[1] && p[2] == q[2] && p[3] == q[3];
    EvidenceDetermined(env, a.evidence, b.evidence);
    ParseStateName(a.target);
    ParseStateName(b.target);
    hide EvidenceArray, StateName, ParseState, Faithful;
  }

  lemma SameArtifact(env: Env, a: Command, b: Command)
    requires InjectiveText(env.codec) && a.CommitArtifact? && b.CommitArtifact?
    requires RequestParts(env, a) == RequestParts(env, b)
    ensures a.artifactId == b.artifactId && a.runId == b.runId && a.mediaType == b.mediaType
    ensures a.classification == b.classification && a.blob.contentHash == b.blob.contentHash
  {
    var p, q := RequestParts(env, a), RequestParts(env, b);
    assert p[1] == q[1] && p[2] == q[2] && p[3] == q[3] && p[4] == q[4] && p[5] == q[5];
  }

  lemma SameIntent(env: Env, a: Command, b: Command)
    requires Faithful(env) && InjectiveText(env.codec) && a.RecordIntent? && b.RecordIntent?
    requires RequestParts(env, a) == RequestParts(env, b)
    ensures a.intentId == b.intentId && a.effectKind == b.effectKind && a.payload == b.payload
  {
    var p, q := RequestParts(env, a), RequestParts(env, b);
    assert p[1] == q[1] && p[2] == q[2] && p[3] == q[3];
    RenderDetermined(env, a.payload, b.payload);
    hide Faithful;
  }

  lemma SameResult(env: Env, a: Command, b: Command)
    requires Faithful(env) && InjectiveText(env.codec) && a.RecordResult? && b.RecordResult?
    requires RequestParts(env, a) == RequestParts(env, b)
    ensures a.intentId == b.intentId && a.result == b.result && a.disposition == b.disposition
  {
    var p, q := RequestParts(env, a), RequestParts(env, b);
    assert p[1] == q[1] && p[2] == q[2] && p[3] == q[3];
    RenderDetermined(env, a.result, b.result);
    NamesDetermineDisposition(a.disposition, b.disposition);
    hide Faithful, DispositionName;
  }

  lemma SameCore(env: Env, a: Command, b: Command)
    requires Faithful(env) && InjectiveText(env.codec) && a.AppendCore? && b.AppendCore?
    requires RequestParts(env, a) == RequestParts(env, b)
    ensures a.eventType == b.eventType && a.payload == b.payload
  {
    var p, q := RequestParts(env, a), RequestParts(env, b);
    assert p[1] == q[1] && p[2] == q[2];
    RenderDetermined(env, a.payload, b.payload);
    hide Faithful;
  }

  lemma SamePartsSameRequest(env: Env, a: Command, b: Command)
    requires Faithful(env) && InjectiveText(env.codec)
    requires a.meta.key == b.meta.key && a.meta.workspace == b.meta.workspace
    requires RequestParts(env, a) == RequestParts(env, b)
    ensures SameRequest(a, b)
  {
    var p, q := RequestParts(env, a), RequestParts(env, b);
    assert p[0] == env.codec.utf8(Tag(a)) && q[0] == env.codec.utf8(Tag(b));
    SameTagSameKind(a, b);
    hide Tag, EvidenceArray, Faithful;
    match a {
      case CreateRun(_, _, _) => assert p[1] == q[1] && p[2] == q[2];
      case TransitionRun(_, _, _, _) =>
        hide RequestParts;
        SameTransition(env, a, b);
      case CommitArtifact(_, _, _, _, _, _) =>
        hide RequestParts;
        SameArtifact(env, a, b);
      case RecordIntent(_, _, _, _) =>
        hide RequestParts;
        SameIntent(env, a, b);
      case RecordResult(_, _, _, _) =>
        hide RequestParts;
        SameResult(env, a, b);
      case AppendCore(_, _, _) =>
        hide RequestParts;
        SameCore(env, a, b);
    }
  }

  lemma NamesDetermineDisposition(d: Disposition, e: Disposition)
    requires DispositionName(d) == DispositionName(e)
    ensures d == e
  {
    assert "completed"[0] != "abandoned"[0];
  }

  /**
   * A key that has committed refuses every other content for good, leaving the
   * tables alone, unless the two contents exhibit a hash collision.
   */
  lemma {:induction false} ReusedKeyConflicts(env: Env, workspace: string, t: Tables, c: Command, later: seq<Command>,
      other: Command)
    returns (x: Bytes, y: Bytes)
    requires Faithful(env) && InjectiveText(env.codec) && RequestFits(env, c) && RequestFits(env, other)
    requires Commits(env, workspace, t, c) && Precheck(workspace, other).None?
    requires c.meta.key == other.meta.key && !SameRequest(c, other)
    ensures var t' := RunAll(env, workspace, Apply(env, workspace, t, c).0, later);
            Apply(env, workspace, t', other) == (t', Err(IdempotencyConflict))
                || (x != y && env.codec.sha(x) == env.codec.sha(y))
  {
    var committed := Apply(env, workspace, t, c).0;
    OnlyCommitsChange(env, workspace, t, c);
    RunKeepsKeys(env, workspace, committed, later, c.meta.key);
    x, y := [], [];
    if RequestHash(env, c) == RequestHash(env, other) {
      assert c.meta.workspace == other.meta.workspace;
      x, y := SameHashSameRequest(env, c, other);
    }
    hide RequestHash, Fresh, RunAll, SameRequest;
  }
}
