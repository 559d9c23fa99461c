/**
 * Approval grants and the enforcement point: decide, validate the approval,
 * audit, consume the grant, run the effect, audit its result. The audit sink
 * may fail at any point and the effect may fail; everything the enforcement
 * point does is observed on a trace, and what is proved is about every trace.
 */
module PolicyEnforcement {
  import opened HashChain
  import opened Outcomes
  import opened Policy
  import opened Vocabulary

  // ---------- approvals ----------

  datatype Scope = Once | Task

  datatype ApprovalError = ScopeTooBroad | Expired | Revoked | Replayed | BindingMismatch

  datatype ApprovalRequest = ApprovalRequest(
    approvalRequestId: string, capability: Request, requestedScope: Pattern, scope: Scope, expiresAt: nat)

  datatype Grant = Grant(
    grantId: string, approvalRequestId: string, approverId: string, requestDigest: Bytes, approvedScope: Pattern,
    scope: Scope, expiresAt: nat)

  function Approve(env: Env, request: ApprovalRequest, grantId: string, approverId: string, approvedScope: Pattern,
      expiresAt: nat)
    : Result<Grant, ApprovalError>
  {
    if || grantId == "" || approverId == ""
       || expiresAt > request.expiresAt || expiresAt <= request.capability.occurredAt
       || !PatternCovers(request.requestedScope, approvedScope)
       || !Covers(approvedScope, request.capability.resource)
    then Err(ScopeTooBroad)
    else Ok(Grant(grantId, request.approvalRequestId, approverId, RequestDigest(env, request.capability), approvedScope,
                  request.scope, expiresAt))
  }

  datatype Ledger = Ledger(revoked: set<string>, consumed: set<string>)

  function Validate(env: Env, ledger: Ledger, grant: Grant, request: Request, now: nat): Option<ApprovalError> {
    if grant.grantId in ledger.revoked then Some(Revoked)
    else if now >= grant.expiresAt then Some(Expired)
    else if grant.requestDigest != RequestDigest(env, request) || !Covers(grant.approvedScope, request.resource)
        then Some(BindingMismatch)
    else if grant.scope.Once? && grant.grantId in ledger.consumed then Some(Replayed)
    else None
  }

  function Consume(ledger: Ledger, grant: Grant): Ledger {
    if grant.scope.Once? then ledger.(consumed := ledger.consumed + {grant.grantId}) else ledger
  }

  /**
   * A grant that was approved contains no resource outside the requested
   * selector, and is valid for its own request exactly until it expires, is
   * revoked or (for one use) is consumed.
   */
  lemma ApprovedGrantServesItsRequest(
      env: Env, request: ApprovalRequest, grantId: string, approverId: string, approvedScope: Pattern, expiresAt: nat,
          ledger: Ledger, now: nat)
    requires CanonicalPattern(request.requestedScope) && CanonicalPattern(approvedScope)
    ensures var approval := Approve(env, request, grantId, approverId, approvedScope, expiresAt);
            approval.Ok? ==>
              var grant := approval.value;
              && grant.expiresAt <= request.expiresAt
              && (forall r :: Covers(grant.approvedScope, r) ==> Covers(request.requestedScope, r))
              && (Validate(env, ledger, grant, request.capability, now).None?
                  <==> now < grant.expiresAt && grantId !in ledger.revoked
                       && (request.scope.Once? ==> grantId !in ledger.consumed))
  {
    NarrowingIsExact(request.requestedScope, approvedScope);
    hide Covers, PatternCovers, RequestDigest;
  }

  // ---------- observations ----------

  /** The persisted form of a decision: identities and resources only as hashes. */
  datatype Audit = Audit(
    decision: Decision, workspace: string, action: string, principalHash: Bytes, resourceHash: Bytes,
    contextHash: string, occurredAt: nat)

  function PrincipalParts(codec: Codec, p: Principal): seq<Bytes> {
    [codec.utf8(p.id), codec.utf8(p.kind.Name()), codec.utf8(OrEmpty(p.onBehalfOf))]
  }

  function AuditOf(env: Env, decision: Decision, r: Request): Audit {
    Audit(decision, r.workspace, r.action.Name(),
          Digest(env.codec, PrincipalParts(env.codec, r.principal)), Digest(env.codec, [env.codec.utf8(r.resource)]),
          r.operationHash, r.occurredAt)
  }

  datatype Observation =
    | Recorded(audit: Audit)
    | EffectRan(request: Request, used: Option<Grant>, at: nat)
    | Enforced(decisionId: Bytes, completedAt: nat, succeeded: bool)
    | GrantRevoked(grantId: string)
    | GrantUsed(grant: Grant)

  /** Which of the outside calls succeed: the audit before, the effect, the audit after. */
  datatype World = World(auditBefore: bool, effect: bool, auditAfter: bool)

  datatype Enforcement =
    | Completed
    | DecisionRefused(decision: Decision)
    | ApprovalRefused(error: ApprovalError)
    | AuditBeforeFailed
    | EffectFailed
    | AuditAfterFailed

  datatype State = State(ledger: Ledger, trace: seq<Observation>)

  const INITIAL := State(Ledger({}, {}), [])

  // ---------- one call ----------

  /** Persist the decision; a refused one ends the call, an allowed one runs the effect. */
  function Perform(env: Env, s: State, request: Request, decision: Decision, used: Option<Grant>, now: nat,
      world: World): (State, Enforcement) {
    var recorded := s.trace + [Recorded(AuditOf(env, decision, request))];
    if !world.auditBefore then (s, AuditBeforeFailed)
    else if !decision.outcome.Allow? then (s.(trace := recorded), DecisionRefused(decision))
    else
      var ledger := if used.Some? then Consume(s.ledger, used.value) else s.ledger;
      var ran := recorded + [EffectRan(request, used, now)];
      if !world.auditAfter then (State(ledger, ran), AuditAfterFailed)
      else (State(ledger, ran + [Enforced(decision.decisionId, now, world.effect)]),
            if world.effect then Completed else EffectFailed)
  }

  function ExecuteStep(env: Env, engine: Engine, s: State, request: Request, approval: Option<Grant>, now: nat,
      world: World): (State, Enforcement) {
    var preliminary := Decide(env, engine, request, false);
    if !preliminary.outcome.RequireApproval? || approval.None?
        then Perform(env, s, request, preliminary, None, now, world)
    else
      match Validate(env, s.ledger, approval.value, request, now)
      case Some(error) =>
        var denied := MakeDecision(env, engine, request, Refuse, ApprovalInvalid, preliminary.matched);
        if !world.auditBefore then (s, AuditBeforeFailed)
        else (s.(trace := s.trace + [Recorded(AuditOf(env, denied, request))]), ApprovalRefused(error))
      case None => Perform(env, s, request, Decide(env, engine, request, true), approval, now, world)
  }

  function RevokeStep(s: State, grantId: string): State {
    State(s.ledger.(revoked := s.ledger.revoked + {grantId}), s.trace + [GrantRevoked(grantId)])
  }

  /** `validate_and_consume`, called on the ledger outside an enforced call. */
  function UseStep(env: Env, s: State, grant: Grant, request: Request, now: nat): (State, Option<ApprovalError>) {
    match Validate(env, s.ledger, grant, request, now)
    case Some(error) => (s, Some(error))
    case None => (State(Consume(s.ledger, grant), s.trace + [GrantUsed(grant)]), None)
  }

  datatype Command =
    | Execute(request: Request, approval: Option<Grant>, now: nat, world: World)
    | Revoke(grantId: string)
    | Use(grant: Grant, request: Request, now: nat)

  function Step(env: Env, engine: Engine, s: State, c: Command): State {
    match c
    case Execute(request, approval, now, world) => ExecuteStep(env, engine, s, request, approval, now, world).0
    case Revoke(grantId) => RevokeStep(s, grantId)
    case Use(grant, request, now) => UseStep(env, s, grant, request, now).0
  }

  function Run(env: Env, engine: Engine, s: State, commands: seq<Command>): State
    decreases |commands|
  {
    if commands == [] then s else Run(env, engine, Step(env, engine, s, commands[0]), commands[1..])
  }

  // ---------- every trace is authorized ----------

  /** The identifiers revoked so far. */
  function RevokedIn(trace: seq<Observation>): set<string> {
    if trace == [] then {}
    else
      var last := trace[|trace| - 1];
      RevokedIn(trace[..|trace| - 1]) + if last.GrantRevoked? then {last.grantId} else {}
  }

  predicate SpendsOnce(o: Observation) {
    o.EffectRan? && o.used.Some? && o.used.value.scope.Once?
  }

  predicate Spends(o: Observation) {
    SpendsOnce(o) || (o.GrantUsed? && o.grant.scope.Once?)
  }

  function SpentId(o: Observation): string
    requires Spends(o)
  {
    if o.EffectRan? then o.used.value.grantId else o.grant.grantId
  }

  /** The identifiers of the one-use grants that an effect has run under or that were used directly. */
  function SpentIn(trace: seq<Observation>): set<string> {
    if trace == [] then {}
    else
      var last := trace[|trace| - 1];
      SpentIn(trace[..|trace| - 1]) + if Spends(last) then {SpentId(last)} else {}
  }

  /** The last thing recorded is an allow decision on this very request. */
  predicate JustAllowed(env: Env, before: seq<Observation>, request: Request) {
    && before != []
    && var last := before[|before| - 1];
       && last.Recorded?
       && last.audit.decision.outcome.Allow?
       && last.audit.decision.requestDigest == RequestDigest(env, request)
       && last.audit == AuditOf(env, last.audit.decision, request)
  }

  /** The grant is bound to the request, unexpired, not revoked, and not spent when it is for one use. */
  predicate GrantServes(env: Env, before: seq<Observation>, grant: Grant, request: Request, at: nat) {
    && at < grant.expiresAt
    && grant.requestDigest == RequestDigest(env, request)
    && Covers(grant.approvedScope, request.resource)
    && grant.grantId !in RevokedIn(before)
    && (grant.scope.Once? ==> grant.grantId !in SpentIn(before))
  }

  /** An effect may run here: policy permits it, approval was given where needed, and the decision is on record. */
  ghost predicate MayRun(env: Env, engine: Engine, before: seq<Observation>, request: Request, used: Option<Grant>,
      at: nat) {
    && Permitted(env, engine, request)
    && (ApprovalNeeded(engine, request) <==> used.Some?)
    && JustAllowed(env, before, request)
    && (used.Some? ==> GrantServes(env, before, used.value, request, at))
  }

  ghost predicate Authorized(env: Env, engine: Engine, trace: seq<Observation>) {
    forall i | 0 <= i < |trace| && trace[i].EffectRan? ::
        MayRun(env, engine, trace[..i], trace[i].request, trace[i].used, trace[i].at)
  }

  lemma AuthorizedSnoc(env: Env, engine: Engine, trace: seq<Observation>, o: Observation)
    requires Authorized(env, engine, trace)
    requires o.EffectRan? ==> MayRun(env, engine, trace, o.request, o.used, o.at)
    ensures Authorized(env, engine, trace + [o])
  {
    hide MayRun;
    var longer := trace + [o];
    forall i | 0 <= i < |longer| && longer[i].EffectRan?
      ensures MayRun(env, engine, longer[..i], longer[i].request, longer[i].used, longer[i].at)
    {
      assert longer[..i] == trace[..i];
      assert trace[..|trace|] == trace;
    }
  }

  lemma CountsSnoc(trace: seq<Observation>, o: Observation)
    ensures RevokedIn(trace + [o]) == RevokedIn(trace) + if o.GrantRevoked? then {o.grantId} else {}
    ensures SpentIn(trace + [o]) == SpentIn(trace) + if Spends(o) then {SpentId(o)} else {}
  {
    assert (trace + [o])[..|trace|] == trace;
  }

  /** The trace is authorized and the ledger is what the trace says it is. */
  ghost predicate Sound(env: Env, engine: Engine, s: State) {
    && Authorized(env, engine, s.trace)
    && s.ledger.revoked == RevokedIn(s.trace)
    && s.ledger.consumed == SpentIn(s.trace)
  }

  lemma InitialIsSound(env: Env, engine: Engine)
    ensures Sound(env, engine, INITIAL)
  {
  }

  lemma RecordKeepsSound(env: Env, engine: Engine, s: State, o: Observation)
    requires Sound(env, engine, s) && !o.EffectRan? && !o.GrantRevoked? && !o.GrantUsed?
    ensures Sound(env, engine, s.(trace := s.trace + [o]))
  {
    AuthorizedSnoc(env, engine, s.trace, o);
    CountsSnoc(s.trace, o);
    hide Authorized, RevokedIn, SpentIn;
  }

  lemma PerformKeepsSound(env: Env, engine: Engine, s: State, request: Request, decision: Decision,
      used: Option<Grant>, now: nat, world: World)
    requires Sound(env, engine, s) && decision.requestDigest == RequestDigest(env, request)
    requires decision.outcome.Allow?
             ==> Permitted(env, engine, request) && (ApprovalNeeded(engine, request) <==> used.Some?)
    requires used.Some? ==> Validate(env, s.ledger, used.value, request, now).None?
    ensures Sound(env, engine, Perform(env, s, request, decision, used, now, world).0)
  {
    hide Authorized, Permitted, ApprovalNeeded, RequestDigest, RevokedIn, SpentIn, Covers;
    var allowed := Recorded(AuditOf(env, decision, request));
    var effect := EffectRan(request, used, now);
    var recorded := s.trace + [allowed];
    RecordKeepsSound(env, engine, s, allowed);
    CountsSnoc(s.trace, allowed);
    if decision.outcome.Allow? {
      assert recorded[|recorded| - 1] == allowed;
      assert JustAllowed(env, recorded, request);
      AuthorizedSnoc(env, engine, recorded, effect);
      CountsSnoc(recorded, effect);
      var ledger := if used.Some? then Consume(s.ledger, used.value) else s.ledger;
      assert Sound(env, engine, State(ledger, recorded + [effect]));
      RecordKeepsSound(env, engine, State(ledger, recorded + [effect]),
          Enforced(decision.decisionId, now, world.effect));
    }
  }

  lemma ExecuteKeepsSound(env: Env, engine: Engine, s: State, request: Request, approval: Option<Grant>, now: nat,
      world: World)
    requires Sound(env, engine, s)
    ensures Sound(env, engine, ExecuteStep(env, engine, s, request, approval, now, world).0)
  {
    DecisionMeaning(env, engine, request, false);
    DecisionMeaning(env, engine, request, true);
    hide Sound, Decide, Permitted, ApprovalNeeded, RequestDigest, Perform, Validate, MakeDecision, AuditOf;
    var preliminary := Decide(env, engine, request, false);
    if !preliminary.outcome.RequireApproval? || approval.None? {
      PerformKeepsSound(env, engine, s, request, preliminary, None, now, world);
    } else if Validate(env, s.ledger, approval.value, request, now).None? {
      PerformKeepsSound(env, engine, s, request, Decide(env, engine, request, true), approval, now, world);
    } else {
      var denied := MakeDecision(env, engine, request, Refuse, ApprovalInvalid, preliminary.matched);
      RecordKeepsSound(env, engine, s, Recorded(AuditOf(env, denied, request)));
    }
  }

  lemma UseKeepsSound(env: Env, engine: Engine, s: State, grant: Grant, request: Request, now: nat)
    requires Sound(env, engine, s)
    ensures Sound(env, engine, UseStep(env, s, grant, request, now).0)
  {
    AuthorizedSnoc(env, engine, s.trace, GrantUsed(grant));
    CountsSnoc(s.trace, GrantUsed(grant));
    hide Authorized, RevokedIn, SpentIn, Validate;
  }

  lemma RevokeKeepsSound(env: Env, engine: Engine, s: State, grantId: string)
    requires Sound(env, engine, s)
    ensures Sound(env, engine, RevokeStep(s, grantId))
  {
    AuthorizedSnoc(env, engine, s.trace, GrantRevoked(grantId));
    CountsSnoc(s.trace, GrantRevoked(grantId));
    hide Authorized, RevokedIn, SpentIn;
  }

  lemma StepKeepsSound(env: Env, engine: Engine, s: State, c: Command)
    requires Sound(env, engine, s)
    ensures Sound(env, engine, Step(env, engine, s, c))
  {
    hide Sound, ExecuteStep, UseStep, RevokeStep;
    match c {
      case Execute(request, approval, now, world) => ExecuteKeepsSound(env, engine, s, request, approval, now, world);
      case Revoke(grantId) => RevokeKeepsSound(env, engine, s, grantId);
      case Use(grant, request, now) => UseKeepsSound(env, engine, s, grant, request, now);
    }
  }

  /**
   * Over every run, with audits and effects failing anywhere: every effect ran
   * right after an allow decision on that very request was recorded, policy
   * permitted it, and where approval was needed it ran under a grant bound to
   * the request that was neither revoked nor spent before. The ledger's sets
   * are exactly the revocations and one-use effects of the trace.
   */
  lemma {:induction false} RunKeepsSound(env: Env, engine: Engine, s: State, commands: seq<Command>)
    requires Sound(env, engine, s)
    ensures Sound(env, engine, Run(env, engine, s, commands))
    decreases |commands|
  {
    hide Sound, Step;
    if commands == [] {
    } else {
      StepKeepsSound(env, engine, s, commands[0]);
      RunKeepsSound(env, engine, Step(env, engine, s, commands[0]), commands[1..]);
    }
  }

  lemma {:induction false} SeenBefore(trace: seq<Observation>, i: nat)
    requires i < |trace|
    ensures trace[i].GrantRevoked? ==> trace[i].grantId in RevokedIn(trace)
    ensures Spends(trace[i]) ==> SpentId(trace[i]) in SpentIn(trace)
  {
    if i < |trace| - 1 {
      SeenBefore(trace[..|trace| - 1], i);
    }
  }

  /** No effect ran under a one-use grant whose identifier an earlier effect or direct use had spent. */
  predicate OnceGrantsServeOnce(trace: seq<Observation>) {
    forall i, j | 0 <= i < j < |trace| && Spends(trace[i]) && SpendsOnce(trace[j]) ::
        SpentId(trace[i]) != SpentId(trace[j])
  }

  /**
   * A one-use grant authorizes at most one effect in the whole life of the
   * enforcement point, and none once it was used directly, whatever fails
   * around it.
   */
  lemma OneEffectPerOnceGrant(env: Env, engine: Engine, commands: seq<Command>)
    ensures OnceGrantsServeOnce(Run(env, engine, INITIAL, commands).trace)
  {
    hide Run, Permitted, ApprovalNeeded, JustAllowed, RevokedIn;
    var trace := Run(env, engine, INITIAL, commands).trace;
    InitialIsSound(env, engine);
    RunKeepsSound(env, engine, INITIAL, commands);
    forall i, j | 0 <= i < j < |trace| && Spends(trace[i]) && SpendsOnce(trace[j])
        ensures SpentId(trace[i]) != SpentId(trace[j]) {
      assert MayRun(env, engine, trace[..j], trace[j].request, trace[j].used, trace[j].at);
      assert trace[..j][i] == trace[i];
      SeenBefore(trace[..j], i);
    }
  }

  /** No effect ran under a grant revoked earlier. */
  predicate RevocationsHold(trace: seq<Observation>) {
    forall i, j | 0 <= i < j < |trace| && trace[i].GrantRevoked? && trace[j].EffectRan? && trace[j].used.Some? ::
      trace[j].used.value.grantId != trace[i].grantId
  }

  /** No effect of any run follows the revocation of the grant it runs under. */
  lemma NoEffectAfterRevocation(env: Env, engine: Engine, commands: seq<Command>)
    ensures RevocationsHold(Run(env, engine, INITIAL, commands).trace)
  {
    hide Run, Permitted, ApprovalNeeded, JustAllowed, SpentIn;
    var trace := Run(env, engine, INITIAL, commands).trace;
    InitialIsSound(env, engine);
    RunKeepsSound(env, engine, INITIAL, commands);
    forall i, j | 0 <= i < j < |trace| && trace[i].GrantRevoked? && trace[j].EffectRan? && trace[j].used.Some?
      ensures trace[j].used.value.grantId != trace[i].grantId
    {
      assert MayRun(env, engine, trace[..j], trace[j].request, trace[j].used, trace[j].at);
      assert trace[..j][i] == trace[i];
      SeenBefore(trace[..j], i);
    }
  }

  /** No effect ran under an expired grant. */
  predicate GrantsAreLive(trace: seq<Observation>) {
    forall j | 0 <= j < |trace| && trace[j].EffectRan? && trace[j].used.Some? ::
        trace[j].at < trace[j].used.value.expiresAt
  }

  /** No effect of any run is completed at or after the expiry of the grant it runs under. */
  lemma NoEffectUnderExpiredGrant(env: Env, engine: Engine, commands: seq<Command>)
    ensures GrantsAreLive(Run(env, engine, INITIAL, commands).trace)
  {
    hide Run, Permitted, ApprovalNeeded, JustAllowed, SpentIn, RevokedIn;
    var trace := Run(env, engine, INITIAL, commands).trace;
    InitialIsSound(env, engine);
    RunKeepsSound(env, engine, INITIAL, commands);
    forall j | 0 <= j < |trace| && trace[j].EffectRan? && trace[j].used.Some?
      ensures trace[j].at < trace[j].used.value.expiresAt
    {
      assert MayRun(env, engine, trace[..j], trace[j].request, trace[j].used, trace[j].at);
    }
  }

  /** An effect that ran under a grant made for the approved request. */
  predicate RanUnderApprovalOf(env: Env, o: Observation, approved: Request) {
    o.EffectRan? && o.used.Some? && o.used.value.requestDigest == RequestDigest(env, approved)
  }

  /**
   * The grant an effect ran under was approved for that very request: its
   * bound fields are those of the request the grant was made for, unless the
   * hash function has a collision (`x` and `y`).
   */
  lemma EffectRanAsApproved(env: Env, engine: Engine, commands: seq<Command>, j: nat, approved: Request)
      returns (x: Bytes, y: Bytes)
    requires InjectiveText(env.codec) && ShortParts(RequestParts(env.codec, approved))
    ensures var trace := Run(env, engine, INITIAL, commands).trace;
            j < |trace| && RanUnderApprovalOf(env, trace[j], approved)
                && ShortParts(RequestParts(env.codec, trace[j].request))
            ==> SameBinding(approved, trace[j].request) || (x != y && env.codec.sha(x) == env.codec.sha(y))
  {
    hide Run, Permitted, ApprovalNeeded, JustAllowed, SpentIn, RevokedIn, RequestDigest, RequestParts, ShortParts,
        SameBinding, Covers;
    var trace := Run(env, engine, INITIAL, commands).trace;
    x, y := [], [];
    InitialIsSound(env, engine);
    RunKeepsSound(env, engine, INITIAL, commands);
    if j < |trace| && RanUnderApprovalOf(env, trace[j], approved)
        && ShortParts(RequestParts(env.codec, trace[j].request)) {
      assert MayRun(env, engine, trace[..j], trace[j].request, trace[j].used, trace[j].at);
      x, y := DigestBindsExactly(env, approved, trace[j].request);
    }
  }

  // ---------- failing audits ----------

  /** A failed audit before the effect leaves everything as it was: nothing ran, nothing was consumed. */
  lemma FailedAuditChangesNothing(env: Env, engine: Engine, s: State, request: Request, approval: Option<Grant>,
      now: nat, world: World)
    requires !world.auditBefore
    ensures ExecuteStep(env, engine, s, request, approval, now, world) == (s, AuditBeforeFailed)
  {
    hide Decide, MakeDecision, Validate;
  }

  /**
   * Every answer a caller gets rests on exactly one decision recorded by the
   * call, of the outcome the answer reports.
   */
  lemma EveryAnswerIsOnRecord(env: Env, engine: Engine, s: State, request: Request, approval: Option<Grant>, now: nat,
      world: World)
    requires world.auditBefore
    ensures var (next, enforcement) := ExecuteStep(env, engine, s, request, approval, now, world);
            && |s.trace| < |next.trace| && next.trace[..|s.trace|] == s.trace
            && next.trace[|s.trace|].Recorded?
            && (forall i | |s.trace| < i < |next.trace| :: !next.trace[i].Recorded?)
            && var decision := next.trace[|s.trace|].audit.decision;
               && decision.requestDigest == RequestDigest(env, request)
               && (decision.outcome.Allow?
                  <==> enforcement.Completed? || enforcement.EffectFailed? || enforcement.AuditAfterFailed?)
               && (enforcement.DecisionRefused? ==> enforcement.decision == decision)
               && (enforcement.ApprovalRefused? ==> decision.outcome.Refuse? && decision.reason.ApprovalInvalid?)
  {
    DecisionMeaning(env, engine, request, false);
    DecisionMeaning(env, engine, request, true);
    hide Decide, Validate, Permitted, ApprovalNeeded, RequestDigest;
  }

  function EffectsIn(trace: seq<Observation>): nat {
    if trace == [] then 0 else EffectsIn(trace[..|trace| - 1]) + if trace[|trace| - 1].EffectRan? then 1 else 0
  }

  function EnforcedIn(trace: seq<Observation>): nat {
    if trace == [] then 0 else EnforcedIn(trace[..|trace| - 1]) + if trace[|trace| - 1].Enforced? then 1 else 0
  }

  /** The calls of a run that reported a failed audit after the effect. */
  function Unreconciled(env: Env, engine: Engine, s: State, commands: seq<Command>): nat
    decreases |commands|
  {
    if commands == [] then 0
    else
      var c := commands[0];
      (if c.Execute? && ExecuteStep(env, engine, s, c.request, c.approval, c.now, c.world).1.AuditAfterFailed? then 1
          else 0)
      + Unreconciled(env, engine, Step(env, engine, s, c), commands[1..])
  }

  lemma EffectsSnoc(trace: seq<Observation>, o: Observation)
    ensures EffectsIn(trace + [o]) == EffectsIn(trace) + if o.EffectRan? then 1 else 0
    ensures EnforcedIn(trace + [o]) == EnforcedIn(trace) + if o.Enforced? then 1 else 0
  {
    assert (trace + [o])[..|trace|] == trace;
  }

  lemma PerformReports(env: Env, s: State, request: Request, decision: Decision, used: Option<Grant>, now: nat,
      world: World)
    ensures var (next, enforcement) := Perform(env, s, request, decision, used, now, world);
            && EffectsIn(next.trace) - EnforcedIn(next.trace)
               == EffectsIn(s.trace) - EnforcedIn(s.trace) + (if enforcement.AuditAfterFailed? then 1 else 0)
  {
    hide EffectsIn, EnforcedIn;
    var allowed := Recorded(AuditOf(env, decision, request));
    var recorded := s.trace + [allowed];
    var ran := recorded + [EffectRan(request, used, now)];
    EffectsSnoc(s.trace, allowed);
    EffectsSnoc(recorded, EffectRan(request, used, now));
    EffectsSnoc(ran, Enforced(decision.decisionId, now, world.effect));
  }

  lemma StepReports(env: Env, engine: Engine, s: State, c: Command)
    ensures var next := Step(env, engine, s, c).trace;
            EffectsIn(next) - EnforcedIn(next)
                == EffectsIn(s.trace) - EnforcedIn(s.trace) + Unreconciled(env, engine, s, [c])
  {
    hide EffectsIn, EnforcedIn, Perform, Decide, Validate;
    assert [c][0] == c && [c][1..] == [];
    match c {
      case Execute(request, approval, now, world) =>
        var preliminary := Decide(env, engine, request, false);
        PerformReports(env, s, request, preliminary, None, now, world);
        PerformReports(env, s, request, Decide(env, engine, request, true), approval, now, world);
        var denied := MakeDecision(env, engine, request, Refuse, ApprovalInvalid, preliminary.matched);
        EffectsSnoc(s.trace, Recorded(AuditOf(env, denied, request)));
      case Revoke(grantId) =>
        EffectsSnoc(s.trace, GrantRevoked(grantId));
      case Use(grant, request, now) =>
        EffectsSnoc(s.trace, GrantUsed(grant));
    }
  }

  /** Every effect without a recorded result was reported to its caller as needing reconciliation, and only those. */
  lemma {:induction false} UnrecordedEffectsAreReported(env: Env, engine: Engine, s: State, commands: seq<Command>)
    ensures var trace := Run(env, engine, s, commands).trace;
            EffectsIn(trace) - EnforcedIn(trace)
                == EffectsIn(s.trace) - EnforcedIn(s.trace) + Unreconciled(env, engine, s, commands)
    decreases |commands|
  {
    hide EffectsIn, EnforcedIn, ExecuteStep;
    if commands == [] {
    } else {
      var c := commands[0];
      StepReports(env, engine, s, c);
      UnrecordedEffectsAreReported(env, engine, Step(env, engine, s, c), commands[1..]);
      assert [c][0] == c && [c][1..] == [];
    }
  }

  // ---------- the enforcement point ----------

  class ApprovalLedger {
    var revoked: set<string>
    var consumed: set<string>

    constructor ()
      ensures View() == Ledger({}, {})
    {
      revoked, consumed := {}, {};
    }

    function View(): Ledger
      reads this
    {
      Ledger(revoked, consumed)
    }

    method RevokeGrant(grantId: string)
      modifies this
      ensures View() == old(View()).(revoked := old(revoked) + {grantId})
    {
      revoked := revoked + {grantId};
    }

    method ConsumeGrant(grant: Grant)
      modifies this
      ensures View() == Consume(old(View()), grant)
    {
      if grant.scope.Once? {
        consumed := consumed + {grant.grantId};
      }
    }
  }

  class PolicyEnforcer {
    const env: Env
    const engine: Engine
    const approvals: ApprovalLedger
    /** What the audit sink persisted and the effects that ran, in order. */
    var trace: seq<Observation>

    constructor (env: Env, engine: Engine)
      ensures this.env == env && this.engine == engine && fresh(approvals) && View() == INITIAL
    {
      this.env, this.engine, trace := env, engine, [];
      approvals := new ApprovalLedger();
    }

    function View(): State
      reads this, approvals
    {
      State(approvals.View(), trace)
    }

    method Persist(decision: Decision, request: Request, world: World) returns (ok: bool)
      modifies this
      ensures ok == world.auditBefore
      ensures trace == if ok then old(trace) + [Recorded(AuditOf(env, decision, request))] else old(trace)
    {
      if world.auditBefore {
        trace := trace + [Recorded(AuditOf(env, decision, request))];
      }
      return world.auditBefore;
    }

    method RecordEnforcement(decision: Decision, now: nat, succeeded: bool, world: World) returns (ok: bool)
      modifies this
      ensures ok == world.auditAfter
      ensures trace == if ok then old(trace) + [Enforced(decision.decisionId, now, succeeded)] else old(trace)
    {
      if world.auditAfter {
        trace := trace + [Enforced(decision.decisionId, now, succeeded)];
      }
      return world.auditAfter;
    }

    /** Evaluate, persist the decision, and only then run the effect. */
    method ExecuteRequest(request: Request, approval: Option<Grant>, now: nat, world: World)
        returns (enforcement: Enforcement)
      modifies this, approvals
      ensures (View(), enforcement) == ExecuteStep(env, engine, old(View()), request, approval, now, world)
    {
      DecisionMeaning(env, engine, request, false);
      hide Decide, MakeDecision, Validate, Permitted, ApprovalNeeded, AuditOf;
      var preliminary := DecideRequest(env, engine, request, false);
      var approvalValid := false;
      if preliminary.outcome.RequireApproval? {
        if approval.None? {
          var recorded := Persist(preliminary, request, world);
          return if recorded then DecisionRefused(preliminary) else AuditBeforeFailed;
        }
        var refusal := Validate(env, approvals.View(), approval.value, request, now);
        if refusal.Some? {
          var denied := MakeDecision(env, engine, request, Refuse, ApprovalInvalid, preliminary.matched);
          var recorded := Persist(denied, request, world);
          return if recorded then ApprovalRefused(refusal.value) else AuditBeforeFailed;
        }
        approvalValid := true;
      }
      var decision := preliminary;
      if approvalValid {
        decision := DecideRequest(env, engine, request, true);
      }
      var recorded := Persist(decision, request, world);
      if !recorded {
        return AuditBeforeFailed;
      }
      if !decision.outcome.Allow? {
        return DecisionRefused(decision);
      }
      if approvalValid {
        approvals.ConsumeGrant(approval.value);
      }
      trace := trace + [EffectRan(request, if approvalValid then approval else None, now)];
      var enforced := RecordEnforcement(decision, now, world.effect, world);
      if !enforced {
        return AuditAfterFailed;
      }
      return if world.effect then Completed else EffectFailed;
    }

    /** Access to the ledger outside an enforced call. */
    method UseGrant(grant: Grant, request: Request, now: nat) returns (refusal: Option<ApprovalError>)
      modifies this, approvals
      ensures (View(), refusal) == UseStep(env, old(View()), grant, request, now)
    {
      hide Validate;
      refusal := Validate(env, approvals.View(), grant, request, now);
      if refusal.None? {
        approvals.ConsumeGrant(grant);
        trace := trace + [GrantUsed(grant)];
      }
    }

    method RevokeGrant(grantId: string)
      modifies this, approvals
      ensures View() == RevokeStep(old(View()), grantId)
    {
      approvals.RevokeGrant(grantId);
      trace := trace + [GrantRevoked(grantId)];
    }
  }
}
