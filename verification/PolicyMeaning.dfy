/**
 * Decisions, approvals and enforced calls spelled out over the fields of
 * requests, rules and grants.
 */
module PolicyMeaning {
  import opened HashChain
  import opened Outcomes
  import opened Policy
  import opened PolicyEnforcement
  import opened Sensitivity
  import opened TextSplit
  import opened Vocabulary

  // ---------- when a rule is met ----------

  /** The root of a prefix selector without its trailing slashes. */
  ghost predicate Trimmed(root: string, t: string) {
    && (t == "" || t[|t| - 1] != '/')
    && exists slashes :: root == t + slashes && forall c | c in slashes :: c == '/'
  }

  /** The resource itself, or for a prefix also everything below a slash after it. */
  ghost predicate Selects(p: Pattern, resource: string) {
    match p
    case Exact(expected) => resource == expected
    case Prefix(root) => exists t ::
        Trimmed(root, t) && (resource == t || exists rest :: resource == t + (['/'] + rest))
  }

  lemma {:induction false} TrimTrims(root: string)
    ensures Trimmed(root, TrimSlashes(root))
  {
    if root != "" && root[|root| - 1] == '/' {
      var front := root[..|root| - 1];
      TrimTrims(front);
      var slashes :| front == TrimSlashes(front) + slashes && forall c | c in slashes :: c == '/';
      assert root == TrimSlashes(root) + (slashes + ['/']);
    } else {
      assert root == root + "";
    }
  }

  lemma OneTrimming(root: string, t: string, u: string)
    requires Trimmed(root, t) && Trimmed(root, u)
    ensures t == u
  {
    ShorterTrimming(root, t, u);
    ShorterTrimming(root, u, t);
  }

  lemma ShorterTrimming(root: string, t: string, u: string)
    requires Trimmed(root, t) && Trimmed(root, u)
    ensures |t| <= |u| && t <= root && u <= root
  {
    var v :| root == u + v && forall c | c in v :: c == '/';
    forall i | |u| <= i < |root| ensures root[i] == '/' {
      assert root[i] == v[i - |u|] && v[i - |u|] in v;
    }
    assert t != "" ==> t[|t| - 1] == root[|t| - 1];
  }

  lemma SelectsIff(p: Pattern, resource: string)
    ensures Covers(p, resource) <==> Selects(p, resource)
  {
    if p.Prefix? {
      var t := TrimSlashes(p.resource);
      TrimTrims(p.resource);
      BelowIff(t, resource);
      forall u | Trimmed(p.resource, u) ensures u == t {
        OneTrimming(p.resource, u, t);
      }
      hide Trimmed, TrimSlashes;
    }
  }

  lemma BelowIff(t: string, resource: string)
    ensures StartsWith(resource, t) && StartsWith(resource[|t|..], "/")
            <==> exists rest :: resource == t + (['/'] + rest)
  {
    if StartsWith(resource, t) && StartsWith(resource[|t|..], "/") {
      assert resource == t + (['/'] + resource[|t| + 1..]);
    }
    if rest :| resource == t + (['/'] + rest) {
      assert resource[..|t|] == t && resource[|t|..] == ['/'] + rest;
    }
  }

  predicate WrongKind(c: Condition, r: Request) {
    c.kinds != {} && r.principal.kind !in c.kinds
  }

  predicate LacksSandbox(c: Condition, r: Request) {
    c.requireSandbox && !r.sandboxed
  }

  predicate AboveMaximum(c: Condition, r: Request) {
    c.maximum.Some? && !AtMost(r.dataClass, c.maximum.value)
  }

  predicate WrongTask(c: Condition, r: Request) {
    c.task.Some? && c.task.value != r.task
  }

  predicate Meets(c: Condition, r: Request) {
    !WrongKind(c, r) && !LacksSandbox(c, r) && !AboveMaximum(c, r) && !WrongTask(c, r)
  }

  /** The rule is about the request's action and resource. */
  ghost predicate IsAbout(rule: Rule, r: Request) {
    rule.action == r.action && Selects(rule.resource, r.resource)
  }

  lemma MatchesIff(rule: Rule, r: Request)
    ensures Matches(rule, r) <==> IsAbout(rule, r) && Meets(rule.condition, r)
  {
    SelectsIff(rule.resource, r.resource);
    if rule.condition.maximum.Some? {
      RankIsTheOrder(r.dataClass, rule.condition.maximum.value);
    }
    hide Covers, Selects, AtMost, DataClass.Rank;
  }

  // ---------- decisions ----------

  /** The rule is in force in some tier. */
  predicate InForce(engine: Engine, rule: Rule) {
    engine.bundles.Some? && exists b :: 0 <= b < |engine.bundles.value| && rule in engine.bundles.value[b]
  }

  ghost predicate SomeApplies(engine: Engine, r: Request, effect: RuleEffect) {
    exists rule :: InForce(engine, rule) && rule.effect == effect && IsAbout(rule, r) && Meets(rule.condition, r)
  }

  /** A permit that applies asks for approval, or the action is none of those that do not always need it. */
  ghost predicate AsksApproval(engine: Engine, r: Request) {
    || r.action !in {FsRead, FsWrite, GitCommit, ExternalRead}
    || exists rule :: InForce(engine, rule) && rule.effect.Permit? && rule.requiresApproval && IsAbout(rule, r)
                      && Meets(rule.condition, r)
  }

  lemma InForceIff(engine: Engine, rule: Rule)
    requires engine.bundles.Some?
    ensures rule in Rules(engine.bundles.value) <==> InForce(engine, rule)
  {
    RulesAreOfBundles(engine.bundles.value, rule);
  }

  lemma AppliesIff(engine: Engine, r: Request, effect: RuleEffect)
    requires engine.bundles.Some?
    ensures MatchingIds(Rules(engine.bundles.value), r, effect) != [] <==> SomeApplies(engine, r, effect)
  {
    hide Rules, Matches, MatchingIds, InForce, IsAbout, Meets;
    forall rule
      ensures rule in Rules(engine.bundles.value) <==> InForce(engine, rule)
      ensures Matches(rule, r) <==> IsAbout(rule, r) && Meets(rule.condition, r)
    {
      InForceIff(engine, rule);
      MatchesIff(rule, r);
    }
  }

  lemma ApprovalIff(engine: Engine, r: Request)
    requires engine.bundles.Some?
    ensures NeedsApproval(Rules(engine.bundles.value), r) <==> AsksApproval(engine, r)
  {
    hide Rules, Matches, InForce, IsAbout, Meets;
    forall rule
      ensures rule in Rules(engine.bundles.value) <==> InForce(engine, rule)
      ensures Matches(rule, r) <==> IsAbout(rule, r) && Meets(rule.condition, r)
    {
      InForceIff(engine, rule);
      MatchesIff(rule, r);
    }
  }

  predicate Unisolated(r: Request) {
    r.action !in {ExternalRead, ExternalWrite} && !r.sandboxed
  }

  predicate Uncredentialed(r: Request) {
    r.action in {SecretUse, GitPush, GitForce, CloudDeploy} && r.credentialRef.None?
  }

  /** The whole decision, check by check, over the fields of the request and the rules of every tier. */
  lemma DecisionSpelledOut(env: Env, engine: Engine, r: Request, approved: bool)
    ensures var d := Decide(env, engine, r, approved);
            && d.snapshotId == engine.snapshotId
            && (d.outcome, d.reason)
               == if !ValidRequest(env, r) then (Refuse, InvalidRequest)
                  else if engine.bundles.None? then (Refuse, PolicyUnavailable)
                  else if Unisolated(r) then (Refuse, SandboxRequired)
                  else if Uncredentialed(r) then (Refuse, CredentialReferenceRequired)
                  else if SomeApplies(engine, r, Deny) then (Refuse, ExplicitDeny)
                  else if !SomeApplies(engine, r, Permit) then (Refuse, DefaultDeny)
                  else if AsksApproval(engine, r) && !approved then (RequireApproval, ApprovalRequired)
                  else (Allow, ExplicitPermit)
  {
    hide ValidRequest, Rules, MatchingIds, NeedsApproval, SomeApplies, AsksApproval, RequestDigest, DecisionParts;
    assert Unisolated(r) <==> SandboxMissing(r);
    assert Uncredentialed(r) <==> SecretMissing(r);
    hide SandboxMissing, SecretMissing, Unisolated, Uncredentialed;
    if engine.bundles.Some? {
      AppliesIff(engine, r, Deny);
      AppliesIff(engine, r, Permit);
      ApprovalIff(engine, r);
    }
  }

  /**
   * When every permit on the request's action and resource asks for another
   * kind of principal, a sandbox the request lacks, a lower data class or
   * another task, the request is refused.
   */
  lemma RefusedWithoutAFittingPermit(env: Env, engine: Engine, r: Request, approved: bool)
    requires forall rule | InForce(engine, rule) && rule.effect.Permit? && IsAbout(rule, r) ::
               || WrongKind(rule.condition, r) || LacksSandbox(rule.condition, r)
               || AboveMaximum(rule.condition, r) || WrongTask(rule.condition, r)
    ensures Decide(env, engine, r, approved).outcome.Refuse?
  {
    hide Decide, InForce, IsAbout, WrongKind, LacksSandbox, AboveMaximum, WrongTask;
    DecisionSpelledOut(env, engine, r, approved);
  }

  /**
   * With a permit on its action and resource met in all four respects, and no
   * deny met, a valid, isolated and credentialed request is not refused.
   */
  lemma AFittingPermitCounts(env: Env, engine: Engine, r: Request, approved: bool, rule: Rule)
    requires InForce(engine, rule) && rule.effect.Permit? && IsAbout(rule, r)
    requires !WrongKind(rule.condition, r) && !LacksSandbox(rule.condition, r)
    requires !AboveMaximum(rule.condition, r) && !WrongTask(rule.condition, r)
    requires !SomeApplies(engine, r, Deny)
    ensures var d := Decide(env, engine, r, approved);
            && d.reason != DefaultDeny && d.reason != ExplicitDeny
            && (ValidRequest(env, r) && !Unisolated(r) && !Uncredentialed(r) ==>
                  d.outcome == if AsksApproval(engine, r) && !approved then RequireApproval else Allow)
  {
    hide Decide, IsAbout, WrongKind, LacksSandbox, AboveMaximum, WrongTask, AsksApproval, ValidRequest;
    DecisionSpelledOut(env, engine, r, approved);
    assert SomeApplies(engine, r, Permit);
  }

  // ---------- lower data classes ----------

  lemma StillMeets(c: Condition, r: Request, d: DataClass)
    requires AtMost(d, r.dataClass) && Meets(c, r)
    ensures Meets(c, r.(dataClass := d))
  {
  }

  lemma StillValid(env: Env, r: Request, d: DataClass)
    ensures ValidRequest(env, r.(dataClass := d)) == ValidRequest(env, r)
    ensures Unisolated(r.(dataClass := d)) == Unisolated(r) && Uncredentialed(r.(dataClass := d)) == Uncredentialed(r)
    ensures forall rule :: IsAbout(rule, r.(dataClass := d)) == IsAbout(rule, r)
  {
  }

  lemma NothingDenies(engine: Engine, r: Request)
    requires forall rule | InForce(engine, rule) :: rule.effect.Permit?
    ensures !SomeApplies(engine, r, Deny)
  {
  }

  lemma StillApplies(env: Env, engine: Engine, r: Request, d: DataClass)
    requires AtMost(d, r.dataClass) && SomeApplies(engine, r, Permit)
    ensures SomeApplies(engine, r.(dataClass := d), Permit)
  {
    hide InForce, IsAbout, Meets, AtMost;
    StillValid(env, r, d);
    var rule :| InForce(engine, rule) && rule.effect == Permit && IsAbout(rule, r) && Meets(rule.condition, r);
    StillMeets(rule.condition, r, d);
  }

  /**
   * Where no rule denies, what is allowed stays allowed at every lower data
   * class, exactly unless a permit that only applies there asks for an
   * approval that was not given; it is never refused there.
   */
  lemma LowerClassesStayAllowedIff(env: Env, engine: Engine, r: Request, approved: bool, d: DataClass)
    requires forall rule | InForce(engine, rule) :: rule.effect.Permit?
    requires Decide(env, engine, r, approved).outcome.Allow? && AtMost(d, r.dataClass)
    ensures var lower := Decide(env, engine, r.(dataClass := d), approved).outcome;
            && (lower.Allow? <==> approved || !AsksApproval(engine, r.(dataClass := d)))
            && !lower.Refuse?
  {
    hide Decide, InForce, AsksApproval, SomeApplies, AtMost, ValidRequest, Unisolated, Uncredentialed, IsAbout;
    DecisionSpelledOut(env, engine, r, approved);
    DecisionSpelledOut(env, engine, r.(dataClass := d), approved);
    StillValid(env, r, d);
    NothingDenies(engine, r.(dataClass := d));
    if SomeApplies(engine, r, Permit) {
      StillApplies(env, engine, r, d);
    }
  }

  /** Such a permit exists: a confidential request is allowed and the public one under the same rules needs approval. */
  lemma LowerClassCanNeedApproval(env: Env, r: Request) returns (engine: Engine)
    requires ValidRequest(env, r) && !Unisolated(r) && r.dataClass == Confidential
    requires r.action in {FsRead, FsWrite, GitCommit, ExternalRead}
    ensures forall rule | InForce(engine, rule) :: rule.effect.Permit?
    ensures Decide(env, engine, r, false).outcome.Allow?
    ensures Decide(env, engine, r.(dataClass := Public), false).outcome.RequireApproval?
  {
    hide Decide, ValidRequest;
    var always := Rule("always", Permit, r.action, Exact(r.resource), Condition({}, false, None, None), false);
    var low := Rule("low", Permit, r.action, Exact(r.resource), Condition({}, false, Some(Internal), None), true);
    engine := Engine(Some([[always, low]]), []);
    TwoRules(engine, always, low);
    hide InForce;
    var lower := r.(dataClass := Public);
    StillValid(env, r, Public);
    assert AboveMaximum(low.condition, r) && !AboveMaximum(low.condition, lower);
    hide AtMost;
    assert IsAbout(always, r) && IsAbout(low, lower);
    assert !Uncredentialed(r);
    hide IsAbout, AboveMaximum, Unisolated, Uncredentialed;
    DecisionSpelledOut(env, engine, r, false);
    DecisionSpelledOut(env, engine, lower, false);
    assert SomeApplies(engine, r, Permit) && SomeApplies(engine, lower, Permit) && AsksApproval(engine, lower);
  }

  lemma TwoRules(engine: Engine, a: Rule, b: Rule)
    requires engine.bundles == Some([[a, b]])
    ensures forall rule :: InForce(engine, rule) <==> rule == a || rule == b
  {
    assert engine.bundles.value[0] == [a, b];
  }

  // ---------- the order of matched rules ----------

  /** Rules are taken tier by tier, and within a tier as listed. */
  lemma {:induction false} TiersInOrder(higher: seq<seq<Rule>>, lower: seq<seq<Rule>>)
    ensures Rules(higher + lower) == Rules(higher) + Rules(lower)
  {
    if higher == [] {
      assert higher + lower == lower;
    } else {
      TiersInOrder(higher[1..], lower);
      RegroupRules(higher[0], Rules(higher[1..]), Rules(lower));
      TakeTier(higher, lower);
      TakeTier(higher, []);
      hide Rules;
    }
  }

  lemma RegroupRules(a: seq<Rule>, b: seq<Rule>, c: seq<Rule>)
    ensures a + b + c == a + (b + c)
  {
  }

  lemma TakeTier(higher: seq<seq<Rule>>, lower: seq<seq<Rule>>)
    requires higher != []
    ensures Rules(higher + lower) == higher[0] + Rules(higher[1..] + lower)
    ensures higher + [] == higher && higher[1..] + [] == higher[1..]
  {
    assert (higher + lower)[1..] == higher[1..] + lower;
  }

  lemma OneTier(tier: seq<Rule>)
    ensures Rules([tier]) == tier
  {
  }

  /** `at` lists, in ascending order, exactly the positions of the rules with the effect that apply. */
  ghost predicate AppliesAt(rules: seq<Rule>, r: Request, effect: RuleEffect, at: seq<nat>) {
    && (forall j, k | 0 <= j < k < |at| :: at[j] < at[k])
    && (forall i: nat :: i in at <==> i < |rules| && rules[i].effect == effect && IsAbout(rules[i], r)
                                      && Meets(rules[i].condition, r))
  }

  predicate IdsAt(rules: seq<Rule>, at: seq<nat>, ids: seq<string>) {
    |ids| == |at| && forall k | 0 <= k < |at| :: at[k] < |rules| && ids[k] == rules[at[k]].ruleId
  }

  /** The surfaced identifiers are those of the rules that apply, in authority order. */
  lemma {:induction false} MatchedInAuthorityOrder(rules: seq<Rule>, r: Request, effect: RuleEffect)
      returns (at: seq<nat>)
    ensures AppliesAt(rules, r, effect, at) && IdsAt(rules, at, MatchingIds(rules, r, effect))
  {
    hide AppliesAt, IdsAt, Matches;
    if rules == [] {
      at := [];
      NowhereToApply(r, effect);
    } else {
      var n := |rules| - 1;
      at := MatchedInAuthorityOrder(rules[..n], r, effect);
      AppliesAtSnoc(rules, r, effect, at);
      if rules[n].effect == effect && Matches(rules[n], r) {
        IdsAtSnoc(rules, at, MatchingIds(rules[..n], r, effect));
        at := at + [n];
      } else {
        IdsAtLonger(rules, at, MatchingIds(rules[..n], r, effect));
      }
    }
  }

  lemma NowhereToApply(r: Request, effect: RuleEffect)
    ensures AppliesAt([], r, effect, []) && IdsAt([], [], [])
  {
  }

  lemma AppliesAtSnoc(rules: seq<Rule>, r: Request, effect: RuleEffect, at: seq<nat>)
    requires rules != [] && AppliesAt(rules[..|rules| - 1], r, effect, at)
    ensures var n := |rules| - 1;
            AppliesAt(rules, r, effect, if rules[n].effect == effect && Matches(rules[n], r) then at + [n] else at)
  {
    hide IsAbout, Meets, Matches;
    var n := |rules| - 1;
    MatchesIff(rules[n], r);
    forall k | 0 <= k < |at| ensures at[k] < n {
      var i := at[k];
      assert i in at;
    }
  }

  lemma IdsAtSnoc(rules: seq<Rule>, at: seq<nat>, ids: seq<string>)
    requires rules != [] && IdsAt(rules[..|rules| - 1], at, ids)
    ensures IdsAt(rules, at + [|rules| - 1], ids + [rules[|rules| - 1].ruleId])
  {
  }

  lemma IdsAtLonger(rules: seq<Rule>, at: seq<nat>, ids: seq<string>)
    requires rules != [] && IdsAt(rules[..|rules| - 1], at, ids)
    ensures IdsAt(rules, at, ids)
  {
  }

  // ---------- what a valid request may name ----------

  /** A file or repository request names a resource of its own workspace, below its name. */
  lemma ValidStaysInWorkspace(env: Env, r: Request)
    requires ValidRequest(env, r)
    ensures r.action in {FsRead, FsWrite, FsDelete}
            ==> exists rest :: r.resource == ("workspace://" + r.workspace + "/") + rest
    ensures r.action in {GitCommit, GitPush, GitForce}
            ==> exists rest :: r.resource == ("git://" + r.workspace + "/") + rest
  {
    hide ValidResource, ValidIdentifier, ValidHash, ValidCredentialRef;
    var head := r.action.Scheme() + "://" + r.workspace + "/";
    assert "workspace" + "://" == "workspace://" && "git" + "://" == "git://";
    if StartsWith(r.resource, head) {
      assert r.resource == head + r.resource[|head|..];
    }
  }

  /** A valid resource is its scheme and segments none of which is empty or steps through the hierarchy. */
  lemma ValidResourceDoesNotClimb(rules: TextRules, action: Action, value: string) returns (segments: seq<string>)
    requires ValidResource(rules, action, value)
    ensures |segments| >= 1 && value == (action.Scheme() + "://") + JoinOn(segments, '/')
    ensures forall part | part in segments :: part != "" && part != "." && part != ".."
  {
    hide JoinOn, HasEncodedDot, Action.Scheme;
    var head := action.Scheme() + "://";
    var remainder := value[|head|..];
    assert value == head + remainder;
    segments := SplitOn(remainder, '/');
    JoinSplit(remainder, '/');
    hide SplitOn;
  }

  /** Below its scheme a valid resource hides no dot in an escape, and it has no query, fragment or backslash. */
  lemma ValidResourceHidesNothing(rules: TextRules, action: Action, value: string, i: nat)
    requires ValidResource(rules, action, value)
    ensures '?' !in value && '#' !in value && '\\' !in value
    ensures |action.Scheme() + "://"| <= i && i + 2 < |value| && value[i] == '%' && value[i + 1] == '2'
            ==> value[i + 2] != 'e' && value[i + 2] != 'E'
  {
    hide SplitOn, Action.Scheme;
    var head := action.Scheme() + "://";
    var remainder := value[|head|..];
    if |head| <= i && i + 2 < |value| {
      var k := i - |head|;
      assert remainder[k] == value[i] && remainder[k + 1] == value[i + 1] && remainder[k + 2] == value[i + 2];
    }
  }

  // ---------- approvals ----------

  /** An approval is granted exactly when it names who gives it and only narrows what was asked for. */
  lemma ApprovedIff(env: Env, request: ApprovalRequest, grantId: string, approverId: string, approvedScope: Pattern,
      expiresAt: nat)
    requires CanonicalPattern(request.requestedScope) && CanonicalPattern(approvedScope)
    ensures var approval := Approve(env, request, grantId, approverId, approvedScope, expiresAt);
            && (approval.Ok? <==>
                  && grantId != "" && approverId != ""
                  && request.capability.occurredAt < expiresAt <= request.expiresAt
                  && (forall resource :: Selects(approvedScope, resource) ==> Selects(request.requestedScope, resource))
                  && Selects(approvedScope, request.capability.resource))
            && (approval.Ok? ==>
                  && approval.value.grantId == grantId && approval.value.approverId == approverId
                  && approval.value.approvalRequestId == request.approvalRequestId
                  && approval.value.approvedScope == approvedScope && approval.value.scope == request.scope
                  && approval.value.expiresAt == expiresAt
                  && approval.value.requestDigest == RequestDigest(env, request.capability))
            && (approval.Err? ==> approval.error == ScopeTooBroad)
  {
    hide Covers, Selects, PatternCovers, RequestDigest, CanonicalPattern;
    NarrowingIsExact(request.requestedScope, approvedScope);
    forall p, resource ensures Covers(p, resource) <==> Selects(p, resource) {
      SelectsIff(p, resource);
    }
  }

  /** Why a grant does not serve a request, in the order of the checks. */
  lemma ValidationSpelledOut(env: Env, ledger: Ledger, grant: Grant, request: Request, now: nat)
    ensures Validate(env, ledger, grant, request, now)
         == if grant.grantId in ledger.revoked then Some(ApprovalError.Revoked)
            else if grant.expiresAt <= now then Some(ApprovalError.Expired)
            else if !Selects(grant.approvedScope, request.resource)
                || RequestDigest(env, request) != grant.requestDigest
              then Some(BindingMismatch)
            else if grant.scope == Once && grant.grantId in ledger.consumed then Some(Replayed)
            else None
  {
    SelectsIff(grant.approvedScope, request.resource);
    hide Selects, Covers, RequestDigest;
  }

  // ---------- enforced calls ----------

  /** The grant a call that may proceed runs its effect under: none, or the valid one it needed. */
  ghost predicate Proceeds(env: Env, engine: Engine, s: State, request: Request, approval: Option<Grant>, now: nat,
      used: Option<Grant>) {
    var outcome := Decide(env, engine, request, false).outcome;
    || (outcome.Allow? && used.None?)
    || (outcome.RequireApproval? && approval.Some? && used == approval
        && Validate(env, s.ledger, approval.value, request, now).None?)
  }

  /** The identifiers of one-use grants that the call spends. */
  function SpendsGrant(used: Option<Grant>): set<string> {
    if used.Some? && used.value.scope == Once then {used.value.grantId} else {}
  }

  /** A call that may proceed records its decision, runs the effect once and records its result. */
  lemma ProceedingCallRuns(env: Env, engine: Engine, s: State, request: Request, approval: Option<Grant>, now: nat,
      world: World, used: Option<Grant>)
    requires world.auditBefore && Proceeds(env, engine, s, request, approval, now, used)
    ensures var decision := Decide(env, engine, request, used.Some?);
            var (s', answer) := ExecuteStep(env, engine, s, request, approval, now, world);
            && decision.outcome.Allow?
            && s'.ledger.revoked == s.ledger.revoked && s'.ledger.consumed == s.ledger.consumed + SpendsGrant(used)
            && s'.trace == s.trace + [Recorded(AuditOf(env, decision, request)), EffectRan(request, used, now)]
                           + (if world.auditAfter then [Enforced(decision.decisionId, now, world.effect)] else [])
            && answer == (if !world.auditAfter then AuditAfterFailed else if world.effect then Completed
               else EffectFailed)
  {
    DecisionMeaning(env, engine, request, false);
    DecisionMeaning(env, engine, request, true);
    hide Decide, MakeDecision, AuditOf, Validate, Permitted, ApprovalNeeded;
  }

  /** A call that may not proceed runs nothing, leaves the ledger, and records its refusal. */
  lemma StoppedCallRecords(env: Env, engine: Engine, s: State, request: Request, approval: Option<Grant>, now: nat,
      world: World)
    requires world.auditBefore && forall used :: !Proceeds(env, engine, s, request, approval, now, used)
    ensures var preliminary := Decide(env, engine, request, false);
            var (s', answer) := ExecuteStep(env, engine, s, request, approval, now, world);
            && s'.ledger == s.ledger
            && if preliminary.outcome.RequireApproval? && approval.Some? then
                 && Validate(env, s.ledger, approval.value, request, now).Some?
                 && answer == ApprovalRefused(Validate(env, s.ledger, approval.value, request, now).value)
                 && exists denied: Decision ::
                      && denied.outcome == Refuse && denied.reason == ApprovalInvalid
                      && denied.requestDigest == RequestDigest(env, request)
                      && s'.trace == s.trace + [Recorded(AuditOf(env, denied, request))]
               else
                 && answer == DecisionRefused(preliminary)
                 && s'.trace == s.trace + [Recorded(AuditOf(env, preliminary, request))]
  {
    hide Decide, AuditOf, Validate, RequestDigest, DecisionParts;
    var preliminary := Decide(env, engine, request, false);
    assert !Proceeds(env, engine, s, request, approval, now, None);
    assert !Proceeds(env, engine, s, request, approval, now, approval);
    var denied := MakeDecision(env, engine, request, Refuse, ApprovalInvalid, preliminary.matched);
    assert denied.outcome == Refuse && denied.reason == ApprovalInvalid
        && denied.requestDigest == RequestDigest(env, request);
    hide MakeDecision;
  }

  // ---------- what an audit record binds ----------

  /** The fields an audit record stands for, in the clear or as a hash. */
  predicate SameAudited(a: Request, b: Request) {
    && a.workspace == b.workspace && a.action == b.action && a.operationHash == b.operationHash
    && a.occurredAt == b.occurredAt && a.resource == b.resource
    && a.principal.id == b.principal.id && a.principal.kind == b.principal.kind
    && OrEmpty(a.principal.onBehalfOf) == OrEmpty(b.principal.onBehalfOf)
  }

  lemma SamePrincipal(codec: Codec, p: Principal, q: Principal)
    requires InjectiveText(codec) && PrincipalParts(codec, p) == PrincipalParts(codec, q)
    ensures p.id == q.id && p.kind == q.kind && OrEmpty(p.onBehalfOf) == OrEmpty(q.onBehalfOf)
  {
    var a, b := PrincipalParts(codec, p), PrincipalParts(codec, q);
    assert a[0] == b[0] && a[1] == b[1] && a[2] == b[2];
    KindNamesAreDistinct(p.kind, q.kind);
  }

  lemma SameResource(codec: Codec, a: string, b: string)
    requires InjectiveText(codec) && [codec.utf8(a)] == [codec.utf8(b)]
    ensures a == b
  {
    assert [codec.utf8(a)][0] == [codec.utf8(b)][0];
  }

  /**
   * Audit records of one decision are equal exactly when the requests agree on
   * workspace, action, operation, time, resource and principal, unless the hash
   * function has a collision (`x` and `y`).
   */
  lemma AuditBindsExactly(env: Env, decision: Decision, a: Request, b: Request) returns (x: Bytes, y: Bytes)
    requires InjectiveText(env.codec)
    requires ShortParts(PrincipalParts(env.codec, a.principal)) && ShortParts(PrincipalParts(env.codec, b.principal))
    requires ShortParts([env.codec.utf8(a.resource)]) && ShortParts([env.codec.utf8(b.resource)])
    ensures SameAudited(a, b) ==> AuditOf(env, decision, a) == AuditOf(env, decision, b)
    ensures AuditOf(env, decision, a) == AuditOf(env, decision, b)
            ==> SameAudited(a, b) || (x != y && env.codec.sha(x) == env.codec.sha(y))
  {
    var codec := env.codec;
    var p, q := PrincipalParts(codec, a.principal), PrincipalParts(codec, b.principal);
    var r, s := [codec.utf8(a.resource)], [codec.utf8(b.resource)];
    hide Encode, ShortParts;
    if Encode(p) != Encode(q) {
      x, y := Encode(p), Encode(q);
    } else {
      x, y := Encode(r), Encode(s);
      EncodeInjective(p, q);
      SamePrincipal(codec, a.principal, b.principal);
      if Encode(r) == Encode(s) {
        EncodeInjective(r, s);
        SameResource(codec, a.resource, b.resource);
      }
    }
    hide PrincipalParts, OrEmpty, InjectiveText;
    if AuditOf(env, decision, a) == AuditOf(env, decision, b) {
      NamesAreDistinct(a.action, b.action);
    }
  }
}
