/**
 * The deterministic policy decision point: which rules of the ordered bundles
 * match a request, what they decide, and what the digests of requests and
 * decisions bind.
 */
module Policy {
  import opened HashChain
  import opened Outcomes
  import opened Sensitivity
  import opened TextSplit
  import opened Vocabulary

  datatype Env = Env(codec: Codec, text: TextRules)

  // ---------- requests ----------

  datatype PrincipalKind =
    | Human | Device | AgentRuntime | Subagent | Plugin | Workload | Service | OrganizationAdmin | SecurityOperator
  {
    function Name(): string {
      match this
      case Human => "human"
      case Device => "device"
      case AgentRuntime => "agent_runtime"
      case Subagent => "subagent"
      case Plugin => "plugin"
      case Workload => "workload"
      case Service => "service"
      case OrganizationAdmin => "organization_admin"
      case SecurityOperator => "security_operator"
    }
  }

  lemma KindNamesAreDistinct(a: PrincipalKind, b: PrincipalKind)
    requires a.Name() == b.Name()
    ensures a == b
  {
    assert |a.Name()| == |b.Name()| && a.Name()[1] == b.Name()[1];
  }

  datatype Principal = Principal(id: string, kind: PrincipalKind, onBehalfOf: Option<string>)

  datatype Request = Request(
    requestId: string, principal: Principal, workspace: string, task: string, action: Action, resource: string,
    operationHash: string, credentialRef: Option<string>, sandboxed: bool, dataClass: DataClass, occurredAt: nat)

  predicate ValidIdentifier(s: string) {
    && 0 < |s| <= 128
    && forall c | c in s :: 'A' <= c <= 'Z' || 'a' <= c <= 'z' || '0' <= c <= '9' || c == '_' || c == '-' || c == '.'
  }

  predicate ValidHash(s: string) {
    && |s| == 71
    && StartsWith(s, "sha256:")
    && forall c | c in s[7..] :: '0' <= c <= '9' || 'a' <= c <= 'f'
  }

  predicate ValidCredentialRef(env: Env, reference: string) {
    && StartsWith(reference, "credential://")
    && |reference| > |"credential://"|
    && forall c | c in reference :: !env.text.whitespace(c)
  }

  predicate ValidRequest(env: Env, r: Request) {
    && r.requestId != "" && r.principal.id != "" && r.workspace != "" && r.task != ""
    && ValidIdentifier(r.workspace)
    && ValidHash(r.operationHash)
    && (r.credentialRef.Some? ==> ValidCredentialRef(env, r.credentialRef.value))
    && ValidResource(env.text, r.action, r.resource)
    && (r.action.Scheme() == "workspace" || r.action.Scheme() == "git"
        ==> StartsWith(r.resource, r.action.Scheme() + "://" + r.workspace + "/"))
  }

  // ---------- what a request digest binds ----------

  function OrEmpty(o: Option<string>): string {
    if o.Some? then o.value else ""
  }

  function Flag(b: bool): Bytes {
    [if b then 1 else 0]
  }

  /** The parts hashed into the request digest; the time of the request is not one of them. */
  function RequestParts(codec: Codec, r: Request): seq<Bytes> {
    [codec.utf8(r.requestId), codec.utf8(r.principal.id), codec.utf8(r.principal.kind.Name()),
     codec.utf8(OrEmpty(r.principal.onBehalfOf)), codec.utf8(r.workspace), codec.utf8(r.task),
     codec.utf8(r.action.Name()), codec.utf8(r.resource), codec.utf8(r.operationHash),
     codec.utf8(OrEmpty(r.credentialRef)), Flag(r.sandboxed), [r.dataClass.Rank()]]
  }

  function RequestDigest(env: Env, r: Request): Bytes {
    Digest(env.codec, RequestParts(env.codec, r))
  }

  /** Everything but the time, with a missing delegation or credential read as the empty text. */
  predicate SameBinding(a: Request, b: Request) {
    && a.requestId == b.requestId && a.principal.id == b.principal.id && a.principal.kind == b.principal.kind
    && OrEmpty(a.principal.onBehalfOf) == OrEmpty(b.principal.onBehalfOf)
    && a.workspace == b.workspace && a.task == b.task && a.action == b.action && a.resource == b.resource
    && a.operationHash == b.operationHash && OrEmpty(a.credentialRef) == OrEmpty(b.credentialRef)
    && a.sandboxed == b.sandboxed && a.dataClass == b.dataClass
  }

  /**
   * Two requests share a digest exactly when they agree on every bound field,
   * unless the hash function has a collision (`x` and `y`). Between valid
   * requests the credential reference is bound too; a delegation to the empty
   * identity is not told apart from no delegation.
   */
  lemma DigestBindsExactly(env: Env, a: Request, b: Request) returns (x: Bytes, y: Bytes)
    requires InjectiveText(env.codec)
    requires ShortParts(RequestParts(env.codec, a)) && ShortParts(RequestParts(env.codec, b))
    ensures SameBinding(a, b) ==> RequestDigest(env, a) == RequestDigest(env, b)
    ensures RequestDigest(env, a) == RequestDigest(env, b)
         ==> SameBinding(a, b) || (x != y && env.codec.sha(x) == env.codec.sha(y))
    ensures SameBinding(a, b) && ValidRequest(env, a) && ValidRequest(env, b) ==> a.credentialRef == b.credentialRef
  {
    hide Encode, ShortParts, ValidResource, ValidIdentifier, ValidHash;
    var p, q := RequestParts(env.codec, a), RequestParts(env.codec, b);
    x, y := Encode(p), Encode(q);
    if x == y {
      EncodeInjective(p, q);
      PartsBind(env, a, b);
    }
  }

  lemma PartsAgree(codec: Codec, a: Request, b: Request)
    requires RequestParts(codec, a) == RequestParts(codec, b)
    ensures codec.utf8(a.requestId) == codec.utf8(b.requestId)
            && codec.utf8(a.principal.id) == codec.utf8(b.principal.id)
    ensures codec.utf8(a.principal.kind.Name()) == codec.utf8(b.principal.kind.Name())
    ensures codec.utf8(OrEmpty(a.principal.onBehalfOf)) == codec.utf8(OrEmpty(b.principal.onBehalfOf))
    ensures codec.utf8(a.workspace) == codec.utf8(b.workspace) && codec.utf8(a.task) == codec.utf8(b.task)
    ensures codec.utf8(a.action.Name()) == codec.utf8(b.action.Name())
            && codec.utf8(a.resource) == codec.utf8(b.resource)
    ensures codec.utf8(a.operationHash) == codec.utf8(b.operationHash)
    ensures codec.utf8(OrEmpty(a.credentialRef)) == codec.utf8(OrEmpty(b.credentialRef))
    ensures a.sandboxed == b.sandboxed && a.dataClass == b.dataClass
  {
    hide OrEmpty;
    var p, q := RequestParts(codec, a), RequestParts(codec, b);
    assert p[0] == q[0] && p[1] == q[1] && p[2] == q[2] && p[3] == q[3] && p[4] == q[4] && p[5] == q[5];
    assert p[6] == q[6] && p[7] == q[7] && p[8] == q[8] && p[9] == q[9] && p[10] == q[10] && p[11] == q[11];
    assert p[10][0] == q[10][0] && p[11][0] == q[11][0];
  }

  lemma PartsBind(env: Env, a: Request, b: Request)
    requires InjectiveText(env.codec) && RequestParts(env.codec, a) == RequestParts(env.codec, b)
    ensures SameBinding(a, b)
  {
    hide RequestParts, OrEmpty;
    PartsAgree(env.codec, a, b);
    NamesAreDistinct(a.action, b.action);
    KindNamesAreDistinct(a.principal.kind, b.principal.kind);
  }

  // ---------- rules ----------

  datatype RuleEffect = Permit | Deny

  datatype Condition = Condition(kinds: set<PrincipalKind>, requireSandbox: bool, maximum: Option<DataClass>,
      task: Option<string>)

  datatype Rule = Rule(ruleId: string, effect: RuleEffect, action: Action, resource: Pattern, condition: Condition,
      requiresApproval: bool)

  /** The rules of each authority tier, in tier order; `None` when the decision point is unavailable. */
  datatype Engine = Engine(bundles: Option<seq<seq<Rule>>>, snapshotId: Bytes)

  predicate Holds(c: Condition, r: Request) {
    && (c.kinds == {} || r.principal.kind in c.kinds)
    && (c.requireSandbox ==> r.sandboxed)
    && (c.maximum.Some? ==> r.dataClass.Rank() <= c.maximum.value.Rank())
    && (c.task.Some? ==> r.task == c.task.value)
  }

  predicate Matches(rule: Rule, r: Request) {
    rule.action == r.action && Covers(rule.resource, r.resource) && Holds(rule.condition, r)
  }

  function Rules(bundles: seq<seq<Rule>>): seq<Rule> {
    if bundles == [] then [] else bundles[0] + Rules(bundles[1..])
  }

  /** The identifiers of the matching rules with the effect, in authority order. */
  function MatchingIds(rules: seq<Rule>, r: Request, effect: RuleEffect): (ids: seq<string>)
    ensures ids != [] <==> exists rule :: rule in rules && rule.effect == effect && Matches(rule, r)
  {
    if rules == [] then []
    else
      var last := rules[|rules| - 1];
      var earlier := MatchingIds(rules[..|rules| - 1], r, effect);
      assert rules == rules[..|rules| - 1] + [last];
      if last.effect == effect && Matches(last, r) then earlier + [last.ruleId] else earlier
  }

  /** No identifier is surfaced without a matching rule of the effect, and none is left out. */
  lemma {:induction false} SurfacedIdsAreMatches(rules: seq<Rule>, r: Request, effect: RuleEffect, id: string)
    ensures id in MatchingIds(rules, r, effect)
       <==> exists rule :: rule in rules && rule.effect == effect && Matches(rule, r) && rule.ruleId == id
  {
    hide Matches;
    if rules == [] {
    } else {
      SurfacedIdsAreMatches(rules[..|rules| - 1], r, effect, id);
      assert rules == rules[..|rules| - 1] + [rules[|rules| - 1]];
    }
  }

  predicate NeedsApproval(rules: seq<Rule>, r: Request) {
    || r.action.AlwaysNeedsApproval()
    || exists rule | rule in rules :: rule.effect.Permit? && Matches(rule, r) && rule.requiresApproval
  }

  // ---------- decisions ----------

  datatype Outcome = Allow | Refuse | RequireApproval
  {
    function Code(): nat { if Allow? then 0 else if Refuse? then 1 else 2 }
  }

  datatype Reason =
    | ExplicitDeny | ExplicitPermit | DefaultDeny | InvalidRequest | PolicyUnavailable
    | SandboxRequired | CredentialReferenceRequired | ApprovalRequired | ApprovalInvalid
  {
    function Code(): nat {
      match this
      case ExplicitDeny => 0
      case ExplicitPermit => 1
      case DefaultDeny => 2
      case InvalidRequest => 3
      case PolicyUnavailable => 4
      case SandboxRequired => 5
      case CredentialReferenceRequired => 6
      case ApprovalRequired => 7
      case ApprovalInvalid => 8
    }
  }

  datatype Decision = Decision(
    decisionId: Bytes, requestDigest: Bytes, snapshotId: Bytes, outcome: Outcome, reason: Reason, matched: seq<string>)

  const SEPARATOR: char := '\0'

  function JoinIds(ids: seq<string>): string {
    if ids == [] then "" else JoinOn(ids, SEPARATOR)
  }

  function DecisionParts(env: Env, snapshotId: Bytes, digest: Bytes, outcome: Outcome, reason: Reason,
      matched: seq<string>): seq<Bytes> {
    [snapshotId, digest, [outcome.Code()], [reason.Code()], env.codec.utf8(JoinIds(matched))]
  }

  function MakeDecision(env: Env, engine: Engine, r: Request, outcome: Outcome, reason: Reason,
      matched: seq<string>): Decision {
    var digest := RequestDigest(env, r);
    Decision(Digest(env.codec, DecisionParts(env, engine.snapshotId, digest, outcome, reason, matched)),
             digest, engine.snapshotId, outcome, reason, matched)
  }

  predicate SandboxMissing(r: Request) {
    r.action.RequiresSandbox() && !r.sandboxed
  }

  predicate SecretMissing(r: Request) {
    r.action.RequiresSecret() && r.credentialRef.None?
  }

  function Decide(env: Env, engine: Engine, r: Request, approved: bool): Decision {
    if !ValidRequest(env, r) then MakeDecision(env, engine, r, Refuse, InvalidRequest, [])
    else if engine.bundles.None? then MakeDecision(env, engine, r, Refuse, PolicyUnavailable, [])
    else if SandboxMissing(r) then MakeDecision(env, engine, r, Refuse, SandboxRequired, [])
    else if SecretMissing(r) then MakeDecision(env, engine, r, Refuse, CredentialReferenceRequired, [])
    else
      var rules := Rules(engine.bundles.value);
      var denies, permits := MatchingIds(rules, r, Deny), MatchingIds(rules, r, Permit);
      if denies != [] then MakeDecision(env, engine, r, Refuse, ExplicitDeny, denies)
      else if permits == [] then MakeDecision(env, engine, r, Refuse, DefaultDeny, [])
      else if NeedsApproval(rules, r) && !approved
          then MakeDecision(env, engine, r, RequireApproval, ApprovalRequired, permits)
      else MakeDecision(env, engine, r, Allow, ExplicitPermit, permits)
  }

  lemma OneMoreRule(rules: seq<Rule>, i: nat, r: Request, effect: RuleEffect)
    requires i < |rules|
    ensures MatchingIds(rules[..i + 1], r, effect)
         == MatchingIds(rules[..i], r, effect) + if rules[i].effect == effect && Matches(rules[i], r)
            then [rules[i].ruleId] else []
    ensures NeedsApproval(rules[..i + 1], r)
       <==> NeedsApproval(rules[..i], r)
            || (rules[i].effect.Permit? && Matches(rules[i], r) && rules[i].requiresApproval)
  {
    hide Matches;
    assert rules[..i + 1] == rules[..i] + [rules[i]] && rules[..i + 1][..i] == rules[..i];
  }

  /** One pass over the rules, collecting denies and permits. */
  method DecideRequest(env: Env, engine: Engine, r: Request, approved: bool) returns (d: Decision)
    ensures d == Decide(env, engine, r, approved)
  {
    hide MakeDecision, ValidRequest, Matches, Rules;
    if !ValidRequest(env, r) {
      return MakeDecision(env, engine, r, Refuse, InvalidRequest, []);
    }
    if engine.bundles.None? {
      return MakeDecision(env, engine, r, Refuse, PolicyUnavailable, []);
    }
    if SandboxMissing(r) {
      return MakeDecision(env, engine, r, Refuse, SandboxRequired, []);
    }
    if SecretMissing(r) {
      return MakeDecision(env, engine, r, Refuse, CredentialReferenceRequired, []);
    }
    var rules := Rules(engine.bundles.value);
    var denies, permits, approvalRequired, i := [], [], r.action.AlwaysNeedsApproval(), 0;
    assert rules[..0] == [] && rules[..|rules|] == rules;
    while i < |rules|
      invariant 0 <= i <= |rules|
      invariant denies == MatchingIds(rules[..i], r, Deny) && permits == MatchingIds(rules[..i], r, Permit)
      invariant approvalRequired == NeedsApproval(rules[..i], r)
    {
      hide MatchingIds, NeedsApproval;
      var rule := rules[i];
      OneMoreRule(rules, i, r, Deny);
      OneMoreRule(rules, i, r, Permit);
      if Matches(rule, r) {
        match rule.effect {
          case Deny => denies := denies + [rule.ruleId];
          case Permit =>
            permits := permits + [rule.ruleId];
            approvalRequired := approvalRequired || rule.requiresApproval;
        }
      }
      i := i + 1;
    }
    if denies != [] {
      return MakeDecision(env, engine, r, Refuse, ExplicitDeny, denies);
    }
    if permits == [] {
      return MakeDecision(env, engine, r, Refuse, DefaultDeny, []);
    }
    if approvalRequired && !approved {
      return MakeDecision(env, engine, r, RequireApproval, ApprovalRequired, permits);
    }
    return MakeDecision(env, engine, r, Allow, ExplicitPermit, permits);
  }

  // ---------- what a decision means ----------

  /** A valid, sufficiently isolated request, some matching permit and no matching deny at any tier. */
  ghost predicate Permitted(env: Env, engine: Engine, r: Request) {
    && ValidRequest(env, r) && engine.bundles.Some? && !SandboxMissing(r) && !SecretMissing(r)
    && (exists b, i :: 0 <= b < |engine.bundles.value| && 0 <= i < |engine.bundles.value[b]|
          && engine.bundles.value[b][i].effect.Permit? && Matches(engine.bundles.value[b][i], r))
    && (forall b, i | 0 <= b < |engine.bundles.value| && 0 <= i < |engine.bundles.value[b]|
          :: Matches(engine.bundles.value[b][i], r) ==> engine.bundles.value[b][i].effect.Permit?)
  }

  /** A person must agree: always for the action, or because some matching permit of some tier says so. */
  ghost predicate ApprovalNeeded(engine: Engine, r: Request) {
    || r.action.AlwaysNeedsApproval()
    || (engine.bundles.Some?
        && exists b, i :: 0 <= b < |engine.bundles.value| && 0 <= i < |engine.bundles.value[b]|
              && engine.bundles.value[b][i].effect.Permit? && Matches(engine.bundles.value[b][i], r)
              && engine.bundles.value[b][i].requiresApproval)
  }

  lemma {:induction false} RulesAreOfBundles(bundles: seq<seq<Rule>>, rule: Rule)
    ensures rule in Rules(bundles)
            <==> exists b, i :: 0 <= b < |bundles| && 0 <= i < |bundles[b]| && bundles[b][i] == rule
  {
    if bundles == [] {
    } else {
      RulesAreOfBundles(bundles[1..], rule);
      if rule in bundles[0] {
        var i :| 0 <= i < |bundles[0]| && bundles[0][i] == rule;
        assert bundles[0][i] == rule;
      }
      if rule in Rules(bundles[1..]) {
        var b, i :| 0 <= b < |bundles| - 1 && 0 <= i < |bundles[1..][b]| && bundles[1..][b][i] == rule;
        assert bundles[b + 1][i] == rule;
      }
      if exists b, i :: 0 <= b < |bundles| && 0 <= i < |bundles[b]| && bundles[b][i] == rule {
        var b, i :| 0 <= b < |bundles| && 0 <= i < |bundles[b]| && bundles[b][i] == rule;
        if b > 0 {
          assert bundles[1..][b - 1][i] == rule;
        }
      }
    }
  }

  lemma AllRulesAreOfBundles(bundles: seq<seq<Rule>>)
    ensures forall rule :: rule in Rules(bundles)
                       <==> exists b, i :: 0 <= b < |bundles| && 0 <= i < |bundles[b]| && bundles[b][i] == rule
  {
    forall rule ensures rule in Rules(bundles)
                    <==> exists b, i :: 0 <= b < |bundles| && 0 <= i < |bundles[b]| && bundles[b][i] == rule {
      RulesAreOfBundles(bundles, rule);
    }
  }

  /**
   * The decision in terms of the tiers' rules: one matching deny anywhere
   * refuses, no matching permit refuses, and approval only stands between a
   * permitted request and its effect.
   */
  lemma DecisionMeaning(env: Env, engine: Engine, r: Request, approved: bool)
    ensures Decide(env, engine, r, approved).outcome.Allow?
       <==> Permitted(env, engine, r) && (ApprovalNeeded(engine, r) ==> approved)
    ensures Decide(env, engine, r, approved).outcome.RequireApproval?
       <==> Permitted(env, engine, r) && ApprovalNeeded(engine, r) && !approved
    ensures Decide(env, engine, r, approved).requestDigest == RequestDigest(env, r)
  {
    hide ValidRequest, RequestDigest, DecisionParts, Digest, Matches, SandboxMissing, SecretMissing, Rules;
    if engine.bundles.Some? {
      AllRulesAreOfBundles(engine.bundles.value);
      var rules := Rules(engine.bundles.value);
      assert MatchingIds(rules, r, Deny) == []
        <==> forall b, i | 0 <= b < |engine.bundles.value| && 0 <= i < |engine.bundles.value[b]|
               :: Matches(engine.bundles.value[b][i], r) ==> engine.bundles.value[b][i].effect.Permit?;
    }
  }

  /**
   * Rules that only deny never widen authority: with more denies, in any tier
   * and order, the outcome is a refusal or what it was without them.
   */
  lemma DeniesOnlyRestrict(env: Env, engine: Engine, stricter: Engine, r: Request, approved: bool)
    requires engine.bundles.Some? && stricter.bundles.Some?
    requires forall rule :: rule in Rules(engine.bundles.value) ==> rule in Rules(stricter.bundles.value)
    requires forall rule ::
             rule in Rules(stricter.bundles.value) && rule.effect.Permit? ==> rule in Rules(engine.bundles.value)
    ensures Decide(env, stricter, r, approved).outcome.Refuse?
         || Decide(env, stricter, r, approved).outcome == Decide(env, engine, r, approved).outcome
  {
    hide ValidRequest, RequestDigest, DecisionParts, Digest, Matches, SandboxMissing, SecretMissing, Rules;
  }

  // ---------- what a decision identifier binds ----------

  predicate IdsAreText(ids: seq<string>) {
    forall id | id in ids :: id != "" && SEPARATOR !in id
  }

  lemma JoinedIdsDetermineIds(a: seq<string>, b: seq<string>)
    requires IdsAreText(a) && IdsAreText(b) && JoinIds(a) == JoinIds(b)
    ensures a == b
  {
    if a != [] {
      JoinedIsText(a);
      SplitJoin(a, SEPARATOR);
    }
    if b != [] {
      JoinedIsText(b);
      SplitJoin(b, SEPARATOR);
    }
  }

  lemma JoinedIsText(ids: seq<string>)
    requires IdsAreText(ids) && ids != []
    ensures JoinIds(ids) != ""
  {
    assert ids[0] in ids;
    assert ids[0] <= JoinOn(ids, SEPARATOR);
  }

  predicate ShortDecision(env: Env, d: Decision) {
    ShortParts(DecisionParts(env, d.snapshotId, d.requestDigest, d.outcome, d.reason, d.matched))
  }

  /**
   * The identifier of a decision pins down everything else in it, unless the
   * hash function has a collision (`x` and `y`).
   */
  lemma DecisionIdPinsDecision(env: Env, d: Decision, e: Decision) returns (x: Bytes, y: Bytes)
    requires InjectiveText(env.codec) && IdsAreText(d.matched) && IdsAreText(e.matched)
    requires ShortDecision(env, d) && ShortDecision(env, e)
    requires d.decisionId
             == Digest(env.codec, DecisionParts(env, d.snapshotId, d.requestDigest, d.outcome, d.reason, d.matched))
    requires e.decisionId
             == Digest(env.codec, DecisionParts(env, e.snapshotId, e.requestDigest, e.outcome, e.reason, e.matched))
    requires d.decisionId == e.decisionId
    ensures d == e || (x != y && env.codec.sha(x) == env.codec.sha(y))
  {
    hide Encode, ShortParts, JoinIds;
    var p := DecisionParts(env, d.snapshotId, d.requestDigest, d.outcome, d.reason, d.matched);
    var q := DecisionParts(env, e.snapshotId, e.requestDigest, e.outcome, e.reason, e.matched);
    x, y := Encode(p), Encode(q);
    if x == y {
      EncodeInjective(p, q);
      assert p[0] == q[0] && p[1] == q[1] && p[2] == q[2] && p[3] == q[3] && p[4] == q[4];
      assert p[2][0] == q[2][0] && p[3][0] == q[3][0];
      JoinedIdsDetermineIds(d.matched, e.matched);
    }
  }
}
