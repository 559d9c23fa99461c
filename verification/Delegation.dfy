/** Attenuated capability delegation: what a subagent may be handed, and why it is never more. */
module Delegation {
  import opened Outcomes
  import Vocabulary

  const MAX_RETRIES: nat := 3

  /** `child` is `parent` or lies under it in the `/` hierarchy. */
  predicate FallsWithin(child: string, parent: string) {
    child == parent || parent + "/" <= child
  }

  datatype Selector = Exact(resource: string) | Prefix(resource: string)
  {
    predicate Within(parent: Selector) {
      match (this, parent)
      case (_, Prefix(root)) => FallsWithin(this.resource, root)
      case (Exact(child), Exact(other)) => child == other
      case (Prefix(_), Exact(_)) => false
    }

    predicate Covers(concrete: string) {
      match this
      case Exact(exact) => exact == concrete
      case Prefix(root) => FallsWithin(concrete, root)
    }
  }

  datatype Grant = Grant(action: Vocabulary.Action, selector: Selector)
  {
    predicate Within(parent: Grant) {
      action == parent.action && selector.Within(parent.selector)
    }

    predicate Covers(requested: Vocabulary.Action, concrete: string) {
      action == requested && selector.Covers(concrete)
    }
  }

  lemma FallsWithinTransitive(a: string, b: string, c: string)
    requires FallsWithin(a, b) && FallsWithin(b, c)
    ensures FallsWithin(a, c)
  {
    if a != b && b != c {
      assert c + "/" <= b <= b + "/" <= a;
    }
  }

  /** One grant is accepted as within another exactly when it covers no request the other does not. */
  lemma WithinIsExact(child: Grant, parent: Grant)
    ensures child.Within(parent)
            <==> forall action, concrete :: child.Covers(action, concrete) ==> parent.Covers(action, concrete)
  {
    var resource := child.selector.resource;
    var below := resource + "/";
    if child.Within(parent) {
      forall action, concrete | child.Covers(action, concrete) ensures parent.Covers(action, concrete) {
        if child.selector.Prefix? {
          FallsWithinTransitive(concrete, resource, parent.selector.resource);
        }
      }
    }
    if forall action, concrete :: child.Covers(action, concrete) ==> parent.Covers(action, concrete) {
      assert child.Covers(child.action, resource);
      assert child.selector.Prefix? ==> child.Covers(child.action, below);
      assert |below| > |resource|;
    }
  }

  datatype DelegationError = Escalation | Malformed

  datatype Delegation = Delegation(
    delegationId: string, taskId: string, subagentId: string, grants: seq<Grant>, budgetTokens: nat,
        retriesRemaining: nat)

  /** Every grant is within some parent grant. */
  predicate Attenuated(grants: seq<Grant>, parents: seq<Grant>) {
    forall i | 0 <= i < |grants| :: exists j :: 0 <= j < |parents| && grants[i].Within(parents[j])
  }

  function Delegate(
    parents: seq<Grant>, delegationId: string, taskId: string, subagentId: string,
    requested: seq<Grant>, budgetTokens: nat, retries: nat): (r: Result<Delegation, DelegationError>)
  {
    if taskId == "" || subagentId == "" || budgetTokens == 0 then Err(Malformed)
    else if !Attenuated(requested, parents) then Err(Escalation)
    else Ok(Delegation(delegationId, taskId, subagentId, requested, budgetTokens, retries))
  }

  /** Whatever an attenuated list of grants covers, the parent authority covers. */
  lemma {:induction false} AttenuatedCoversLess(grants: seq<Grant>, parents: seq<Grant>, action: Vocabulary.Action,
      concrete: string)
    requires Attenuated(grants, parents) && exists g :: g in grants && g.Covers(action, concrete)
    ensures exists p :: p in parents && p.Covers(action, concrete)
  {
    var g :| g in grants && g.Covers(action, concrete);
    var i :| 0 <= i < |grants| && grants[i] == g;
    var j :| 0 <= j < |parents| && grants[i].Within(parents[j]);
    WithinIsExact(g, parents[j]);
    assert parents[j] in parents;
  }

  /** What a prefix grant covers: its root, what lies below a `/` after it, and nothing else. */
  lemma PrefixCovers(root: string, concrete: string)
    ensures Prefix(root).Covers(concrete) <==> concrete == root || exists below :: concrete == root + "/" + below
    ensures Exact(root).Covers(concrete) <==> concrete == root
  {
    if root + "/" <= concrete {
      assert concrete == root + "/" + concrete[|root| + 1..];
    }
  }
}
