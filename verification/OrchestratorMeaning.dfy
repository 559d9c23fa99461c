/**
 * What each orchestrator operation does in every reachable state, in terms of
 * the tables, and what cancellation, exhaustion and completion mean for the
 * rest of a run.
 */
module OrchestratorMeaning {
  import opened Outcomes
  import opened GoalDag
  import opened Delegation
  import opened Judgment
  import opened Orchestrator

  /** The task is pending and all it depends on is complete. */
  predicate Startable(config: Config, s: State, id: string) {
    && id in config.tasks && id in s.states && s.states[id] == Pending
    && forall d | d in config.tasks[id].dependencies :: d in s.completed
  }

  lemma ReadyMeaning(config: Config, actions: seq<Action>, id: string)
    ensures var s := Run(config, actions);
            id in ReadyIds(config, s) <==> Startable(config, s, id)
  {
    RunKeepsInv(config, actions);
    hide Run, ScheduleInv, DelegationInv, RetryInv, Reaches;
  }

  // ---------- delegation ----------

  /** Rejected reports so far; a task is given up at three. */
  function Used(s: State, id: string): nat {
    if id in s.rejectedCounts then s.rejectedCounts[id] else 0
  }

  function Left(s: State, id: string): nat {
    if Used(s, id) < 3 then 3 - Used(s, id) else 0
  }

  predicate HasParent(config: Config, g: Grant) {
    exists p :: p in config.parentGrants && g.Within(p)
  }

  predicate WithinParents(config: Config, requested: seq<Grant>) {
    forall i | 0 <= i < |requested| :: HasParent(config, requested[i])
  }

  lemma HasParentIff(config: Config, g: Grant)
    ensures HasParent(config, g) <==> exists j :: 0 <= j < |config.parentGrants| && g.Within(config.parentGrants[j])
  {
    if p :| p in config.parentGrants && g.Within(p) {
      var j :| 0 <= j < |config.parentGrants| && config.parentGrants[j] == p;
      assert g.Within(config.parentGrants[j]);
    }
  }

  lemma WithinIsAttenuated(config: Config, requested: seq<Grant>)
    ensures WithinParents(config, requested) <==> Attenuated(requested, config.parentGrants)
  {
    hide HasParent;
    if Attenuated(requested, config.parentGrants) {
      forall i | 0 <= i < |requested| ensures HasParent(config, requested[i]) {
        HasParentIff(config, requested[i]);
      }
    } else {
      var i :| 0 <= i < |requested|
               && forall j | 0 <= j < |config.parentGrants| :: !requested[i].Within(config.parentGrants[j]);
      HasParentIff(config, requested[i]);
    }
  }

  /** A refused delegation changes nothing; an accepted one hands out exactly what was asked. */
  lemma DelegationMeaning(config: Config, actions: seq<Action>, id: string, subagent: string, requested: seq<Grant>,
      budget: nat)
    ensures var s := Run(config, actions);
            var d := Delegation(config.delegationId(id, subagent), id, subagent, requested, budget, Left(s, id));
            DelegateStep(config, s, id, subagent, requested, budget)
            == if id !in s.states then (s, Err(UnknownTask))
               else if s.states[id] == Failed || s.states[id] == Cancelled then (s, Err(Terminal))
               else if !Startable(config, s, id) then (s, Err(NotReady))
               else if id == "" || subagent == "" || budget == 0 then (s, Err(NotReady))
               else if !WithinParents(config, requested) then (s, Err(EscalationRefused))
               else (State(s.states[id := Delegated], s.delegations[id := d], s.completed, s.cancelled,
                   s.rejectedCounts,
                           s.exhausted), Ok(d))
  {
    RunKeepsInv(config, actions);
    WithinIsAttenuated(config, requested);
    hide Run, ScheduleInv, DelegationInv, Reaches, WithinParents, Attenuated;
  }

  lemma UsedIsBounded(config: Config, actions: seq<Action>, id: string)
    requires Startable(config, Run(config, actions), id)
    ensures Used(Run(config, actions), id) < 3
  {
    RunKeepsInv(config, actions);
    hide Run, ScheduleInv, DelegationInv, CancelInv;
  }

  // ---------- reports ----------

  /** The report answers this delegation with all the evidence the task declares and no other. */
  predicate Acceptable(config: Config, d: Delegation, declared: seq<EvidenceSpec>, report: SubagentReport) {
    && report.delegationId == d.delegationId && report.subagentId == d.subagentId
    && (forall k | 0 <= k < |declared| :: Met(config.digest, report.evidence, declared[k]))
    && !SaysMore(declared, report.evidence)
  }

  lemma {:induction false} NoneOrFirstUnmet(digest: seq<int> -> string, declared: seq<EvidenceSpec>,
      evidence: seq<ReportedEvidence>, n: nat)
    requires n <= |declared|
    ensures (forall k | 0 <= k < n :: Met(digest, evidence, declared[k]))
            || exists k: nat :: FirstNotMet(digest, declared, evidence, k)
  {
    hide Met;
    if n == 0 {
    } else {
      NoneOrFirstUnmet(digest, declared, evidence, n - 1);
      if (forall k | 0 <= k < n - 1 :: Met(digest, evidence, declared[k])) && !Met(digest, evidence, declared[n - 1]) {
        assert FirstNotMet(digest, declared, evidence, n - 1);
      }
    }
  }

  lemma VerifiedIsAcceptable(config: Config, d: Delegation, declared: seq<EvidenceSpec>, report: SubagentReport)
    ensures Judge(config.digest, report, d.delegationId, d.subagentId, declared).Verified?
            <==> Acceptable(config, d, declared, report)
  {
    hide Judge, Met, SaysMore;
    VerdictMeaning(config.digest, report, d.delegationId, d.subagentId, declared);
    NoneOrFirstUnmet(config.digest, declared, report.evidence, |declared|);
  }

  /** The tables after the report on `id` ended its delegation in this state. */
  predicate Ended(s: State, s': State, id: string, now: TaskState) {
    s'.states == s.states[id := now] && s'.delegations == s.delegations - {id} && s'.cancelled == s.cancelled
    && s'.exhausted == s.exhausted
  }

  /** What a report on a task in flight makes of the tables, and its answer. */
  predicate Judged(config: Config, s: State, s': State, r: Result<Verdict, OrchestratorError>, report: SubagentReport)
    requires report.taskId in s.delegations && report.taskId in config.tasks
  {
    var id := report.taskId;
    if Acceptable(config, s.delegations[id], config.tasks[id].evidence, report) then
      && r == Ok(Verified) && Ended(s, s', id, Completed)
      && s'.completed == s.completed + {id} && s'.rejectedCounts == s.rejectedCounts
    else
      && s'.completed == s.completed && s'.rejectedCounts == s.rejectedCounts[id := Used(s, id) + 1]
      && if Used(s, id) == 2 then r == Err(Terminal) && Ended(s, s', id, Failed)
         else r.Ok? && r.value.Rejected? && Ended(s, s', id, Pending)
  }

  lemma JudgedInFlight(config: Config, s: State, report: SubagentReport)
    requires report.taskId in s.delegations && report.taskId in config.tasks && report.taskId in s.states
    requires s.states[report.taskId] == Delegated && Used(s, report.taskId) < 3
    ensures var (s', r) := SubmitStep(config, s, report); Judged(config, s, s', r, report)
  {
    var d, declared := s.delegations[report.taskId], config.tasks[report.taskId].evidence;
    VerifiedIsAcceptable(config, d, declared, report);
    hide Acceptable, Judge;
  }

  /**
   * A report counts only for a task in flight. An acceptable one completes the
   * task; any other ends the delegation, costs one retry, and leaves the task
   * pending, or failed when it was the third.
   */
  lemma ReportMeaning(config: Config, actions: seq<Action>, report: SubagentReport)
    ensures var s := Run(config, actions);
            var (s', r) := SubmitStep(config, s, report);
            if report.taskId !in s.delegations then s' == s && r == Err(NotReady)
            else report.taskId in config.tasks && Judged(config, s, s', r, report)
  {
    hide Run, Judged, CancelInv, Acceptable, Judge, Attenuated;
    var s, id := Run(config, actions), report.taskId;
    RunKeepsInv(config, actions);
    KeysAreTasks(config, s);
    hide ScheduleInv;
    if id in s.delegations {
      JudgedInFlight(config, s, report);
      hide SubmitStep;
    }
  }

  // ---------- stopping a task ----------

  predicate Stopped(s: State, id: string) {
    id in s.states && (s.states[id] == Failed || s.states[id] == Cancelled) && id !in s.delegations
  }

  lemma RunSnoc(config: Config, actions: seq<Action>, n: nat)
    requires n < |actions|
    ensures Run(config, actions[..n + 1]) == Step(config, Run(config, actions[..n]), actions[n])
  {
    hide Step;
    assert actions[..n + 1][..n] == actions[..n] && actions[..n + 1][n] == actions[n];
  }

  lemma StepKeepsStopped(config: Config, s: State, a: Action, id: string)
    requires Stopped(s, id)
    ensures Stopped(Step(config, s, a), id)
  {
    hide Judge, Radius, Delegate, Ready;
  }

  lemma {:induction false} StoppedStays(config: Config, actions: seq<Action>, n: nat, m: nat, id: string)
    requires n <= m <= |actions| && Stopped(Run(config, actions[..n]), id)
    ensures Stopped(Run(config, actions[..m]), id)
    decreases m
  {
    hide Run, Step, Stopped;
    if m == n {
    } else {
      StoppedStays(config, actions, n, m - 1, id);
      RunSnoc(config, actions, m - 1);
      StepKeepsStopped(config, Run(config, actions[..m - 1]), actions[m - 1], id);
    }
  }

  /** Within the blast radius of `id`: the task itself and all that depend on it. */
  ghost predicate Hit(config: Config, id: string, t: string) {
    t in config.tasks && (t == id || Reaches(config.tasks, t, id))
  }

  /** Cancellation of `id` hits exactly its radius and nothing beside it. */
  ghost predicate Cancels(config: Config, s: State, s': State, id: string) {
    && s'.states.Keys == s.states.Keys && s'.completed == s.completed && s'.rejectedCounts == s.rejectedCounts
    && s'.exhausted == s.exhausted
    && (forall t | Hit(config, id, t) ::
          && t in s'.states && s'.states[t] == Cancelled && t in s'.cancelled
          && t !in s'.delegations && t !in ReadyIds(config, s'))
    && (forall t | !Hit(config, id, t) ::
          && (t in s.states ==> s'.states[t] == s.states[t]) && (t in s'.cancelled <==> t in s.cancelled)
          && (t in s'.delegations <==> t in s.delegations)
          && (t in s.delegations ==> s'.delegations[t] == s.delegations[t]))
  }

  lemma CancelStepHits(config: Config, s: State, id: string)
    requires s.states.Keys == config.tasks.Keys && s.delegations.Keys <= s.states.Keys
    ensures Cancels(config, s, Step(config, s, Cancel(id)), id)
  {
    hide Reaches, Ready, ReadyIds;
    forall t ensures t in Radius(config, id) <==> t == id || Hit(config, id, t) {
    }
    hide Descendants;
  }

  /**
   * Cancelling a task, in any reachable state, cancels it and every task that
   * depends on it, withdraws their delegations, and touches no other task.
   */
  lemma CancellationMeaning(config: Config, actions: seq<Action>, n: nat)
    requires n < |actions| && actions[n].Cancel?
    ensures Cancels(config, Run(config, actions[..n]), Run(config, actions[..n + 1]), actions[n].id)
  {
    hide Run, Step, Cancels;
    RunSnoc(config, actions, n);
    RunKeepsInv(config, actions[..n]);
    hide CancelInv, RetryInv;
    CancelStepHits(config, Run(config, actions[..n]), actions[n].id);
  }

  /** However the run goes on, nothing in the radius is pending, delegated or completed again. */
  lemma CancelledForGood(config: Config, actions: seq<Action>, n: nat, t: string)
    requires n < |actions| && actions[n].Cancel? && Hit(config, actions[n].id, t)
    ensures forall m | n < m <= |actions| :: Stopped(Run(config, actions[..m]), t)
  {
    hide Run;
    CancellationMeaning(config, actions, n);
    assert Stopped(Run(config, actions[..n + 1]), t);
    hide Hit, ReadyIds, Stopped;
    forall m | n < m <= |actions| ensures Stopped(Run(config, actions[..m]), t) {
      StoppedStays(config, actions, n + 1, m, t);
    }
  }

  /** The returned blast radius. */
  lemma RadiusMeaning(config: Config, id: string)
    ensures forall t :: t in Radius(config, id) <==> t == id || (t in config.tasks && Reaches(config.tasks, t, id))
  {
  }

  /** Exhausting a task's budget fails that task, withdraws its delegation, and touches no other task. */
  lemma ExhaustionMeaning(config: Config, actions: seq<Action>, n: nat)
    requires n < |actions| && actions[n].ExhaustBudget?
    ensures var s, s', id := Run(config, actions[..n]), Run(config, actions[..n + 1]), actions[n].id;
            if id !in config.tasks then s' == s
            else
              && s'.states == s.states[id := Failed] && s'.delegations == s.delegations - {id}
              && s'.exhausted == s.exhausted + {id} && s'.completed == s.completed && s'.cancelled == s.cancelled
              && s'.rejectedCounts == s.rejectedCounts && id !in ReadyIds(config, s')
  {
    hide Run;
    RunSnoc(config, actions, n);
    RunKeepsInv(config, actions[..n]);
    hide CancelInv, RetryInv, DelegationInv, ReadyIds;
  }

  lemma ExhaustedForGood(config: Config, actions: seq<Action>, n: nat)
    requires n < |actions| && actions[n].ExhaustBudget? && actions[n].id in config.tasks
    ensures forall m | n < m <= |actions| :: Stopped(Run(config, actions[..m]), actions[n].id)
  {
    hide Run, ReadyIds;
    ExhaustionMeaning(config, actions, n);
    assert Stopped(Run(config, actions[..n + 1]), actions[n].id);
    hide Stopped;
    forall m | n < m <= |actions| ensures Stopped(Run(config, actions[..m]), actions[n].id) {
      StoppedStays(config, actions, n + 1, m, actions[n].id);
    }
  }

  // ---------- completed work ----------

  /** Step `n` of the run submits an acceptable report on the task, which was in flight. */
  ghost predicate AcceptedAt(config: Config, actions: seq<Action>, n: nat, id: string) {
    && n < |actions| && actions[n].SubmitReport? && actions[n].report.taskId == id && id in config.tasks
    && var s := Run(config, actions[..n]);
       id in s.delegations && Acceptable(config, s.delegations[id], config.tasks[id].evidence, actions[n].report)
  }

  /** Every completed task was completed by an acceptable report from the subagent it was delegated to. */
  lemma {:induction false} CompletionHasEvidence(config: Config, actions: seq<Action>, id: string)
    requires id in Run(config, actions).completed
    ensures exists n: nat :: AcceptedAt(config, actions, n, id)
  {
    hide Acceptable;
    if actions == [] {
      assert false;
    } else {
      var last := |actions| - 1;
      var init := actions[..last];
      if id in Run(config, init).completed {
        CompletionHasEvidence(config, init, id);
        var n: nat :| AcceptedAt(config, init, n, id);
        assert actions[..n] == init[..n];
        assert AcceptedAt(config, actions, n, id);
      } else {
        CompletedNow(config, actions, id);
        assert AcceptedAt(config, actions, last, id);
      }
    }
  }

  lemma CompletedNow(config: Config, actions: seq<Action>, id: string)
    requires actions != []
    requires id in Run(config, actions).completed && id !in Run(config, actions[..|actions| - 1]).completed
    ensures AcceptedAt(config, actions, |actions| - 1, id)
  {
    var init, last := actions[..|actions| - 1], actions[|actions| - 1];
    assert Run(config, actions) == Step(config, Run(config, init), last);
    hide Run, Acceptable, Judge, Delegate, Radius, Ready;
    if last.SubmitReport? {
      hide DelegateStep, ExhaustStep, CancelStep, SubmitStep;
      ReportMeaning(config, init, last.report);
    }
  }
}
