/**
 * The orchestrator over one goal graph: scheduling of ready tasks, delegation
 * with bounded retries, judgment of reports, budget exhaustion and cascading
 * cancellation. The state machine on values comes first, the class after it.
 */
module Orchestrator {
  import opened Outcomes
  import opened TextOrder
  import opened GoalDag
  import opened Delegation
  import opened Judgment
  import Vocabulary

  datatype OrchestratorError = NotReady | EscalationRefused | Terminal | UnknownTask

  datatype TaskState = Pending | Delegated | Completed | Failed | Cancelled

  /** The validated graph, the parent's authority, and the two hashes in use. */
  datatype Config = Config(
    tasks: Tasks, parentGrants: seq<Grant>, digest: seq<int> -> string, delegationId: (string, string) -> string)

  datatype State = State(
    states: map<string, TaskState>,
    delegations: map<string, Delegation>,
    completed: set<string>,
    cancelled: set<string>,
    rejectedCounts: map<string, nat>,
    exhausted: set<string>)

  function Initial(config: Config): State {
    State(map id | id in config.tasks :: Pending, map[], {}, {}, map[], {})
  }

  predicate IsReady(config: Config, s: State, id: string) {
    Ready(config.tasks, s.completed, id) && id in s.states && s.states[id].Pending? && id !in s.cancelled
  }

  function KeepSchedulable(config: Config, s: State, ids: seq<string>): (ready: seq<string>)
    ensures forall x :: x in ready <==> x in ids && x in s.states && s.states[x].Pending? && x !in s.cancelled
    ensures Sorted(ids) ==> Sorted(ready)
  {
    if ids == [] then []
    else
      var init, last := KeepSchedulable(config, s, ids[..|ids| - 1]), ids[|ids| - 1];
      assert ids == ids[..|ids| - 1] + [last];
      assert Sorted(ids) ==> forall x | x in ids[..|ids| - 1] :: Less(x, last);
      if last in s.states && s.states[last].Pending? && last !in s.cancelled then init + [last] else init
  }

  /** The tasks that can be delegated now, in sorted order. */
  function ReadyIds(config: Config, s: State): (ready: seq<string>)
    ensures Sorted(ready) && forall x :: x in ready <==> IsReady(config, s, x)
  {
    KeepSchedulable(config, s, ReadyTasks(config.tasks, s.completed))
  }

  /** No other sorted list has exactly the tasks that can be delegated. */
  lemma ReadyIdsAreDetermined(config: Config, s: State, listed: seq<string>)
    requires Sorted(listed) && forall x :: x in listed <==> IsReady(config, s, x)
    ensures listed == ReadyIds(config, s)
  {
    SortedUnique(listed, ReadyIds(config, s));
  }

  function Rejections(s: State, id: string): nat {
    if id in s.rejectedCounts then s.rejectedCounts[id] else 0
  }

  function RetriesLeft(s: State, id: string): nat {
    if Rejections(s, id) >= MAX_RETRIES then 0 else MAX_RETRIES - Rejections(s, id)
  }

  function DelegateStep(config: Config, s: State, id: string, subagent: string, requested: seq<Grant>, budget: nat)
    : (State, Result<Delegation, OrchestratorError>)
  {
    if id !in s.states then (s, Err(UnknownTask))
    else if s.states[id].Failed? || s.states[id].Cancelled? then (s, Err(Terminal))
    else if !IsReady(config, s, id) then (s, Err(NotReady))
    else if RetriesLeft(s, id) == 0 || id in s.exhausted then (s.(states := s.states[id := Failed]), Err(Terminal))
    else
      match Delegate(config.parentGrants, config.delegationId(id, subagent), id, subagent, requested, budget,
          RetriesLeft(s, id))
      case Err(Escalation) => (s, Err(EscalationRefused))
      case Err(Malformed) => (s, Err(NotReady))
      case Ok(d) => (s.(states := s.states[id := Delegated], delegations := s.delegations[id := d]), Ok(d))
  }

  function SubmitStep(config: Config, s: State, report: SubagentReport): (State, Result<Verdict, OrchestratorError>) {
    var id := report.taskId;
    if id !in s.delegations || id !in s.states || !s.states[id].Delegated? then (s, Err(NotReady))
    else
      var d := s.delegations[id];
      var declared := if id in config.tasks then config.tasks[id].evidence else [];
      var verdict := Judge(config.digest, report, d.delegationId, d.subagentId, declared);
      if verdict.Verified? then
        (s.(states := s.states[id := Completed], completed := s.completed + {id}, delegations := s.delegations - {id}),
            Ok(verdict))
      else
        var used := Rejections(s, id) + 1;
        var counted := s.(rejectedCounts := s.rejectedCounts[id := used], delegations := s.delegations - {id});
        if used >= MAX_RETRIES then (counted.(states := s.states[id := Failed]), Err(Terminal))
        else (counted.(states := s.states[id := Pending]), Ok(verdict))
  }

  function ExhaustStep(s: State, id: string): State {
    if id in s.states then
      s.(exhausted := s.exhausted + {id}, states := s.states[id := Failed], delegations := s.delegations - {id})
    else s
  }

  ghost function Radius(config: Config, id: string): set<string> {
    Descendants(config.tasks, id) + {id}
  }

  function Mark(states: map<string, TaskState>, hit: set<string>): map<string, TaskState> {
    map t | t in states :: if t in hit then Cancelled else states[t]
  }

  lemma MarkNone(states: map<string, TaskState>)
    ensures Mark(states, {}) == states
  {
  }

  lemma DropOne(delegations: map<string, Delegation>, hit: set<string>, t: string)
    ensures delegations - hit - {t} == delegations - (hit + {t}) && delegations - {} == delegations
  {
  }

  lemma MarkOne(states: map<string, TaskState>, hit: set<string>, t: string)
    ensures Mark(states, hit + {t}) == if t in states then Mark(states, hit)[t := Cancelled] else Mark(states, hit)
  {
  }

  ghost function CancelStep(config: Config, s: State, id: string): State {
    var hit := Radius(config, id) * s.states.Keys;
    s.(states := Mark(s.states, hit),
       cancelled := s.cancelled + hit,
       delegations := s.delegations - hit)
  }

  datatype Action =
    | DelegateTask(id: string, subagent: string, requested: seq<Grant>, budget: nat)
    | SubmitReport(report: SubagentReport)
    | ExhaustBudget(id: string)
    | Cancel(id: string)

  ghost function Step(config: Config, s: State, a: Action): State {
    match a
    case DelegateTask(id, subagent, requested, budget) => DelegateStep(config, s, id, subagent, requested, budget).0
    case SubmitReport(report) => SubmitStep(config, s, report).0
    case ExhaustBudget(id) => ExhaustStep(s, id)
    case Cancel(id) => CancelStep(config, s, id)
  }

  ghost function Run(config: Config, actions: seq<Action>): State {
    if actions == [] then Initial(config)
        else Step(config, Run(config, actions[..|actions| - 1]), actions[|actions| - 1])
  }

  // ---------- the invariant ----------

  predicate DependenciesDone(config: Config, s: State, id: string) {
    id in config.tasks && forall d | d in config.tasks[id].dependencies :: d in s.completed
  }

  /** Completed work is closed under dependencies, and nothing is delegated or completed ahead of them. */
  predicate ScheduleInv(config: Config, s: State) {
    && s.states.Keys == config.tasks.Keys
    && (forall t | t in s.completed :: DependenciesDone(config, s, t))
    && (forall t | t in s.states && (s.states[t].Delegated? || s.states[t].Completed?) ::
       DependenciesDone(config, s, t))
    && (forall t | t in s.states && s.states[t].Completed? :: t in s.completed)
  }

  /** The delegation table lists exactly the delegated tasks, each with attenuated authority. */
  ghost predicate DelegationInv(config: Config, s: State) {
    && (forall t :: t in s.delegations <==> t in s.states && s.states[t].Delegated?)
    && (forall t | t in s.delegations ::
          s.delegations[t].taskId == t && Attenuated(s.delegations[t].grants, config.parentGrants))
  }

  /** Cancellation is closed under descendants and final. */
  ghost predicate CancelInv(config: Config, s: State) {
    && s.cancelled <= config.tasks.Keys
    && (forall c, t | c in s.cancelled && t in config.tasks && Reaches(config.tasks, t, c) :: t in s.cancelled)
    && (forall t | t in s.states && t in s.cancelled :: s.states[t].Cancelled? || s.states[t].Failed?)
    && (forall t | t in s.states && s.states[t].Cancelled? :: t in s.cancelled)
  }

  /** Rejections stay below the limit while the task can still be delegated or judged. */
  predicate RetryInv(s: State) {
    forall t | t in s.states ::
      && Rejections(s, t) <= MAX_RETRIES
      && (s.states[t].Pending? || s.states[t].Delegated? ==> Rejections(s, t) < MAX_RETRIES && t !in s.exhausted)
  }

  ghost predicate Inv(config: Config, s: State) {
    ScheduleInv(config, s) && DelegationInv(config, s) && CancelInv(config, s) && RetryInv(s)
  }

  lemma InitialInv(config: Config)
    ensures Inv(config, Initial(config))
  {
  }

  lemma KeysAreTasks(config: Config, s: State)
    requires ScheduleInv(config, s)
    ensures s.states.Keys == config.tasks.Keys
  {
  }

  lemma StepKeepsSchedule(config: Config, s: State, a: Action)
    requires ScheduleInv(config, s)
    ensures ScheduleInv(config, Step(config, s, a))
  {
    hide Descendants, Attenuated, Judge, Delegate;
  }

  lemma StepKeepsDelegations(config: Config, s: State, a: Action)
    requires DelegationInv(config, s)
    ensures DelegationInv(config, Step(config, s, a))
  {
    hide Descendants, Attenuated, Judge, Ready;
    match a {
      case DelegateTask(_, _, _, _) => hide SubmitStep, ExhaustStep, CancelStep;
      case SubmitReport(_) => hide DelegateStep, ExhaustStep, CancelStep;
      case ExhaustBudget(_) => hide DelegateStep, SubmitStep, CancelStep;
      case Cancel(_) => hide DelegateStep, SubmitStep, ExhaustStep;
    }
  }

  lemma StepKeepsCancelled(config: Config, s: State, a: Action)
    requires CancelInv(config, s) && s.states.Keys == config.tasks.Keys
    ensures CancelInv(config, Step(config, s, a))
  {
    if a.Cancel? {
      var s' := CancelStep(config, s, a.id);
      forall c, t | c in s'.cancelled && t in config.tasks && Reaches(config.tasks, t, c) ensures t in s'.cancelled {
        if c !in s.cancelled && c != a.id {
          ReachesTransitive(config.tasks, t, c, a.id);
        }
      }
    }
    hide Reaches, Judge, Ready, Delegate;
  }

  lemma StepKeepsRetries(config: Config, s: State, a: Action)
    requires RetryInv(s)
    ensures RetryInv(Step(config, s, a))
  {
    hide Radius, Judge, Ready, Delegate;
  }

  /** In every reachable state the schedule, the delegation table, cancellation and retries are consistent. */
  lemma {:induction false} RunKeepsInv(config: Config, actions: seq<Action>)
    ensures Inv(config, Run(config, actions))
  {
    hide ScheduleInv, DelegationInv, CancelInv, RetryInv, Step;
    if actions == [] {
      InitialInv(config);
    } else {
      var s, last := Run(config, actions[..|actions| - 1]), actions[|actions| - 1];
      RunKeepsInv(config, actions[..|actions| - 1]);
      KeysAreTasks(config, s);
      StepKeepsSchedule(config, s, last);
      StepKeepsDelegations(config, s, last);
      StepKeepsCancelled(config, s, last);
      StepKeepsRetries(config, s, last);
    }
  }

  /** No live delegation of any run covers a request the parent authority does not cover. */
  lemma {:induction false} DelegatedAuthorityIsParents(config: Config, actions: seq<Action>, id: string,
      action: Vocabulary.Action, concrete: string)
    requires var s := Run(config, actions);
             id in s.delegations && exists g :: g in s.delegations[id].grants && g.Covers(action, concrete)
    ensures exists p :: p in config.parentGrants && p.Covers(action, concrete)
  {
    RunKeepsInv(config, actions);
    AttenuatedCoversLess(Run(config, actions).delegations[id].grants, config.parentGrants, action, concrete);
  }

  /** What is cancelled or completed stays so. */
  lemma StepOnlyAdds(config: Config, s: State, a: Action)
    ensures s.cancelled <= Step(config, s, a).cancelled && s.completed <= Step(config, s, a).completed
  {
    hide Judge, Delegate, Radius;
  }

  lemma {:induction false} RunOnlyAdds(config: Config, actions: seq<Action>, n: nat)
    requires n <= |actions|
    ensures Run(config, actions[..n]).cancelled <= Run(config, actions).cancelled
    ensures Run(config, actions[..n]).completed <= Run(config, actions).completed
    decreases |actions|
  {
    hide Step;
    if n == |actions| {
      assert actions[..n] == actions;
    } else {
      var init := actions[..|actions| - 1];
      assert init[..n] == actions[..n];
      RunOnlyAdds(config, init, n);
      StepOnlyAdds(config, Run(config, init), actions[|actions| - 1]);
    }
  }

  /** Once cancelled, a task and all its descendants are never again pending, delegated or completed. */
  lemma {:induction false} CancellationIsFinal(config: Config, actions: seq<Action>, n: nat, c: string, t: string)
    requires n <= |actions| && c in Run(config, actions[..n]).cancelled
    requires t == c || (t in config.tasks && Reaches(config.tasks, t, c))
    ensures var s := Run(config, actions); t in s.states && (s.states[t].Cancelled? || s.states[t].Failed?)
  {
    hide Run, Reaches;
    RunOnlyAdds(config, actions, n);
    RunKeepsInv(config, actions);
  }

  // ---------- bounded retries ----------

  /** How many delegations of a task a run issued. */
  ghost function Issued(config: Config, actions: seq<Action>, id: string): nat {
    if actions == [] then 0
    else
      var init, last := actions[..|actions| - 1], actions[|actions| - 1];
      Issued(config, init, id) +
      if last.DelegateTask? && last.id == id
         && DelegateStep(config, Run(config, init), id, last.subagent, last.requested, last.budget).1.Ok? then 1 else 0
  }

  /** Delegations issued so far, as the state bounds them. */
  predicate IssuedBound(s: State, id: string, issued: nat) {
    && (id !in s.states ==> issued == 0)
    && (id in s.states && s.states[id].Pending? ==> issued == Rejections(s, id))
    && (id in s.states && s.states[id].Delegated? ==> issued == Rejections(s, id) + 1)
    && issued <= MAX_RETRIES
  }

  lemma IssuedStep(config: Config, s: State, a: Action, id: string, issued: nat)
    requires Inv(config, s) && IssuedBound(s, id, issued)
    ensures IssuedBound(Step(config, s, a), id,
              issued + if a.DelegateTask? && a.id == id
                  && DelegateStep(config, s, id, a.subagent, a.requested, a.budget).1.Ok? then 1 else 0)
  {
    hide Judge, Radius, ScheduleInv, CancelInv, Attenuated;
    match a {
      case DelegateTask(_, _, _, _) => hide SubmitStep, ExhaustStep, CancelStep;
      case SubmitReport(_) => hide DelegateStep, ExhaustStep, CancelStep;
      case ExhaustBudget(_) => hide DelegateStep, SubmitStep, CancelStep;
      case Cancel(_) => hide DelegateStep, SubmitStep, ExhaustStep;
    }
  }

  lemma {:induction false} IssuedIsBounded(config: Config, actions: seq<Action>, id: string)
    ensures IssuedBound(Run(config, actions), id, Issued(config, actions, id))
  {
    if actions == [] {
    } else {
      var init := actions[..|actions| - 1];
      IssuedIsBounded(config, init, id);
      RunKeepsInv(config, init);
      IssuedStep(config, Run(config, init), actions[|actions| - 1], id, Issued(config, init, id));
      hide Step, Inv, IssuedBound, DelegateStep;
    }
  }

  /** Over any run a task is delegated at most `MAX_RETRIES` times. */
  lemma {:induction false} DelegationsAreBounded(config: Config, actions: seq<Action>, id: string)
    ensures Issued(config, actions, id) <= MAX_RETRIES
  {
    IssuedIsBounded(config, actions, id);
  }

  // ---------- no deadlock ----------

  /** Neither in flight nor terminally stopped. */
  predicate Unblocked(s: State, id: string) {
    id in s.states ==> s.states[id].Pending? || s.states[id].Completed?
  }

  /**
   * Whenever a task is pending and neither it nor anything it depends on is in
   * flight, failed or cancelled, some task is ready: that task or one it
   * depends on.
   */
  lemma {:induction false} PendingWorkIsSchedulable(config: Config, actions: seq<Action>, id: string)
      returns (next: string)
    requires Known(config.tasks) && Acyclic(config.tasks)
    requires var s := Run(config, actions);
             && id in s.states && s.states[id].Pending?
             && forall t | t in config.tasks && Reaches(config.tasks, id, t) :: Unblocked(s, t)
    ensures next == id || Reaches(config.tasks, id, next)
    ensures next in ReadyIds(config, Run(config, actions))
  {
    var s := Run(config, actions);
    RunKeepsInv(config, actions);
    var waiting := set t | t in config.tasks && s.states[t].Pending? && (t == id || Reaches(config.tasks, id, t));
    assert id in waiting;
    next := SourceExists(config.tasks, waiting);
    forall d | d in config.tasks[next].dependencies ensures d in s.completed {
      assert DependsOn(config.tasks, next, d);
      ReachesDirectly(config.tasks, next, d);
      if next != id {
        ReachesTransitive(config.tasks, id, next, d);
      }
    }
  }

  /** In particular: some task pending and none delegated, failed or cancelled means some task is ready. */
  lemma {:induction false} NoDeadlock(config: Config, actions: seq<Action>)
    requires Known(config.tasks) && Acyclic(config.tasks)
    requires var s := Run(config, actions);
             && (exists id :: id in s.states && s.states[id].Pending?)
             && forall t :: Unblocked(s, t)
    ensures ReadyIds(config, Run(config, actions)) != []
  {
    var s := Run(config, actions);
    var id :| id in s.states && s.states[id].Pending?;
    hide Run;
    var next := PendingWorkIsSchedulable(config, actions, id);
  }

  // ---------- the orchestrator ----------

  class GoalOrchestrator {
    const config: Config
    var states: map<string, TaskState>
    var delegations: map<string, Delegation>
    var completed: set<string>
    var cancelled: set<string>
    var rejectedCounts: map<string, nat>
    var exhausted: set<string>

    function View(): State
      reads this
    {
      State(states, delegations, completed, cancelled, rejectedCounts, exhausted)
    }

    constructor (config: Config)
      ensures this.config == config && View() == Initial(config)
    {
      this.config := config;
      states := map id | id in config.tasks :: Pending;
      delegations, completed, cancelled, rejectedCounts, exhausted := map[], {}, {}, map[], {};
    }

    method DelegateTask(id: string, subagent: string, requested: seq<Grant>, budget: nat)
      returns (r: Result<Delegation, OrchestratorError>)
      modifies this
      ensures (View(), r) == DelegateStep(config, old(View()), id, subagent, requested, budget)
    {
      if id !in states {
        return Err(UnknownTask);
      }
      if states[id].Failed? || states[id].Cancelled? {
        return Err(Terminal);
      }
      var ready := ReadyIds(config, View());
      if id !in ready {
        return Err(NotReady);
      }
      var retries := RetriesLeft(View(), id);
      if retries == 0 || id in exhausted {
        states := states[id := Failed];
        return Err(Terminal);
      }
      var d := Delegate(config.parentGrants, config.delegationId(id, subagent), id, subagent, requested, budget,
          retries);
      if d.Err? {
        return Err(if d.error.Escalation? then EscalationRefused else NotReady);
      }
      states := states[id := Delegated];
      delegations := delegations[id := d.value];
      return Ok(d.value);
    }

    method SubmitReport(report: SubagentReport) returns (r: Result<Verdict, OrchestratorError>)
      modifies this
      ensures (View(), r) == SubmitStep(config, old(View()), report)
    {
      hide Judge;
      var id := report.taskId;
      if id !in delegations {
        return Err(NotReady);
      }
      var d := delegations[id];
      if id !in states || !states[id].Delegated? {
        return Err(NotReady);
      }
      var declared := if id in config.tasks then config.tasks[id].evidence else [];
      var verdict := JudgeReport(config.digest, report, d.delegationId, d.subagentId, declared);
      if verdict.Verified? {
        states := states[id := Completed];
        completed := completed + {id};
        delegations := delegations - {id};
      } else {
        var used := Rejections(View(), id) + 1;
        rejectedCounts := rejectedCounts[id := used];
        if used >= MAX_RETRIES {
          states := states[id := Failed];
          delegations := delegations - {id};
          return Err(Terminal);
        }
        delegations := delegations - {id};
        states := states[id := Pending];
      }
      return Ok(verdict);
    }

    method ExhaustBudget(id: string)
      modifies this
      ensures View() == ExhaustStep(old(View()), id)
    {
      if id in states {
        exhausted := exhausted + {id};
        states := states[id := Failed];
        delegations := delegations - {id};
      }
    }

    /** Cancels the task and everything that depends on it; the result is the whole blast radius. */
    method Cancel(id: string) returns (radius: set<string>)
      modifies this
      ensures radius == Radius(config, id)
      ensures View() == CancelStep(config, old(View()), id)
    {
      hide Descendants, Mark;
      MarkNone(states);
      var descendants := FindDescendants(config.tasks, id);
      radius := descendants + {id};
      var rest := radius;
      ghost var hit: set<string> := {};
      while rest != {}
        invariant hit + rest * old(states).Keys == radius * old(states).Keys
        invariant states == Mark(old(states), hit) && states.Keys == old(states).Keys
        invariant cancelled == old(cancelled) + hit && delegations == old(delegations) - hit
        invariant completed == old(completed) && rejectedCounts == old(rejectedCounts) && exhausted == old(exhausted)
        decreases rest
      {
        var t :| t in rest;
        rest := rest - {t};
        if t in states {
          MarkOne(old(states), hit, t);
          DropOne(old(delegations), hit, t);
          hit := hit + {t};
          states := states[t := Cancelled];
          cancelled := cancelled + {t};
          delegations := delegations - {t};
        }
      }
      assert hit == radius * old(states).Keys;
    }
  }
}
