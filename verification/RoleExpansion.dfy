/**
 * Expansion of the roles of an identity claim over a role hierarchy that may
 * be cyclic. The worklist remembers only roles that have a mapping; a depth
 * bound on inheritance makes it terminate.
 */
module RoleExpansion {
  import opened Outcomes

  const MAX_ROLE_DEPTH: nat := 8

  /** The mapped roles, and the inherited roles of each role. */
  datatype Realm = Realm(mapped: set<string>, parents: map<string, seq<string>>)

  function ParentsOf(realm: Realm, role: string): seq<string> {
    if role in realm.parents then realm.parents[role] else []
  }

  // ---------- walks ----------

  predicate IsWalk(realm: Realm, walk: seq<string>) {
    && walk != []
    && forall i | 0 <= i < |walk| - 1 :: walk[i + 1] in ParentsOf(realm, walk[i])
  }

  /** An inheritance walk from a claimed role to `role` through `depth` parents. */
  predicate WalkTo(realm: Realm, claimed: seq<string>, walk: seq<string>, role: string, depth: nat) {
    IsWalk(realm, walk) && walk[0] in claimed && walk[|walk| - 1] == role && |walk| == depth + 1
  }

  ghost predicate ReachableAt(realm: Realm, claimed: seq<string>, role: string, depth: nat) {
    exists walk :: WalkTo(realm, claimed, walk, role, depth)
  }

  ghost predicate Reachable(realm: Realm, claimed: seq<string>, role: string) {
    exists depth :: ReachableAt(realm, claimed, role, depth)
  }

  lemma ClaimedReachable(realm: Realm, claimed: seq<string>, role: string)
    requires role in claimed
    ensures ReachableAt(realm, claimed, role, 0)
  {
    assert WalkTo(realm, claimed, [role], role, 0);
  }

  lemma ParentReachable(realm: Realm, claimed: seq<string>, role: string, parent: string, depth: nat)
    requires ReachableAt(realm, claimed, role, depth) && parent in ParentsOf(realm, role)
    ensures ReachableAt(realm, claimed, parent, depth + 1)
  {
    var walk :| WalkTo(realm, claimed, walk, role, depth);
    var longer := walk + [parent];
    forall i | 0 <= i < |longer| - 1 ensures longer[i + 1] in ParentsOf(realm, longer[i]) {
      if i < |walk| - 1 {
        assert walk[i + 1] in ParentsOf(realm, walk[i]);
      }
    }
    assert WalkTo(realm, claimed, longer, parent, depth + 1);
  }

  // ---------- termination ----------

  /** No role has more than `n` parents. */
  lemma {:induction false} Fanout(parents: map<string, seq<string>>) returns (n: nat)
    ensures forall r | r in parents :: |parents[r]| <= n
    decreases |parents|
  {
    n := 0;
    if parents != map[] {
      var r :| r in parents;
      var rest := parents - {r};
      assert |rest.Keys| < |parents.Keys| by {
        assert parents.Keys == rest.Keys + {r};
      }
      n := Fanout(rest);
      forall s | s in parents && s != r ensures |parents[s]| <= n {
        assert s in rest;
      }
      n := if n < |parents[r]| then |parents[r]| else n;
    }
  }

  ghost predicate AtMost(parents: map<string, seq<string>>, n: nat) {
    forall r | r in parents :: |parents[r]| <= n
  }

  ghost function FanoutOf(realm: Realm): (n: nat)
    ensures forall r :: |ParentsOf(realm, r)| <= n
  {
    assert exists n :: AtMost(realm.parents, n) by {
      var n := Fanout(realm.parents);
      assert AtMost(realm.parents, n);
    }
    var n :| AtMost(realm.parents, n);
    n
  }

  /** An entry at a depth outweighs all the entries it can push one level deeper. */
  ghost function Weight(fanout: nat, depth: nat): (w: nat)
    ensures w >= 1
    decreases MAX_ROLE_DEPTH + 1 - depth
  {
    if depth > MAX_ROLE_DEPTH then 1 else 1 + fanout * Weight(fanout, depth + 1)
  }

  ghost function StackWeight(fanout: nat, stack: seq<(string, nat)>): nat {
    if stack == [] then 0 else StackWeight(fanout, stack[..|stack| - 1]) + Weight(fanout, stack[|stack| - 1].1)
  }

  lemma {:induction false} WeightOfPushes(fanout: nat, stack: seq<(string, nat)>, pushes: seq<(string, nat)>,
      depth: nat)
    requires forall i | 0 <= i < |pushes| :: pushes[i].1 == depth
    ensures StackWeight(fanout, stack + pushes) == StackWeight(fanout, stack) + |pushes| * Weight(fanout, depth)
    decreases |pushes|
  {
    hide Weight;
    if pushes == [] {
      assert stack + pushes == stack;
    } else {
      var init := pushes[..|pushes| - 1];
      assert (stack + pushes)[..|stack + pushes| - 1] == stack + init;
      WeightOfPushes(fanout, stack, init, depth);
      assert |pushes| * Weight(fanout, depth) == |init| * Weight(fanout, depth) + Weight(fanout, depth);
    }
  }

  /** Replacing an entry by entries for its parents makes the stack lighter. */
  lemma PoppingIsLighter(fanout: nat, stack: seq<(string, nat)>, role: string, depth: nat, pushes: seq<(string, nat)>)
    requires depth <= MAX_ROLE_DEPTH && |pushes| <= fanout
    requires forall i | 0 <= i < |pushes| :: pushes[i].1 == depth + 1
    ensures StackWeight(fanout, stack + pushes) < StackWeight(fanout, stack + [(role, depth)])
  {
    WeightOfPushes(fanout, stack, pushes, depth + 1);
    WeightOfPushes(fanout, stack, [(role, depth)], depth);
    Scale(|pushes|, fanout, Weight(fanout, depth + 1));
  }

  lemma Scale(a: nat, b: nat, w: nat)
    requires a <= b
    ensures a * w <= b * w
  {
  }

  // ---------- the worklist ----------

  type Stack = seq<(string, nat)>

  predicate OnStack(stack: Stack, role: string) {
    exists i :: 0 <= i < |stack| && stack[i].0 == role
  }

  /** The entries pushed for the parents of a role: those not yet expanded, one level deeper. */
  function Pushes(parents: seq<string>, expanded: set<string>, depth: nat): (pushes: Stack)
    ensures |pushes| <= |parents|
    ensures forall e | e in pushes :: e.1 == depth && e.0 in parents
    ensures forall p | p in parents && p !in expanded :: (p, depth) in pushes
  {
    if parents == [] then []
    else
      var init, last := Pushes(parents[..|parents| - 1], expanded, depth), parents[|parents| - 1];
      assert parents == parents[..|parents| - 1] + [last];
      if last in expanded then init else init + [(last, depth)]
  }

  function Enter(realm: Realm, expanded: set<string>, role: string): set<string> {
    if role in realm.mapped then expanded + {role} else expanded
  }

  /** What the worklist makes of a stack and the roles expanded so far; `None` is the refusal for depth. */
  ghost function Outcome(realm: Realm, stack: Stack, expanded: set<string>): Option<set<string>>
    decreases StackWeight(FanoutOf(realm), stack)
  {
    if stack == [] then Some(expanded)
    else
      var (role, depth), rest := stack[|stack| - 1], stack[..|stack| - 1];
      if depth > MAX_ROLE_DEPTH then None
      else
        var entered := Enter(realm, expanded, role);
        var pushes := Pushes(ParentsOf(realm, role), entered, depth + 1);
        PoppingIsLighter(FanoutOf(realm), rest, role, depth, pushes);
        assert stack == rest + [(role, depth)];
        Outcome(realm, rest + pushes, entered)
  }

  lemma OutcomeStep(realm: Realm, rest: Stack, role: string, depth: nat, expanded: set<string>)
    ensures depth > MAX_ROLE_DEPTH ==> Outcome(realm, rest + [(role, depth)], expanded) == None
    ensures depth <= MAX_ROLE_DEPTH ==>
              var entered := Enter(realm, expanded, role);
              Outcome(realm, rest + [(role, depth)], expanded)
              == Outcome(realm, rest + Pushes(ParentsOf(realm, role), entered, depth + 1), entered)
  {
    hide Enter, Pushes, StackWeight, FanoutOf, ParentsOf;
    var stack := rest + [(role, depth)];
    assert stack[..|stack| - 1] == rest && stack[|stack| - 1] == (role, depth);
  }

  lemma OutcomeEmpty(realm: Realm, expanded: set<string>)
    ensures Outcome(realm, [], expanded) == Some(expanded)
  {
  }

  function Claimed(claimed: seq<string>): (stack: Stack)
    ensures |stack| == |claimed| && forall i | 0 <= i < |stack| :: stack[i] == (claimed[i], 0)
  {
    seq(|claimed|, i requires 0 <= i < |claimed| => (claimed[i], 0))
  }

  /** Every parent of an examined role has been examined or waits on the stack. */
  ghost predicate ClosedBut(realm: Realm, seen: set<string>, stack: Stack) {
    forall r, p | r in seen && p in ParentsOf(realm, r) :: p in seen || OnStack(stack, p)
  }

  ghost predicate StackReachable(realm: Realm, claimed: seq<string>, stack: Stack) {
    forall e | e in stack :: ReachableAt(realm, claimed, e.0, e.1)
  }

  /** A walk past the depth bound whose inherited roles are all unmapped. */
  predicate UnmappedWalk(realm: Realm, claimed: seq<string>, walk: seq<string>) {
    && IsWalk(realm, walk) && walk[0] in claimed && |walk| == MAX_ROLE_DEPTH + 2
    && forall i | 1 <= i < |walk| :: walk[i] !in realm.mapped
  }

  /** Some step of the walk is still to be examined at its own depth. */
  predicate Unfinished(walk: seq<string>, stack: Stack) {
    exists i :: 0 <= i < |walk| && (walk[i], i) in stack
  }

  /** What holds whenever the loop looks at its stack. */
  ghost predicate LoopInv(realm: Realm, claimed: seq<string>, stack: Stack, seen: set<string>, expanded: set<string>) {
    && StackReachable(realm, claimed, stack)
    && (forall role | role in claimed :: role in seen || OnStack(stack, role))
    && (forall role | role in seen :: Reachable(realm, claimed, role))
    && expanded == seen * realm.mapped
    && ClosedBut(realm, seen, stack)
    && (forall walk | UnmappedWalk(realm, claimed, walk) :: Unfinished(walk, stack))
  }

  lemma InitiallyHolds(realm: Realm, claimed: seq<string>, stack: Stack)
    requires |stack| == |claimed| && forall i | 0 <= i < |stack| :: stack[i] == (claimed[i], 0)
    ensures LoopInv(realm, claimed, stack, {}, {})
  {
    forall e | e in stack ensures ReachableAt(realm, claimed, e.0, e.1) {
      ClaimedReachable(realm, claimed, e.0);
    }
    forall role | role in claimed ensures OnStack(stack, role) && (role, 0) in stack {
      var i :| 0 <= i < |claimed| && claimed[i] == role;
      assert stack[i].0 == role && stack[i] == (role, 0);
    }
    forall walk | UnmappedWalk(realm, claimed, walk) ensures Unfinished(walk, stack) {
      assert (walk[0], 0) in stack;
    }
  }

  lemma StepReachable(realm: Realm, claimed: seq<string>, rest: Stack, role: string, depth: nat, pushes: Stack)
    requires StackReachable(realm, claimed, rest + [(role, depth)])
    requires forall e | e in pushes :: e.1 == depth + 1 && e.0 in ParentsOf(realm, role)
    ensures StackReachable(realm, claimed, rest + pushes) && ReachableAt(realm, claimed, role, depth)
  {
    hide ReachableAt;
    assert (role, depth) in rest + [(role, depth)];
    forall e | e in rest + pushes ensures ReachableAt(realm, claimed, e.0, e.1) {
      if e in rest {
        assert e in rest + [(role, depth)];
      } else {
        ParentReachable(realm, claimed, role, e.0, depth);
      }
    }
  }

  lemma StepOnStack(rest: Stack, role: string, depth: nat, pushes: Stack, x: string)
    ensures OnStack(rest + [(role, depth)], x) <==> OnStack(rest, x) || x == role
    ensures OnStack(rest + pushes, x) <==> OnStack(rest, x) || OnStack(pushes, x)
  {
    StackAppend(rest, [(role, depth)], x);
    StackAppend(rest, pushes, x);
    assert OnStack([(role, depth)], x) <==> x == role by {
      if x == role {
        assert [(role, depth)][0].0 == x;
      }
    }
  }

  lemma StepClosed(
    realm: Realm, rest: Stack, role: string, depth: nat, seen: set<string>, expanded: set<string>, pushes: Stack)
    requires ClosedBut(realm, seen, rest + [(role, depth)]) && expanded <= seen + {role}
    requires forall p | p in ParentsOf(realm, role) && p !in expanded :: OnStack(pushes, p)
    ensures ClosedBut(realm, seen + {role}, rest + pushes)
  {
    hide OnStack;
    forall r, p | r in seen + {role} && p in ParentsOf(realm, r)
        ensures p in seen + {role} || OnStack(rest + pushes, p) {
      StepOnStack(rest, role, depth, pushes, p);
    }
  }

  lemma StepHolds(realm: Realm, claimed: seq<string>, rest: Stack, role: string, depth: nat, seen: set<string>,
      expanded: set<string>)
    requires depth <= MAX_ROLE_DEPTH && LoopInv(realm, claimed, rest + [(role, depth)], seen, expanded)
    ensures var expanded' := expanded + ({role} * realm.mapped);
            LoopInv(realm, claimed, rest + Pushes(ParentsOf(realm, role), expanded', depth + 1), seen + {role},
                expanded')
  {
    var expanded' := expanded + ({role} * realm.mapped);
    var pushes := Pushes(ParentsOf(realm, role), expanded', depth + 1);
    hide Pushes, ReachableAt, UnmappedWalk, Unfinished;
    forall p | p in ParentsOf(realm, role) && p !in expanded' ensures OnStack(pushes, p) {
      var i :| 0 <= i < |pushes| && pushes[i] == (p, depth + 1);
    }
    StepReachable(realm, claimed, rest, role, depth, pushes);
    StepClosed(realm, rest, role, depth, seen, expanded', pushes);
    forall walk | UnmappedWalk(realm, claimed, walk) ensures Unfinished(walk, rest + pushes) {
      WalkContinues(realm, claimed, walk, rest, role, depth, expanded', pushes);
    }
    hide OnStack, ClosedBut, StackReachable;
    forall r | r in claimed ensures r in seen + {role} || OnStack(rest + pushes, r) {
      StepOnStack(rest, role, depth, pushes, r);
    }
    assert Reachable(realm, claimed, role);
  }

  lemma StackAppend(a: Stack, b: Stack, x: string)
    ensures OnStack(a + b, x) <==> OnStack(a, x) || OnStack(b, x)
  {
    if i :| 0 <= i < |a| && a[i].0 == x {
      assert (a + b)[i].0 == x;
    }
    if i :| 0 <= i < |b| && b[i].0 == x {
      assert (a + b)[|a| + i].0 == x;
    }
  }

  lemma WalkContinues(
    realm: Realm, claimed: seq<string>, walk: seq<string>, rest: Stack, role: string, depth: nat,
        expanded: set<string>, pushes: Stack)
    requires UnmappedWalk(realm, claimed, walk) && Unfinished(walk, rest + [(role, depth)])
    requires expanded <= realm.mapped && depth <= MAX_ROLE_DEPTH
    requires forall p | p in ParentsOf(realm, role) && p !in expanded :: (p, depth + 1) in pushes
    ensures Unfinished(walk, rest + pushes)
  {
    var i :| 0 <= i < |walk| && (walk[i], i) in rest + [(role, depth)];
    if (walk[i], i) in rest {
      assert (walk[i], i) in rest + pushes;
    } else {
      assert walk[i + 1] in ParentsOf(realm, walk[i]);
      assert (walk[i + 1], i + 1) in rest + pushes;
    }
  }

  /** Roles closed under parents contain everything reachable. */
  lemma {:induction false} ClosedHasWalks(realm: Realm, claimed: seq<string>, seen: set<string>, walk: seq<string>,
      role: string, depth: nat)
    requires ClosedBut(realm, seen, []) && (forall r | r in claimed :: r in seen)
    requires WalkTo(realm, claimed, walk, role, depth)
    ensures role in seen
    decreases depth
  {
    if depth == 0 {
    } else {
      var init := walk[..depth];
      assert WalkTo(realm, claimed, init, walk[depth - 1], depth - 1) by {
        forall i | 0 <= i < |init| - 1 ensures init[i + 1] in ParentsOf(realm, init[i]) {
          assert walk[i + 1] in ParentsOf(realm, walk[i]);
        }
      }
      ClosedHasWalks(realm, claimed, seen, init, walk[depth - 1], depth - 1);
      assert walk[depth - 1 + 1] in ParentsOf(realm, walk[depth - 1]);
    }
  }

  /** The roles examined by a finished worklist are exactly the reachable ones. */
  lemma FinishedIsReachable(realm: Realm, claimed: seq<string>, seen: set<string>, expanded: set<string>)
    requires LoopInv(realm, claimed, [], seen, expanded)
    ensures forall role :: role in expanded <==> role in realm.mapped && Reachable(realm, claimed, role)
    ensures forall walk :: !UnmappedWalk(realm, claimed, walk)
  {
    forall role | Reachable(realm, claimed, role) ensures role in seen {
      var depth :| ReachableAt(realm, claimed, role, depth);
      var walk :| WalkTo(realm, claimed, walk, role, depth);
      ClosedHasWalks(realm, claimed, seen, walk, role, depth);
    }
  }

  // ---------- refusal needs a walk that meets no mapped role twice ----------

  /** No mapped role recurs; an unmapped role may. */
  predicate Fresh(realm: Realm, walk: seq<string>) {
    forall i, j | 0 <= j < i < |walk| && walk[j] in realm.mapped :: walk[i] != walk[j]
  }

  /** An inheritance walk past the depth bound that meets no mapped role twice. */
  predicate FreshWalk(realm: Realm, claimed: seq<string>, walk: seq<string>) {
    IsWalk(realm, walk) && walk[0] in claimed && |walk| == MAX_ROLE_DEPTH + 2 && Fresh(realm, walk)
  }

  /** How an entry got on the stack: a fresh walk whose earlier mapped roles have all been expanded. */
  predicate FreshTo(realm: Realm, claimed: seq<string>, walk: seq<string>, role: string, depth: nat,
      expanded: set<string>) {
    && WalkTo(realm, claimed, walk, role, depth) && Fresh(realm, walk)
    && forall i | 0 <= i < depth && walk[i] in realm.mapped :: walk[i] in expanded
  }

  ghost predicate HasFreshWalk(realm: Realm, claimed: seq<string>, e: (string, nat), expanded: set<string>) {
    exists walk :: FreshTo(realm, claimed, walk, e.0, e.1, expanded)
  }

  lemma EntersFresh(realm: Realm, claimed: seq<string>, e: (string, nat), expanded: set<string>, more: set<string>)
    requires HasFreshWalk(realm, claimed, e, expanded) && expanded <= more
    ensures HasFreshWalk(realm, claimed, e, more)
  {
    var walk :| FreshTo(realm, claimed, walk, e.0, e.1, expanded);
    assert FreshTo(realm, claimed, walk, e.0, e.1, more);
  }

  lemma ParentIsFresh(realm: Realm, claimed: seq<string>, role: string, depth: nat, parent: string,
      expanded: set<string>)
    requires HasFreshWalk(realm, claimed, (role, depth), expanded) && parent in ParentsOf(realm, role)
    requires parent !in Enter(realm, expanded, role)
    ensures HasFreshWalk(realm, claimed, (parent, depth + 1), Enter(realm, expanded, role))
  {
    var walk :| FreshTo(realm, claimed, walk, role, depth, expanded);
    var longer := walk + [parent];
    forall i | 0 <= i < |longer| - 1 ensures longer[i + 1] in ParentsOf(realm, longer[i]) {
      if i < |walk| - 1 {
        assert walk[i + 1] in ParentsOf(realm, walk[i]);
      }
    }
    assert FreshTo(realm, claimed, longer, parent, depth + 1, Enter(realm, expanded, role));
  }

  /** A step keeps every entry's walk. */
  lemma StepFresh(realm: Realm, claimed: seq<string>, rest: Stack, role: string, depth: nat, expanded: set<string>)
    requires forall e | e in rest + [(role, depth)] :: HasFreshWalk(realm, claimed, e, expanded)
    ensures var entered := Enter(realm, expanded, role);
            forall e | e in rest + Pushes(ParentsOf(realm, role), entered, depth + 1) ::
                HasFreshWalk(realm, claimed, e, entered)
  {
    assert (role, depth) in rest + [(role, depth)];
    var entered := Enter(realm, expanded, role);
    NoExpandedIsPushed(ParentsOf(realm, role), entered, depth + 1);
    hide HasFreshWalk, Pushes, ParentsOf;
    forall e | e in rest + Pushes(ParentsOf(realm, role), entered, depth + 1)
        ensures HasFreshWalk(realm, claimed, e, entered) {
      if e in rest {
        assert e in rest + [(role, depth)];
        EntersFresh(realm, claimed, e, expanded, entered);
      } else {
        ParentIsFresh(realm, claimed, role, depth, e.0, expanded);
      }
    }
  }

  lemma PastTheBound(realm: Realm, claimed: seq<string>, role: string, depth: nat, expanded: set<string>)
    returns (walk: seq<string>)
    requires depth > MAX_ROLE_DEPTH && HasFreshWalk(realm, claimed, (role, depth), expanded)
    ensures FreshWalk(realm, claimed, walk)
  {
    var w :| FreshTo(realm, claimed, w, role, depth, expanded);
    walk := w[..MAX_ROLE_DEPTH + 2];
  }

  lemma {:induction false} RefusedStack(realm: Realm, claimed: seq<string>, stack: Stack, expanded: set<string>)
    returns (walk: seq<string>)
    requires Outcome(realm, stack, expanded).None?
    requires forall e | e in stack :: HasFreshWalk(realm, claimed, e, expanded)
    ensures FreshWalk(realm, claimed, walk)
    decreases StackWeight(FanoutOf(realm), stack)
  {
    var rest, top := stack[..|stack| - 1], stack[|stack| - 1];
    var (role, depth) := top;
    assert stack == rest + [(role, depth)] && (role, depth) in stack;
    OutcomeStep(realm, rest, role, depth, expanded);
    hide Outcome, HasFreshWalk, Pushes, ParentsOf, StackWeight, FanoutOf, Enter, FreshWalk;
    if depth > MAX_ROLE_DEPTH {
      walk := PastTheBound(realm, claimed, role, depth, expanded);
    } else {
      var entered := Enter(realm, expanded, role);
      var pushes := Pushes(ParentsOf(realm, role), entered, depth + 1);
      PoppingIsLighter(FanoutOf(realm), rest, role, depth, pushes);
      StepFresh(realm, claimed, rest, role, depth, expanded);
      walk := RefusedStack(realm, claimed, rest + pushes, entered);
    }
  }

  lemma {:induction false} NoExpandedIsPushed(parents: seq<string>, expanded: set<string>, depth: nat)
    ensures forall e | e in Pushes(parents, expanded, depth) :: e.0 !in expanded
  {
    if parents == [] {
    } else {
      NoExpandedIsPushed(parents[..|parents| - 1], expanded, depth);
    }
  }

  /**
   * Whatever the order of the claim and of the parents, a refused claim has a
   * walk past the bound that meets no mapped role twice.
   */
  lemma RefusalNeedsFreshWalk(realm: Realm, claimed: seq<string>) returns (walk: seq<string>)
    ensures Outcome(realm, Claimed(claimed), {}).None? ==> FreshWalk(realm, claimed, walk)
  {
    walk := [];
    if Outcome(realm, Claimed(claimed), {}).None? {
      forall e | e in Claimed(claimed) ensures HasFreshWalk(realm, claimed, e, {}) {
        assert FreshTo(realm, claimed, [e.0], e.0, 0, {});
      }
      walk := RefusedStack(realm, claimed, Claimed(claimed), {});
    }
  }

  /**
   * The mapped roles a claim expands to. Whatever the order of the claimed
   * roles, success yields exactly the mapped roles reachable from them; a
   * refusal means some inheritance walk from a claimed role exceeds the depth
   * bound without meeting a mapped role twice, and a walk past the bound
   * through unmapped roles is always refused.
   */
  method Expand(realm: Realm, claimed: seq<string>) returns (r: Option<set<string>>)
    ensures r == Outcome(realm, Claimed(claimed), {})
    ensures r.Some? ==> forall role :: role in r.value <==> role in realm.mapped && Reachable(realm, claimed, role)
    ensures r.None? ==> exists walk :: FreshWalk(realm, claimed, walk)
    ensures (exists walk :: UnmappedWalk(realm, claimed, walk)) ==> r.None?
  {
    hide StackWeight, LoopInv, UnmappedWalk, FreshWalk, Reachable, Pushes, Outcome, Claimed;
    var expanded: set<string> := {};
    var stack := Claimed(claimed);
    assert forall i | 0 <= i < |claimed| :: stack[i] == (claimed[i], 0);
    ghost var seen: set<string> := {};
    InitiallyHolds(realm, claimed, stack);
    while stack != []
      invariant LoopInv(realm, claimed, stack, seen, expanded)
      invariant Outcome(realm, stack, expanded) == Outcome(realm, Claimed(claimed), {})
      decreases StackWeight(FanoutOf(realm), stack)
    {
      var (role, depth) := stack[|stack| - 1];
      ghost var rest, before := stack[..|stack| - 1], expanded;
      assert stack == rest + [(role, depth)];
      OutcomeStep(realm, rest, role, depth, expanded);
      if depth > MAX_ROLE_DEPTH {
        ghost var walk := RefusalNeedsFreshWalk(realm, claimed);
        return None;
      }
      stack := stack[..|stack| - 1];
      if role in realm.mapped {
        expanded := expanded + {role};
      }
      stack := PushParents(ParentsOf(realm, role), expanded, depth + 1, stack);
      assert expanded == Enter(realm, before, role) == before + ({role} * realm.mapped);
      StepHolds(realm, claimed, rest, role, depth, seen, before);
      PoppingIsLighter(FanoutOf(realm), rest, role, depth, Pushes(ParentsOf(realm, role), expanded, depth + 1));
      seen := seen + {role};
    }
    OutcomeEmpty(realm, expanded);
    FinishedIsReachable(realm, claimed, seen, expanded);
    return Some(expanded);
  }

  method PushParents(parents: seq<string>, expanded: set<string>, depth: nat, stack: Stack) returns (pushed: Stack)
    ensures pushed == stack + Pushes(parents, expanded, depth)
  {
    pushed := stack;
    var i := 0;
    while i < |parents|
      invariant 0 <= i <= |parents|
      invariant pushed == stack + Pushes(parents[..i], expanded, depth)
    {
      assert parents[..i + 1][..i] == parents[..i];
      if parents[i] !in expanded {
        pushed := pushed + [(parents[i], depth)];
      }
      i := i + 1;
    }
    assert parents[..i] == parents;
  }

  // ---------- cycles that are accepted ----------

  predicate AllDistinct(walk: seq<string>) {
    forall i, j | 0 <= i < j < |walk| :: walk[i] != walk[j]
  }

  lemma {:induction false} DistinctFit(walk: seq<string>, roles: set<string>)
    requires AllDistinct(walk) && forall x | x in walk :: x in roles
    ensures |walk| <= |roles|
    decreases |walk|
  {
    if walk == [] {
    } else {
      var init, last := walk[..|walk| - 1], walk[|walk| - 1];
      forall x | x in init ensures x in roles - {last} {
        var i :| 0 <= i < |init| && init[i] == x;
        assert walk[i] == x;
      }
      DistinctFit(init, roles - {last});
    }
  }

  /** The claimed roles and everything they can inherit are among these roles. */
  predicate Encloses(realm: Realm, claimed: seq<string>, roles: set<string>) {
    && (forall role | role in claimed :: role in roles)
    && (forall role | role in roles :: forall parent | parent in ParentsOf(realm, role) :: parent in roles)
  }

  lemma {:induction false} WalkStaysEnclosed(realm: Realm, claimed: seq<string>, roles: set<string>, walk: seq<string>,
      i: nat)
    requires Encloses(realm, claimed, roles) && IsWalk(realm, walk) && walk[0] in claimed && i < |walk|
    ensures walk[i] in roles
  {
    if i == 0 {
    } else {
      WalkStaysEnclosed(realm, claimed, roles, walk, i - 1);
      assert walk[i - 1 + 1] in ParentsOf(realm, walk[i - 1]);
    }
  }

  /** A hierarchy of at most nine roles, all mapped, is accepted in every order, however cyclic it is. */
  lemma SmallMappedHierarchyIsAccepted(realm: Realm, claimed: seq<string>, roles: set<string>)
    requires Encloses(realm, claimed, roles) && roles <= realm.mapped && |roles| <= MAX_ROLE_DEPTH + 1
    ensures Outcome(realm, Claimed(claimed), {}).Some?
  {
    hide Outcome;
    var walk := RefusalNeedsFreshWalk(realm, claimed);
    if FreshWalk(realm, claimed, walk) {
      forall i: nat | i < |walk| ensures walk[i] in roles {
        WalkStaysEnclosed(realm, claimed, roles, walk, i);
      }
      assert AllDistinct(walk);
      DistinctFit(walk, roles);
    }
  }

  /** Two mapped roles that inherit each other are accepted, though the documentation has cycles refused. */
  lemma MutualInheritanceIsAccepted(a: string, b: string)
    ensures var realm := Realm({a, b}, map[a := [b], b := [a]]);
            && Outcome(realm, Claimed([a]), {}).Some?
            && (exists walk :: IsWalk(realm, walk) && walk[0] == a && |walk| > 1 && walk[|walk| - 1] == a)
  {
    var realm := Realm({a, b}, map[a := [b], b := [a]]);
    assert IsWalk(realm, [a, b, a]);
    assert |{a, b}| <= 2;
    hide Outcome;
    SmallMappedHierarchyIsAccepted(realm, [a], {a, b});
  }

  // ---------- walks that are refused ----------

  /** Along the walk every role is the last parent listed for the one before it, so it is examined next. */
  predicate TakenFirst(realm: Realm, walk: seq<string>) {
    forall i | 0 <= i < |walk| - 1 ::
      ParentsOf(realm, walk[i]) != [] && ParentsOf(realm, walk[i])[|ParentsOf(realm, walk[i])| - 1] == walk[i + 1]
  }

  lemma LastIsPushedLast(parents: seq<string>, expanded: set<string>, depth: nat)
    requires parents != [] && parents[|parents| - 1] !in expanded
    ensures Pushes(parents, expanded, depth)
         == Pushes(parents[..|parents| - 1], expanded, depth) + [(parents[|parents| - 1], depth)]
  {
  }

  /** The mapped roles of the walk so far, and nothing else. */
  predicate EnteredOn(realm: Realm, walk: seq<string>, k: nat, expanded: set<string>) {
    k <= |walk| && forall x | x in expanded :: x in realm.mapped && exists j :: 0 <= j < k && walk[j] == x
  }

  lemma EnteringNext(realm: Realm, walk: seq<string>, k: nat, expanded: set<string>)
    requires Fresh(realm, walk) && k < |walk| - 1 && EnteredOn(realm, walk, k, expanded)
    ensures var entered := Enter(realm, expanded, walk[k]);
            EnteredOn(realm, walk, k + 1, entered) && walk[k + 1] !in entered
  {
  }

  lemma {:induction false} FollowingIsRefused(realm: Realm, walk: seq<string>, rest: Stack, k: nat,
      expanded: set<string>)
    requires TakenFirst(realm, walk) && Fresh(realm, walk) && k < |walk| == MAX_ROLE_DEPTH + 2
    requires EnteredOn(realm, walk, k, expanded)
    ensures Outcome(realm, rest + [(walk[k], k)], expanded).None?
    decreases |walk| - k
  {
    OutcomeStep(realm, rest, walk[k], k, expanded);
    if k <= MAX_ROLE_DEPTH {
      var parents, entered := ParentsOf(realm, walk[k]), Enter(realm, expanded, walk[k]);
      EnteringNext(realm, walk, k, expanded);
      assert parents != [] && parents[|parents| - 1] == walk[k + 1];
      hide Outcome, EnteredOn, Enter, Fresh, TakenFirst, ParentsOf;
      LastIsPushedLast(parents, entered, k + 1);
      hide Pushes;
      var others := Pushes(parents[..|parents| - 1], entered, k + 1);
      assert rest + (others + [(walk[k + 1], k + 1)]) == (rest + others) + [(walk[k + 1], k + 1)];
      FollowingIsRefused(realm, walk, rest + others, k + 1, entered);
    }
  }

  /** A fresh walk past the bound that the worklist takes first is refused. */
  lemma WalkTakenFirstIsRefused(realm: Realm, claimed: seq<string>, walk: seq<string>)
    requires FreshWalk(realm, claimed, walk) && TakenFirst(realm, walk) && claimed[|claimed| - 1] == walk[0]
    ensures Outcome(realm, Claimed(claimed), {}).None?
  {
    hide Outcome;
    var rest := Claimed(claimed)[..|claimed| - 1];
    assert Claimed(claimed) == rest + [(walk[0], 0)];
    FollowingIsRefused(realm, walk, rest, 0, {});
  }

  /** Every role inherits at most one. */
  predicate OneParentEach(realm: Realm) {
    forall role | role in realm.parents :: |realm.parents[role]| <= 1
  }

  /**
   * The exact condition when nothing is left to order: with one claimed role
   * and at most one parent each, the claim is refused if and only if the walk
   * of its ancestors passes the bound before a mapped role recurs.
   */
  lemma SingleLineRefusedIff(realm: Realm, role: string)
    requires OneParentEach(realm)
    ensures Outcome(realm, Claimed([role]), {}).None? <==> exists walk :: FreshWalk(realm, [role], walk)
  {
    hide Outcome;
    var found := RefusalNeedsFreshWalk(realm, [role]);
    forall walk | FreshWalk(realm, [role], walk) ensures Outcome(realm, Claimed([role]), {}).None? {
      forall i | 0 <= i < |walk| - 1
        ensures ParentsOf(realm, walk[i]) != []
                && ParentsOf(realm, walk[i])[|ParentsOf(realm, walk[i])| - 1] == walk[i + 1]
      {
        assert walk[i + 1] in ParentsOf(realm, walk[i]);
      }
      WalkTakenFirstIsRefused(realm, [role], walk);
    }
  }

  // ---------- what every order accepts ----------

  /** The same mappings, claim and parents, in possibly other orders. */
  ghost predicate Reordered(realm: Realm, claimed: seq<string>, realm': Realm, claimed': seq<string>) {
    && realm'.mapped == realm.mapped && multiset(claimed') == multiset(claimed)
    && forall role :: multiset(ParentsOf(realm', role)) == multiset(ParentsOf(realm, role))
  }

  /** Some order of the claim and of the parents is refused. */
  ghost predicate RefusedInSomeOrder(realm: Realm, claimed: seq<string>) {
    exists realm', claimed' ::
      Reordered(realm, claimed, realm', claimed') && Outcome(realm', Claimed(claimed'), {}).None?
  }

  lemma ReorderedMembers(realm: Realm, claimed: seq<string>, realm': Realm, claimed': seq<string>)
    requires Reordered(realm, claimed, realm', claimed')
    ensures forall role :: role in claimed' <==> role in claimed
    ensures forall role, parent :: parent in ParentsOf(realm', role) <==> parent in ParentsOf(realm, role)
  {
    hide ParentsOf;
    forall role ensures role in claimed' <==> role in claimed {
      assert role in multiset(claimed') <==> role in multiset(claimed);
    }
    forall role, parent ensures parent in ParentsOf(realm', role) <==> parent in ParentsOf(realm, role) {
      assert parent in multiset(ParentsOf(realm', role)) <==> parent in multiset(ParentsOf(realm, role));
    }
  }

  /** Moves one occurrence to the end, where the worklist takes it first. */
  ghost function MoveLast(s: seq<string>, x: string): (moved: seq<string>)
    requires x in s
    ensures multiset(moved) == multiset(s) && moved != [] && moved[|moved| - 1] == x
  {
    var i :| 0 <= i < |s| && s[i] == x;
    assert s == s[..i] + [x] + s[i + 1..];
    s[..i] + s[i + 1..] + [x]
  }

  /** The parents of each role on the walk with the next role of the walk moved last. */
  ghost function Straightened(realm: Realm, walk: seq<string>): Realm
    requires IsWalk(realm, walk)
  {
    Realm(realm.mapped,
          map role | role in realm.parents ::
            if role in walk[..|walk| - 1] then MoveLast(realm.parents[role], NextOn(realm, walk, role))
                else realm.parents[role])
  }

  ghost function NextOn(realm: Realm, walk: seq<string>, role: string): (next: string)
    requires IsWalk(realm, walk) && role in walk[..|walk| - 1]
    ensures next in ParentsOf(realm, role)
    ensures exists i :: 0 <= i < |walk| - 1 && walk[i] == role && walk[i + 1] == next
  {
    var i :| 0 <= i < |walk| - 1 && walk[..|walk| - 1][i] == role;
    assert walk[i + 1] in ParentsOf(realm, walk[i]);
    walk[i + 1]
  }

  lemma StraightenedParents(realm: Realm, walk: seq<string>, i: nat)
    requires IsWalk(realm, walk) && AllDistinct(walk) && i < |walk| - 1
    ensures var parents := ParentsOf(Straightened(realm, walk), walk[i]);
            parents != [] && parents[|parents| - 1] == walk[i + 1]
  {
    assert walk[i + 1] in ParentsOf(realm, walk[i]) && walk[..|walk| - 1][i] == walk[i];
    var j :| 0 <= j < |walk| - 1 && walk[j] == walk[i] && walk[j + 1] == NextOn(realm, walk, walk[i]);
    assert i == j;
    hide MoveLast, NextOn;
  }

  lemma StraightenedIsReordered(realm: Realm, claimed: seq<string>, walk: seq<string>)
    requires IsWalk(realm, walk) && AllDistinct(walk) && walk[0] in claimed
    ensures Reordered(realm, claimed, Straightened(realm, walk), MoveLast(claimed, walk[0]))
    ensures TakenFirst(Straightened(realm, walk), walk) && IsWalk(Straightened(realm, walk), walk)
  {
    var straight := Straightened(realm, walk);
    forall role ensures multiset(ParentsOf(straight, role)) == multiset(ParentsOf(realm, role)) {
      hide MoveLast, NextOn;
    }
    hide Straightened, ParentsOf, MoveLast;
    forall i | 0 <= i < |walk| - 1
      ensures ParentsOf(straight, walk[i]) != []
      ensures ParentsOf(straight, walk[i])[|ParentsOf(straight, walk[i])| - 1] == walk[i + 1]
    {
      StraightenedParents(realm, walk, i);
    }
  }

  /** A walk past the bound that meets no role twice is refused in some order. */
  lemma SimpleWalkIsRefusedInSomeOrder(realm: Realm, claimed: seq<string>, walk: seq<string>)
    requires IsWalk(realm, walk) && walk[0] in claimed && AllDistinct(walk) && |walk| == MAX_ROLE_DEPTH + 2
    ensures RefusedInSomeOrder(realm, claimed)
  {
    var straight, last := Straightened(realm, walk), MoveLast(claimed, walk[0]);
    StraightenedIsReordered(realm, claimed, walk);
    hide Outcome, Straightened, MoveLast, Reordered;
    assert FreshWalk(straight, last, walk) by {
      assert last[|last| - 1] in last;
    }
    WalkTakenFirstIsRefused(straight, last, walk);
  }

  lemma ReorderedWalk(realm: Realm, claimed: seq<string>, realm': Realm, claimed': seq<string>, walk: seq<string>)
    requires Reordered(realm, claimed, realm', claimed') && FreshWalk(realm', claimed', walk)
    ensures FreshWalk(realm, claimed, walk)
  {
    ReorderedMembers(realm, claimed, realm', claimed');
    hide ParentsOf;
    forall i | 0 <= i < |walk| - 1 ensures walk[i + 1] in ParentsOf(realm, walk[i]) {
      assert walk[i + 1] in ParentsOf(realm', walk[i]);
    }
  }

  lemma PrefixIsReachable(realm: Realm, claimed: seq<string>, walk: seq<string>, i: nat)
    requires IsWalk(realm, walk) && walk[0] in claimed && i < |walk|
    ensures Reachable(realm, claimed, walk[i])
  {
    var prefix := walk[..i + 1];
    assert IsWalk(realm, prefix) by {
      forall k | 0 <= k < i ensures prefix[k + 1] in ParentsOf(realm, prefix[k]) {
        assert walk[k + 1] in ParentsOf(realm, walk[k]);
      }
    }
    assert WalkTo(realm, claimed, prefix, walk[i], i);
    assert ReachableAt(realm, claimed, walk[i], i);
  }

  /**
   * The exact order-free condition where every reachable role is mapped: some
   * order of the claim and of the parents is refused if and only if a walk
   * past the bound meets no role twice. Cycles alone refuse nothing.
   */
  lemma MappedRefusedInSomeOrderIff(realm: Realm, claimed: seq<string>)
    requires forall role | Reachable(realm, claimed, role) :: role in realm.mapped
    ensures RefusedInSomeOrder(realm, claimed)
       <==> exists walk ::
            IsWalk(realm, walk) && walk[0] in claimed && AllDistinct(walk) && |walk| == MAX_ROLE_DEPTH + 2
  {
    hide Outcome, Reachable, ParentsOf;
    if RefusedInSomeOrder(realm, claimed) {
      var realm', claimed' :| Reordered(realm, claimed, realm', claimed')
          && Outcome(realm', Claimed(claimed'), {}).None?;
      var walk := RefusalNeedsFreshWalk(realm', claimed');
      ReorderedWalk(realm, claimed, realm', claimed', walk);
      forall i: nat | i < |walk| ensures walk[i] in realm.mapped {
        PrefixIsReachable(realm, claimed, walk, i);
      }
      assert AllDistinct(walk);
    }
    forall walk | IsWalk(realm, walk) && walk[0] in claimed && AllDistinct(walk) && |walk| == MAX_ROLE_DEPTH + 2
      ensures RefusedInSomeOrder(realm, claimed)
    {
      SimpleWalkIsRefusedInSomeOrder(realm, claimed, walk);
    }
  }

  // ---------- refusal depends on the order of the claim ----------

  /** The roles of a chain of ten. */
  function Link(i: nat): string
    requires i <= 9
  {
    ["0123456789"[i]]
  }

  lemma LinksDistinct(i: nat, j: nat)
    requires i <= 9 && j <= 9 && Link(i) == Link(j)
    ensures i == j
  {
    assert Link(i)[0] == Link(j)[0];
  }

  /** Ten mapped roles, each inheriting the next. */
  predicate IsChain(realm: Realm) {
    && (forall i: nat | i <= 9 :: Link(i) in realm.mapped)
    && LinksInherit(realm) && ParentsOf(realm, Link(9)) == []
  }

  /** None of the links from `from` on is expanded yet. */
  predicate Untouched(from: nat, expanded: set<string>) {
    forall i: nat | from <= i <= 9 :: Link(i) !in expanded
  }

  lemma StepAlong(realm: Realm, rest: Stack, k: nat, depth: nat, expanded: set<string>)
    requires IsChain(realm) && k < 9 && depth <= MAX_ROLE_DEPTH
    ensures Outcome(realm, rest + [(Link(k), depth)], expanded)
         == Outcome(realm, rest + (if Link(k + 1) in expanded then [] else [(Link(k + 1), depth + 1)]),
            expanded + {Link(k)})
  {
    if Link(k) == Link(k + 1) {
      LinksDistinct(k, k + 1);
    }
    OutcomeStep(realm, rest, Link(k), depth, expanded);
    hide Outcome, Link;
    OnePush(Link(k + 1), Enter(realm, expanded, Link(k)), depth + 1);
  }

  lemma OnePush(parent: string, expanded: set<string>, depth: nat)
    ensures Pushes([parent], expanded, depth) == if parent in expanded then [] else [(parent, depth)]
  {
    assert [parent][..0] == [];
  }

  lemma UntouchedAfter(k: nat, expanded: set<string>)
    requires k < 9 && Untouched(k + 1, expanded)
    ensures Untouched(k + 1, expanded + {Link(k)})
  {
    forall i: nat | k + 1 <= i <= 9 ensures Link(i) !in expanded + {Link(k)} {
      if Link(i) == Link(k) {
        LinksDistinct(i, k);
      }
    }
  }

  /** The roles of the chain in order, ten in all. */
  function Links(): (walk: seq<string>)
    ensures |walk| == MAX_ROLE_DEPTH + 2 && forall i: nat | i <= 9 :: walk[i] == Link(i)
  {
    seq(MAX_ROLE_DEPTH + 2, i requires 0 <= i < MAX_ROLE_DEPTH + 2 => Link(i))
  }

  /** Each link inherits the next. */
  predicate LinksInherit(realm: Realm) {
    forall i: nat | i < 9 :: ParentsOf(realm, Link(i)) == [Link(i + 1)]
  }

  lemma LinksFollow(realm: Realm, i: nat)
    requires LinksInherit(realm) && i < |Links()| - 1
    ensures ParentsOf(realm, Links()[i]) == [Links()[i + 1]]
  {
    assert Links()[i] == Link(i) && Links()[i + 1] == Link(i + 1);
    hide Link, ParentsOf;
  }

  lemma LinksAllDistinct(realm: Realm)
    ensures AllDistinct(Links()) && Fresh(realm, Links())
  {
    var walk := Links();
    forall i: nat, j: nat | i < j < |walk| ensures walk[i] != walk[j] {
      assert walk[i] == Link(i) && walk[j] == Link(j);
      if Link(i) == Link(j) {
        LinksDistinct(i, j);
      }
    }
  }

  lemma LinksAreFresh(realm: Realm)
    requires LinksInherit(realm)
    ensures FreshWalk(realm, [Link(0)], Links()) && TakenFirst(realm, Links()) && Links()[0] == Link(0)
  {
    assert Links()[0] == Link(0);
    LinksAllDistinct(realm);
    hide Link, ParentsOf, Links, LinksInherit, Fresh;
    var walk := Links();
    forall i | 0 <= i < |walk| - 1
      ensures ParentsOf(realm, walk[i]) != []
              && ParentsOf(realm, walk[i])[|ParentsOf(realm, walk[i])| - 1] == walk[i + 1]
      ensures walk[i + 1] in ParentsOf(realm, walk[i])
    {
      LinksFollow(realm, i);
    }
    assert TakenFirst(realm, walk) && IsWalk(realm, walk);
  }

  lemma LastLink(realm: Realm, rest: Stack, depth: nat, expanded: set<string>)
    requires IsChain(realm) && depth <= MAX_ROLE_DEPTH
    ensures Outcome(realm, rest + [(Link(9), depth)], expanded) == Outcome(realm, rest, expanded + {Link(9)})
  {
    OutcomeStep(realm, rest, Link(9), depth, expanded);
    hide Outcome, Link;
    assert rest + [] == rest;
  }

  /** Entering the chain at link `k` at a depth that leaves room expands the rest of it. */
  lemma {:induction false} FinishingTheChain(realm: Realm, rest: Stack, k: nat, depth: nat, expanded: set<string>)
      returns (after: set<string>)
    requires IsChain(realm) && k <= 9 && depth + (9 - k) <= MAX_ROLE_DEPTH && Untouched(k + 1, expanded)
    ensures Outcome(realm, rest + [(Link(k), depth)], expanded) == Outcome(realm, rest, after)
    ensures Link(k) in after && expanded <= after && forall x | x in after ::
            x in expanded || exists i: nat :: k <= i <= 9 && x == Link(i)
    decreases 9 - k
  {
    hide Outcome, IsChain;
    if k < 9 {
      StepAlong(realm, rest, k, depth, expanded);
      UntouchedAfter(k, expanded);
      after := FinishingTheChain(realm, rest, k + 1, depth + 1, expanded + {Link(k)});
    } else {
      after := expanded + {Link(9)};
      LastLink(realm, rest, depth, expanded);
    }
  }

  lemma {:induction false} JoiningTheChain(realm: Realm, k: nat, expanded: set<string>)
    requires IsChain(realm) && k <= 4 && Link(5) in expanded && forall i: nat | k < i <= 4 :: Link(i) !in expanded
    ensures Outcome(realm, [(Link(k), k)], expanded).Some?
    decreases 4 - k
  {
    StepAlong(realm, [], k, k, expanded);
    OutcomeEmpty(realm, expanded + {Link(k)});
    hide Outcome;
    assert [] + [(Link(k), k)] == [(Link(k), k)];
    if k < 4 {
      forall i: nat | k + 1 < i <= 4 ensures Link(i) !in expanded + {Link(k)} {
        if Link(i) == Link(k) {
          LinksDistinct(i, k);
        }
      }
      assert [] + [(Link(k + 1), k + 1)] == [(Link(k + 1), k + 1)];
      JoiningTheChain(realm, k + 1, expanded + {Link(k)});
    }
  }

  /**
   * No order-free condition decides the refusal: over a chain of ten mapped
   * roles, claiming the first and the sixth is accepted in one order and
   * refused in the other.
   */
  lemma RefusalDependsOnClaimOrder(realm: Realm)
    requires IsChain(realm)
    ensures Outcome(realm, Claimed([Link(0), Link(5)]), {}).Some?
    ensures Outcome(realm, Claimed([Link(5), Link(0)]), {}).None?
  {
    LinksAreFresh(realm);
    assert [Link(5), Link(0)][1] == Link(0);
    WalkTakenFirstIsRefused(realm, [Link(5), Link(0)], Links());
    assert Claimed([Link(0), Link(5)]) == [(Link(0), 0)] + [(Link(5), 0)];
    var after := FinishingTheChain(realm, [(Link(0), 0)], 5, 0, {});
    forall i: nat | 0 < i <= 4 ensures Link(i) !in after {
      if Link(i) in after {
        var j: nat :| 5 <= j <= 9 && Link(i) == Link(j);
        LinksDistinct(i, j);
      }
    }
    JoiningTheChain(realm, 0, after);
  }

  /** Ten mapped roles, each inheriting the next and the last the first. */
  predicate IsRing(realm: Realm) {
    && (forall i: nat | i <= 9 :: Link(i) in realm.mapped)
    && LinksInherit(realm) && ParentsOf(realm, Link(9)) == [Link(0)]
  }

  /** A cycle too long for the bound is refused. */
  lemma LongRingIsRefused(realm: Realm)
    requires IsRing(realm)
    ensures Outcome(realm, Claimed([Link(0)]), {}).None?
    ensures exists walk :: IsWalk(realm, walk) && walk[0] == Link(0) && |walk| > 1 && walk[|walk| - 1] == Link(0)
  {
    hide Outcome;
    LinksAreFresh(realm);
    WalkTakenFirstIsRefused(realm, [Link(0)], Links());
    hide Link, ParentsOf;
    var around := Links() + [Link(0)];
    forall i: nat | i < |around| - 1 ensures around[i + 1] in ParentsOf(realm, around[i]) {
      if i < 9 {
        assert around[i] == Link(i) && around[i + 1] == Link(i + 1);
      }
    }
    assert IsWalk(realm, around);
  }
}
