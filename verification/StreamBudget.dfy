/**
 * Driving a model stream to its outcome under a token budget: text, tool calls
 * assembled from interleaved fragments, usage, and cancellation at the event
 * that exhausts the budget.
 */
module StreamBudget {
  import opened Outcomes
  import TextSplit

  const U64_LIMIT: nat := 0x1_0000_0000_0000_0000

  type U64 = x: nat | x < U64_LIMIT

  datatype ModelError = BudgetExhausted | StreamAborted | Provider | InvalidRequest

  datatype FinishReason = StopFinish | ToolCallFinish | LengthFinish | ContentFilterFinish

  datatype Usage = Usage(input: nat, output: nat, cached: Option<nat>)
  {
    function Total(): nat { input + output }
  }

  datatype ToolCall = ToolCall(id: string, name: string, arguments: string)

  datatype StreamEvent =
    | MessageStart(model: string)
    | TextDelta(delta: string)
    | ToolCallDelta(index: nat, id: Option<string>, name: Option<string>, arguments: string)
    | UsageReport(usage: Usage)
    | Done(finish: FinishReason)

  datatype StreamOutcome = StreamOutcome(
    text: string, toolCalls: seq<ToolCall>, finish: Option<FinishReason>, usage: Usage, cancelled: bool,
        error: Option<ModelError>)

  function SaturatingAdd(a: nat, b: nat): U64 {
    if a + b < U64_LIMIT then a + b else U64_LIMIT - 1
  }

  class TaskBudget {
    const total: U64
    var consumed: U64

    constructor (total: U64)
      requires 0 < total
      ensures this.total == total && consumed == 0
    {
      this.total, consumed := total, 0;
    }

    /** Charges the usage even when it does not fit. */
    method Consume(usage: Usage) returns (fits: bool)
      modifies this
      ensures consumed == SaturatingAdd(old(consumed), usage.Total()) && fits == (consumed <= total)
    {
      consumed := SaturatingAdd(consumed, usage.Total());
      fits := consumed <= total;
    }
  }

  // ---------- what a list of events adds up to ----------

  /** The tokens of all usage events. */
  function Spent(events: seq<StreamEvent>): nat {
    if events == [] then 0
    else
      var last := events[|events| - 1];
      Spent(events[..|events| - 1]) + if last.UsageReport? then last.usage.Total() else 0
  }

  /** The usage reported for the events: sums, and the last cached count that was given. */
  function Reported(events: seq<StreamEvent>): Usage {
    if events == [] then Usage(0, 0, None)
    else
      var init, last := Reported(events[..|events| - 1]), events[|events| - 1];
      if last.UsageReport? then
        Usage(init.input + last.usage.input, init.output + last.usage.output,
              if last.usage.cached.Some? then last.usage.cached else init.cached)
      else init
  }

  function Text(events: seq<StreamEvent>): string {
    if events == [] then ""
    else
      var last := events[|events| - 1];
      Text(events[..|events| - 1]) + if last.TextDelta? then last.delta else ""
  }

  function Finish(events: seq<StreamEvent>): Option<FinishReason> {
    if events == [] then None
    else
      var last := events[|events| - 1];
      if last.Done? then Some(last.finish) else Finish(events[..|events| - 1])
  }

  /** The fragments of one tool call, in order of arrival. */
  function Fragments(events: seq<StreamEvent>, index: nat): seq<StreamEvent> {
    if events == [] then []
    else
      var init, last := Fragments(events[..|events| - 1], index), events[|events| - 1];
      if last.ToolCallDelta? && last.index == index then init + [last] else init
  }

  function Given(s: Option<string>): string {
    if s.Some? then s.value else ""
  }

  function Extend(call: ToolCall, fragment: StreamEvent): ToolCall
    requires fragment.ToolCallDelta?
  {
    ToolCall(if call.id == "" then Given(fragment.id) else call.id,
             if call.name == "" then Given(fragment.name) else call.name,
             call.arguments + fragment.arguments)
  }

  predicate AllFragments(fragments: seq<StreamEvent>) {
    forall i | 0 <= i < |fragments| :: fragments[i].ToolCallDelta?
  }

  /** The tool call that its fragments denote. */
  function Assemble(fragments: seq<StreamEvent>): ToolCall
    requires AllFragments(fragments)
  {
    if fragments == [] then ToolCall("", "", "")
    else Extend(Assemble(fragments[..|fragments| - 1]), fragments[|fragments| - 1])
  }

  lemma {:induction false} FragmentsAreFragments(events: seq<StreamEvent>, index: nat)
    ensures AllFragments(Fragments(events, index))
  {
    if events == [] {
    } else {
      FragmentsAreFragments(events[..|events| - 1], index);
    }
  }

  function CallAt(events: seq<StreamEvent>, index: nat): ToolCall {
    FragmentsAreFragments(events, index);
    Assemble(Fragments(events, index))
  }

  /** One more than the largest index of a fragment. */
  function IndexBound(events: seq<StreamEvent>): nat {
    if events == [] then 0
    else
      var init, last := IndexBound(events[..|events| - 1]), events[|events| - 1];
      if last.ToolCallDelta? && last.index >= init then last.index + 1 else init
  }

  /** The indexed calls below a bound, in index order, one for each index with fragments. */
  function CallsBelow(events: seq<StreamEvent>, bound: nat): seq<(nat, ToolCall)> {
    if bound == 0 then []
    else CallsBelow(events, bound - 1) + if Fragments(events, bound - 1) == [] then []
        else [(bound - 1, CallAt(events, bound - 1))]
  }

  function Calls(events: seq<StreamEvent>): seq<(nat, ToolCall)> {
    CallsBelow(events, IndexBound(events))
  }

  function Bare(calls: seq<(nat, ToolCall)>): (r: seq<ToolCall>)
    ensures |r| == |calls| && forall i | 0 <= i < |r| :: r[i] == calls[i].1
  {
    seq(|calls|, i requires 0 <= i < |calls| => calls[i].1)
  }

  // ---------- where a stream stops ----------

  /** The event at `i` is a usage report that takes the running total over the budget. */
  predicate Overruns(events: seq<StreamEvent>, i: nat, total: nat, consumed: nat)
    requires i < |events|
  {
    events[i].UsageReport? && SaturatingAdd(consumed, Spent(events[..i + 1])) > total
  }

  /** How many events are looked at: through the first overrun, or all. */
  function Seen(events: seq<StreamEvent>, total: nat, consumed: nat): (n: nat)
    ensures n <= |events|
    ensures forall i | 0 <= i < n - 1 :: !Overruns(events, i, total, consumed)
    ensures n == |events| || (n > 0 && Overruns(events, n - 1, total, consumed))
  {
    SeenFrom(events, 0, total, consumed)
  }

  function SeenFrom(events: seq<StreamEvent>, from: nat, total: nat, consumed: nat): (n: nat)
    requires from <= |events| && forall i | 0 <= i < from :: !Overruns(events, i, total, consumed)
    ensures from <= n <= |events|
    ensures forall i | 0 <= i < n - 1 :: !Overruns(events, i, total, consumed)
    ensures n == |events| || (n > 0 && Overruns(events, n - 1, total, consumed))
    decreases |events| - from
  {
    if from == |events| then from
    else if Overruns(events, from, total, consumed) then from + 1
    else SeenFrom(events, from + 1, total, consumed)
  }

  /** Whether the events looked at end with an overrun. */
  predicate Cancelled(events: seq<StreamEvent>, total: nat, consumed: nat) {
    var n := Seen(events, total, consumed);
    n > 0 && Overruns(events, n - 1, total, consumed)
  }

  function ErrorOf(cancelled: bool, finish: Option<FinishReason>, noCalls: bool): Option<ModelError> {
    if finish == Some(ToolCallFinish) && noCalls then Some(Provider)
    else if cancelled then Some(BudgetExhausted)
    else if finish.None? then Some(StreamAborted)
    else None
  }

  /** The outcome of a stream, in terms of the events looked at. */
  function OutcomeOf(events: seq<StreamEvent>, total: nat, consumed: nat): StreamOutcome {
    var seen := events[..Seen(events, total, consumed)];
    var calls := Bare(Calls(seen));
    StreamOutcome(Text(seen), calls, Finish(seen), Reported(seen), Cancelled(events, total, consumed),
                  ErrorOf(Cancelled(events, total, consumed), Finish(seen), calls == []))
  }

  // ---------- collecting calls in arrival order, then sorting ----------

  type Indexed = seq<(nat, ToolCall)>

  predicate Distinct(calls: Indexed) {
    forall i, j | 0 <= i < j < |calls| :: calls[i].0 != calls[j].0
  }

  predicate Has(calls: Indexed, index: nat) {
    exists i :: 0 <= i < |calls| && calls[i].0 == index
  }

  /** The call is what the fragments of its index add up to. */
  predicate IsAssembled(events: seq<StreamEvent>, call: (nat, ToolCall)) {
    Fragments(events, call.0) != [] && call.1 == CallAt(events, call.0)
  }

  /** `calls` holds, in some order, exactly the assembled call of each index with fragments. */
  ghost predicate Collected(events: seq<StreamEvent>, calls: Indexed) {
    && Distinct(calls)
    && (forall c | c in calls :: IsAssembled(events, c))
    && (forall index: nat | Fragments(events, index) != [] :: Has(calls, index))
  }

  function Position(calls: Indexed, index: nat): (at: Option<nat>)
    ensures at.Some? ==> at.value < |calls| && calls[at.value].0 == index
    ensures at.None? ==> forall i | 0 <= i < |calls| :: calls[i].0 != index
  {
    if calls == [] then None
    else if calls[|calls| - 1].0 == index then Some(|calls| - 1)
    else Position(calls[..|calls| - 1], index)
  }

  function Collect(calls: Indexed, e: StreamEvent): Indexed
    requires e.ToolCallDelta?
  {
    match Position(calls, e.index)
    case Some(at) => calls[at := (e.index, Extend(calls[at].1, e))]
    case None => calls + [(e.index, Extend(ToolCall("", "", ""), e))]
  }

  lemma FragmentsSnoc(events: seq<StreamEvent>, e: StreamEvent, index: nat)
    ensures Fragments(events + [e], index)
         == if e.ToolCallDelta? && e.index == index then Fragments(events, index) + [e] else Fragments(events, index)
    ensures CallAt(events + [e], index)
         == if e.ToolCallDelta? && e.index == index then Extend(CallAt(events, index), e) else CallAt(events, index)
  {
    assert (events + [e])[..|events|] == events;
    FragmentsAreFragments(events, index);
    FragmentsAreFragments(events + [e], index);
    if e.ToolCallDelta? && e.index == index {
      var longer := Fragments(events, index) + [e];
      assert longer[..|longer| - 1] == Fragments(events, index);
    }
  }

  lemma HasSnoc(calls: Indexed, call: (nat, ToolCall), index: nat)
    ensures Has(calls + [call], index) <==> Has(calls, index) || call.0 == index
  {
    var longer := calls + [call];
    if i :| 0 <= i < |calls| && calls[i].0 == index {
      assert longer[i].0 == index;
    }
    if call.0 == index {
      assert longer[|calls|].0 == index;
    }
  }

  lemma HasUpdated(calls: Indexed, at: nat, call: (nat, ToolCall), index: nat)
    requires at < |calls| && calls[at].0 == call.0
    ensures Has(calls[at := call], index) <==> Has(calls, index)
  {
    var next := calls[at := call];
    assert forall i | 0 <= i < |calls| :: next[i].0 == calls[i].0;
  }

  /** The calls of other indexes stay assembled. */
  lemma StaysAssembled(events: seq<StreamEvent>, e: StreamEvent, call: (nat, ToolCall))
    requires IsAssembled(events, call) && (e.ToolCallDelta? ==> e.index != call.0)
    ensures IsAssembled(events + [e], call)
  {
    FragmentsSnoc(events, e, call.0);
    hide Fragments, CallAt;
  }

  /** A fragment extends the call of its index. */
  lemma GrowsAssembled(events: seq<StreamEvent>, e: StreamEvent)
    requires e.ToolCallDelta?
    ensures IsAssembled(events + [e], (e.index, Extend(CallAt(events, e.index), e)))
  {
    FragmentsSnoc(events, e, e.index);
    hide Fragments, CallAt;
  }

  lemma CollectSnoc(events: seq<StreamEvent>, calls: Indexed, e: StreamEvent)
    requires Collected(events, calls)
    ensures !e.ToolCallDelta? ==> Collected(events + [e], calls)
    ensures e.ToolCallDelta? ==> Collected(events + [e], Collect(calls, e))
  {
    if e.ToolCallDelta? {
      match Position(calls, e.index)
      case Some(at) => CollectKnown(events, calls, e, at);
      case None => CollectNew(events, calls, e);
    } else {
      hide Fragments, IsAssembled, Has;
      forall c | c in calls ensures IsAssembled(events + [e], c) {
        StaysAssembled(events, e, c);
      }
      forall index: nat | Fragments(events + [e], index) != [] ensures Has(calls, index) {
        FragmentsSnoc(events, e, index);
      }
    }
  }

  lemma CollectKnown(events: seq<StreamEvent>, calls: Indexed, e: StreamEvent, at: nat)
    requires Collected(events, calls) && e.ToolCallDelta? && at < |calls| && calls[at].0 == e.index
    ensures Collected(events + [e], calls[at := (e.index, Extend(calls[at].1, e))])
  {
    var next := calls[at := (e.index, Extend(calls[at].1, e))];
    assert calls[at] in calls && calls[at].1 == CallAt(events, e.index);
    hide Fragments, CallAt, Extend, IsAssembled, Has;
    forall c | c in next ensures IsAssembled(events + [e], c) {
      var i :| 0 <= i < |next| && next[i] == c;
      if i == at {
        GrowsAssembled(events, e);
      } else {
        assert calls[i] in calls;
        StaysAssembled(events, e, c);
      }
    }
    forall index: nat | Fragments(events + [e], index) != [] ensures Has(next, index) {
      FragmentsSnoc(events, e, index);
      HasUpdated(calls, at, next[at], index);
      HasUpdated(calls, at, next[at], e.index);
      HasAt(calls, at);
    }
  }

  lemma HasAt(calls: Indexed, at: nat)
    requires at < |calls|
    ensures Has(calls, calls[at].0)
  {
  }

  lemma CollectNew(events: seq<StreamEvent>, calls: Indexed, e: StreamEvent)
    requires Collected(events, calls) && e.ToolCallDelta? && forall i | 0 <= i < |calls| :: calls[i].0 != e.index
    ensures Collected(events + [e], calls + [(e.index, Extend(ToolCall("", "", ""), e))])
  {
    var call := (e.index, Extend(ToolCall("", "", ""), e));
    assert Fragments(events, e.index) == [] && CallAt(events, e.index) == ToolCall("", "", "") by {
      hide Fragments, CallAt, IsAssembled;
      assert !Has(calls, e.index);
      EmptyCall(events, e.index);
    }
    hide Fragments, CallAt, Extend, IsAssembled, Has;
    forall c | c in calls + [call] ensures IsAssembled(events + [e], c) {
      if c in calls {
        StaysAssembled(events, e, c);
      } else {
        GrowsAssembled(events, e);
      }
    }
    forall index: nat | Fragments(events + [e], index) != [] ensures Has(calls + [call], index) {
      FragmentsSnoc(events, e, index);
      HasSnoc(calls, call, index);
    }
  }

  lemma EmptyCall(events: seq<StreamEvent>, index: nat)
    requires Fragments(events, index) == []
    ensures CallAt(events, index) == ToolCall("", "", "")
  {
  }

  predicate Ascending(calls: Indexed) {
    forall i, j | 0 <= i < j < |calls| :: calls[i].0 < calls[j].0
  }

  /** Inserts a call behind the calls with smaller or equal indexes. */
  function Insert(calls: Indexed, call: (nat, ToolCall)): (r: Indexed)
    ensures forall c :: c in r <==> c in calls || c == call
  {
    if calls == [] then [call]
    else
      var init, last := calls[..|calls| - 1], calls[|calls| - 1];
      assert calls == init + [last];
      if last.0 <= call.0 then calls + [call] else Insert(init, call) + [last]
  }

  lemma AscendingSnoc(calls: Indexed, last: (nat, ToolCall))
    requires Ascending(calls) && forall c | c in calls :: c.0 < last.0
    ensures Ascending(calls + [last])
  {
    assert forall i | 0 <= i < |calls| :: calls[i] in calls;
  }

  lemma {:induction false} InsertAscends(calls: Indexed, call: (nat, ToolCall))
    requires Ascending(calls) && forall c | c in calls :: c.0 != call.0
    ensures Ascending(Insert(calls, call))
  {
    if calls == [] {
    } else {
      var init, last := calls[..|calls| - 1], calls[|calls| - 1];
      assert forall c | c in init :: c in calls && c.0 < last.0;
      assert last in calls && forall i | 0 <= i < |calls| :: calls[i].0 <= last.0;
      if last.0 <= call.0 {
        AscendingSnoc(calls, call);
      } else {
        InsertAscends(init, call);
        AscendingSnoc(Insert(init, call), last);
      }
    }
  }

  /** Stable sorting by index. */
  method SortByIndex(calls: Indexed) returns (sorted: Indexed)
    requires Distinct(calls)
    ensures Ascending(sorted) && forall c :: c in sorted <==> c in calls
  {
    sorted := [];
    var i := 0;
    while i < |calls|
      invariant 0 <= i <= |calls|
      invariant Ascending(sorted) && forall c :: c in sorted <==> c in calls[..i]
    {
      assert calls[..i + 1] == calls[..i] + [calls[i]];
      forall c | c in sorted ensures c.0 != calls[i].0 {
        assert c in calls[..i];
      }
      InsertAscends(sorted, calls[i]);
      sorted := Insert(sorted, calls[i]);
      i := i + 1;
    }
    assert calls[..i] == calls;
  }

  /** Ascending lists with the same calls end in the same call. */
  lemma SameLast(a: Indexed, b: Indexed)
    requires Ascending(a) && Ascending(b) && (forall c :: c in a <==> c in b) && a != [] && b != []
    ensures a[|a| - 1] == b[|b| - 1]
  {
    var x, y := a[|a| - 1], b[|b| - 1];
    assert x in b && y in a;
    var i :| 0 <= i < |b| && b[i] == x;
    var j :| 0 <= j < |a| && a[j] == y;
  }

  lemma {:induction false} AscendingUnique(a: Indexed, b: Indexed)
    requires Ascending(a) && Ascending(b) && forall c :: c in a <==> c in b
    ensures a == b
    decreases |a|
  {
    assert a != [] ==> a[0] in b;
    assert b != [] ==> b[0] in a;
    if a == [] {
    } else {
      SameLast(a, b);
      var initA, initB := a[..|a| - 1], b[..|b| - 1];
      forall c ensures c in initA <==> c in initB {
        InitMembers(a, c);
        InitMembers(b, c);
      }
      AscendingUnique(initA, initB);
      assert a == initA + [a[|a| - 1]] && b == initB + [b[|b| - 1]];
    }
  }

  lemma InitMembers(a: Indexed, c: (nat, ToolCall))
    requires Ascending(a) && a != []
    ensures c in a[..|a| - 1] <==> c in a && c != a[|a| - 1]
  {
    assert a == a[..|a| - 1] + [a[|a| - 1]];
  }

  lemma NoCallsBelow(events: seq<StreamEvent>)
    ensures CallsBelow(events, 0) == []
  {
  }

  lemma CallsSnoc(events: seq<StreamEvent>, index: nat, c: (nat, ToolCall))
    ensures c in CallsBelow(events, index + 1)
       <==> c in CallsBelow(events, index) || (c.0 == index && IsAssembled(events, c))
  {
    hide CallAt, Fragments;
  }

  lemma {:induction false} CallIsBelow(events: seq<StreamEvent>, bound: nat, c: (nat, ToolCall))
    ensures c in CallsBelow(events, bound) <==> c.0 < bound && IsAssembled(events, c)
  {
    hide CallsBelow, IsAssembled;
    if bound == 0 {
      NoCallsBelow(events);
    } else {
      var below: nat := bound - 1;
      CallIsBelow(events, below, c);
      CallsSnoc(events, below, c);
    }
  }

  lemma {:induction false} CallsAscend(events: seq<StreamEvent>, bound: nat)
    ensures Ascending(CallsBelow(events, bound))
  {
    hide CallAt, Fragments, Ascending;
    if bound == 0 {
      NothingAscends();
    } else {
      var init := CallsBelow(events, bound - 1);
      var last: (nat, ToolCall) := (bound - 1, CallAt(events, bound - 1));
      CallsAscend(events, bound - 1);
      assert CallsBelow(events, bound) == init || CallsBelow(events, bound) == init + [last];
      hide CallsBelow;
      forall c | c in init ensures c.0 < bound - 1 {
        CallIsBelow(events, bound - 1, c);
      }
      AscendingSnoc(init, last);
    }
  }

  lemma CallsBelowFacts(events: seq<StreamEvent>, bound: nat)
    ensures Ascending(CallsBelow(events, bound))
    ensures forall c ::
            c in CallsBelow(events, bound)
            <==> c.0 < bound && Fragments(events, c.0) != [] && c.1 == CallAt(events, c.0)
  {
    CallsAscend(events, bound);
    forall c ensures c in CallsBelow(events, bound)
                <==> c.0 < bound && Fragments(events, c.0) != [] && c.1 == CallAt(events, c.0)
    {
      CallIsBelow(events, bound, c);
      hide CallsBelow, Fragments, CallAt;
    }
  }

  lemma NothingAscends()
    ensures Ascending([])
  {
  }

  lemma {:induction false} BoundIsBound(events: seq<StreamEvent>, index: nat)
    requires index >= IndexBound(events)
    ensures Fragments(events, index) == []
  {
    if events == [] {
    } else {
      BoundIsBound(events[..|events| - 1], index);
    }
  }

  lemma CallIsCollected(events: seq<StreamEvent>, calls: Indexed, c: (nat, ToolCall))
    requires Collected(events, calls)
    ensures c in calls <==> IsAssembled(events, c)
  {
    hide Fragments, CallAt;
    if IsAssembled(events, c) {
      var i :| 0 <= i < |calls| && calls[i].0 == c.0;
      assert calls[i] in calls;
    }
  }

  /** Sorting the collected calls yields one call per index, in index order. */
  lemma SortedCalls(events: seq<StreamEvent>, calls: Indexed, sorted: Indexed)
    requires Collected(events, calls) && Ascending(sorted) && forall c :: c in sorted <==> c in calls
    ensures sorted == Calls(events)
  {
    CallsBelowFacts(events, IndexBound(events));
    forall index: nat | Fragments(events, index) != [] ensures index < IndexBound(events) {
      if index >= IndexBound(events) {
        BoundIsBound(events, index);
      }
    }
    forall c ensures c in sorted <==> c in Calls(events) {
      CallIsCollected(events, calls, c);
    }
    hide Fragments, CallAt, CallsBelow, IndexBound;
    AscendingUnique(sorted, Calls(events));
  }

  // ---------- the driver ----------

  /** The running part of an outcome after some events. */
  ghost predicate Tracks(o: StreamOutcome, events: seq<StreamEvent>) {
    o.text == Text(events) && o.finish == Finish(events) && o.usage == Reported(events)
  }

  lemma TotalsSnoc(events: seq<StreamEvent>, e: StreamEvent)
    ensures Text(events + [e]) == Text(events) + if e.TextDelta? then e.delta else ""
    ensures Finish(events + [e]) == if e.Done? then Some(e.finish) else Finish(events)
    ensures Spent(events + [e]) == Spent(events) + if e.UsageReport? then e.usage.Total() else 0
    ensures var r := Reported(events);
            Reported(events + [e])
            == if e.UsageReport?
               then Usage(r.input + e.usage.input, r.output + e.usage.output, if e.usage.cached.Some?
                   then e.usage.cached else r.cached)
               else r
  {
    assert (events + [e])[..|events|] == events;
  }

  lemma CollectedDistinct(events: seq<StreamEvent>, calls: Indexed)
    requires Collected(events, calls)
    ensures Distinct(calls)
  {
  }

  /**
   * Drives a stream under a budget. The budget is charged exactly the usage of
   * the events looked at, which end at the first overrun; the outcome is what
   * those events add up to.
   */
  method DriveStream(events: seq<StreamEvent>, budget: TaskBudget) returns (outcome: StreamOutcome)
    requires Spent(events[..Seen(events, budget.total, budget.consumed)]) < U64_LIMIT
    modifies budget
    ensures budget.consumed
            == SaturatingAdd(old(budget.consumed), Spent(events[..Seen(events, budget.total, old(budget.consumed))]))
    ensures outcome == OutcomeOf(events, budget.total, old(budget.consumed))
  {
    hide Collected, Collect, Calls, Seen, Text, Finish, Spent, Reported, Cancelled;
    outcome := StreamOutcome("", [], None, Usage(0, 0, None), false, None);
    var calls: Indexed, i := [], 0;
    ghost var total, start := budget.total, budget.consumed;
    assert events[..0] == [];
    NothingSeen();
    while i < |events|
      invariant 0 <= i <= |events|
      invariant budget.consumed == SaturatingAdd(start, Spent(events[..i]))
      invariant Tracks(outcome, events[..i]) && !outcome.cancelled && outcome.error.None?
      invariant Collected(events[..i], calls)
      invariant forall j | 0 <= j < i :: !Overruns(events, j, total, start)
    {
      var e := events[i];
      assert events[..i + 1] == events[..i] + [e];
      CollectSnoc(events[..i], calls, e);
      TotalsSnoc(events[..i], e);
      i := i + 1;
      match e
      case TextDelta(delta) => outcome := outcome.(text := outcome.text + delta);
      case ToolCallDelta(_, _, _, _) => calls := CollectFragment(calls, e);
      case UsageReport(usage) =>
        outcome := outcome.(usage := Usage(
          outcome.usage.input + usage.input, outcome.usage.output + usage.output,
          if usage.cached.Some? then usage.cached else outcome.usage.cached));
        var fits := budget.Consume(usage);
        if !fits {
          outcome := outcome.(cancelled := true, error := Some(BudgetExhausted));
          break;
        }
      case Done(finish) => outcome := outcome.(finish := Some(finish));
      case MessageStart(_) =>
    }
    assert i == Seen(events, total, start) && outcome.cancelled == Cancelled(events, total, start) by {
      SeenIs(events, total, start, i, outcome.cancelled);
    }
    CollectedDistinct(events[..i], calls);
    var sorted := SortByIndex(calls);
    SortedCalls(events[..i], calls, sorted);
    outcome := outcome.(toolCalls := Bare(sorted));
    if !outcome.cancelled && outcome.finish.None? {
      outcome := outcome.(error := Some(StreamAborted));
    }
    if outcome.finish == Some(ToolCallFinish) && outcome.toolCalls == [] {
      outcome := outcome.(error := Some(Provider));
    }
  }

  lemma NothingSeen()
    ensures Collected([], []) && Tracks(StreamOutcome("", [], None, Usage(0, 0, None), false, None), [])
            && Spent([]) == 0
  {
  }

  method CollectFragment(calls: Indexed, e: StreamEvent) returns (next: Indexed)
    requires e.ToolCallDelta?
    ensures next == Collect(calls, e)
  {
    var at := Position(calls, e.index);
    if at.Some? {
      var call := calls[at.value].1;
      call := call.(arguments := call.arguments + e.arguments);
      if call.id == "" {
        call := call.(id := Given(e.id));
      }
      if call.name == "" {
        call := call.(name := Given(e.name));
      }
      next := calls[at.value := (e.index, call)];
    } else {
      assert "" + e.arguments == e.arguments;
      next := calls + [(e.index, ToolCall(Given(e.id), Given(e.name), e.arguments))];
    }
  }

  lemma SeenIs(events: seq<StreamEvent>, total: nat, consumed: nat, i: nat, over: bool)
    requires i <= |events| && (over ==> i > 0 && Overruns(events, i - 1, total, consumed)) && (!over ==> i == |events|)
    requires forall j | 0 <= j < (if over then i - 1 else i) :: !Overruns(events, j, total, consumed)
    ensures Seen(events, total, consumed) == i && Cancelled(events, total, consumed) == over
  {
    hide Overruns;
  }

  // ---------- what the outcome means ----------

  lemma {:induction false} ReportedIsSpent(events: seq<StreamEvent>)
    ensures Reported(events).Total() == Spent(events)
  {
    if events == [] {
    } else {
      ReportedIsSpent(events[..|events| - 1]);
    }
  }

  /** The budget is charged exactly the usage the outcome reports. */
  lemma {:induction false} ChargedWhatIsReported(events: seq<StreamEvent>, total: nat, consumed: nat)
    ensures Spent(events[..Seen(events, total, consumed)]) == OutcomeOf(events, total, consumed).usage.Total()
  {
    ReportedIsSpent(events[..Seen(events, total, consumed)]);
  }

  /** Cancelled exactly when some usage event takes the running total over the budget. */
  lemma {:induction false} CancelledIff(events: seq<StreamEvent>, total: nat, consumed: nat)
    ensures OutcomeOf(events, total, consumed).cancelled
            <==> exists i :: 0 <= i < |events| && Overruns(events, i, total, consumed)
  {
    var n := Seen(events, total, consumed);
    if i :| 0 <= i < |events| && Overruns(events, i, total, consumed) {
      assert i >= n - 1;
    }
    hide Seen, Overruns;
  }

  /** The last `Done` among the events gives this reason. */
  predicate LastDone(events: seq<StreamEvent>, reason: FinishReason) {
    exists i :: 0 <= i < |events| && events[i] == Done(reason) && forall j | i < j < |events| :: !events[j].Done?
  }

  predicate HasFragments(events: seq<StreamEvent>) {
    exists i :: 0 <= i < |events| && events[i].ToolCallDelta?
  }

  lemma {:induction false} FinishIsLastDone(events: seq<StreamEvent>)
    ensures Finish(events).None? <==> forall i | 0 <= i < |events| :: !events[i].Done?
    ensures forall reason :: Finish(events) == Some(reason) <==> LastDone(events, reason)
  {
    if events == [] {
    } else {
      var n := |events| - 1;
      var init := events[..n];
      FinishIsLastDone(init);
      forall reason ensures Finish(events) == Some(reason) <==> LastDone(events, reason) {
        if events[n].Done? {
          assert reason == events[n].finish ==> events[n] == Done(reason);
        } else {
          if i :| 0 <= i < n && init[i] == Done(reason) && forall j | i < j < n :: !init[j].Done? {
            assert events[i] == Done(reason);
          }
          if i :| 0 <= i <= n && events[i] == Done(reason) && forall j | i < j <= n :: !events[j].Done? {
            assert init[i] == Done(reason);
          }
        }
      }
    }
  }

  lemma {:induction false} FragmentHasIndex(events: seq<StreamEvent>, index: nat)
    ensures Fragments(events, index) != []
            <==> exists i :: 0 <= i < |events| && events[i].ToolCallDelta? && events[i].index == index
  {
    if events == [] {
    } else {
      var n := |events| - 1;
      FragmentHasIndex(events[..n], index);
      assert forall i | 0 <= i < n :: events[..n][i] == events[i];
    }
  }

  lemma NoCallsIff(events: seq<StreamEvent>)
    ensures Bare(Calls(events)) == [] <==> !HasFragments(events)
  {
    CallsBelowFacts(events, IndexBound(events));
    hide CallsBelow, Ascending, CallAt;
    var calls := Calls(events);
    if i :| 0 <= i < |events| && events[i].ToolCallDelta? {
      FragmentHasIndex(events, events[i].index);
      if events[i].index >= IndexBound(events) {
        BoundIsBound(events, events[i].index);
      }
      assert (events[i].index, CallAt(events, events[i].index)) in calls;
    }
    if calls != [] {
      assert calls[0] in calls;
      FragmentHasIndex(events, calls[0].0);
    }
  }

  /**
   * The error of an outcome, from the events looked at: a finish for tool calls
   * without any call is the provider's fault, before everything else; then an
   * overrun budget, then a stream that never finished.
   */
  lemma ErrorMeaning(events: seq<StreamEvent>, total: nat, consumed: nat)
    ensures var seen := events[..Seen(events, total, consumed)];
            OutcomeOf(events, total, consumed).error
            == if LastDone(seen, ToolCallFinish) && !HasFragments(seen) then Some(Provider)
               else if exists i :: 0 <= i < |events| && Overruns(events, i, total, consumed) then Some(BudgetExhausted)
               else if forall i | 0 <= i < |seen| :: !seen[i].Done? then Some(StreamAborted)
               else None
  {
    var seen := events[..Seen(events, total, consumed)];
    CancelledIff(events, total, consumed);
    FinishIsLastDone(seen);
    NoCallsIff(seen);
    hide Seen, Overruns, LastDone, HasFragments, Finish, Calls, Bare, Cancelled, Text, Reported;
  }

  /** Nothing after the cancelling event matters. */
  lemma {:induction false} TailIsIgnored(events: seq<StreamEvent>, more: seq<StreamEvent>, total: nat, consumed: nat)
    requires OutcomeOf(events, total, consumed).cancelled
    ensures OutcomeOf(events + more, total, consumed) == OutcomeOf(events, total, consumed)
  {
    var longer, n := events + more, Seen(events, total, consumed);
    forall i | 0 <= i < |events| ensures Overruns(longer, i, total, consumed) == Overruns(events, i, total, consumed) {
      assert longer[..i + 1] == events[..i + 1];
    }
    SeenIs(longer, total, consumed, n, true);
    assert longer[..n] == events[..n];
  }

  function Concatenated(fragments: seq<StreamEvent>): string
    requires AllFragments(fragments)
  {
    if fragments == [] then "" else fragments[0].arguments + Concatenated(fragments[1..])
  }

  /** The first non-empty identifier among the fragments. */
  function FirstId(fragments: seq<StreamEvent>): string
    requires AllFragments(fragments)
  {
    if fragments == [] then ""
    else if Given(fragments[0].id) != "" then Given(fragments[0].id)
    else FirstId(fragments[1..])
  }

  function FirstName(fragments: seq<StreamEvent>): string
    requires AllFragments(fragments)
  {
    if fragments == [] then ""
    else if Given(fragments[0].name) != "" then Given(fragments[0].name)
    else FirstName(fragments[1..])
  }

  lemma {:induction false} ConcatenatedSnoc(fragments: seq<StreamEvent>, e: StreamEvent)
    requires AllFragments(fragments) && e.ToolCallDelta?
    ensures Concatenated(fragments + [e]) == Concatenated(fragments) + e.arguments
    ensures FirstId(fragments + [e]) == if FirstId(fragments) == "" then Given(e.id) else FirstId(fragments)
    ensures FirstName(fragments + [e]) == if FirstName(fragments) == "" then Given(e.name) else FirstName(fragments)
  {
    if fragments == [] {
      assert ([] + [e])[1..] == [];
    } else {
      assert (fragments + [e])[1..] == fragments[1..] + [e];
      ConcatenatedSnoc(fragments[1..], e);
      TextSplit.Associate(fragments[0].arguments, Concatenated(fragments[1..]), e.arguments);
    }
  }

  /** A call has the concatenated arguments of its fragments and their first non-empty identifier and name. */
  lemma {:induction false} AssembledCall(fragments: seq<StreamEvent>)
    requires AllFragments(fragments)
    ensures Assemble(fragments) == ToolCall(FirstId(fragments), FirstName(fragments), Concatenated(fragments))
  {
    if fragments == [] {
    } else {
      var init, last := fragments[..|fragments| - 1], fragments[|fragments| - 1];
      assert fragments == init + [last];
      AssembledCall(init);
      ConcatenatedSnoc(init, last);
      hide FirstId, FirstName, Concatenated;
    }
  }

  /** The call with concatenated arguments that the fragments of an index denote. */
  predicate IsCallAt(events: seq<StreamEvent>, index: nat, call: ToolCall) {
    var fragments := Fragments(events, index);
    && fragments != [] && AllFragments(fragments)
    && call == ToolCall(FirstId(fragments), FirstName(fragments), Concatenated(fragments))
  }

  /**
   * One call per index with fragments, in index order, with the concatenation
   * of that index's fragments as arguments.
   */
  lemma {:induction false} CallsInIndexOrder(events: seq<StreamEvent>)
    ensures Ascending(Calls(events))
    ensures forall c :: c in Calls(events) <==> IsCallAt(events, c.0, c.1)
  {
    CallsBelowFacts(events, IndexBound(events));
    forall c ensures c in Calls(events) <==> IsCallAt(events, c.0, c.1) {
      FragmentsAreFragments(events, c.0);
      AssembledCall(Fragments(events, c.0));
      if c.0 >= IndexBound(events) {
        BoundIsBound(events, c.0);
      }
      hide Fragments, CallsBelow, Assemble, FirstId, FirstName, Concatenated;
    }
  }

  /** However the fragments of different calls interleave, the calls are the same. */
  lemma {:induction false} InterleavingIsIrrelevant(a: seq<StreamEvent>, b: seq<StreamEvent>)
    requires forall index: nat :: Fragments(a, index) == Fragments(b, index)
    ensures Calls(a) == Calls(b)
  {
    CallsBelowFacts(a, IndexBound(a));
    CallsBelowFacts(b, IndexBound(b));
    forall c ensures c in Calls(a) <==> c in Calls(b) {
      assert Fragments(a, c.0) == Fragments(b, c.0);
      if c.0 >= IndexBound(a) {
        BoundIsBound(a, c.0);
      }
      if c.0 >= IndexBound(b) {
        BoundIsBound(b, c.0);
      }
      hide Fragments, CallsBelow;
    }
    hide Fragments, CallsBelow;
    AscendingUnique(Calls(a), Calls(b));
  }
}
