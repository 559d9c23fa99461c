/**
 * The single-writer memory authority: revision histories with proposal,
 * promotion, supersession and revocation, and queries that lazily mark expired
 * entries stale. A reference store that never marks anything on a query shows
 * that this side effect of reading cannot be observed.
 */
module MemoryAuthority {
  import opened Outcomes
  import opened Sensitivity
  import opened TextOrder

  datatype MemoryKind = Fact | Preference | Rule | Procedure

  datatype TrustLevel = Trusted | Imported | Untrusted

  datatype MemoryState = Candidate | Promoted | Stale | Revoked

  datatype Provenance = Provenance(origin: string, trust: TrustLevel, proposedAt: nat)

  datatype Entry = Entry(
    entryId: string, key: string, kind: MemoryKind, value: string, tenant: string, workspace: string,
    sensitivity: DataClass, provenance: Provenance, promotedAt: nat, expiresAt: Option<nat>,
    state: MemoryState, revision: nat)

  datatype Slot = Slot(entry: Entry, supersededAt: Option<nat>, conflictedWith: seq<string>)

  type Records = map<string, seq<Slot>>

  datatype Event = Event(name: string, entryId: Option<string>)

  datatype AdmissionError = Unclassified | CrossWorkspace | Malformed | DuplicateCandidate

  datatype PromoteError = UnknownCandidate | NotCandidate

  datatype Proposal = Proposal(
    key: string, kind: MemoryKind, value: string, tenant: string, workspace: string,
    sensitivity: DataClass, provenance: Provenance, expiresAt: Option<nat>)

  datatype Request = Request(ceiling: DataClass, now: nat, key: Option<string>)

  /** The scope of the authority, the content hash and the UTF-8 length of text. */
  datatype Config = Config(tenant: string, workspace: string, entryIdFor: (string, string, string) -> string,
      byteLength: string -> nat)

  datatype State = State(records: Records, writeSequence: nat, events: seq<Event>)

  const EMPTY_STATE := State(map[], 0, [])

  const MAX_VALUE_LENGTH: nat := 16384

  // ---------- proposals ----------

  predicate KeyCharacter(c: char) {
    'A' <= c <= 'Z' || 'a' <= c <= 'z' || '0' <= c <= '9' || c == ':' || c == '_' || c == '-'
  }

  predicate Classified(p: Proposal) {
    p.provenance.origin != "" && p.key != "" && p.value != "" && forall c | c in p.key :: KeyCharacter(c)
  }

  predicate HasId(slots: seq<Slot>, id: string) {
    exists i :: 0 <= i < |slots| && slots[i].entry.entryId == id
  }

  function History(records: Records, key: string): seq<Slot> {
    if key in records then records[key] else []
  }

  function ProposeStep(config: Config, s: State, p: Proposal): (State, Result<string, AdmissionError>) {
    var s' := s.(writeSequence := s.writeSequence + 1);
    if p.tenant != config.tenant || p.workspace != config.workspace then (s', Err(CrossWorkspace))
    else if !Classified(p) then (s', Err(Unclassified))
    else if config.byteLength(p.value) > MAX_VALUE_LENGTH then (s', Err(Malformed))
    else
      var slots := History(s.records, p.key);
      var id := config.entryIdFor(p.key, p.value, p.provenance.origin);
      if HasId(slots, id) then (s', Err(DuplicateCandidate))
      else
        var entry := Entry(id, p.key, p.kind, p.value, config.tenant, config.workspace, p.sensitivity,
                           p.provenance, 0, p.expiresAt, Candidate, |slots| + 1);
        (s'.(records := s.records[p.key := slots + [Slot(entry, None, [])]],
             events := s.events + [Event("memory.proposed", Some(id))]),
         Ok(id))
  }

  // ---------- promotion ----------

  /** The first key, in order, whose history has the entry. */
  function FindKey(records: Records, ids: seq<string>, id: string): (found: Option<string>)
    requires forall k | k in ids :: k in records
    ensures found.Some? ==> found.value in ids && HasId(records[found.value], id)
    ensures found.None? ==> forall k | k in ids :: !HasId(records[k], id)
  {
    if ids == [] then None
    else if HasId(records[ids[0]], id) then Some(ids[0])
    else FindKey(records, ids[1..], id)
  }

  /** The first slot with the entry. */
  function IndexOf(slots: seq<Slot>, id: string): (at: nat)
    requires HasId(slots, id)
    ensures at < |slots| && slots[at].entry.entryId == id
    ensures forall i | 0 <= i < at :: slots[i].entry.entryId != id
  {
    if slots[0].entry.entryId == id then 0
    else
      assert HasId(slots[1..], id) by {
        var i :| 0 <= i < |slots| && slots[i].entry.entryId == id;
        assert slots[1..][i - 1].entry.entryId == id;
      }
      1 + IndexOf(slots[1..], id)
  }

  /** Promoted revisions of other entries that have not been superseded. */
  predicate Superseded(slot: Slot, id: string) {
    slot.entry.entryId != id && slot.entry.state.Promoted? && slot.supersededAt.None?
  }

  function Conflicts(slots: seq<Slot>, id: string): seq<string> {
    if slots == [] then []
    else
      var init, last := Conflicts(slots[..|slots| - 1], id), slots[|slots| - 1];
      if Superseded(last, id) then init + [last.entry.entryId] else init
  }

  function Supersede(slot: Slot, id: string, now: nat): Slot {
    if Superseded(slot, id) then slot.(supersededAt := Some(now), entry := slot.entry.(state := Stale)) else slot
  }

  function SupersedeAll(slots: seq<Slot>, id: string, now: nat): (r: seq<Slot>)
    ensures |r| == |slots| && forall i | 0 <= i < |r| :: r[i] == Supersede(slots[i], id, now)
  {
    seq(|slots|, i requires 0 <= i < |slots| => Supersede(slots[i], id, now))
  }

  /** The history after promoting the candidate at `at`: every other promoted revision is superseded. */
  function PromoteIn(slots: seq<Slot>, at: nat, now: nat): seq<Slot>
    requires at < |slots|
  {
    var id := slots[at].entry.entryId;
    var promoted := slots[at].entry.(state := Promoted, promotedAt := now);
    SupersedeAll(slots, id, now)[at := Slot(promoted, slots[at].supersededAt, Conflicts(slots, id))]
  }

  function PromoteStep(s: State, id: string, now: nat): (State, Result<(), PromoteError>) {
    var s' := s.(writeSequence := s.writeSequence + 1);
    match FindKey(s.records, InOrder(s.records.Keys), id)
    case None => (s', Err(UnknownCandidate))
    case Some(key) =>
      var at := IndexOf(s.records[key], id);
      if !s.records[key][at].entry.state.Candidate? then (s', Err(NotCandidate))
      else
        (s'.(records := s.records[key := PromoteIn(s.records[key], at, now)],
             events := s.events + [Event("memory.promoted", Some(id))]),
         Ok(()))
  }

  // ---------- revocation ----------

  function RevokeSlot(slot: Slot, id: string): Slot {
    if slot.entry.entryId == id then slot.(entry := slot.entry.(state := Revoked)) else slot
  }

  function RevokeIn(slots: seq<Slot>, id: string): (r: seq<Slot>)
    ensures |r| == |slots| && forall i | 0 <= i < |r| :: r[i] == RevokeSlot(slots[i], id)
  {
    seq(|slots|, i requires 0 <= i < |slots| => RevokeSlot(slots[i], id))
  }

  function RevokeStep(s: State, id: string): State {
    s.(writeSequence := s.writeSequence + 1,
       records := map k | k in s.records :: RevokeIn(s.records[k], id),
       events := s.events + [Event("memory.revoked", Some(id))])
  }

  // ---------- queries ----------

  predicate Asked(request: Request, key: string) {
    request.key.None? || request.key.value == key
  }

  predicate Expired(entry: Entry, now: nat) {
    entry.expiresAt.Some? && entry.expiresAt.value <= now
  }

  /** Promoted and within the asker's ceiling. */
  predicate InSight(slot: Slot, request: Request) {
    slot.entry.state.Promoted? && slot.entry.sensitivity.Rank() <= request.ceiling.Rank()
  }

  function VisibleIn(slots: seq<Slot>, request: Request): seq<Entry> {
    if slots == [] then []
    else
      var init, last := VisibleIn(slots[..|slots| - 1], request), slots[|slots| - 1];
      if InSight(last, request) && !Expired(last.entry, request.now) then init + [last.entry] else init
  }

  /** The answer to a query over the given keys: truth that is promoted, visible and not expired. */
  function Views(records: Records, ids: seq<string>, request: Request): seq<Entry>
    requires forall k | k in ids :: k in records
  {
    if ids == [] then []
    else
      var init, last := Views(records, ids[..|ids| - 1], request), ids[|ids| - 1];
      if Asked(request, last) then init + VisibleIn(records[last], request) else init
  }

  function Answer(records: Records, request: Request): seq<Entry> {
    Views(records, InOrder(records.Keys), request)
  }

  function ExpiredIn(slots: seq<Slot>, request: Request): seq<string> {
    if slots == [] then []
    else
      var init, last := ExpiredIn(slots[..|slots| - 1], request), slots[|slots| - 1];
      if InSight(last, request) && Expired(last.entry, request.now) then init + [last.entry.entryId] else init
  }

  /** The expired entries a query meets, with their keys, in iteration order. */
  function ExpiredEntries(records: Records, ids: seq<string>, request: Request): seq<(string, string)>
    requires forall k | k in ids :: k in records
  {
    if ids == [] then []
    else
      var init, last := ExpiredEntries(records, ids[..|ids| - 1], request), ids[|ids| - 1];
      if Asked(request, last) then init + Tagged(last, ExpiredIn(records[last], request)) else init
  }

  function Tagged(key: string, ids: seq<string>): (r: seq<(string, string)>)
    ensures |r| == |ids| && forall i | 0 <= i < |r| :: r[i] == (key, ids[i])
  {
    seq(|ids|, i requires 0 <= i < |ids| => (key, ids[i]))
  }

  function StaleSlot(slot: Slot): Slot {
    slot.(entry := slot.entry.(state := Stale))
  }

  function ExpireIn(slots: seq<Slot>, request: Request): (r: seq<Slot>)
    ensures |r| == |slots|
    ensures forall i | 0 <= i < |r| ::
              r[i] == if InSight(slots[i], request) && Expired(slots[i].entry, request.now) then StaleSlot(slots[i])
                  else slots[i]
  {
    seq(|slots|, i requires 0 <= i < |slots| =>
      if InSight(slots[i], request) && Expired(slots[i].entry, request.now) then StaleSlot(slots[i]) else slots[i])
  }

  function StaleEvents(expired: seq<(string, string)>): (r: seq<Event>)
    ensures |r| == |expired| && forall i | 0 <= i < |r| :: r[i] == Event("memory.stale", Some(expired[i].1))
  {
    seq(|expired|, i requires 0 <= i < |expired| => Event("memory.stale", Some(expired[i].1)))
  }

  function ExpireAll(records: Records, request: Request): (r: Records)
    ensures r.Keys == records.Keys
    ensures forall k | k in records :: r[k] == if Asked(request, k) then ExpireIn(records[k], request) else records[k]
  {
    map k | k in records :: if Asked(request, k) then ExpireIn(records[k], request) else records[k]
  }

  /** What a query leaves behind: the expired entries it met are stale. */
  function QueryStep(s: State, request: Request): (State, seq<Entry>) {
    (s.(records := ExpireAll(s.records, request),
        events := s.events + StaleEvents(ExpiredEntries(s.records, InOrder(s.records.Keys), request))
                  + [Event("memory.queried", None)]),
     Answer(s.records, request))
  }

  // ---------- runs of the store and of the reference ----------

  datatype Operation =
    | Propose(proposal: Proposal)
    | Promote(id: string, now: nat)
    | Revoke(id: string)
    | Query(request: Request)

  datatype Output =
    | Proposed(admission: Result<string, AdmissionError>)
    | PromotedAs(promotion: Result<(), PromoteError>)
    | Nothing
    | Answered(views: seq<Entry>)

  function Execute(config: Config, s: State, op: Operation): (State, Output) {
    match op
    case Propose(p) => var (s', r) := ProposeStep(config, s, p); (s', Proposed(r))
    case Promote(id, now) => var (s', r) := PromoteStep(s, id, now); (s', PromotedAs(r))
    case Revoke(id) => (RevokeStep(s, id), Nothing)
    case Query(request) => var (s', views) := QueryStep(s, request); (s', Answered(views))
  }

  /** The reference store: a query reads and changes nothing. */
  function ExecuteReference(config: Config, s: State, op: Operation): (State, Output) {
    match op
    case Query(request) => (s, Answered(Answer(s.records, request)))
    case _ => Execute(config, s, op)
  }

  function Run(config: Config, ops: seq<Operation>): (State, seq<Output>) {
    if ops == [] then (EMPTY_STATE, [])
    else
      var (s, outputs) := Run(config, ops[..|ops| - 1]);
      var (s', output) := Execute(config, s, ops[|ops| - 1]);
      (s', outputs + [output])
  }

  function RunReference(config: Config, ops: seq<Operation>): (State, seq<Output>) {
    if ops == [] then (EMPTY_STATE, [])
    else
      var (s, outputs) := RunReference(config, ops[..|ops| - 1]);
      var (s', output) := ExecuteReference(config, s, ops[|ops| - 1]);
      (s', outputs + [output])
  }

  /** The latest time a query of the run looked at. */
  function LatestQuery(ops: seq<Operation>): nat {
    if ops == [] then 0
    else
      var init, last := LatestQuery(ops[..|ops| - 1]), ops[|ops| - 1];
      if last.Query? && last.request.now > init then last.request.now else init
  }

  /** Query times never go backwards. */
  predicate Forward(ops: seq<Operation>) {
    forall i, j | 0 <= i < j < |ops| && ops[i].Query? && ops[j].Query? :: ops[i].request.now <= ops[j].request.now
  }

  // ---------- invariants ----------

  /**
   * Histories belong to their key, number their revisions from 1, name each
   * entry once, promote at most one, and only unsuperseded ones.
   */
  predicate HistoryOk(key: string, slots: seq<Slot>) {
    && (forall i | 0 <= i < |slots| :: slots[i].entry.key == key && slots[i].entry.revision == i + 1)
    && (forall i | 0 <= i < |slots| && (slots[i].entry.state.Promoted? || slots[i].entry.state.Candidate?) ::
       slots[i].supersededAt.None?)
    && (forall i, j | 0 <= i < j < |slots| ::
          && slots[i].entry.entryId != slots[j].entry.entryId
          && !(slots[i].entry.state.Promoted? && slots[j].entry.state.Promoted?))
  }

  predicate RecordsOk(records: Records) {
    forall k | k in records :: HistoryOk(k, records[k])
  }

  lemma PromoteInOk(key: string, slots: seq<Slot>, at: nat, now: nat)
    requires HistoryOk(key, slots) && at < |slots| && slots[at].entry.state.Candidate?
    ensures HistoryOk(key, PromoteIn(slots, at, now))
  {
    hide Conflicts;
  }

  lemma ExecuteKeepsOk(config: Config, s: State, op: Operation)
    requires RecordsOk(s.records)
    ensures RecordsOk(Execute(config, s, op).0.records)
    ensures RecordsOk(ExecuteReference(config, s, op).0.records)
  {
    hide HistoryOk, InOrder, Answer, ExpiredEntries;
    match op
    case Propose(p) =>
      var (s', r) := ProposeStep(config, s, p);
      if r.Ok? {
        var slots := History(s.records, p.key);
        assert HistoryOk(p.key, slots) by {
          if slots == [] {
            EmptyHistoryOk(p.key);
          }
        }
        ProposalOk(p.key, slots, s'.records[p.key][|slots|]);
        assert s'.records[p.key] == slots + [s'.records[p.key][|slots|]];
      }
    case Promote(id, now) =>
      var found := FindKey(s.records, InOrder(s.records.Keys), id);
      if found.Some? {
        var at := IndexOf(s.records[found.value], id);
        if s.records[found.value][at].entry.state.Candidate? {
          PromoteInOk(found.value, s.records[found.value], at, now);
        }
      }
    case Revoke(id) =>
      forall k | k in s.records ensures HistoryOk(k, RevokeIn(s.records[k], id)) {
        RevokeInOk(k, s.records[k], id);
      }
    case Query(request) =>
      ExpireAllOk(s.records, request);
  }

  lemma EmptyHistoryOk(key: string)
    ensures HistoryOk(key, [])
  {
  }

  lemma ProposalOk(key: string, slots: seq<Slot>, slot: Slot)
    requires HistoryOk(key, slots) && !HasId(slots, slot.entry.entryId)
    requires slot.entry.key == key && slot.entry.revision == |slots| + 1
    requires slot.entry.state.Candidate? && slot.supersededAt.None?
    ensures HistoryOk(key, slots + [slot])
  {
  }

  lemma RevokeInOk(key: string, slots: seq<Slot>, id: string)
    requires HistoryOk(key, slots)
    ensures HistoryOk(key, RevokeIn(slots, id))
  {
  }

  lemma ExpireInOk(key: string, slots: seq<Slot>, request: Request)
    requires HistoryOk(key, slots)
    ensures HistoryOk(key, ExpireIn(slots, request))
  {
  }

  lemma ExpireAllOk(records: Records, request: Request)
    requires RecordsOk(records)
    ensures RecordsOk(ExpireAll(records, request))
  {
    hide HistoryOk, ExpireIn;
    forall k | k in records ensures HistoryOk(k, ExpireIn(records[k], request)) {
      ExpireInOk(k, records[k], request);
    }
  }

  lemma {:induction false} RunKeepsOk(config: Config, ops: seq<Operation>)
    ensures RecordsOk(Run(config, ops).0.records) && RecordsOk(RunReference(config, ops).0.records)
  {
    hide Execute, ExecuteReference, RecordsOk;
    if ops == [] {
      assert RecordsOk(map[]) by { EmptyRecordsOk(); }
    } else {
      var init, last := ops[..|ops| - 1], ops[|ops| - 1];
      RunKeepsOk(config, init);
      ExecuteKeepsOk(config, Run(config, init).0, last);
      ExecuteKeepsOk(config, RunReference(config, init).0, last);
    }
  }

  lemma EmptyRecordsOk()
    ensures RecordsOk(map[])
  {
  }

  // ---------- the simulation ----------

  /** Equal up to audit links, except that an entry expired by `time` may already be stale. */
  predicate SlotSim(lazy: Slot, reference: Slot, time: nat) {
    || lazy.entry == reference.entry
    || (lazy.entry == reference.entry.(state := Stale) && reference.entry.state.Promoted?
       && Expired(reference.entry, time))
  }

  predicate HistorySim(lazy: seq<Slot>, reference: seq<Slot>, time: nat) {
    |lazy| == |reference| && forall i | 0 <= i < |lazy| :: SlotSim(lazy[i], reference[i], time)
  }

  predicate Sim(lazy: Records, reference: Records, time: nat) {
    lazy.Keys == reference.Keys && forall k | k in lazy :: HistorySim(lazy[k], reference[k], time)
  }

  lemma SimHasId(lazy: seq<Slot>, reference: seq<Slot>, time: nat, id: string)
    requires HistorySim(lazy, reference, time)
    ensures HasId(lazy, id) == HasId(reference, id)
  {
    if i :| 0 <= i < |lazy| && lazy[i].entry.entryId == id {
      assert SlotSim(lazy[i], reference[i], time);
    }
    if i :| 0 <= i < |reference| && reference[i].entry.entryId == id {
      assert SlotSim(lazy[i], reference[i], time);
    }
  }

  lemma {:induction false} SimFindKey(lazy: Records, reference: Records, time: nat, ids: seq<string>, id: string)
    requires Sim(lazy, reference, time) && forall k | k in ids :: k in lazy
    ensures FindKey(lazy, ids, id) == FindKey(reference, ids, id)
  {
    hide HistorySim, HasId;
    if ids == [] {
    } else {
      SimHasId(lazy[ids[0]], reference[ids[0]], time, id);
      SimFindKey(lazy, reference, time, ids[1..], id);
    }
  }

  lemma SimIndexOf(lazy: seq<Slot>, reference: seq<Slot>, time: nat, id: string)
    requires HistorySim(lazy, reference, time) && HasId(lazy, id) && HasId(reference, id)
    ensures IndexOf(lazy, id) == IndexOf(reference, id)
  {
    var i, j := IndexOf(lazy, id), IndexOf(reference, id);
    assert SlotSim(lazy[i], reference[i], time) && SlotSim(lazy[j], reference[j], time);
  }

  lemma SimPromoteIn(key: string, lazy: seq<Slot>, reference: seq<Slot>, time: nat, at: nat, now: nat)
    requires HistoryOk(key, lazy) && HistoryOk(key, reference) && HistorySim(lazy, reference, time)
    requires at < |lazy| && lazy[at].entry.state.Candidate?
    ensures reference[at].entry.state.Candidate?
    ensures HistorySim(PromoteIn(lazy, at, now), PromoteIn(reference, at, now), time)
  {
    hide Conflicts, Expired;
    assert SlotSim(lazy[at], reference[at], time);
    var r, a := PromoteIn(lazy, at, now), PromoteIn(reference, at, now);
    forall i | 0 <= i < |r| ensures SlotSim(r[i], a[i], time) {
      assert SlotSim(lazy[i], reference[i], time);
    }
  }

  lemma SimRevokeIn(lazy: seq<Slot>, reference: seq<Slot>, time: nat, id: string)
    requires HistorySim(lazy, reference, time)
    ensures HistorySim(RevokeIn(lazy, id), RevokeIn(reference, id), time)
  {
    forall i | 0 <= i < |lazy| ensures SlotSim(RevokeIn(lazy, id)[i], RevokeIn(reference, id)[i], time) {
      assert SlotSim(lazy[i], reference[i], time);
    }
  }

  lemma SimExpireIn(lazy: seq<Slot>, reference: seq<Slot>, time: nat, request: Request)
    requires HistorySim(lazy, reference, time) && time <= request.now
    ensures HistorySim(ExpireIn(lazy, request), reference, request.now)
  {
    forall i | 0 <= i < |lazy| ensures SlotSim(ExpireIn(lazy, request)[i], reference[i], request.now) {
      assert SlotSim(lazy[i], reference[i], time);
    }
  }

  lemma {:induction false} SimVisibleIn(lazy: seq<Slot>, reference: seq<Slot>, time: nat, request: Request)
    requires HistorySim(lazy, reference, time) && time <= request.now
    ensures VisibleIn(lazy, request) == VisibleIn(reference, request)
  {
    if lazy == [] {
    } else {
      var n := |lazy| - 1;
      assert HistorySim(lazy[..n], reference[..n], time) by {
        forall i | 0 <= i < n ensures SlotSim(lazy[..n][i], reference[..n][i], time) {
          assert SlotSim(lazy[i], reference[i], time);
        }
      }
      SimVisibleIn(lazy[..n], reference[..n], time, request);
      assert SlotSim(lazy[n], reference[n], time);
    }
  }

  lemma {:induction false} SimViews(lazy: Records, reference: Records, time: nat, ids: seq<string>, request: Request)
    requires Sim(lazy, reference, time) && time <= request.now && forall k | k in ids :: k in lazy
    ensures Views(lazy, ids, request) == Views(reference, ids, request)
  {
    hide HistorySim, VisibleIn;
    if ids == [] {
    } else {
      SimViews(lazy, reference, time, ids[..|ids| - 1], request);
      var last := ids[|ids| - 1];
      assert last in ids;
      SimVisibleIn(lazy[last], reference[last], time, request);
    }
  }

  /** One operation: same output, and the simulation continues at the later time. */
  lemma SimStep(config: Config, s: State, a: State, time: nat, op: Operation)
    requires RecordsOk(s.records) && RecordsOk(a.records) && Sim(s.records, a.records, time)
    requires op.Query? ==> time <= op.request.now
    ensures var later := if op.Query? then op.request.now else time;
            && Execute(config, s, op).1 == ExecuteReference(config, a, op).1
            && Sim(Execute(config, s, op).0.records, ExecuteReference(config, a, op).0.records, later)
  {
    match op
    case Propose(p) => SimPropose(config, s, a, time, p);
    case Promote(id, now) => SimPromote(s, a, time, id, now);
    case Revoke(id) => SimRevoke(s, a, time, id);
    case Query(request) => SimQuery(s, a, time, request);
    hide ProposeStep, PromoteStep, RevokeStep, QueryStep, Sim, Answer;
  }

  lemma SimPropose(config: Config, s: State, a: State, time: nat, p: Proposal)
    requires Sim(s.records, a.records, time)
    ensures ProposeStep(config, s, p).1 == ProposeStep(config, a, p).1
    ensures Sim(ProposeStep(config, s, p).0.records, ProposeStep(config, a, p).0.records, time)
  {
    var lazy, reference := History(s.records, p.key), History(a.records, p.key);
    var id := config.entryIdFor(p.key, p.value, p.provenance.origin);
    assert HistorySim(lazy, reference, time);
    SimHasId(lazy, reference, time, id);
    hide HasId, Classified;
    if ProposeStep(config, s, p).1.Ok? {
      var r, q := ProposeStep(config, s, p).0.records[p.key], ProposeStep(config, a, p).0.records[p.key];
      forall i | 0 <= i < |r| ensures SlotSim(r[i], q[i], time) {
        if i < |lazy| {
          assert SlotSim(lazy[i], reference[i], time);
        }
      }
      assert HistorySim(r, q, time);
    }
  }

  lemma SimPromoteAt(key: string, lazy: seq<Slot>, reference: seq<Slot>, time: nat, id: string, now: nat)
    requires HistoryOk(key, lazy) && HistoryOk(key, reference) && HistorySim(lazy, reference, time)
    requires HasId(lazy, id) && HasId(reference, id)
    ensures IndexOf(lazy, id) == IndexOf(reference, id)
    ensures lazy[IndexOf(lazy, id)].entry.state.Candidate? == reference[IndexOf(lazy, id)].entry.state.Candidate?
    ensures var at := IndexOf(lazy, id);
            lazy[at].entry.state.Candidate?
            ==> HistorySim(PromoteIn(lazy, at, now), PromoteIn(reference, at, now), time)
  {
    SimIndexOf(lazy, reference, time, id);
    var at := IndexOf(lazy, id);
    assert SlotSim(lazy[at], reference[at], time);
    hide PromoteIn, IndexOf, HistoryOk, HasId;
    if lazy[at].entry.state.Candidate? {
      SimPromoteIn(key, lazy, reference, time, at, now);
    }
  }

  lemma SimPromote(s: State, a: State, time: nat, id: string, now: nat)
    requires RecordsOk(s.records) && RecordsOk(a.records) && Sim(s.records, a.records, time)
    ensures PromoteStep(s, id, now).1 == PromoteStep(a, id, now).1
    ensures Sim(PromoteStep(s, id, now).0.records, PromoteStep(a, id, now).0.records, time)
  {
    var ids := InOrder(s.records.Keys);
    hide InOrder, PromoteIn, HistoryOk, HasId, IndexOf, FindKey, HistorySim;
    SimFindKey(s.records, a.records, time, ids, id);
    var found := FindKey(s.records, ids, id);
    if found.Some? {
      var key := found.value;
      SimPromoteAt(key, s.records[key], a.records[key], time, id, now);
    }
  }

  lemma SimRevoke(s: State, a: State, time: nat, id: string)
    requires Sim(s.records, a.records, time)
    ensures Sim(RevokeStep(s, id).records, RevokeStep(a, id).records, time)
  {
    hide HistorySim, RevokeIn;
    forall k | k in s.records ensures HistorySim(RevokeStep(s, id).records[k], RevokeStep(a, id).records[k], time) {
      SimRevokeIn(s.records[k], a.records[k], time, id);
    }
  }

  lemma SimQuery(s: State, a: State, time: nat, request: Request)
    requires Sim(s.records, a.records, time) && time <= request.now
    ensures QueryStep(s, request).1 == Answer(a.records, request)
    ensures Sim(QueryStep(s, request).0.records, a.records, request.now)
  {
    SimViews(s.records, a.records, time, InOrder(s.records.Keys), request);
    hide HistorySim, ExpireIn, Views, InOrder;
    forall k | k in s.records ensures HistorySim(QueryStep(s, request).0.records[k], a.records[k], request.now) {
      SimExpireIn(s.records[k], a.records[k], time, request);
      SimLater(s.records[k], a.records[k], time, request.now);
    }
  }

  lemma SimLater(lazy: seq<Slot>, reference: seq<Slot>, time: nat, later: nat)
    requires HistorySim(lazy, reference, time) && time <= later
    ensures HistorySim(lazy, reference, later)
  {
    forall i | 0 <= i < |lazy| ensures SlotSim(lazy[i], reference[i], later) {
      assert SlotSim(lazy[i], reference[i], time);
    }
  }

  lemma {:induction false} LatestBounds(ops: seq<Operation>, bound: nat)
    requires forall i | 0 <= i < |ops| && ops[i].Query? :: ops[i].request.now <= bound
    ensures LatestQuery(ops) <= bound
  {
    if ops == [] {
    } else {
      LatestBounds(ops[..|ops| - 1], bound);
    }
  }

  lemma {:induction false} RunsSimulate(config: Config, ops: seq<Operation>)
    requires Forward(ops)
    ensures Run(config, ops).1 == RunReference(config, ops).1
    ensures Sim(Run(config, ops).0.records, RunReference(config, ops).0.records, LatestQuery(ops))
  {
    hide Execute, ExecuteReference, HistorySim, RecordsOk;
    if ops == [] {
    } else {
      var init, last := ops[..|ops| - 1], ops[|ops| - 1];
      RunsSimulate(config, init);
      RunKeepsOk(config, init);
      if last.Query? {
        LatestBounds(init, last.request.now);
      }
      SimStep(config, Run(config, init).0, RunReference(config, init).0, LatestQuery(init), last);
      hide Sim;
    }
  }

  /**
   * When query times never go backwards, lazy expiry is unobservable: every
   * proposal, promotion and query answers as in the store that never marks
   * expired entries.
   */
  lemma {:induction false} LazyExpiryIsUnobservable(config: Config, ops: seq<Operation>)
    requires Forward(ops)
    ensures Run(config, ops).1 == RunReference(config, ops).1
  {
    RunsSimulate(config, ops);
  }

  // ---------- what a query can reveal about another ----------

  /** An entry that `first` marks stale although `second` would still have seen it. */
  predicate Hides(slot: Slot, first: Request, second: Request) {
    InSight(slot, first) && Expired(slot.entry, first.now) && InSight(slot, second) && !Expired(slot.entry, second.now)
  }

  predicate HidesIn(slots: seq<Slot>, first: Request, second: Request) {
    exists i :: 0 <= i < |slots| && Hides(slots[i], first, second)
  }

  lemma {:induction false} HiddenInHistory(slots: seq<Slot>, first: Request, second: Request)
    ensures var before, after := VisibleIn(slots, second), VisibleIn(ExpireIn(slots, first), second);
            if HidesIn(slots, first, second) then |after| < |before| else after == before
  {
    hide InSight, Expired;
    if slots == [] {
    } else {
      var n := |slots| - 1;
      var expired := ExpireIn(slots, first);
      HiddenInHistory(slots[..n], first, second);
      assert expired[..n] == ExpireIn(slots[..n], first);
      assert HidesIn(slots, first, second)
          <==> HidesIn(slots[..n], first, second) || Hides(slots[n], first, second) by {
        assert forall i | 0 <= i < n :: slots[..n][i] == slots[i];
        if i :| 0 <= i < n && Hides(slots[..n][i], first, second) {
          assert Hides(slots[i], first, second);
        }
        if Hides(slots[n], first, second) {
          assert HidesIn(slots, first, second);
        }
      }
      LastSlotExpires(slots[n], first, second);
    }
  }

  lemma LastSlotExpires(slot: Slot, first: Request, second: Request)
    ensures !InSight(StaleSlot(slot), second)
    ensures StaleSlot(slot).entry != slot.entry || !InSight(slot, first)
  {
  }

  lemma {:induction false} HiddenInViews(records: Records, ids: seq<string>, first: Request, second: Request)
    requires forall k | k in ids :: k in records
    ensures var after := ExpireAll(records, first);
            if exists k :: k in ids && Asked(first, k) && Asked(second, k) && HidesIn(records[k], first, second)
            then |Views(after, ids, second)| < |Views(records, ids, second)|
            else Views(after, ids, second) == Views(records, ids, second)
  {
    hide HidesIn, VisibleIn, ExpireIn;
    if ids == [] {
    } else {
      var init, last := ids[..|ids| - 1], ids[|ids| - 1];
      assert ids == init + [last];
      HiddenInViews(records, init, first, second);
      HiddenInHistory(records[last], first, second);
    }
  }

  /**
   * Exactly when a query changes what a later one answers: when it marks an
   * entry stale that the later query asks for, may see and does not yet
   * consider expired, which takes a clock that went back.
   */
  lemma {:induction false} QueryIsObservableIff(s: State, first: Request, second: Request)
    ensures Answer(QueryStep(s, first).0.records, second) != Answer(s.records, second)
       <==> exists k :: k in s.records && Asked(first, k) && Asked(second, k) && HidesIn(s.records[k], first, second)
    ensures Answer(QueryStep(s, first).0.records, second) != Answer(s.records, second) ==> second.now < first.now
  {
    HiddenInViews(s.records, InOrder(s.records.Keys), first, second);
    hide Views, ExpireIn, InOrder;
  }

  // ---------- what an answer contains ----------

  lemma {:induction false} VisibleInIff(slots: seq<Slot>, request: Request, e: Entry)
    ensures e in VisibleIn(slots, request) <==>
            exists i :: 0 <= i < |slots| && slots[i].entry == e && InSight(slots[i], request)
                && !Expired(e, request.now)
  {
    hide InSight, Expired;
    if slots == [] {
    } else {
      var n := |slots| - 1;
      VisibleInIff(slots[..n], request, e);
      if i :| 0 <= i < n && slots[..n][i].entry == e && InSight(slots[..n][i], request) && !Expired(e, request.now) {
        assert slots[i].entry == e;
      }
      assert forall i | 0 <= i < n :: slots[..n][i] == slots[i];
    }
  }

  lemma {:induction false} ViewsIff(records: Records, ids: seq<string>, request: Request, e: Entry)
    requires forall k | k in ids :: k in records
    ensures e in Views(records, ids, request) <==>
            exists k :: k in ids && Asked(request, k) && e in VisibleIn(records[k], request)
  {
    hide VisibleIn;
    if ids == [] {
    } else {
      ViewsIff(records, ids[..|ids| - 1], request, e);
      assert ids == ids[..|ids| - 1] + [ids[|ids| - 1]];
    }
  }

  lemma {:induction false} NonePromoted(slots: seq<Slot>, request: Request)
    requires forall i | 0 <= i < |slots| :: !slots[i].entry.state.Promoted?
    ensures VisibleIn(slots, request) == []
  {
    if slots == [] {
    } else {
      NonePromoted(slots[..|slots| - 1], request);
    }
  }

  lemma {:induction false} OneVisible(key: string, slots: seq<Slot>, request: Request)
    requires HistoryOk(key, slots)
    ensures |VisibleIn(slots, request)| <= 1 && forall e | e in VisibleIn(slots, request) :: e.key == key
  {
    if slots == [] {
    } else {
      var n := |slots| - 1;
      assert HistoryOk(key, slots[..n]);
      OneVisible(key, slots[..n], request);
      if slots[n].entry.state.Promoted? {
        NonePromoted(slots[..n], request);
      }
    }
  }

  predicate DistinctKeys(entries: seq<Entry>) {
    forall i, j | 0 <= i < j < |entries| :: entries[i].key != entries[j].key
  }

  lemma DistinctJoin(a: seq<Entry>, b: seq<Entry>, key: string)
    requires DistinctKeys(a) && |b| <= 1 && (forall e | e in b :: e.key == key) && forall e | e in a :: e.key != key
    ensures DistinctKeys(a + b)
  {
    assert forall i | 0 <= i < |a| :: a[i] in a;
    assert forall i | 0 <= i < |b| :: b[i] in b;
  }

  lemma {:induction false} DistinctViews(records: Records, ids: seq<string>, request: Request)
    requires RecordsOk(records) && Sorted(ids) && forall k | k in ids :: k in records
    ensures DistinctKeys(Views(records, ids, request))
    ensures forall e | e in Views(records, ids, request) :: e.key in ids
  {
    hide VisibleIn, HistoryOk, DistinctKeys;
    if ids == [] {
      NoViews();
    } else {
      var init, last := ids[..|ids| - 1], ids[|ids| - 1];
      assert ids == init + [last] && last in ids;
      DistinctViews(records, init, request);
      OneVisible(last, records[last], request);
      if last in init {
        var i :| 0 <= i < |init| && init[i] == last;
        SortedDistinct(ids, i, |ids| - 1);
      }
      hide RecordsOk, Sorted;
      DistinctJoin(Views(records, init, request), VisibleIn(records[last], request), last);
    }
  }

  lemma NoViews()
    ensures DistinctKeys([])
  {
  }

  /**
   * After any run, an answer names exactly the promoted, unexpired entries the
   * asker may see under the keys asked for, and never two revisions of one key.
   */
  lemma {:induction false} AnswersAreCurrentTruth(config: Config, ops: seq<Operation>, request: Request)
    ensures var records := Run(config, ops).0.records;
            var answer := Answer(records, request);
            && DistinctKeys(answer)
            && (forall e :: e in answer <==>
                  exists k, i :: k in records && Asked(request, k) && 0 <= i < |records[k]| && records[k][i].entry == e
                                 && InSight(records[k][i], request) && !Expired(e, request.now))
  {
    var records := Run(config, ops).0.records;
    var ids := InOrder(records.Keys);
    RunKeepsOk(config, ops);
    hide Run, InSight, Expired, HistoryOk, VisibleIn;
    DistinctViews(records, ids, request);
    forall e ensures e in Answer(records, request) <==>
                     exists k, i ::
                         k in records && Asked(request, k) && 0 <= i < |records[k]| && records[k][i].entry == e
                                    && InSight(records[k][i], request) && !Expired(e, request.now)
    {
      ViewsIff(records, ids, request, e);
      forall k | k in records ensures e in VisibleIn(records[k], request) <==>
                                      exists i :: 0 <= i < |records[k]| && records[k][i].entry == e
                                                  && InSight(records[k][i], request) && !Expired(e, request.now)
      {
        VisibleInIff(records[k], request, e);
      }
    }
  }

  // ---------- the authority ----------

  class Authority {
    const config: Config
    var records: Records
    var writeSequence: nat
    var events: seq<Event>

    function View(): State
      reads this
    {
      State(records, writeSequence, events)
    }

    predicate Valid()
      reads this
    {
      RecordsOk(records)
    }

    constructor (config: Config)
      ensures this.config == config && View() == EMPTY_STATE && Valid()
    {
      this.config := config;
      records, writeSequence, events := map[], 0, [];
    }

    method ProposeMemory(p: Proposal) returns (r: Result<string, AdmissionError>)
      requires Valid()
      modifies this
      ensures Valid() && (View(), r) == ProposeStep(config, old(View()), p)
    {
      ghost var before := View();
      ExecuteKeepsOk(config, before, Propose(p));
      hide RecordsOk;
      writeSequence := writeSequence + 1;
      if p.tenant != config.tenant || p.workspace != config.workspace {
        return Err(CrossWorkspace);
      }
      if !Classified(p) {
        return Err(Unclassified);
      }
      if config.byteLength(p.value) > MAX_VALUE_LENGTH {
        return Err(Malformed);
      }
      var slots := History(records, p.key);
      var revision := |slots| + 1;
      var id := config.entryIdFor(p.key, p.value, p.provenance.origin);
      if HasId(slots, id) {
        return Err(DuplicateCandidate);
      }
      var entry := Entry(id, p.key, p.kind, p.value, config.tenant, config.workspace, p.sensitivity,
                         p.provenance, 0, p.expiresAt, Candidate, revision);
      records := records[p.key := slots + [Slot(entry, None, [])]];
      events := events + [Event("memory.proposed", Some(id))];
      return Ok(id);
    }

    method PromoteMemory(id: string, now: nat) returns (r: Result<(), PromoteError>)
      requires Valid()
      modifies this
      ensures Valid() && (View(), r) == PromoteStep(old(View()), id, now)
    {
      ghost var before := View();
      hide PromoteStep, FindKey, InOrder, RecordsOk, IndexOf, HasId, PromoteIn;
      PromoteStepOk(config, before, id, now);
      writeSequence := writeSequence + 1;
      var found := FindKey(records, InOrder(records.Keys), id);
      if found.None? {
        PromoteUnknown(before, id, now);
        return Err(UnknownCandidate);
      }
      var key := found.value;
      var slots := records[key];
      var at := IndexOf(slots, id);
      PromoteFound(before, id, now, key, slots, at);
      if !slots[at].entry.state.Candidate? {
        return Err(NotCandidate);
      }
      var revised := Revise(slots, at, now);
      records := records[key := revised];
      events := events + [Event("memory.promoted", Some(id))];
      return Ok(());
    }

    /** Promotes one slot in place, then walks the history superseding the others. */
    method Revise(slots: seq<Slot>, at: nat, now: nat) returns (revised: seq<Slot>)
      requires at < |slots| && slots[at].entry.state.Candidate?
      ensures revised == PromoteIn(slots, at, now)
    {
      var id := slots[at].entry.entryId;
      revised := slots[at := slots[at].(entry := slots[at].entry.(state := Promoted, promotedAt := now))];
      var conflicts, i := [], 0;
      while i < |revised|
        invariant 0 <= i <= |revised| == |slots|
        invariant conflicts == Conflicts(slots[..i], id)
        invariant forall j | 0 <= j < |slots| && j != at ::
                  revised[j] == if j < i then Supersede(slots[j], id, now) else slots[j]
        invariant revised[at] == slots[at].(entry := slots[at].entry.(state := Promoted, promotedAt := now))
      {
        assert slots[..i + 1][..i] == slots[..i];
        if Superseded(revised[i], id) {
          conflicts := conflicts + [revised[i].entry.entryId];
          revised := revised[i := Supersede(revised[i], id, now)];
        }
        i := i + 1;
      }
      assert slots[..i] == slots;
      revised := revised[at := revised[at].(conflictedWith := conflicts)];
    }

    method RevokeSlots(history: seq<Slot>, id: string) returns (slots: seq<Slot>)
      ensures slots == RevokeIn(history, id)
    {
      slots := history;
      var i := 0;
      while i < |slots|
        invariant 0 <= i <= |slots| == |history|
        invariant forall j | 0 <= j < |slots| :: slots[j] == if j < i then RevokeSlot(history[j], id) else history[j]
      {
        if slots[i].entry.entryId == id {
          slots := slots[i := RevokeSlot(slots[i], id)];
        }
        i := i + 1;
      }
    }

    method RevokeMemory(id: string)
      requires Valid()
      modifies this
      ensures Valid() && View() == RevokeStep(old(View()), id)
    {
      ghost var before := View();
      RevokeStepOk(config, before, id);
      hide RecordsOk, RevokeIn, RevokeStep, RevokedBut;
      NoneRevoked(records, id);
      writeSequence := writeSequence + 1;
      var rest := records.Keys;
      while rest != {}
        invariant rest <= records.Keys && RevokedBut(before.records, records, rest, id)
        invariant writeSequence == old(writeSequence) + 1 && events == old(events)
        decreases rest
      {
        var key :| key in rest;
        var slots := RevokeSlots(records[key], id);
        RevokeOneMore(before.records, records, rest, key, id);
        records := records[key := slots];
        rest := rest - {key};
      }
      events := events + [Event("memory.revoked", Some(id))];
      RevokedAll(before, id, View());
    }

    /** Collects the answer and the expired entries, then marks the latter stale one by one. */
    method QueryMemory(request: Request) returns (views: seq<Entry>)
      requires Valid()
      modifies this
      ensures Valid() && (View(), views) == QueryStep(old(View()), request)
    {
      ghost var before := View();
      hide Views, InOrder, ExpiredEntries, MarkAll, StaleEvents, QueryStep, RecordsOk;
      var expired: seq<(string, string)>;
      views, expired := Collect(InOrder(records.Keys), request);
      MarkExpired(expired);
      events := events + [Event("memory.queried", None)];
      QueryStepMarks(before, request, expired);
    }

    method MarkExpired(expired: seq<(string, string)>)
      modifies this`records, this`events
      ensures records == MarkAll(old(records), expired) && events == old(events) + StaleEvents(expired)
    {
      var i := 0;
      while i < |expired|
        invariant 0 <= i <= |expired|
        invariant records == MarkAll(old(records), expired[..i])
        invariant events == old(events) + StaleEvents(expired[..i])
      {
        hide HasId, IndexOf;
        var (key, id) := expired[i];
        assert expired[..i + 1][..i] == expired[..i];
        if key in records && HasId(records[key], id) {
          var at := IndexOf(records[key], id);
          records := records[key := records[key][at := StaleSlot(records[key][at])]];
        }
        events := events + [Event("memory.stale", Some(id))];
        i := i + 1;
      }
      assert expired[..i] == expired;
    }

    method Collect(ids: seq<string>, request: Request) returns (views: seq<Entry>, expired: seq<(string, string)>)
      requires forall k | k in ids :: k in records
      ensures views == Views(records, ids, request) && expired == ExpiredEntries(records, ids, request)
    {
      views, expired := [], [];
      var i := 0;
      while i < |ids|
        invariant 0 <= i <= |ids|
        invariant views == Views(records, ids[..i], request) && expired == ExpiredEntries(records, ids[..i], request)
      {
        var key := ids[i];
        assert ids[..i + 1][..i] == ids[..i] && key in ids;
        if Asked(request, key) {
          var slots, j := records[key], 0;
          ghost var viewsBefore, expiredBefore := views, expired;
          while j < |slots|
            invariant 0 <= j <= |slots|
            invariant views == viewsBefore + VisibleIn(slots[..j], request)
            invariant expired == expiredBefore + Tagged(key, ExpiredIn(slots[..j], request))
          {
            assert slots[..j + 1][..j] == slots[..j];
            if InSight(slots[j], request) {
              if Expired(slots[j].entry, request.now) {
                expired := expired + [(key, slots[j].entry.entryId)];
              } else {
                views := views + [slots[j].entry];
              }
            }
            j := j + 1;
          }
          assert slots[..j] == slots;
        }
        i := i + 1;
      }
      assert ids[..i] == ids;
    }
  }

  // ---------- marking one by one is marking all expired entries ----------

  function MarkOne(records: Records, key: string, id: string): Records {
    if key in records && HasId(records[key], id) then
      var at := IndexOf(records[key], id);
      records[key := records[key][at := StaleSlot(records[key][at])]]
    else records
  }

  function MarkAll(records: Records, expired: seq<(string, string)>): Records {
    if expired == [] then records
    else
      var (key, id) := expired[|expired| - 1];
      MarkOne(MarkAll(records, expired[..|expired| - 1]), key, id)
  }

  function MarkIf(slot: Slot, marked: bool): Slot {
    if marked then StaleSlot(slot) else slot
  }

  /** `now` is `records` with exactly the listed entries stale. */
  predicate Marks(records: Records, expired: seq<(string, string)>, now: Records) {
    && now.Keys == records.Keys
    && forall k | k in records ::
         && |now[k]| == |records[k]|
         && forall i | 0 <= i < |now[k]| ::
            now[k][i] == MarkIf(records[k][i], (k, records[k][i].entry.entryId) in expired)
  }

  lemma MarkOneMarks(records: Records, expired: seq<(string, string)>, now: Records, key: string, id: string)
    requires RecordsOk(records) && Marks(records, expired, now)
    ensures Marks(records, expired + [(key, id)], MarkOne(now, key, id))
  {
    var next := MarkOne(now, key, id);
    var longer := expired + [(key, id)];
    forall k, i | k in records && 0 <= i < |next[k]| && |next[k]| == |records[k]|
      ensures next[k][i] == MarkIf(records[k][i], (k, records[k][i].entry.entryId) in longer)
    {
      assert now[k][i].entry.entryId == records[k][i].entry.entryId;
      if k == key && HasId(now[k], id) {
        var at := IndexOf(now[k], id);
        assert now[k][at].entry.entryId == records[k][at].entry.entryId;
        assert HistoryOk(k, records[k]);
      }
    }
  }

  lemma {:induction false} MarkAllMarks(records: Records, expired: seq<(string, string)>)
    requires RecordsOk(records)
    ensures Marks(records, expired, MarkAll(records, expired))
  {
    hide RecordsOk, MarkOne;
    if expired == [] {
    } else {
      var init, last := expired[..|expired| - 1], expired[|expired| - 1];
      assert expired == init + [last];
      MarkAllMarks(records, init);
      MarkOneMarks(records, init, MarkAll(records, init), last.0, last.1);
      hide Marks;
    }
  }

  lemma {:induction false} ExpiredInIff(slots: seq<Slot>, request: Request, id: string)
    ensures id in ExpiredIn(slots, request) <==>
            exists i :: 0 <= i < |slots| && slots[i].entry.entryId == id && InSight(slots[i], request)
                && Expired(slots[i].entry, request.now)
  {
    hide InSight, Expired;
    if slots == [] {
    } else {
      var n := |slots| - 1;
      ExpiredInIff(slots[..n], request, id);
      assert forall i | 0 <= i < n :: slots[..n][i] == slots[i];
      if i :|
        && 0 <= i < n && slots[..n][i].entry.entryId == id
        && InSight(slots[..n][i], request) && Expired(slots[..n][i].entry, request.now)
      {
        assert slots[i].entry.entryId == id;
      }
    }
  }

  lemma {:induction false} ExpiredEntriesIff(records: Records, ids: seq<string>, request: Request, key: string,
      id: string)
    requires forall k | k in ids :: k in records
    ensures (key, id) in ExpiredEntries(records, ids, request) <==>
            key in ids && Asked(request, key) && id in ExpiredIn(records[key], request)
  {
    hide ExpiredIn;
    if ids == [] {
    } else {
      var init, last := ids[..|ids| - 1], ids[|ids| - 1];
      assert ids == init + [last];
      ExpiredEntriesIff(records, init, request, key, id);
      TaggedIff(last, ExpiredIn(records[last], request), key, id);
    }
  }

  lemma TaggedIff(tag: string, ids: seq<string>, key: string, id: string)
    ensures (key, id) in Tagged(tag, ids) <==> key == tag && id in ids
  {
    if key == tag && id in ids {
      var i :| 0 <= i < |ids| && ids[i] == id;
      assert Tagged(tag, ids)[i] == (key, id);
    }
  }

  /** Marking the collected entries one by one leaves exactly what the query is specified to leave. */
  lemma MarkedIsExpired(records: Records, request: Request)
    requires RecordsOk(records)
    ensures MarkAll(records, ExpiredEntries(records, InOrder(records.Keys), request)) == ExpireAll(records, request)
  {
    hide *;
    var ids := InOrder(records.Keys);
    var expired := ExpiredEntries(records, ids, request);
    var marked := MarkAll(records, expired);
    MarkAllMarks(records, expired);
    KeysMarked(records, expired, marked);
    forall k | k in records ensures marked[k] == ExpireAll(records, request)[k] {
      MarkedHistory(records, ids, request, marked, k);
    }
  }

  lemma KeysMarked(records: Records, expired: seq<(string, string)>, now: Records)
    requires Marks(records, expired, now)
    ensures now.Keys == records.Keys
  {
  }

  lemma MarkedHistory(records: Records, ids: seq<string>, request: Request, marked: Records, k: string)
    requires RecordsOk(records) && k in records && forall x :: x in ids <==> x in records
    requires Marks(records, ExpiredEntries(records, ids, request), marked) && k in marked
    ensures marked[k] == if Asked(request, k) then ExpireIn(records[k], request) else records[k]
  {
    var expired := ExpiredEntries(records, ids, request);
    var slots := records[k];
    assert HistoryOk(k, slots);
    hide ExpiredEntries, RecordsOk, InSight, Expired, ExpiredIn;
    forall i | 0 <= i < |slots|
      ensures (k, slots[i].entry.entryId) in expired
         <==> Asked(request, k) && InSight(slots[i], request) && Expired(slots[i].entry, request.now)
    {
      ExpiredEntriesIff(records, ids, request, k, slots[i].entry.entryId);
      ExpiredInIff(slots, request, slots[i].entry.entryId);
    }
  }

  lemma PromoteUnknown(s: State, id: string, now: nat)
    requires FindKey(s.records, InOrder(s.records.Keys), id).None?
    ensures PromoteStep(s, id, now) == (s.(writeSequence := s.writeSequence + 1), Err(UnknownCandidate))
  {
  }

  lemma PromoteStepOk(config: Config, s: State, id: string, now: nat)
    requires RecordsOk(s.records)
    ensures RecordsOk(PromoteStep(s, id, now).0.records)
  {
    hide RecordsOk, PromoteStep;
    ExecuteKeepsOk(config, s, Promote(id, now));
  }

  lemma PromoteFound(s: State, id: string, now: nat, key: string, slots: seq<Slot>, at: nat)
    requires FindKey(s.records, InOrder(s.records.Keys), id) == Some(key)
    requires key in s.records && s.records[key] == slots && HasId(slots, id) && IndexOf(slots, id) == at
    ensures PromoteStep(s, id, now)
         == if !slots[at].entry.state.Candidate? then (s.(writeSequence := s.writeSequence + 1), Err(NotCandidate))
            else (State(s.records[key := PromoteIn(slots, at, now)], s.writeSequence + 1,
                s.events + [Event("memory.promoted", Some(id))]), Ok(()))
  {
    hide FindKey, InOrder, IndexOf, PromoteIn;
  }

  /** The histories of all keys but the remaining ones have been revoked. */
  predicate RevokedBut(before: Records, now: Records, rest: set<string>, id: string) {
    && now.Keys == before.Keys
    && forall k | k in now :: now[k] == if k in rest then before[k] else RevokeIn(before[k], id)
  }

  lemma NoneRevoked(records: Records, id: string)
    ensures RevokedBut(records, records, records.Keys, id)
  {
  }

  lemma RevokeOneMore(before: Records, now: Records, rest: set<string>, key: string, id: string)
    requires RevokedBut(before, now, rest, id) && key in rest && key in now
    ensures RevokedBut(before, now[key := RevokeIn(now[key], id)], rest - {key}, id)
  {
    hide RevokeIn;
  }

  lemma RevokedAll(s: State, id: string, now: State)
    requires RevokedBut(s.records, now.records, {}, id)
    requires now.writeSequence == s.writeSequence + 1
    requires now.events == s.events + [Event("memory.revoked", Some(id))]
    ensures now == RevokeStep(s, id)
  {
    hide RevokeIn;
    assert now.records == RevokeStep(s, id).records;
  }

  lemma RevokeStepOk(config: Config, s: State, id: string)
    requires RecordsOk(s.records)
    ensures RecordsOk(RevokeStep(s, id).records)
  {
    hide RecordsOk, RevokeStep;
    ExecuteKeepsOk(config, s, Revoke(id));
  }

  lemma QueryStepMarks(s: State, request: Request, expired: seq<(string, string)>)
    requires RecordsOk(s.records)
    requires expired == ExpiredEntries(s.records, InOrder(s.records.Keys), request)
    ensures QueryStep(s, request)
         == (State(MarkAll(s.records, expired), s.writeSequence,
            s.events + StaleEvents(expired) + [Event("memory.queried", None)]),
             Views(s.records, InOrder(s.records.Keys), request))
    ensures RecordsOk(MarkAll(s.records, expired))
  {
    MarkedIsExpired(s.records, request);
    ExpireAllOk(s.records, request);
    hide RecordsOk, Views, InOrder, Sorted, ExpiredEntries, MarkAll, StaleEvents, ExpireAll;
  }
}
