/**
 * What each memory operation does to the histories, field by field, and what
 * revocation and promotion mean for every answer of every run.
 */
module MemoryMeaning {
  import opened MemoryAuthority
  import opened Outcomes
  import opened Sensitivity
  import opened TextOrder

  // ---------- proposals ----------

  predicate InSlots(slots: seq<Slot>, id: string) {
    exists i :: 0 <= i < |slots| && slots[i].entry.entryId == id
  }

  predicate InScope(config: Config, p: Proposal) {
    p.tenant == config.tenant && p.workspace == config.workspace
  }

  predicate WellNamed(p: Proposal) {
    && p.provenance.origin != "" && p.key != "" && p.value != ""
    && forall c | c in p.key ::
         'A' <= c <= 'Z' || 'a' <= c <= 'z' || '0' <= c <= '9' || c == ':' || c == '_' || c == '-'
  }

  /** A proposal is admitted exactly when these hold, and is otherwise refused with the first that fails. */
  lemma ProposalAdmittedIff(config: Config, s: State, p: Proposal)
    ensures var id := config.entryIdFor(p.key, p.value, p.provenance.origin);
            var known := p.key in s.records && InSlots(s.records[p.key], id);
            Execute(config, s, Propose(p)).1
            == Proposed(if !InScope(config, p) then Err(CrossWorkspace)
                        else if !WellNamed(p) then Err(Unclassified)
                        else if config.byteLength(p.value) > 16384 then Err(Malformed)
                        else if known then Err(DuplicateCandidate)
                        else Ok(id))
  {
  }

  /**
   * An admitted proposal is one more candidate revision at the end of its
   * key's history; a refused one is no change.
   */
  lemma ProposalEffect(config: Config, s: State, p: Proposal)
    ensures var (s', output) := Execute(config, s, Propose(p));
            && output.Proposed? && s'.writeSequence == s.writeSequence + 1
            && match output.admission
               case Err(_) => s'.records == s.records && s'.events == s.events
               case Ok(id) =>
                 var slots := if p.key in s.records then s.records[p.key] else [];
                 && s'.events == s.events + [Event("memory.proposed", Some(id))]
                 && s'.records.Keys == s.records.Keys + {p.key}
                 && (forall k | k in s.records && k != p.key :: s'.records[k] == s.records[k])
                 && s'.records[p.key]
                    == slots + [Slot(Entry(id, p.key, p.kind, p.value, p.tenant, p.workspace, p.sensitivity,
                       p.provenance, 0,
                                           p.expiresAt, Candidate, |slots| + 1), None, [])]
  {
    hide Classified, HasId;
  }

  // ---------- promotions ----------

  /** The candidate a promotion of `id` acts on: in the first key, in order, that has the identifier. */
  predicate Candidates(records: Records, key: string, at: nat, id: string) {
    && key in records && at < |records[key]|
    && records[key][at].entry.entryId == id && records[key][at].entry.state.Candidate?
    && forall k | k in records && Less(k, key) :: !InSlots(records[k], id)
  }

  lemma {:induction false} FoundFirst(records: Records, ids: seq<string>, id: string)
    requires Sorted(ids) && forall k | k in ids :: k in records
    ensures var found := FindKey(records, ids, id);
            found.Some? ==> forall k | k in ids && Less(k, found.value) :: !InSlots(records[k], id)
  {
    hide Less;
    if ids == [] {
    } else if HasId(records[ids[0]], id) {
      forall k | k in ids && Less(k, ids[0]) ensures false {
        var i :| 0 <= i < |ids| && ids[i] == k;
        Irreflexive(k);
        if i > 0 {
          Asymmetric(ids[0], k);
        }
      }
    } else {
      FoundFirst(records, ids[1..], id);
      assert ids == [ids[0]] + ids[1..];
    }
  }

  /** Every other promoted revision becomes stale and is superseded now; nothing else changes beside the candidate. */
  predicate OthersSuperseded(before: seq<Slot>, after: seq<Slot>, at: nat, now: nat) {
    && |after| == |before|
    && forall i | 0 <= i < |before| && i != at ::
         if before[i].entry.state.Promoted? then
           after[i].supersededAt == Some(now) && after[i].conflictedWith == before[i].conflictedWith
           && after[i].entry == before[i].entry.(state := Stale)
         else after[i] == before[i]
  }

  /** The conflicts name the revision that was promoted before, if there was one. */
  predicate NamesPromoted(slots: seq<Slot>, conflicts: seq<string>) {
    || (conflicts == [] && forall slot | slot in slots :: !slot.entry.state.Promoted?)
    || (exists slot :: slot in slots && slot.entry.state.Promoted? && conflicts == [slot.entry.entryId])
  }

  lemma {:induction false} ConflictsArePromoted(key: string, slots: seq<Slot>, at: nat, n: nat)
    requires HistoryOk(key, slots) && at < |slots| && slots[at].entry.state.Candidate? && n <= |slots|
    ensures NamesPromoted(slots[..n], Conflicts(slots[..n], slots[at].entry.entryId))
  {
    if n == 0 {
    } else {
      ConflictsArePromoted(key, slots, at, n - 1);
      assert slots[..n][..n - 1] == slots[..n - 1];
      assert slots[..n] == slots[..n - 1] + [slots[n - 1]];
      if slots[n - 1].entry.state.Promoted? {
        assert slots[n - 1].supersededAt.None? && slots[n - 1].entry.entryId != slots[at].entry.entryId;
        forall slot | slot in slots[..n - 1] ensures !slot.entry.state.Promoted? {
          var i :| 0 <= i < n - 1 && slots[i] == slot;
        }
      }
    }
  }

  /** What promoting the candidate at `at` makes of a history. */
  predicate PromotedAt(before: seq<Slot>, after: seq<Slot>, at: nat, now: nat)
    requires at < |before|
  {
    && OthersSuperseded(before, after, at, now)
    && after[at].entry == before[at].entry.(state := Promoted, promotedAt := now)
    && after[at].supersededAt == before[at].supersededAt
    && NamesPromoted(before, after[at].conflictedWith)
  }

  lemma PromotesIn(key: string, slots: seq<Slot>, at: nat, now: nat)
    requires HistoryOk(key, slots) && at < |slots| && slots[at].entry.state.Candidate?
    ensures PromotedAt(slots, PromoteIn(slots, at, now), at, now)
  {
    ConflictsArePromoted(key, slots, at, |slots|);
    assert slots[..|slots|] == slots;
    hide Conflicts, NamesPromoted;
  }

  ghost predicate Promotes(s: State, s': State, key: string, at: nat, id: string, now: nat)
    requires Candidates(s.records, key, at, id)
  {
    && s'.records.Keys == s.records.Keys
    && (forall k | k in s.records && k != key :: s'.records[k] == s.records[k])
    && PromotedAt(s.records[key], s'.records[key], at, now)
    && s'.events == s.events + [Event("memory.promoted", Some(id))]
  }

  /** A promotion succeeds exactly on a candidate, with this effect; otherwise it says why and changes nothing. */
  lemma PromotionEffect(config: Config, s: State, id: string, now: nat)
    requires RecordsOk(s.records)
    ensures var (s', output) := Execute(config, s, Promote(id, now));
            && output.PromotedAs? && s'.writeSequence == s.writeSequence + 1
            && (output.promotion.Ok? <==> exists key, at :: Candidates(s.records, key, at, id))
            && (output.promotion.Ok? ==>
                  exists key, at :: Candidates(s.records, key, at, id) && Promotes(s, s', key, at, id, now))
            && (output.promotion == Err(UnknownCandidate) <==> forall k | k in s.records :: !InSlots(s.records[k], id))
            && (output.promotion.Err? ==> s'.records == s.records && s'.events == s.events)
  {
    var ids := InOrder(s.records.Keys);
    FoundFirst(s.records, ids, id);
    hide InOrder, Sorted, Less, PromoteIn, PromotedAt;
    var found := FindKey(s.records, ids, id);
    if found.None? {
      forall k | k in s.records ensures !InSlots(s.records[k], id) {
        assert k in ids;
      }
    } else {
      PromotionFound(s, id, now, found.value);
    }
  }

  lemma PromotionFound(s: State, id: string, now: nat, key: string)
    requires RecordsOk(s.records) && key in s.records && FindKey(s.records, InOrder(s.records.Keys), id) == Some(key)
    requires forall k | k in s.records && Less(k, key) :: !InSlots(s.records[k], id)
    ensures InSlots(s.records[key], id)
    ensures var (s', promotion) := PromoteStep(s, id, now);
            && s'.writeSequence == s.writeSequence + 1
            && (promotion.Ok? <==> exists key, at :: Candidates(s.records, key, at, id))
            && (promotion.Ok? ==>
                  exists key, at :: Candidates(s.records, key, at, id) && Promotes(s, s', key, at, id, now))
            && promotion != Err(UnknownCandidate)
            && (promotion.Err? ==> s'.records == s.records && s'.events == s.events)
  {
    hide InOrder, FindKey, Less, PromoteIn, PromotedAt, HistoryOk;
    var slots := s.records[key];
    assert HistoryOk(key, slots);
    var at := IndexOf(slots, id);
    PromoteFound(s, id, now, key, slots, at);
    if slots[at].entry.state.Candidate? {
      assert Candidates(s.records, key, at, id);
      PromotesIn(key, slots, at, now);
      assert Promotes(s, PromoteStep(s, id, now).0, key, at, id, now);
    } else {
      NoOtherCandidate(s.records, key, at, id);
    }
  }

  lemma NoOtherCandidate(records: Records, key: string, at: nat, id: string)
    requires RecordsOk(records) && key in records && at < |records[key]|
    requires records[key][at].entry.entryId == id && !records[key][at].entry.state.Candidate?
    requires forall k | k in records && Less(k, key) :: !InSlots(records[k], id)
    ensures forall k: string, i: nat :: !Candidates(records, k, i, id)
  {
    hide Less;
    assert HistoryOk(key, records[key]);
    forall k: string, i: nat ensures !Candidates(records, k, i, id) {
      if Candidates(records, k, i, id) {
        OneFirstKey(records, key, k, id);
        assert false;
      }
    }
  }

  lemma OneFirstKey(records: Records, key: string, other: string, id: string)
    requires key in records && other in records && InSlots(records[key], id) && InSlots(records[other], id)
    requires forall k | k in records && Less(k, key) :: !InSlots(records[k], id)
    requires forall k | k in records && Less(k, other) :: !InSlots(records[k], id)
    ensures key == other
  {
    Total(key, other);
    hide Less, InSlots;
  }

  // ---------- revocations and queries ----------

  /** A revocation marks the named entries revoked and changes nothing else in any history. */
  lemma RevocationEffect(config: Config, s: State, id: string)
    ensures var s' := Execute(config, s, Revoke(id)).0;
            && s'.writeSequence == s.writeSequence + 1
            && s'.events == s.events + [Event("memory.revoked", Some(id))]
            && s'.records.Keys == s.records.Keys
            && forall k | k in s.records ::
                 && |s'.records[k]| == |s.records[k]|
                 && forall i | 0 <= i < |s.records[k]| ::
                      var before, after := s.records[k][i], s'.records[k][i];
                      if before.entry.entryId == id then
                        after.entry == before.entry.(state := Revoked) && after.supersededAt == before.supersededAt
                        && after.conflictedWith == before.conflictedWith
                      else after == before
  {
  }

  predicate Elapsed(entry: Entry, now: nat) {
    entry.expiresAt.Some? && now >= entry.expiresAt.value
  }

  /** The slot after a query under its key: stale if it is promoted, visible to the asker and expired. */
  predicate AfterQuery(before: Slot, after: Slot, request: Request) {
    if before.entry.state.Promoted? && AtMost(before.entry.sensitivity, request.ceiling)
       && Elapsed(before.entry, request.now)
    then
      && after.entry == before.entry.(state := Stale)
      && after.supersededAt == before.supersededAt && after.conflictedWith == before.conflictedWith
    else after == before
  }

  lemma SlotAfterQuery(slots: seq<Slot>, request: Request, i: nat)
    requires i < |slots|
    ensures AfterQuery(slots[i], ExpireIn(slots, request)[i], request)
  {
    RankIsTheOrder(slots[i].entry.sensitivity, request.ceiling);
    hide AtMost, DataClass.Rank;
  }

  /** A query marks stale exactly the promoted entries it asks for, may see and finds expired. */
  lemma QueryEffect(config: Config, s: State, request: Request)
    ensures var s' := Execute(config, s, Query(request)).0;
            && s'.writeSequence == s.writeSequence && s'.records.Keys == s.records.Keys
            && forall k | k in s.records ::
                 if request.key == None || request.key == Some(k) then
                   && |s'.records[k]| == |s.records[k]|
                   && forall i | 0 <= i < |s.records[k]| :: AfterQuery(s.records[k][i], s'.records[k][i], request)
                 else s'.records[k] == s.records[k]
  {
    hide Answer, ExpiredEntries, InOrder, AfterQuery, ExpireIn;
    forall k, i: nat | k in s.records && i < |s.records[k]|
      ensures AfterQuery(s.records[k][i], ExpireIn(s.records[k], request)[i], request)
    {
      SlotAfterQuery(s.records[k], request, i);
    }
  }

  /** The query meets the entry promoted, visible and expired. */
  predicate Lapses(records: Records, request: Request, key: string, id: string) {
    && key in records && (request.key == None || request.key == Some(key))
    && exists i :: 0 <= i < |records[key]| && records[key][i].entry.entryId == id
                   && records[key][i].entry.state.Promoted?
                   && AtMost(records[key][i].entry.sensitivity, request.ceiling)
                   && Elapsed(records[key][i].entry, request.now)
  }

  lemma LapsesIff(records: Records, request: Request, key: string, id: string)
    ensures (key, id) in ExpiredEntries(records, InOrder(records.Keys), request) <==> Lapses(records, request, key, id)
  {
    hide InOrder, ExpiredEntries, ExpiredIn, AtMost, DataClass.Rank;
    ExpiredEntriesIff(records, InOrder(records.Keys), request, key, id);
    if key in records {
      ExpiredInIff(records[key], request, id);
      forall i | 0 <= i < |records[key]|
        ensures AtMost(records[key][i].entry.sensitivity, request.ceiling)
                <==> records[key][i].entry.sensitivity.Rank() <= request.ceiling.Rank()
      {
        RankIsTheOrder(records[key][i].entry.sensitivity, request.ceiling);
      }
    }
  }

  /** One stale event for each lapsed entry, then one for the query. */
  predicate LogsLapsed(events: seq<Event>, lapsed: seq<(string, string)>) {
    && |events| == |lapsed| + 1 && events[|lapsed|] == Event("memory.queried", None)
    && forall i | 0 <= i < |lapsed| :: events[i] == Event("memory.stale", Some(lapsed[i].1))
  }

  /** A query leaves one event for each entry it meets expired, then one for itself. */
  lemma QueryEvents(config: Config, s: State, request: Request)
    ensures exists events, lapsed ::
              && Execute(config, s, Query(request)).0.events == s.events + events && LogsLapsed(events, lapsed)
              && forall key, id :: (key, id) in lapsed <==> Lapses(s.records, request, key, id)
  {
    hide Answer, ExpiredEntries, InOrder, Lapses;
    var lapsed := ExpiredEntries(s.records, InOrder(s.records.Keys), request);
    forall key, id ensures (key, id) in lapsed <==> Lapses(s.records, request, key, id) {
      LapsesIff(s.records, request, key, id);
    }
    var events := StaleEvents(lapsed) + [Event("memory.queried", None)];
    assert LogsLapsed(events, lapsed);
    hide LogsLapsed;
    RegroupEvents(s.events, StaleEvents(lapsed), [Event("memory.queried", None)]);
  }

  lemma RegroupEvents(a: seq<Event>, b: seq<Event>, c: seq<Event>)
    ensures a + b + c == a + (b + c)
  {
  }

  /** Whether a query at this ceiling and time may answer with the entry. */
  predicate Readable(entry: Entry, request: Request) {
    entry.state.Promoted? && AtMost(entry.sensitivity, request.ceiling) && !Elapsed(entry, request.now)
  }

  /** The histories hold the entry under a key asked for, and it may be answered. */
  predicate IsAnswer(records: Records, request: Request, e: Entry) {
    exists k, i ::
      && k in records && 0 <= i < |records[k]| && records[k][i].entry == e
      && (request.key == None || request.key == Some(k)) && Readable(e, request)
  }

  /** An answer is exactly the readable entries under the keys asked for, one per key, in key order. */
  lemma AnswerIsReadable(config: Config, ops: seq<Operation>, request: Request)
    ensures var answer := Execute(config, Run(config, ops).0, Query(request)).1;
            && answer.Answered?
            && (forall i, j | 0 <= i < j < |answer.views| :: Less(answer.views[i].key, answer.views[j].key))
            && (forall e :: e in answer.views <==> IsAnswer(Run(config, ops).0.records, request, e))
  {
    var records := Run(config, ops).0.records;
    AnswersAreCurrentTruth(config, ops, request);
    RunKeepsOk(config, ops);
    AnswerInKeyOrder(records, InOrder(records.Keys), request);
    hide Run, InOrder, Views, InSight, Expired, RecordsOk, Less, IsAnswer, Asked;
    forall e ensures e in Answer(records, request) <==> IsAnswer(records, request, e) {
      TruthIsAnswer(records, request, e);
    }
  }

  lemma TruthIsAnswer(records: Records, request: Request, e: Entry)
    ensures (exists k, i :: k in records && Asked(request, k) && 0 <= i < |records[k]| && records[k][i].entry == e
                            && InSight(records[k][i], request) && !Expired(e, request.now))
            <==> IsAnswer(records, request, e)
  {
    hide InSight, Readable, Expired;
    forall slot ensures InSight(slot, request) && !Expired(slot.entry, request.now) <==> Readable(slot.entry, request) {
      SeenIsReadable(slot, request);
    }
  }

  lemma SeenIsReadable(slot: Slot, request: Request)
    ensures InSight(slot, request) && !Expired(slot.entry, request.now) <==> Readable(slot.entry, request)
  {
    RankIsTheOrder(slot.entry.sensitivity, request.ceiling);
    hide AtMost, DataClass.Rank;
  }

  predicate KeysAscend(entries: seq<Entry>) {
    forall i, j | 0 <= i < j < |entries| :: Less(entries[i].key, entries[j].key)
  }

  lemma {:induction false} AnswerInKeyOrder(records: Records, ids: seq<string>, request: Request)
    requires RecordsOk(records) && Sorted(ids) && forall k | k in ids :: k in records
    ensures KeysAscend(Views(records, ids, request))
    ensures forall e | e in Views(records, ids, request) :: e.key in ids
  {
    hide VisibleIn, HistoryOk, Less;
    if ids == [] {
    } else {
      var init, last := ids[..|ids| - 1], ids[|ids| - 1];
      assert ids == init + [last] && last in ids;
      AnswerInKeyOrder(records, init, request);
      OneVisible(last, records[last], request);
      var a, b := Views(records, init, request), VisibleIn(records[last], request);
      forall i | 0 <= i < |a| ensures Less(a[i].key, last) {
        assert a[i] in a;
      }
    }
  }

  // ---------- revisions over runs ----------

  /** A revision keeps all it was proposed with. */
  predicate SameRevision(before: Entry, after: Entry) {
    after == before.(state := after.state, promotedAt := after.promotedAt)
  }

  /** The moves of a revision: promoted, superseded, revoked or expired, each by its own operation. */
  predicate SlotMoves(before: Slot, after: Slot, op: Operation) {
    && SameRevision(before.entry, after.entry)
    && (|| after == before
        || (op.Promote? && before.entry.entryId == op.id && before.entry.state.Candidate? && after.entry.state.Promoted?
            && after.entry.promotedAt == op.now)
        || (op.Promote? && before.entry.entryId != op.id && before.entry.state.Promoted? && after.entry.state.Stale?
            && after.supersededAt == Some(op.now))
        || (op.Revoke? && before.entry.entryId == op.id && after.entry.state.Revoked?)
        || (op.Query? && before.entry.state.Promoted? && after.entry.state.Stale?
           && Elapsed(before.entry, op.request.now)))
  }

  predicate HistoryMoves(before: seq<Slot>, after: seq<Slot>, op: Operation) {
    |before| <= |after| && forall i | 0 <= i < |before| :: SlotMoves(before[i], after[i], op)
  }

  /** Histories only grow, and every revision moves as the operation says. */
  predicate RecordsMove(before: Records, after: Records, op: Operation) {
    forall k | k in before :: k in after && HistoryMoves(before[k], after[k], op)
  }

  lemma PromotedMoves(before: seq<Slot>, after: seq<Slot>, at: nat, id: string, now: nat)
    requires at < |before| && before[at].entry.entryId == id && before[at].entry.state.Candidate?
    requires forall i | 0 <= i < |before| && i != at :: before[i].entry.entryId != id
    requires PromotedAt(before, after, at, now)
    ensures HistoryMoves(before, after, Promote(id, now))
  {
    hide NamesPromoted;
  }

  lemma PromotionMoves(config: Config, s: State, id: string, now: nat)
    requires RecordsOk(s.records)
    ensures RecordsMove(s.records, Execute(config, s, Promote(id, now)).0.records, Promote(id, now))
  {
    hide Execute, PromotedAt, HistoryMoves, HistoryOk;
    PromotionEffect(config, s, id, now);
    var s' := Execute(config, s, Promote(id, now)).0;
    if s'.records == s.records {
      UnchangedMoves(s.records, Promote(id, now));
    } else {
      var key, at :| Candidates(s.records, key, at, id) && Promotes(s, s', key, at, id, now);
      OthersNamed(key, s.records[key], at);
      PromotedMoves(s.records[key], s'.records[key], at, id, now);
      UnchangedMoves(s.records, Promote(id, now));
    }
  }

  lemma OthersNamed(key: string, slots: seq<Slot>, at: nat)
    requires HistoryOk(key, slots) && at < |slots|
    ensures forall i | 0 <= i < |slots| && i != at :: slots[i].entry.entryId != slots[at].entry.entryId
  {
  }

  lemma UnchangedMoves(records: Records, op: Operation)
    ensures forall k | k in records :: HistoryMoves(records[k], records[k], op)
  {
  }

  lemma StepMoves(config: Config, s: State, op: Operation)
    requires RecordsOk(s.records)
    ensures RecordsMove(s.records, Execute(config, s, op).0.records, op)
  {
    match op
    case Propose(p) => ProposalMoves(config, s, p);
    case Promote(id, now) => PromotionMoves(config, s, id, now);
    case Revoke(id) => RevocationMoves(config, s, id);
    case Query(request) => QueryMoves(config, s, request);
    hide *;
  }

  lemma ProposalMoves(config: Config, s: State, p: Proposal)
    ensures RecordsMove(s.records, Execute(config, s, Propose(p)).0.records, Propose(p))
  {
    hide Execute;
    ProposalEffect(config, s, p);
  }

  lemma RevocationMoves(config: Config, s: State, id: string)
    ensures RecordsMove(s.records, Execute(config, s, Revoke(id)).0.records, Revoke(id))
  {
    hide Execute;
    RevocationEffect(config, s, id);
  }

  lemma QueryMoves(config: Config, s: State, request: Request)
    ensures RecordsMove(s.records, Execute(config, s, Query(request)).0.records, Query(request))
  {
    hide Execute, AtMost;
    QueryEffect(config, s, request);
    UnchangedMoves(s.records, Query(request));
  }

  lemma RunSnoc(config: Config, ops: seq<Operation>, n: nat)
    requires n < |ops|
    ensures Run(config, ops[..n + 1]).0 == Execute(config, Run(config, ops[..n]).0, ops[n]).0
    ensures Run(config, ops[..n + 1]).1
            == Run(config, ops[..n]).1 + [Execute(config, Run(config, ops[..n]).0, ops[n]).1]
  {
    hide Execute;
    assert ops[..n + 1][..n] == ops[..n] && ops[..n + 1][n] == ops[n];
  }

  /** The output of each operation of a run is the one it gave. */
  lemma {:induction false} OutputAt(config: Config, ops: seq<Operation>, n: nat)
    requires n < |ops|
    ensures |Run(config, ops).1| == |ops|
    ensures Run(config, ops).1[n] == Execute(config, Run(config, ops[..n]).0, ops[n]).1
    decreases |ops|
  {
    hide Execute;
    var last := |ops| - 1;
    if last == 0 {
      assert ops[..n] == [];
    } else {
      OutputAt(config, ops[..last], if n < last then n else 0);
      assert n < last ==> ops[..last][..n] == ops[..n];
    }
  }

  /** In every run each revision of each history moves along these moves only. */
  lemma EveryRunMoves(config: Config, ops: seq<Operation>, n: nat)
    requires n < |ops|
    ensures RecordsMove(Run(config, ops[..n]).0.records, Run(config, ops[..n + 1]).0.records, ops[n])
  {
    hide Execute, Run, RecordsOk, RecordsMove;
    RunKeepsOk(config, ops[..n]);
    RunSnoc(config, ops, n);
    StepMoves(config, Run(config, ops[..n]).0, ops[n]);
  }

  /** Slot `i` of the key's history is the revoked revision with this identifier. */
  predicate IsRevoked(records: Records, key: string, i: nat, id: string) {
    key in records && i < |records[key]| && records[key][i].entry.entryId == id && records[key][i].entry.state.Revoked?
  }

  lemma {:induction false} RevokedStays(config: Config, ops: seq<Operation>, n: nat, m: nat, key: string, i: nat,
      id: string)
    requires n <= m <= |ops| && IsRevoked(Run(config, ops[..n]).0.records, key, i, id)
    ensures IsRevoked(Run(config, ops[..m]).0.records, key, i, id)
    decreases m
  {
    hide Run, Elapsed;
    if m == n {
    } else {
      RevokedStays(config, ops, n, m - 1, key, i, id);
      EveryRunMoves(config, ops, m - 1);
    }
  }

  /**
   * Revocation is immediate and final: every revision that has the identifier
   * when it is revoked is revoked in every continuation of the run.
   */
  lemma RevokedForGood(config: Config, ops: seq<Operation>, n: nat, key: string, i: nat)
    requires n < |ops| && ops[n].Revoke?
    requires var records := Run(config, ops[..n]).0.records;
             key in records && i < |records[key]| && records[key][i].entry.entryId == ops[n].id
    ensures forall m | n < m <= |ops| :: IsRevoked(Run(config, ops[..m]).0.records, key, i, ops[n].id)
  {
    RevokedNow(config, ops, n, key, i);
    hide Run, IsRevoked;
    forall m | n < m <= |ops| ensures IsRevoked(Run(config, ops[..m]).0.records, key, i, ops[n].id) {
      RevokedStays(config, ops, n + 1, m, key, i, ops[n].id);
    }
  }

  lemma RevokedNow(config: Config, ops: seq<Operation>, n: nat, key: string, i: nat)
    requires n < |ops| && ops[n].Revoke?
    requires var records := Run(config, ops[..n]).0.records;
             key in records && i < |records[key]| && records[key][i].entry.entryId == ops[n].id
    ensures IsRevoked(Run(config, ops[..n + 1]).0.records, key, i, ops[n].id)
  {
    RunSnoc(config, ops, n);
    hide Run, Execute;
    RevocationEffect(config, Run(config, ops[..n]).0, ops[n].id);
  }

  /** No answer given after the revocation has an entry with that key and identifier, however the run goes on. */
  lemma RevokedIsNeverAnswered(config: Config, ops: seq<Operation>, n: nat, m: nat, key: string)
    requires n < m < |ops| && ops[n].Revoke? && ops[m].Query?
    requires var records := Run(config, ops[..n]).0.records; key in records && InSlots(records[key], ops[n].id)
    ensures |Run(config, ops).1| == |ops| && Run(config, ops).1[m].Answered?
    ensures forall e | e in Run(config, ops).1[m].views :: !(e.key == key && e.entryId == ops[n].id)
  {
    hide Run, Execute;
    var i :| 0 <= i < |Run(config, ops[..n]).0.records[key]|
             && Run(config, ops[..n]).0.records[key][i].entry.entryId == ops[n].id;
    RevokedForGood(config, ops, n, key, i);
    OutputAt(config, ops, m);
    AnswerIsReadable(config, ops[..m], ops[m].request);
    RunKeepsOk(config, ops[..m]);
    var records := Run(config, ops[..m]).0.records;
    forall e | IsAnswer(records, ops[m].request, e) ensures !(e.key == key && e.entryId == ops[n].id) {
      RevokedIsNoAnswer(records, key, i, ops[n].id, ops[m].request, e);
    }
  }

  lemma RevokedIsNoAnswer(records: Records, key: string, i: nat, id: string, request: Request, e: Entry)
    requires RecordsOk(records) && IsRevoked(records, key, i, id) && IsAnswer(records, request, e)
    ensures !(e.key == key && e.entryId == id)
  {
    var k, j :| && k in records && 0 <= j < |records[k]| && records[k][j].entry == e && Readable(e, request);
    assert HistoryOk(k, records[k]);
  }

  // ---------- promotion is answered ----------

  /** The single answer about a key: the entry, if its class and expiry let the asker have it. */
  predicate AnswersJust(views: seq<Entry>, e: Entry, request: Request) {
    views == if AtMost(e.sensitivity, request.ceiling) && !Elapsed(e, request.now) then [e] else []
  }

  /** Every query for the key answers the entry and nothing else, or nothing where class or expiry forbid it. */
  ghost predicate IsTruthAbout(config: Config, s: State, key: string, e: Entry) {
    forall request: Request | request.key == Some(key) ::
      var output := Execute(config, s, Query(request)).1;
      output.Answered? && AnswersJust(output.views, e, request)
  }

  /**
   * What was just promoted is the truth about its key: a query for it answers
   * that entry, as it was proposed, and nothing else, exactly when the entry's
   * class is within the ceiling and it has not expired.
   */
  lemma PromotedIsAnswered(config: Config, ops: seq<Operation>, id: string, now: nat)
    requires Execute(config, Run(config, ops).0, Promote(id, now)).1 == PromotedAs(Ok(()))
    ensures var records := Run(config, ops).0.records;
            exists key: string, at: nat :: Candidates(records, key, at, id)
              && IsTruthAbout(config, Execute(config, Run(config, ops).0, Promote(id, now)).0, key,
                              records[key][at].entry.(state := Promoted, promotedAt := now))
  {
    var s := Run(config, ops).0;
    var after := Execute(config, s, Promote(id, now)).0;
    RunKeepsOk(config, ops);
    PromotionEffect(config, s, id, now);
    hide Run, Execute, RecordsOk, HistoryOk, PromotedAt, Candidates, IsTruthAbout;
    var key: string, at: nat :| Candidates(s.records, key, at, id) && Promotes(s, after, key, at, id, now);
    PromotedIsThere(s, after, key, at, id, now);
    PromotedIsTruth(config, ops, id, now, key, at);
  }

  lemma PromotedIsTruth(config: Config, ops: seq<Operation>, id: string, now: nat, key: string, at: nat)
    requires var after := Execute(config, Run(config, ops).0, Promote(id, now)).0;
             key in after.records && at < |after.records[key]| && after.records[key][at].entry.state.Promoted?
    ensures var after := Execute(config, Run(config, ops).0, Promote(id, now)).0;
            IsTruthAbout(config, after, key, after.records[key][at].entry)
  {
    var after := Execute(config, Run(config, ops).0, Promote(id, now)).0;
    var longer := ops + [Promote(id, now)];
    assert longer[..|ops|] == ops && longer[..|ops| + 1] == longer;
    RunSnoc(config, longer, |ops|);
    RunKeepsOk(config, longer);
    hide Run, Execute, RecordsOk, AnswersJust, IsAnswer, Less;
    forall request: Request | request.key == Some(key)
      ensures Execute(config, after, Query(request)).1.Answered?
      ensures AnswersJust(Execute(config, after, Query(request)).1.views, after.records[key][at].entry, request)
    {
      AnswerIsReadable(config, longer, request);
      JustOne(after.records, key, at, after.records[key][at].entry, request,
              Execute(config, after, Query(request)).1.views);
    }
  }

  lemma PromotedIsThere(s: State, s': State, key: string, at: nat, id: string, now: nat)
    requires Candidates(s.records, key, at, id) && Promotes(s, s', key, at, id, now)
    ensures key in s'.records && at < |s'.records[key]|
    ensures s'.records[key][at].entry == s.records[key][at].entry.(state := Promoted, promotedAt := now)
  {
  }

  lemma JustOne(records: Records, key: string, at: nat, e: Entry, request: Request, views: seq<Entry>)
    requires RecordsOk(records) && key in records && at < |records[key]| && records[key][at].entry == e
    requires e.state.Promoted? && request.key == Some(key)
    requires forall i, j | 0 <= i < j < |views| :: Less(views[i].key, views[j].key)
    requires forall x :: x in views <==> IsAnswer(records, request, x)
    ensures AnswersJust(views, e, request)
  {
    assert HistoryOk(key, records[key]);
    forall i | 0 <= i < |views| ensures views[i] == e {
      var x := views[i];
      assert x in views;
      var k, j :| && k in records && 0 <= j < |records[k]| && records[k][j].entry == x
                  && request.key == Some(k) && Readable(x, request);
    }
    assert AtMost(e.sensitivity, request.ceiling) && !Elapsed(e, request.now) <==> e in views;
    hide RecordsOk, IsAnswer, AtMost, Elapsed;
    Irreflexive(e.key);
    hide Less;
    assert |views| >= 2 ==> views[0].key == e.key && views[1].key == e.key;
  }

  // ---------- proposals are not answered ----------

  /** A candidate never surfaces on its own: a proposal, admitted or not, changes no answer. */
  lemma ProposalChangesNoAnswer(config: Config, ops: seq<Operation>, p: Proposal, request: Request)
    ensures var s := Run(config, ops).0;
            Execute(config, Execute(config, s, Propose(p)).0, Query(request)).1 == Execute(config, s, Query(request)).1
  {
    var s := Run(config, ops).0;
    var longer := ops + [Propose(p)];
    assert longer[..|ops|] == ops && longer[..|ops| + 1] == longer;
    RunSnoc(config, longer, |ops|);
    hide Run, Execute, IsAnswer;
    var after := Execute(config, s, Propose(p)).0;
    AnswerIsReadable(config, ops, request);
    AnswerIsReadable(config, longer, request);
    forall e ensures IsAnswer(after.records, request, e) <==> IsAnswer(s.records, request, e) {
      ProposalEffect(config, s, p);
      CandidateIsNoAnswer(config, s, p, request, e);
    }
    SameAnswer(Execute(config, after, Query(request)).1.views, Execute(config, s, Query(request)).1.views);
  }

  lemma CandidateIsNoAnswer(config: Config, s: State, p: Proposal, request: Request, e: Entry)
    ensures var after := Execute(config, s, Propose(p)).0;
            IsAnswer(after.records, request, e) <==> IsAnswer(s.records, request, e)
  {
    hide Execute, AtMost, Elapsed;
    ProposalEffect(config, s, p);
    var after := Execute(config, s, Propose(p)).0;
    if k, i :|
      && k in after.records && 0 <= i < |after.records[k]| && after.records[k][i].entry == e
      && (request.key == None || request.key == Some(k)) && Readable(e, request)
    {
      assert k in s.records && i < |s.records[k]| && s.records[k][i].entry == e;
    }
    if k, i :|
      && k in s.records && 0 <= i < |s.records[k]| && s.records[k][i].entry == e
      && (request.key == None || request.key == Some(k)) && Readable(e, request)
    {
      assert after.records[k][i].entry == e;
    }
  }

  /** Two answers in key order with the same entries are the same answer. */
  lemma {:induction false} SameAnswer(a: seq<Entry>, b: seq<Entry>)
    requires KeysAscend(a) && KeysAscend(b) && forall e :: e in a <==> e in b
    ensures a == b
  {
    assert b != [] ==> b[0] in a;
    assert a != [] ==> a[0] in b;
    if a == [] {
    } else {
      SameFirst(a, b);
      forall e ensures e in a[1..] <==> e in b[1..] {
        RestWithoutFirst(a, e);
        RestWithoutFirst(b, e);
      }
      SameAnswer(a[1..], b[1..]);
      assert a == [a[0]] + a[1..] && b == [b[0]] + b[1..];
    }
  }

  lemma SameFirst(a: seq<Entry>, b: seq<Entry>)
    requires KeysAscend(a) && KeysAscend(b) && a != [] && b != [] && a[0] in b && b[0] in a
    ensures a[0] == b[0]
  {
    hide Less;
    if a[0] != b[0] {
      Asymmetric(a[0].key, b[0].key);
    }
  }

  lemma RestWithoutFirst(a: seq<Entry>, e: Entry)
    requires KeysAscend(a) && a != []
    ensures e in a[1..] <==> e in a && e != a[0]
  {
    hide Less;
    Irreflexive(a[0].key);
    if e in a && e != a[0] {
      var i :| 0 <= i < |a| && a[i] == e;
      assert a[1..][i - 1] == e;
    }
  }

  /** The write sequence counts the operations that are not queries. */
  function Writes(ops: seq<Operation>): nat {
    if ops == [] then 0
    else Writes(ops[..|ops| - 1]) + if ops[|ops| - 1].Query? then 0 else 1
  }

  lemma {:induction false} WriteSequenceCounts(config: Config, ops: seq<Operation>)
    ensures Run(config, ops).0.writeSequence == Writes(ops)
  {
    if ops == [] {
    } else {
      WriteSequenceCounts(config, ops[..|ops| - 1]);
    }
  }
}
