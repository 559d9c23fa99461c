/**
 * The permission-aware knowledge fabric: admitted chunks, three inverted
 * indexes derived from them, and ranked queries that re-verify every candidate.
 * The indexes are shown to be exactly what a rebuild would make, and a query
 * over them to be a plain scan of the chunks.
 */
module KnowledgeFabric {
  import opened JsonValue
  import opened Outcomes
  import opened Redaction
  import opened Sensitivity
  import opened TextOrder
  import opened TextSplit

  datatype TrustLevel = Trusted | Imported | Untrusted

  datatype ScopeKind = CodeScope | ConversationScope | DocumentScope | MemoryScope | DecisionScope

  datatype Scope = Scope(tenant: string, workspace: string, kind: ScopeKind)

  datatype Provenance = Provenance(origin: string, trust: TrustLevel, importedAt: nat)

  datatype Label = Label(
    chunkId: string, scope: Scope, sensitivity: DataClass, provenance: Provenance,
    createdAt: nat, expiresAt: Option<nat>, contentDigest: string)

  datatype Content =
    | Text(text: string)
    | Code(path: string, language: string, text: string)
    | Structured(value: Json, restricted: map<string, DataClass>)

  datatype Chunk = Chunk(nutrition: Label, content: Content)

  type Chunks = map<string, Chunk>

  type Index = map<string, set<string>>

  /** Character classes, encoded length, the JSON printer and the content digest. */
  datatype Env = Env(
    alphanumeric: char -> bool, alphabetic: char -> bool, byteLength: string -> nat,
    render: Json -> string, digestOf: Content -> string)

  // ---------- what each index must contain ----------

  function LowerChar(c: char): char {
    if 'A' <= c <= 'Z' then (c as int + 32) as char else c
  }

  function Lower(s: string): string {
    seq(|s|, i requires 0 <= i < |s| => LowerChar(s[i]))
  }

  function LowerAll(terms: seq<string>): seq<string> {
    seq(|terms|, i requires 0 <= i < |terms| => Lower(terms[i]))
  }

  predicate IsWord(env: Env, c: char) {
    env.alphanumeric(c) || c == '_'
  }

  /** The pieces between characters that belong to no word. */
  function Pieces(env: Env, s: string): (pieces: seq<string>)
    ensures |pieces| >= 1
  {
    if s == "" then [""]
    else if !IsWord(env, s[0]) then [""] + Pieces(env, s[1..])
    else
      var rest := Pieces(env, s[1..]);
      [[s[0]] + rest[0]] + rest[1..]
  }

  function TextForIndex(env: Env, content: Content): string {
    match content
    case Text(text) => text
    case Code(path, _, text) => path + "\n" + text
    case Structured(value, _) => env.render(value)
  }

  function Terms(env: Env, content: Content): set<string> {
    set t | t in Pieces(env, Lower(TextForIndex(env, content))) && env.byteLength(t) >= 2
  }

  function Symbols(env: Env, content: Content): set<string> {
    if content.Structured? then {}
    else set t | t in Pieces(env, content.text) && env.byteLength(t) >= 3 && t != "" && env.alphabetic(t[0])
  }

  function Extend(prefix: string, field: string): string {
    if prefix == "" then field else prefix + ("." + field)
  }

  /** The key paths below a prefix; array elements keep the path of the array. */
  function PathsUnder(v: Json, prefix: string): set<string> {
    match v
    case Object(fields) =>
      (set k | k in fields ::
          Extend(prefix, k)) + (set k, p | k in fields && p in PathsUnder(fields[k], Extend(prefix, k)) :: p)
    case Array(items) => set i, p | 0 <= i < |items| && p in PathsUnder(items[i], prefix) :: p
    case _ => {}
  }

  function KeyPaths(content: Content): set<string> {
    if content.Structured? then PathsUnder(content.value, "") else {}
  }

  datatype Channel = Keyword | Symbol | KeyPath

  /** What a chunk contributes to the index of a channel. */
  function Keys(env: Env, channel: Channel, content: Content): set<string> {
    match channel
    case Keyword => Terms(env, content)
    case Symbol => Symbols(env, content)
    case KeyPath => KeyPaths(content)
  }

  // ---------- postings ----------

  function Post(index: Index, key: string): set<string> {
    if key in index then index[key] else {}
  }

  function InsertAll(index: Index, keys: set<string>, id: string): Index {
    map key | key in index.Keys + keys :: Post(index, key) + if key in keys then {id} else {}
  }

  /** Entries left without an identifier are dropped. */
  function RemoveAll(index: Index, keys: set<string>, id: string): Index {
    map key | key in index && (key !in keys || index[key] - {id} != {}) ::
        if key in keys then index[key] - {id} else index[key]
  }

  function AddPosting(index: Index, key: string, id: string): Index {
    index[key := Post(index, key) + {id}]
  }

  /** Removes the identifier under the key, and the key when that leaves it empty. */
  function RemovePosting(index: Index, key: string, id: string): Index {
    if key !in index then index
    else if index[key] - {id} == {} then index - {key}
    else index[key := index[key] - {id}]
  }

  lemma InsertOneMore(index: Index, keys: set<string>, key: string, id: string)
    ensures AddPosting(InsertAll(index, keys, id), key, id) == InsertAll(index, keys + {key}, id)
  {
    var grown := InsertAll(index, keys, id);
    forall k ensures k in AddPosting(grown, key, id) <==> k in InsertAll(index, keys + {key}, id)
             ensures Post(AddPosting(grown, key, id), k) == Post(InsertAll(index, keys + {key}, id), k)
    {
      InsertedPost(index, keys, id, k);
      InsertedPost(index, keys + {key}, id, k);
    }
    SameIndex(AddPosting(grown, key, id), InsertAll(index, keys + {key}, id));
  }

  lemma RemoveOneMore(index: Index, keys: set<string>, key: string, id: string)
    requires key !in keys
    ensures RemovePosting(RemoveAll(index, keys, id), key, id) == RemoveAll(index, keys + {key}, id)
  {
    var shrunk := RemoveAll(index, keys, id);
    forall k ensures k in RemovePosting(shrunk, key, id) <==> k in RemoveAll(index, keys + {key}, id)
             ensures Post(RemovePosting(shrunk, key, id), k) == Post(RemoveAll(index, keys + {key}, id), k)
    {
      RemovedPost(index, keys, id, k);
      RemovedPost(index, keys + {key}, id, k);
    }
    SameIndex(RemovePosting(shrunk, key, id), RemoveAll(index, keys + {key}, id));
  }

  function Elements(ks: seq<string>): set<string> {
    set k | k in ks
  }

  lemma ElementsOfSorted(keys: set<string>, ks: seq<string>, i: nat)
    requires Sorted(ks) && i <= |ks| && forall k :: k in ks <==> k in keys
    ensures Elements(ks[..0]) == {} && Elements(ks[..|ks|]) == keys
    ensures i < |ks| ==> Elements(ks[..i + 1]) == Elements(ks[..i]) + {ks[i]} && ks[i] !in Elements(ks[..i])
  {
    assert ks[..|ks|] == ks;
    if i < |ks| {
      assert ks[..i + 1] == ks[..i] + [ks[i]];
      if ks[i] in ks[..i] {
        var j :| 0 <= j < i && ks[j] == ks[i];
        SortedDistinct(ks, j, i);
      }
    }
  }

  lemma NothingToDo(index: Index, id: string)
    ensures InsertAll(index, {}, id) == index && RemoveAll(index, {}, id) == index
  {
    forall key ensures Post(InsertAll(index, {}, id), key) == Post(index, key) {
      InsertedPost(index, {}, id, key);
    }
    SameIndex(InsertAll(index, {}, id), index);
  }

  method AddPostings(index: Index, keys: set<string>, id: string) returns (index': Index)
    ensures index' == InsertAll(index, keys, id)
  {
    hide InsertAll, Sorted, Elements;
    var ks, i := InOrder(keys), 0;
    index' := index;
    NothingToDo(index, id);
    ElementsOfSorted(keys, ks, 0);
    while i < |ks|
      invariant 0 <= i <= |ks|
      invariant index' == InsertAll(index, Elements(ks[..i]), id)
    {
      ElementsOfSorted(keys, ks, i);
      InsertOneMore(index, Elements(ks[..i]), ks[i], id);
      index' := AddPosting(index', ks[i], id);
      i := i + 1;
    }
  }

  method RemovePostings(index: Index, keys: set<string>, id: string) returns (index': Index)
    ensures index' == RemoveAll(index, keys, id)
  {
    hide RemoveAll, Sorted, Elements;
    var ks, i := InOrder(keys), 0;
    index' := index;
    NothingToDo(index, id);
    ElementsOfSorted(keys, ks, 0);
    while i < |ks|
      invariant 0 <= i <= |ks|
      invariant index' == RemoveAll(index, Elements(ks[..i]), id)
    {
      ElementsOfSorted(keys, ks, i);
      RemoveOneMore(index, Elements(ks[..i]), ks[i], id);
      index' := RemovePosting(index', ks[i], id);
      i := i + 1;
    }
  }

  function AllKeys(env: Env, channel: Channel, chunks: Chunks): set<string> {
    set id, key | id in chunks && key in Keys(env, channel, chunks[id].content) :: key
  }

  function IdsWith(env: Env, channel: Channel, chunks: Chunks, key: string): set<string> {
    set id | id in chunks && key in Keys(env, channel, chunks[id].content)
  }

  /** The index a rebuild makes: under every key of a chunk, the chunks that have it. */
  function Built(env: Env, channel: Channel, chunks: Chunks): Index {
    map key | key in AllKeys(env, channel, chunks) :: IdsWith(env, channel, chunks, key)
  }

  lemma BuiltPost(env: Env, channel: Channel, chunks: Chunks, key: string)
    ensures Post(Built(env, channel, chunks), key) == IdsWith(env, channel, chunks, key)
    ensures key in Built(env, channel, chunks) <==> IdsWith(env, channel, chunks, key) != {}
  {
    hide Keys;
    if key in AllKeys(env, channel, chunks) {
      var id :| id in chunks && key in Keys(env, channel, chunks[id].content);
      assert id in IdsWith(env, channel, chunks, key);
    }
    if IdsWith(env, channel, chunks, key) != {} {
      var id :| id in IdsWith(env, channel, chunks, key);
      assert key in AllKeys(env, channel, chunks);
    }
  }

  lemma SameIndex(a: Index, b: Index)
    requires forall key :: (key in a <==> key in b) && Post(a, key) == Post(b, key)
    ensures a == b
  {
    forall key | key in a ensures a[key] == b[key] {
      assert Post(a, key) == Post(b, key);
    }
  }

  /**
   * Admitting a chunk leaves an exact index exact if and only if its
   * identifier is new or it keeps every key of the chunk it replaces.
   */
  lemma AdmittedIndexIsExactIff(env: Env, channel: Channel, chunks: Chunks, id: string, chunk: Chunk)
    ensures InsertAll(Built(env, channel, chunks), Keys(env, channel, chunk.content), id)
            == Built(env, channel, chunks[id := chunk])
       <==> id !in chunks || Keys(env, channel, chunks[id].content) <= Keys(env, channel, chunk.content)
  {
    var built, keys := Built(env, channel, chunks), Keys(env, channel, chunk.content);
    var grown, rebuilt := InsertAll(built, keys, id), Built(env, channel, chunks[id := chunk]);
    hide Keys, InsertAll, Built;
    if id !in chunks || Keys(env, channel, chunks[id].content) <= keys {
      forall key ensures (key in grown <==> key in rebuilt) && Post(grown, key) == Post(rebuilt, key) {
        AdmittedPost(env, channel, chunks, id, chunk, key);
      }
      SameIndex(grown, rebuilt);
    } else {
      var key :| key in Keys(env, channel, chunks[id].content) && key !in keys;
      AdmittedPost(env, channel, chunks, id, chunk, key);
    }
  }

  lemma AdmittedPost(env: Env, channel: Channel, chunks: Chunks, id: string, chunk: Chunk, key: string)
    ensures var grown := InsertAll(Built(env, channel, chunks), Keys(env, channel, chunk.content), id);
            var rebuilt := Built(env, channel, chunks[id := chunk]);
            if id in chunks && key in Keys(env, channel, chunks[id].content)
                && key !in Keys(env, channel, chunk.content)
            then id in Post(grown, key) && id !in Post(rebuilt, key)
            else (key in grown <==> key in rebuilt) && Post(grown, key) == Post(rebuilt, key)
  {
    hide Keys, InsertAll, Built, Post;
    var keys := Keys(env, channel, chunk.content);
    InsertedPost(Built(env, channel, chunks), keys, id, key);
    BuiltPost(env, channel, chunks, key);
    BuiltPost(env, channel, chunks[id := chunk], key);
    var before, after := IdsWith(env, channel, chunks, key), IdsWith(env, channel, chunks[id := chunk], key);
    assert after == (before - {id}) + if key in keys then {id} else {};
    assert id in before <==> id in chunks && key in Keys(env, channel, chunks[id].content);
  }

  lemma InsertedPost(index: Index, keys: set<string>, id: string, key: string)
    ensures key in InsertAll(index, keys, id) <==> key in index || key in keys
    ensures Post(InsertAll(index, keys, id), key) == Post(index, key) + if key in keys then {id} else {}
  {
  }

  lemma RemovedPost(index: Index, keys: set<string>, id: string, key: string)
    ensures key in RemoveAll(index, keys, id) <==> key in index && (key !in keys || index[key] - {id} != {})
    ensures Post(RemoveAll(index, keys, id), key) == Post(index, key) - if key in keys then {id} else {}
  {
  }

  /** Revoking a chunk leaves an exact index exact. */
  lemma RevokedIndexIsExact(env: Env, channel: Channel, chunks: Chunks, id: string)
    requires id in chunks
    ensures RemoveAll(Built(env, channel, chunks), Keys(env, channel, chunks[id].content), id)
            == Built(env, channel, chunks - {id})
  {
    var keys := Keys(env, channel, chunks[id].content);
    var shrunk := RemoveAll(Built(env, channel, chunks), keys, id);
    var built := Built(env, channel, chunks - {id});
    hide Keys, RemoveAll, Built;
    forall key ensures (key in shrunk <==> key in built) && Post(shrunk, key) == Post(built, key) {
      RemovedPost(Built(env, channel, chunks), keys, id, key);
      BuiltPost(env, channel, chunks, key);
      BuiltPost(env, channel, chunks - {id}, key);
      assert IdsWith(env, channel, chunks - {id}, key) == IdsWith(env, channel, chunks, key) - {id};
      assert key in Built(env, channel, chunks)
          ==> Built(env, channel, chunks)[key] == IdsWith(env, channel, chunks, key);
      assert key !in keys ==> id !in IdsWith(env, channel, chunks, key);
    }
    SameIndex(shrunk, built);
  }

  // ---------- admission ----------

  datatype AdmissionError = Unclassified | DigestMismatch | Malformed

  function AdmitChunk(env: Env, l: Label, content: Content): Result<Chunk, AdmissionError> {
    if l.chunkId == "" || l.provenance.origin == "" || l.scope.tenant == "" || l.scope.workspace == ""
        then Err(Unclassified)
    else if !("sha256:" <= l.contentDigest) || env.byteLength(l.contentDigest) != 71 then Err(Malformed)
    else if env.digestOf(content) != l.contentDigest then Err(DigestMismatch)
    else Ok(Chunk(l, content))
  }

  // ---------- state and commands ----------

  datatype Event = Event(name: string, chunkId: Option<string>)

  datatype State = State(
    chunks: Chunks, revoked: set<string>, excluded: set<string>,
    keyword: Index, symbol: Index, structured: Index, events: seq<Event>)

  const EMPTY := State(map[], {}, {}, map[], map[], map[], [])

  function AdmitStep(env: Env, s: State, l: Label, content: Content): (State, Result<string, AdmissionError>) {
    match AdmitChunk(env, l, content)
    case Err(e) => (s, Err(e))
    case Ok(chunk) =>
      (s.(chunks := s.chunks[l.chunkId := chunk],
          keyword := InsertAll(s.keyword, Keys(env, Keyword, content), l.chunkId),
          symbol := InsertAll(s.symbol, Keys(env, Symbol, content), l.chunkId),
          structured := InsertAll(s.structured, Keys(env, KeyPath, content), l.chunkId)),
       Ok(l.chunkId))
  }

  function RevokeStep(env: Env, s: State, id: string): State {
    if id !in s.chunks then s
    else
      var content := s.chunks[id].content;
      s.(chunks := s.chunks - {id},
         revoked := s.revoked + {id},
         keyword := RemoveAll(s.keyword, Keys(env, Keyword, content), id),
         symbol := RemoveAll(s.symbol, Keys(env, Symbol, content), id),
         structured := RemoveAll(s.structured, Keys(env, KeyPath, content), id),
         events := s.events + [Event("context.source_excluded", Some(id))])
  }

  function ExcludeStep(s: State, id: string): State {
    s.(excluded := s.excluded + {id}, events := s.events + [Event("context.source_excluded", Some(id))])
  }

  function RebuildStep(env: Env, s: State): State {
    s.(keyword := Built(env, Keyword, s.chunks),
       symbol := Built(env, Symbol, s.chunks),
       structured := Built(env, KeyPath, s.chunks),
       events := s.events + [Event("index.rebuilt", None)])
  }

  // ---------- queries ----------

  datatype Request = Request(
    scope: Scope, ceiling: DataClass, terms: seq<string>, symbols: seq<string>, keyPaths: seq<string>,
    includeUntrusted: bool, now: nat, limit: nat)

  datatype Reason = Matched(channel: Channel, text: string) | Pinned

  datatype ExclusionReason =
    | ForeignScope | TooSensitive | Expired | RevokedChunk | UserExclusion | LabelForgery | UntrustedNotAdmitted

  datatype Selected = Selected(chunk: Chunk, reason: Reason, redactedFields: seq<string>)

  datatype Excluded = Excluded(chunkId: string, reason: ExclusionReason)

  datatype QueryResult = QueryResult(selections: seq<Selected>, exclusions: seq<Excluded>, queryId: string)

  predicate HasChannels(r: Request) {
    r.terms != [] || r.symbols != [] || r.keyPaths != []
  }

  function Union(index: Index, wanted: seq<string>): set<string> {
    if wanted == [] then {} else Union(index, wanted[..|wanted| - 1]) + Post(index, wanted[|wanted| - 1])
  }

  /** The identifiers the indexes give, or every chunk when the request names no channel. */
  function IndexHits(s: State, r: Request): set<string> {
    var hits := Union(s.keyword, LowerAll(r.terms)) + Union(s.symbol, r.symbols) + Union(s.structured, r.keyPaths);
    if hits == {} && !HasChannels(r) then s.chunks.Keys else hits
  }

  /** The first gate that shuts a chunk out. */
  function Gate(env: Env, s: State, r: Request, id: string): Option<ExclusionReason>
    requires id in s.chunks
  {
    var chunk := s.chunks[id];
    var l := chunk.nutrition;
    if l.scope.tenant != r.scope.tenant || l.scope.workspace != r.scope.workspace then Some(ForeignScope)
    else if id in s.revoked then Some(RevokedChunk)
    else if id in s.excluded then Some(UserExclusion)
    else if l.sensitivity.Rank() > r.ceiling.Rank() then Some(TooSensitive)
    else if l.expiresAt.Some? && l.expiresAt.value <= r.now then Some(Expired)
    else if !r.includeUntrusted && l.provenance.trust.Untrusted? then Some(UntrustedNotAdmitted)
    else if env.digestOf(chunk.content) != l.contentDigest then Some(LabelForgery)
    else None
  }

  /** One reason for every requested text the chunk has, in request order. */
  function Found(channel: Channel, wanted: seq<string>, have: set<string>): seq<Reason> {
    if wanted == [] then []
    else
      var last := wanted[|wanted| - 1];
      Found(channel, wanted[..|wanted| - 1], have) + if last in have then [Matched(channel, last)] else []
  }

  function Matches(env: Env, content: Content, r: Request): seq<Reason> {
    Found(Keyword, LowerAll(r.terms), Keys(env, Keyword, content))
    + Found(Symbol, r.symbols, Keys(env, Symbol, content))
    + Found(KeyPath, r.keyPaths, Keys(env, KeyPath, content))
  }

  function Reasons(env: Env, content: Content, r: Request): (reasons: seq<Reason>)
    ensures reasons != []
  {
    var matches := Matches(env, content, r);
    if matches == [] then [Pinned] else matches
  }

  function Candidates(env: Env, s: State, r: Request, ids: set<string>): (candidates: map<string, seq<Reason>>)
    ensures forall id | id in candidates :: id in s.chunks && candidates[id] != []
  {
    map id | id in ids && id in s.chunks && Gate(env, s, r, id).None? :: Reasons(env, s.chunks[id].content, r)
  }

  function Exclusions(env: Env, s: State, r: Request, ids: set<string>): map<string, ExclusionReason> {
    map id | id in ids && id in s.chunks && Gate(env, s, r, id).Some? :: Gate(env, s, r, id).value
  }

  /** More reasons first, then by identifier. */
  predicate Precedes(candidates: map<string, seq<Reason>>, a: string, b: string)
    requires a in candidates && b in candidates
  {
    |candidates[a]| > |candidates[b]| || (|candidates[a]| == |candidates[b]| && Less(a, b))
  }

  function InsertRanked(candidates: map<string, seq<Reason>>, id: string, ranked: seq<string>): (longer: seq<string>)
    requires id in candidates && forall x | x in ranked :: x in candidates
    ensures forall x :: x in longer <==> x == id || x in ranked
    ensures |longer| == |ranked| + 1
  {
    if ranked == [] || Precedes(candidates, id, ranked[0]) then [id] + ranked
    else [ranked[0]] + InsertRanked(candidates, id, ranked[1..])
  }

  function Ranked(candidates: map<string, seq<Reason>>, ids: seq<string>): (ranked: seq<string>)
    requires forall x | x in ids :: x in candidates
    ensures forall x :: x in ranked <==> x in ids
    ensures |ranked| == |ids|
  {
    if ids == [] then [] else InsertRanked(candidates, ids[0], Ranked(candidates, ids[1..]))
  }

  function RedactChunk(content: Content, ceiling: DataClass): (Content, seq<string>) {
    if content.Structured? then
      var (value, reported) := RedactAll(content.value, RestrictedPaths(content.restricted, ceiling));
      (Structured(value, content.restricted), reported)
    else (content, [])
  }

  function Select(chunk: Chunk, reasons: seq<Reason>, ceiling: DataClass): Selected
    requires reasons != []
  {
    var (content, redacted) := RedactChunk(chunk.content, ceiling);
    Selected(Chunk(chunk.nutrition, content), reasons[0], redacted)
  }

  function Cut(ranked: seq<string>, limit: nat): (cut: seq<string>)
    ensures forall x | x in cut :: x in ranked
  {
    if |ranked| <= limit then ranked else ranked[..limit]
  }

  function Best(candidates: map<string, seq<Reason>>, limit: nat): (best: seq<string>)
    ensures forall x | x in best :: x in candidates
  {
    Cut(Ranked(candidates, InOrder(candidates.Keys)), limit)
  }

  predicate FromFabric(s: State, candidates: map<string, seq<Reason>>, ids: seq<string>) {
    forall id | id in ids :: id in s.chunks && id in candidates && candidates[id] != []
  }

  function Selections(s: State, r: Request, candidates: map<string, seq<Reason>>,
      ids: seq<string>): (selections: seq<Selected>)
    requires FromFabric(s, candidates, ids)
    ensures |selections| == |ids|
    ensures forall i | 0 <= i < |ids| :: selections[i] == Select(s.chunks[ids[i]], candidates[ids[i]], r.ceiling)
  {
    if ids == [] then []
    else
      var last := ids[|ids| - 1];
      Selections(s, r, candidates, ids[..|ids| - 1]) + [Select(s.chunks[last], candidates[last], r.ceiling)]
  }

  function SelectionEvents(s: State, r: Request, candidates: map<string, seq<Reason>>, ids: seq<string>): seq<Event>
    requires FromFabric(s, candidates, ids)
  {
    if ids == [] then []
    else
      var last := ids[|ids| - 1];
      SelectionEvents(s, r, candidates, ids[..|ids| - 1])
      + (if Select(s.chunks[last], candidates[last], r.ceiling).redactedFields != []
          then [Event("knowledge.redacted", Some(last))] else [])
      + [Event("context.chunk_selected", Some(last))]
  }

  function Listed(exclusions: map<string, ExclusionReason>, ids: seq<string>): seq<Excluded>
    requires forall id | id in ids :: id in exclusions
  {
    if ids == [] then []
    else
      var last := ids[|ids| - 1];
      Listed(exclusions, ids[..|ids| - 1]) + [Excluded(last, exclusions[last])]
  }

  /** The answer made from a set of candidate identifiers. */
  function Answer(env: Env, s: State, r: Request, queryId: string, ids: set<string>): (State, QueryResult) {
    var candidates, exclusions := Candidates(env, s, r, ids), Exclusions(env, s, r, ids);
    var best := Best(candidates, r.limit);
    (s.(events := s.events + SelectionEvents(s, r, candidates, best)
                  + [Event("retrieval.completed", None), Event("knowledge.queried", None)]),
     QueryResult(Selections(s, r, candidates, best), Listed(exclusions, InOrder(exclusions.Keys)), queryId))
  }

  function QueryStep(env: Env, s: State, r: Request, queryId: string): (State, QueryResult) {
    Answer(env, s, r, queryId, IndexHits(s, r))
  }

  lemma SiftNothing(env: Env, s: State, r: Request)
    ensures Candidates(env, s, r, {}) == map[] && Exclusions(env, s, r, {}) == map[]
  {
  }

  lemma SiftOneMore(env: Env, s: State, r: Request, ids: set<string>, id: string)
    ensures Candidates(env, s, r, ids + {id})
         == if id in s.chunks && Gate(env, s, r, id).None?
            then Candidates(env, s, r, ids)[id := Reasons(env, s.chunks[id].content, r)]
            else Candidates(env, s, r, ids)
    ensures Exclusions(env, s, r, ids + {id})
         == if id in s.chunks && Gate(env, s, r, id).Some?
            then Exclusions(env, s, r, ids)[id := Gate(env, s, r, id).value]
            else Exclusions(env, s, r, ids)
  {
    hide Gate, Reasons;
  }

  // ---------- a query is a scan ----------

  /** Every chunk that has something the request names; all of them when it names nothing. */
  function Relevant(env: Env, s: State, r: Request): set<string> {
    set id | id in s.chunks && (!HasChannels(r) || Matches(env, s.chunks[id].content, r) != [])
  }

  /** The reference query: no index, just the chunks. */
  function ScanStep(env: Env, s: State, r: Request, queryId: string): (State, QueryResult) {
    Answer(env, s, r, queryId, Relevant(env, s, r))
  }

  /** Each index is what a rebuild would make. */
  predicate ExactIndexes(env: Env, s: State) {
    && s.keyword == Built(env, Keyword, s.chunks)
    && s.symbol == Built(env, Symbol, s.chunks)
    && s.structured == Built(env, KeyPath, s.chunks)
  }

  lemma {:induction false} FoundWhenPosted(env: Env, channel: Channel, chunks: Chunks, wanted: seq<string>, id: string)
    requires id in chunks
    ensures id in Union(Built(env, channel, chunks), wanted)
            <==> Found(channel, wanted, Keys(env, channel, chunks[id].content)) != []
  {
    if wanted == [] {
    } else {
      FoundWhenPosted(env, channel, chunks, wanted[..|wanted| - 1], id);
      BuiltPost(env, channel, chunks, wanted[|wanted| - 1]);
    }
    hide Keys, Built;
  }

  lemma {:induction false} NoHitsOutside(env: Env, channel: Channel, chunks: Chunks, wanted: seq<string>)
    ensures Union(Built(env, channel, chunks), wanted) <= chunks.Keys
  {
    hide Keys, Built;
    if wanted == [] {
    } else {
      NoHitsOutside(env, channel, chunks, wanted[..|wanted| - 1]);
      BuiltPost(env, channel, chunks, wanted[|wanted| - 1]);
    }
  }

  lemma ExactHits(env: Env, s: State, r: Request)
    requires ExactIndexes(env, s)
    ensures IndexHits(s, r) == Relevant(env, s, r)
  {
    hide Built, Found, Union, LowerAll, Keys;
    NoHitsOutside(env, Keyword, s.chunks, LowerAll(r.terms));
    NoHitsOutside(env, Symbol, s.chunks, r.symbols);
    NoHitsOutside(env, KeyPath, s.chunks, r.keyPaths);
    forall id | id in s.chunks ensures Matches(env, s.chunks[id].content, r) != []
      <==> id in Union(s.keyword, LowerAll(r.terms)) + Union(s.symbol, r.symbols) + Union(s.structured, r.keyPaths)
    {
      FoundWhenPosted(env, Keyword, s.chunks, LowerAll(r.terms), id);
      FoundWhenPosted(env, Symbol, s.chunks, r.symbols, id);
      FoundWhenPosted(env, KeyPath, s.chunks, r.keyPaths, id);
    }
    var hits := Union(s.keyword, LowerAll(r.terms)) + Union(s.symbol, r.symbols) + Union(s.structured, r.keyPaths);
    assert !HasChannels(r) ==> hits == {} by {
      NothingWanted(s, r);
    }
  }

  lemma NothingWanted(s: State, r: Request)
    ensures !HasChannels(r)
            ==> Union(s.keyword, LowerAll(r.terms)) + Union(s.symbol, r.symbols) + Union(s.structured, r.keyPaths) == {}
  {
  }

  /** Over exact indexes a query gives the selections, order, cut-off, exclusions and events of a plain scan. */
  lemma QueryIsScan(env: Env, s: State, r: Request, queryId: string)
    requires ExactIndexes(env, s)
    ensures QueryStep(env, s, r, queryId) == ScanStep(env, s, r, queryId)
  {
    hide Answer, IndexHits, Relevant;
    ExactHits(env, s, r);
  }

  // ---------- what an answer is ----------

  predicate InRank(candidates: map<string, seq<Reason>>, ids: seq<string>)
    requires forall x | x in ids :: x in candidates
  {
    forall i, j | 0 <= i < j < |ids| :: Precedes(candidates, ids[i], ids[j])
  }

  lemma PrecedesOrder(candidates: map<string, seq<Reason>>, a: string, b: string, c: string)
    requires a in candidates && b in candidates && c in candidates
    ensures a != b ==> Precedes(candidates, a, b) || Precedes(candidates, b, a)
    ensures Precedes(candidates, a, b) && Precedes(candidates, b, c) ==> Precedes(candidates, a, c)
  {
    Total(a, b);
    if Less(a, b) && Less(b, c) {
      Transitive(a, b, c);
    }
  }

  lemma {:induction false} InsertKeepsRank(candidates: map<string, seq<Reason>>, id: string, ranked: seq<string>)
    requires id in candidates && id !in ranked && forall x | x in ranked :: x in candidates
    requires InRank(candidates, ranked)
    ensures InRank(candidates, InsertRanked(candidates, id, ranked))
  {
    if ranked == [] {
    } else if Precedes(candidates, id, ranked[0]) {
      forall x | x in ranked ensures Precedes(candidates, id, x) {
        PrecedesOrder(candidates, id, ranked[0], x);
      }
    } else {
      PrecedesOrder(candidates, id, ranked[0], ranked[0]);
      InsertKeepsRank(candidates, id, ranked[1..]);
      var rest := InsertRanked(candidates, id, ranked[1..]);
      forall x | x in rest ensures Precedes(candidates, ranked[0], x) {
        if x != id {
          var j :| 0 <= j < |ranked| - 1 && ranked[1..][j] == x;
          assert ranked[j + 1] == x;
        }
      }
    }
  }

  lemma {:induction false} RankedInRank(candidates: map<string, seq<Reason>>, ids: seq<string>)
    requires Sorted(ids) && forall x | x in ids :: x in candidates
    ensures InRank(candidates, Ranked(candidates, ids))
  {
    hide InRank, InsertRanked, Precedes;
    if ids != [] {
      RankedInRank(candidates, ids[1..]);
      TailMembers(ids, ids[0]);
      InsertKeepsRank(candidates, ids[0], Ranked(candidates, ids[1..]));
    } else {
      EmptyInRank(candidates);
    }
  }

  lemma EmptyInRank(candidates: map<string, seq<Reason>>)
    ensures InRank(candidates, [])
  {
  }

  lemma CutKeepsTheBest(candidates: map<string, seq<Reason>>, ranked: seq<string>, limit: nat)
    requires (forall x :: x in ranked <==> x in candidates) && InRank(candidates, ranked)
    ensures InRank(candidates, Cut(ranked, limit))
    ensures forall x, y | x in Cut(ranked, limit) && y in candidates && y !in Cut(ranked, limit) ::
            Precedes(candidates, x, y)
  {
    hide Precedes;
    var best := Cut(ranked, limit);
    forall k | 0 <= k < |best| ensures ranked[k] in best {
      assert best[k] == ranked[k];
    }
    forall x, y | x in best && y in candidates && y !in best ensures Precedes(candidates, x, y) {
      var i :| 0 <= i < |best| && best[i] == x;
      var j :| 0 <= j < |ranked| && ranked[j] == y;
    }
  }

  /**
   * The selections are the best candidates: ranked, as many as the limit
   * allows, and none left out precedes one chosen.
   */
  lemma BestAreSelected(candidates: map<string, seq<Reason>>, limit: nat)
    ensures var best := Best(candidates, limit);
            && InRank(candidates, best)
            && |best| == (if |candidates.Keys| <= limit then |candidates.Keys| else limit)
            && forall x, y | x in best && y in candidates && y !in best :: Precedes(candidates, x, y)
  {
    hide Precedes, Ranked, InOrder, InRank;
    RankedInRank(candidates, InOrder(candidates.Keys));
    CutKeepsTheBest(candidates, Ranked(candidates, InOrder(candidates.Keys)), limit);
  }

  /** A live chunk of the asking scope that passes every gate, shown redacted, and neither revoked nor excluded. */
  predicate Admissible(env: Env, s: State, r: Request, id: string, selected: Selected) {
    && id in s.chunks && id !in s.revoked && id !in s.excluded
    && var shown := selected.chunk.nutrition;
       && shown == s.chunks[id].nutrition
       && shown.scope.tenant == r.scope.tenant && shown.scope.workspace == r.scope.workspace
       && shown.sensitivity.Rank() <= r.ceiling.Rank()
       && (shown.expiresAt.Some? ==> r.now < shown.expiresAt.value)
       && (shown.provenance.trust.Untrusted? ==> r.includeUntrusted)
       && env.digestOf(s.chunks[id].content) == shown.contentDigest
       && (selected.chunk.content, selected.redactedFields) == RedactChunk(s.chunks[id].content, r.ceiling)
  }

  /** Whatever the indexes say, exact or corrupt, every selection is admissible. */
  lemma SelectionsAreAdmissible(env: Env, s: State, r: Request, queryId: string)
    ensures forall selected | selected in QueryStep(env, s, r, queryId).1.selections ::
              exists id :: Admissible(env, s, r, id, selected)
  {
    hide IndexHits, Reasons, Best, RedactChunk, InOrder;
    var candidates := Candidates(env, s, r, IndexHits(s, r));
    var best := Best(candidates, r.limit);
    var selections := QueryStep(env, s, r, queryId).1.selections;
    forall selected | selected in selections ensures exists id :: Admissible(env, s, r, id, selected) {
      var i :| 0 <= i < |selections| && selections[i] == selected;
      SelectIs(s.chunks[best[i]], candidates[best[i]], r.ceiling);
      assert Gate(env, s, r, best[i]).None?;
      assert Admissible(env, s, r, best[i], selected);
    }
  }

  // ---------- runs ----------

  datatype Command =
    | Admit(nutrition: Label, content: Content)
    | Revoke(id: string)
    | Exclude(id: string)
    | Rebuild
    | Query(request: Request, queryId: string)

  function Step(env: Env, s: State, c: Command): State {
    match c
    case Admit(l, content) => AdmitStep(env, s, l, content).0
    case Revoke(id) => RevokeStep(env, s, id)
    case Exclude(id) => ExcludeStep(s, id)
    case Rebuild => RebuildStep(env, s)
    case Query(request, queryId) => QueryStep(env, s, request, queryId).0
  }

  function Run(env: Env, s: State, commands: seq<Command>): State
    decreases |commands|
  {
    if commands == [] then s else Run(env, Step(env, s, commands[0]), commands[1..])
  }

  /** Every chunk is filed under its own identifier. */
  predicate Filed(chunks: Chunks) {
    forall id | id in chunks :: chunks[id].nutrition.chunkId == id
  }

  /** Every chunk is filed under its own identifier and its label vouches for its content. */
  predicate WellLabelled(env: Env, chunks: Chunks) {
    Filed(chunks) && forall id | id in chunks :: AdmitChunk(env, chunks[id].nutrition, chunks[id].content).Ok?
  }

  /** A chunk that is live when another is admitted under its identifier has no key the new one lacks. */
  predicate KeepsKeys(env: Env, s: State, c: Command) {
    c.Admit? && AdmitChunk(env, c.nutrition, c.content).Ok? && c.nutrition.chunkId in s.chunks ==>
      forall channel: Channel ::
        Keys(env, channel, s.chunks[c.nutrition.chunkId].content) <= Keys(env, channel, c.content)
  }

  predicate NoKeyLost(env: Env, s: State, commands: seq<Command>)
    decreases |commands|
  {
    commands == [] || (KeepsKeys(env, s, commands[0]) && NoKeyLost(env, Step(env, s, commands[0]), commands[1..]))
  }

  lemma StepKeepsLabels(env: Env, s: State, c: Command)
    requires WellLabelled(env, s.chunks)
    ensures WellLabelled(env, Step(env, s, c).chunks)
    ensures s.revoked <= Step(env, s, c).revoked
  {
    hide Answer, Built, InsertAll, RemoveAll;
    if c.Query? {
      AnswerOnlyLogs(env, s, c.request, c.queryId, IndexHits(s, c.request));
    }
  }

  lemma AnswerOnlyLogs(env: Env, s: State, r: Request, queryId: string, ids: set<string>)
    ensures Answer(env, s, r, queryId, ids).0.(events := s.events) == s
  {
  }

  lemma ThreeChannels(env: Env, a: Content, b: Content)
    ensures (forall channel: Channel :: Keys(env, channel, a) <= Keys(env, channel, b))
       <==> Keys(env, Keyword, a) <= Keys(env, Keyword, b) && Keys(env, Symbol, a) <= Keys(env, Symbol, b)
            && Keys(env, KeyPath, a) <= Keys(env, KeyPath, b)
  {
    hide Keys;
    forall channel: Channel | Keys(env, Keyword, a) <= Keys(env, Keyword, b)
        && Keys(env, Symbol, a) <= Keys(env, Symbol, b)
                              && Keys(env, KeyPath, a) <= Keys(env, KeyPath, b)
      ensures Keys(env, channel, a) <= Keys(env, channel, b)
    {
      match channel
      case Keyword =>
      case Symbol =>
      case KeyPath =>
    }
  }

  /**
   * One command keeps exact indexes exact if and only if it admits no chunk
   * that drops a key of the live chunk it replaces.
   */
  lemma StepKeepsExactIff(env: Env, s: State, c: Command)
    requires ExactIndexes(env, s)
    ensures ExactIndexes(env, Step(env, s, c)) <==> KeepsKeys(env, s, c)
  {
    hide Keys, Built, InsertAll, RemoveAll, Answer;
    match c {
      case Admit(l, content) =>
        var chunk := Chunk(l, content);
        AdmittedIndexIsExactIff(env, Keyword, s.chunks, l.chunkId, chunk);
        AdmittedIndexIsExactIff(env, Symbol, s.chunks, l.chunkId, chunk);
        AdmittedIndexIsExactIff(env, KeyPath, s.chunks, l.chunkId, chunk);
        if l.chunkId in s.chunks {
          ThreeChannels(env, s.chunks[l.chunkId].content, content);
        }
      case Revoke(id) =>
        if id in s.chunks {
          RevokedIndexIsExact(env, Keyword, s.chunks, id);
          RevokedIndexIsExact(env, Symbol, s.chunks, id);
          RevokedIndexIsExact(env, KeyPath, s.chunks, id);
        }
      case Exclude(id) =>
      case Rebuild =>
      case Query(request, queryId) =>
        AnswerOnlyLogs(env, s, request, queryId, IndexHits(s, request));
    }
  }

  lemma NothingBuilt(env: Env, channel: Channel)
    ensures Built(env, channel, map[]) == map[]
  {
  }

  lemma EmptyIsExact(env: Env)
    ensures ExactIndexes(env, EMPTY) && WellLabelled(env, EMPTY.chunks)
  {
    hide Built;
    NothingBuilt(env, Keyword);
    NothingBuilt(env, Symbol);
    NothingBuilt(env, KeyPath);
  }

  /**
   * After any admissions without a lost key, revocations, exclusions, rebuilds
   * and queries, each index is what a rebuild would make.
   */
  lemma {:induction false} RunKeepsExact(env: Env, s: State, commands: seq<Command>)
    requires ExactIndexes(env, s) && NoKeyLost(env, s, commands)
    ensures ExactIndexes(env, Run(env, s, commands))
    decreases |commands|
  {
    hide ExactIndexes, KeepsKeys, Step;
    if commands == [] {
    } else {
      StepKeepsExactIff(env, s, commands[0]);
      RunKeepsExact(env, Step(env, s, commands[0]), commands[1..]);
    }
  }

  lemma {:induction false} RunKeepsLabels(env: Env, s: State, commands: seq<Command>)
    requires WellLabelled(env, s.chunks)
    ensures WellLabelled(env, Run(env, s, commands).chunks)
    ensures s.revoked <= Run(env, s, commands).revoked
    decreases |commands|
  {
    hide WellLabelled, Step;
    if commands == [] {
    } else {
      StepKeepsLabels(env, s, commands[0]);
      RunKeepsLabels(env, Step(env, s, commands[0]), commands[1..]);
    }
  }

  /** No identifier is admitted while a chunk lives under it. */
  predicate NoReadmission(env: Env, s: State, commands: seq<Command>)
    decreases |commands|
  {
    commands == []
    || ((commands[0].Admit? ==> commands[0].nutrition.chunkId !in s.chunks)
        && NoReadmission(env, Step(env, s, commands[0]), commands[1..]))
  }

  lemma {:induction false} NoReadmissionLosesNoKey(env: Env, s: State, commands: seq<Command>)
    requires NoReadmission(env, s, commands)
    ensures NoKeyLost(env, s, commands)
    decreases |commands|
  {
    hide Step;
    if commands == [] {
    } else {
      NoReadmissionLosesNoKey(env, Step(env, s, commands[0]), commands[1..]);
    }
  }

  /**
   * When no admission loses a key of a live chunk, every query of every run
   * answers as a plain scan of the chunks would.
   */
  lemma EveryQueryIsScan(env: Env, commands: seq<Command>, r: Request, queryId: string)
    requires NoKeyLost(env, EMPTY, commands)
    ensures var s := Run(env, EMPTY, commands);
            && ExactIndexes(env, s)
            && QueryStep(env, s, r, queryId) == ScanStep(env, s, r, queryId)
  {
    hide *;
    EmptyIsExact(env);
    RunKeepsExact(env, EMPTY, commands);
    QueryIsScan(env, Run(env, EMPTY, commands), r, queryId);
  }

  /** In particular without any re-admission of a live identifier. */
  lemma EveryQueryIsScanWithoutReadmission(env: Env, commands: seq<Command>, r: Request, queryId: string)
    requires NoReadmission(env, EMPTY, commands)
    ensures var s := Run(env, EMPTY, commands); QueryStep(env, s, r, queryId) == ScanStep(env, s, r, queryId)
  {
    hide *;
    NoReadmissionLosesNoKey(env, EMPTY, commands);
    EveryQueryIsScan(env, commands, r, queryId);
  }

  ghost predicate DigestsAreLabels(env: Env) {
    forall content :: "sha256:" <= env.digestOf(content) && env.byteLength(env.digestOf(content)) == 71
  }

  lemma LostKeyBreaksExactness(env: Env, first: Command, second: Command, key: string)
    requires first.Admit? && second.Admit? && first.nutrition.chunkId == second.nutrition.chunkId
    requires AdmitChunk(env, first.nutrition, first.content).Ok?
             && AdmitChunk(env, second.nutrition, second.content).Ok?
    requires key in Keys(env, KeyPath, first.content) && key !in Keys(env, KeyPath, second.content)
    ensures !ExactIndexes(env, Run(env, EMPTY, [first, second]))
  {
    hide ExactIndexes, Keys, InsertAll, AdmitChunk;
    var s := Step(env, EMPTY, first);
    AdmittedIsLive(env, EMPTY, first.nutrition, first.content);
    EmptyIsExact(env);
    StepKeepsExactIff(env, EMPTY, first);
    StepKeepsExactIff(env, s, second);
    assert !KeepsKeys(env, s, second);
    assert [first, second][1..] == [second] && [second][1..] == [];
    assert Run(env, EMPTY, [first, second]) == Run(env, s, [second]) == Run(env, Step(env, s, second), []);
  }

  lemma AdmittedIsLive(env: Env, s: State, l: Label, content: Content)
    requires AdmitChunk(env, l, content).Ok?
    ensures var next := Step(env, s, Admit(l, content));
            l.chunkId in next.chunks && next.chunks[l.chunkId].content == content
  {
    hide Keys, InsertAll;
  }

  lemma {:induction false} FoundIsMatched(channel: Channel, wanted: seq<string>, have: set<string>)
    ensures forall reason | reason in Found(channel, wanted, have) :: reason.Matched?
  {
    if wanted == [] {
    } else {
      FoundIsMatched(channel, wanted[..|wanted| - 1], have);
    }
  }

  /** A chunk is given as pinned exactly when it has nothing the request names. */
  lemma PinnedIffUnmatched(env: Env, content: Content, r: Request)
    ensures Reasons(env, content, r)[0].Pinned? <==> Matches(env, content, r) == []
  {
    FoundIsMatched(Keyword, LowerAll(r.terms), Keys(env, Keyword, content));
    FoundIsMatched(Symbol, r.symbols, Keys(env, Symbol, content));
    FoundIsMatched(KeyPath, r.keyPaths, Keys(env, KeyPath, content));
    hide Found, Keys, LowerAll;
    var matches := Matches(env, content, r);
    assert matches != [] ==> matches[0] in matches;
  }

  /** Over exact indexes a query that names something selects no chunk for nothing. */
  lemma ExactQueriesPinNothing(env: Env, s: State, r: Request, queryId: string)
    requires ExactIndexes(env, s) && HasChannels(r)
    ensures forall selected | selected in QueryStep(env, s, r, queryId).1.selections :: !selected.reason.Pinned?
  {
    ExactHits(env, s, r);
    hide IndexHits, Reasons, Best, RedactChunk, InOrder, Matches;
    var candidates := Candidates(env, s, r, IndexHits(s, r));
    var best := Best(candidates, r.limit);
    var selections := QueryStep(env, s, r, queryId).1.selections;
    forall selected | selected in selections ensures !selected.reason.Pinned? {
      var i :| 0 <= i < |selections| && selections[i] == selected;
      assert best[i] in candidates;
      PinnedIffUnmatched(env, s.chunks[best[i]].content, r);
      SelectIs(s.chunks[best[i]], candidates[best[i]], r.ceiling);
    }
  }

  /** A request for one key path. */
  predicate AsksFor(r: Request, key: string) {
    r.terms == [] && r.symbols == [] && r.keyPaths == [key] && r.limit >= 1
  }

  lemma OneWanted(index: Index, channel: Channel, key: string, have: set<string>)
    ensures Union(index, [key]) == Post(index, key)
    ensures Found(channel, [key], have) == if key in have then [Matched(channel, key)] else []
  {
    assert [key][..0] == [];
  }

  lemma AsksForHits(s: State, r: Request, key: string)
    requires AsksFor(r, key)
    ensures IndexHits(s, r) == Post(s.structured, key)
  {
    OneWanted(s.structured, KeyPath, key, {});
    assert LowerAll([]) == [];
    hide Post;
  }

  lemma AsksForMatches(env: Env, content: Content, r: Request, key: string)
    requires AsksFor(r, key)
    ensures Matches(env, content, r) == if key in Keys(env, KeyPath, content) then [Matched(KeyPath, key)] else []
  {
    hide Keys;
    OneWanted(map[], KeyPath, key, Keys(env, KeyPath, content));
    assert LowerAll([]) == [];
  }

  /**
   * A posting left behind has a visible effect: asked for a key path its one
   * live chunk lacks, the fabric selects the chunk, as pinned, where a scan
   * selects nothing.
   */
  lemma StalePostingIsPinned(env: Env, s: State, id: string, r: Request, key: string, queryId: string)
    requires AsksFor(r, key) && s.chunks.Keys == {id} && Gate(env, s, r, id).None?
    requires id in Post(s.structured, key) && key !in Keys(env, KeyPath, s.chunks[id].content)
    ensures var selections := QueryStep(env, s, r, queryId).1.selections;
            |selections| == 1 && selections[0].chunk.nutrition == s.chunks[id].nutrition && selections[0].reason.Pinned?
    ensures ScanStep(env, s, r, queryId).1.selections == []
  {
    AsksForHits(s, r, key);
    AsksForMatches(env, s.chunks[id].content, r, key);
    hide Keys, Gate, Matches, Best, IndexHits, RedactChunk;
    var candidates := Candidates(env, s, r, IndexHits(s, r));
    assert candidates.Keys == {id};
    BestAreSelected(candidates, r.limit);
    assert Best(candidates, r.limit)[0] in Best(candidates, r.limit);
    PinnedIffUnmatched(env, s.chunks[id].content, r);
    SelectIs(s.chunks[id], candidates[id], r.ceiling);
    NothingSelected(env, s, r, queryId);
  }

  lemma BestOfNone(limit: nat)
    ensures Best(map[], limit) == []
  {
  }

  lemma NothingSelected(env: Env, s: State, r: Request, queryId: string)
    requires Relevant(env, s, r) == {}
    ensures ScanStep(env, s, r, queryId).1.selections == []
  {
    hide Gate, Reasons, Best, Relevant;
    assert Candidates(env, s, r, {}) == map[];
    BestOfNone(r.limit);
  }

  lemma ReadmittedState(env: Env, first: Command, second: Command, key: string)
    requires first.Admit? && second.Admit? && first.nutrition.chunkId == second.nutrition.chunkId
    requires AdmitChunk(env, first.nutrition, first.content).Ok?
             && AdmitChunk(env, second.nutrition, second.content).Ok?
    requires key in Keys(env, KeyPath, first.content) && key !in Keys(env, KeyPath, second.content)
    ensures var s := Run(env, EMPTY, [first, second]);
            && s.chunks == map[second.nutrition.chunkId := Chunk(second.nutrition, second.content)]
            && s.revoked == {} && s.excluded == {}
            && second.nutrition.chunkId in Post(s.structured, key)
  {
    hide Keys;
    assert [first, second][1..] == [second] && [second][1..] == [];
    var s := Step(env, EMPTY, first);
    var id := first.nutrition.chunkId;
    assert Run(env, EMPTY, [first, second]) == Run(env, s, [second]) == Run(env, Step(env, s, second), []);
    InsertedPost(EMPTY.structured, Keys(env, KeyPath, first.content), id, key);
    InsertedPost(s.structured, Keys(env, KeyPath, second.content), id, key);
    hide InsertAll;
  }

  lemma ReadmissionShows(env: Env, first: Command, second: Command, key: string, r: Request, queryId: string)
    requires first.Admit? && second.Admit? && first.nutrition.chunkId == second.nutrition.chunkId
    requires AdmitChunk(env, first.nutrition, first.content).Ok?
             && AdmitChunk(env, second.nutrition, second.content).Ok?
    requires key in Keys(env, KeyPath, first.content) && key !in Keys(env, KeyPath, second.content)
    requires AsksFor(r, key) && r.scope == second.nutrition.scope && second.nutrition.sensitivity.Public?
    requires second.nutrition.expiresAt.None? && second.nutrition.provenance.trust.Trusted?
    ensures var s := Run(env, EMPTY, [first, second]);
            && !ExactIndexes(env, s)
            && (exists selected | selected in QueryStep(env, s, r, queryId).1.selections :: selected.reason.Pinned?)
            && ScanStep(env, s, r, queryId).1.selections == []
  {
    hide ExactIndexes, Run, Keys, QueryStep, ScanStep;
    LostKeyBreaksExactness(env, first, second, key);
    ReadmittedState(env, first, second, key);
    var s := Run(env, EMPTY, [first, second]);
    var id := second.nutrition.chunkId;
    assert Gate(env, s, r, id).None?;
    hide Gate, Post;
    StalePostingIsPinned(env, s, id, r, key, queryId);
    var selections := QueryStep(env, s, r, queryId).1.selections;
    assert selections[0] in selections;
  }

  /**
   * Re-admission loses keys indeed: admitting `{}` over a live `{"a": null}`
   * leaves the posting of `a` behind, and a query shows it.
   */
  lemma ReadmissionLeavesStalePostings(env: Env, queryId: string) returns (commands: seq<Command>, r: Request)
    requires DigestsAreLabels(env)
    ensures forall c | c in commands :: c.Admit? && AdmitChunk(env, c.nutrition, c.content).Ok?
    ensures HasChannels(r)
    ensures var s := Run(env, EMPTY, commands);
            && !ExactIndexes(env, s)
            && (exists selected | selected in QueryStep(env, s, r, queryId).1.selections :: selected.reason.Pinned?)
            && ScanStep(env, s, r, queryId).1.selections == []
  {
    hide Run, QueryStep, ScanStep, ExactIndexes;
    var full, bare := Structured(Object(map["a" := Null]), map[]), Structured(Object(map[]), map[]);
    var scope, origin := Scope("tenant", "workspace", DocumentScope), Provenance("file", Trusted, 0);
    var first := Admit(Label("chunk", scope, Public, origin, 0, None, env.digestOf(full)), full);
    var second := Admit(Label("chunk", scope, Public, origin, 0, None, env.digestOf(bare)), bare);
    commands := [first, second];
    r := Request(scope, Public, [], [], ["a"], false, 0, 1);
    assert "a" in KeyPaths(full) && "a" !in KeyPaths(bare) by {
      assert Extend("", "a") == "a" && "a" in full.value.fields;
    }
    assert Keys(env, KeyPath, full) == KeyPaths(full) && Keys(env, KeyPath, bare) == KeyPaths(bare);
    hide KeyPaths, Keys;
    ReadmissionShows(env, first, second, "a", r, queryId);
  }

  /** A revoked chunk is never selected again, even after its identifier is re-admitted. */
  lemma RevocationIsFinal(env: Env, before: seq<Command>, id: string, after: seq<Command>, r: Request, queryId: string)
    requires id in Run(env, EMPTY, before).chunks
    ensures var s := Run(env, RevokeStep(env, Run(env, EMPTY, before), id), after);
            forall selected | selected in QueryStep(env, s, r, queryId).1.selections ::
                selected.chunk.nutrition.chunkId != id
  {
    var live := Run(env, EMPTY, before);
    var revoked := RevokeStep(env, live, id);
    var s := Run(env, revoked, after);
    EmptyIsExact(env);
    assert WellLabelled(env, s.chunks) && id in s.revoked by {
      hide Run, QueryStep, RemoveAll, Keys, AdmitChunk;
      RunKeepsLabels(env, EMPTY, before);
      RunKeepsLabels(env, revoked, after);
    }
    SelectionsAreAdmissible(env, s, r, queryId);
    hide Run, QueryStep, RevokeStep, RedactChunk, AdmitChunk;
  }

  // ---------- key paths and redaction ----------

  /** Member names that lead to some value, stepping through array elements on the way. */
  ghost predicate Walk(v: Json, names: seq<string>) {
    match v
    case Object(fields) =>
      names != [] && names[0] in fields && (|names| == 1 || Walk(fields[names[0]], names[1..]))
    case Array(items) => exists i | 0 <= i < |items| :: Walk(items[i], names)
    case _ => false
  }

  function ExtendAll(prefix: string, names: seq<string>): string
    decreases |names|
  {
    if names == [] then prefix else ExtendAll(Extend(prefix, names[0]), names[1..])
  }

  /** The key paths are the spellings of the walks to some member, through objects and arrays. */
  lemma {:induction false} PathsAreWalks(v: Json, prefix: string, path: string)
    ensures path in PathsUnder(v, prefix) <==> exists names :: Walk(v, names) && ExtendAll(prefix, names) == path
    decreases v
  {
    match v {
      case Object(fields) =>
        if path in PathsUnder(v, prefix) {
          if k :| k in fields && Extend(prefix, k) == path {
            assert Walk(v, [k]) && ExtendAll(prefix, [k]) == path;
          } else {
            var k :| k in fields && path in PathsUnder(fields[k], Extend(prefix, k));
            PathsAreWalks(fields[k], Extend(prefix, k), path);
            var names :| Walk(fields[k], names) && ExtendAll(Extend(prefix, k), names) == path;
            assert ([k] + names)[1..] == names;
            assert Walk(v, [k] + names) && ExtendAll(prefix, [k] + names) == path;
          }
        }
        if exists names :: Walk(v, names) && ExtendAll(prefix, names) == path {
          var names :| Walk(v, names) && ExtendAll(prefix, names) == path;
          if |names| == 1 {
            assert names[1..] == [] && ExtendAll(Extend(prefix, names[0]), []) == Extend(prefix, names[0]);
          } else {
            PathsAreWalks(fields[names[0]], Extend(prefix, names[0]), path);
            assert Walk(fields[names[0]], names[1..]) && ExtendAll(Extend(prefix, names[0]), names[1..]) == path;
          }
        }
      case Array(items) =>
        forall i | 0 <= i < |items|
          ensures path in PathsUnder(items[i], prefix)
                  <==> exists names :: Walk(items[i], names) && ExtendAll(prefix, names) == path
        {
          PathsAreWalks(items[i], prefix, path);
        }
        if path in PathsUnder(v, prefix) {
          var i :| 0 <= i < |items| && path in PathsUnder(items[i], prefix);
          var names :| Walk(items[i], names) && ExtendAll(prefix, names) == path;
          assert Walk(v, names);
        }
      case _ =>
    }
  }

  lemma {:induction false} LookupIsIndexed(v: Json, prefix: string, path: Path)
    requires path != [] && (prefix != "" || path[0] != "") && Lookup(v, path).Some?
    ensures Extend(prefix, JoinOn(path, '.')) in PathsUnder(v, prefix)
    decreases |path|
  {
    var next := Extend(prefix, path[0]);
    var v' := v.fields[path[0]];
    if |path| > 1 {
      assert path[1..] != [];
      LookupIsIndexed(v', next, path[1..]);
      var rest := JoinOn(path[1..], '.');
      if prefix != "" {
        AssociateAround(prefix, ".", path[0], "." + rest);
      }
      assert Extend(prefix, JoinOn(path, '.')) == Extend(next, rest) by {
        assert JoinOn(path, '.') == path[0] + ("." + rest);
        assert path[0] + ("." + rest) != "";
      }
      assert path[0] in v.fields && Extend(next, rest) in PathsUnder(v', next);
    }
  }

  /** A field path that redaction can reach is a key path of the structured index. */
  lemma RedactablePathsAreIndexed(env: Env, value: Json, restricted: map<string, DataClass>, path: string)
    requires Lookup(value, Segments(path)).Some? && Segments(path)[0] != ""
    ensures path in Keys(env, KeyPath, Structured(value, restricted))
  {
    LookupIsIndexed(value, "", Segments(path));
    JoinSplit(path, '.');
  }

  // ---------- the fabric ----------

  lemma BuiltGrows(env: Env, channel: Channel, chunks: Chunks, id: string, chunk: Chunk)
    requires id !in chunks
    ensures InsertAll(Built(env, channel, chunks), Keys(env, channel, chunk.content), id)
            == Built(env, channel, chunks[id := chunk])
  {
    hide Built, Keys, InsertAll;
    AdmittedIndexIsExactIff(env, channel, chunks, id, chunk);
  }

  function Among(chunks: Chunks, ids: set<string>): Chunks {
    map id | id in chunks && id in ids :: chunks[id]
  }

  lemma AmongSteps(chunks: Chunks, ids: set<string>, id: string)
    requires id in chunks
    ensures Among(chunks, {}) == map[] && Among(chunks, chunks.Keys) == chunks
    ensures Among(chunks, ids + {id}) == Among(chunks, ids)[id := chunks[id]]
  {
  }

  method CollectFound(channel: Channel, wanted: seq<string>, have: set<string>) returns (reasons: seq<Reason>)
    ensures reasons == Found(channel, wanted, have)
  {
    reasons := [];
    var i := 0;
    while i < |wanted|
      invariant 0 <= i <= |wanted|
      invariant reasons == Found(channel, wanted[..i], have)
    {
      assert wanted[..i + 1][..i] == wanted[..i];
      if wanted[i] in have {
        reasons := reasons + [Matched(channel, wanted[i])];
      }
      i := i + 1;
    }
    assert wanted[..|wanted|] == wanted;
  }

  method CollectHits(index: Index, wanted: seq<string>) returns (hits: set<string>)
    ensures hits == Union(index, wanted)
  {
    hits := {};
    var i := 0;
    while i < |wanted|
      invariant 0 <= i <= |wanted|
      invariant hits == Union(index, wanted[..i])
    {
      assert wanted[..i + 1][..i] == wanted[..i];
      if wanted[i] in index {
        hits := hits + index[wanted[i]];
      }
      i := i + 1;
    }
    assert wanted[..|wanted|] == wanted;
  }

  method CollectReasons(env: Env, content: Content, r: Request) returns (reasons: seq<Reason>)
    ensures reasons == Reasons(env, content, r)
  {
    hide Found, Keys, LowerAll;
    var terms := CollectFound(Keyword, LowerAll(r.terms), Keys(env, Keyword, content));
    var symbols := CollectFound(Symbol, r.symbols, Keys(env, Symbol, content));
    var paths := CollectFound(KeyPath, r.keyPaths, Keys(env, KeyPath, content));
    reasons := terms + symbols + paths;
    if reasons == [] {
      reasons := [Pinned];
    }
  }

  method RedactContent(content: Content, ceiling: DataClass) returns (redacted: Content, reported: seq<string>)
    ensures (redacted, reported) == RedactChunk(content, ceiling)
  {
    hide RedactAll, RestrictedPaths;
    if content.Structured? {
      var value, fields := RedactFields(content.value, content.restricted, ceiling);
      return Structured(value, content.restricted), fields;
    }
    return content, [];
  }

  class Fabric {
    const env: Env
    var chunks: Chunks
    var revoked: set<string>
    var excluded: set<string>
    var keyword: Index
    var symbol: Index
    var structured: Index
    var events: seq<Event>

    constructor (env: Env)
      ensures this.env == env && View() == EMPTY
    {
      this.env, chunks, revoked, excluded := env, map[], {}, {};
      keyword, symbol, structured, events := map[], map[], map[], [];
    }

    function View(): State
      reads this
    {
      State(chunks, revoked, excluded, keyword, symbol, structured, events)
    }

    method AdmitContent(l: Label, content: Content) returns (result: Result<string, AdmissionError>)
      modifies this
      ensures (View(), result) == AdmitStep(env, old(View()), l, content)
    {
      hide Keys, InsertAll, AdmitChunk;
      var admitted := AdmitChunk(env, l, content);
      if admitted.Err? {
        return Err(admitted.error);
      }
      keyword := AddPostings(keyword, Keys(env, Keyword, content), l.chunkId);
      symbol := AddPostings(symbol, Keys(env, Symbol, content), l.chunkId);
      structured := AddPostings(structured, Keys(env, KeyPath, content), l.chunkId);
      chunks := chunks[l.chunkId := admitted.value];
      return Ok(l.chunkId);
    }

    method RevokeChunk(id: string)
      modifies this
      ensures View() == RevokeStep(env, old(View()), id)
    {
      hide Keys, RemoveAll;
      if id !in chunks {
        return;
      }
      var content := chunks[id].content;
      chunks := chunks - {id};
      revoked := revoked + {id};
      keyword := RemovePostings(keyword, Keys(env, Keyword, content), id);
      symbol := RemovePostings(symbol, Keys(env, Symbol, content), id);
      structured := RemovePostings(structured, Keys(env, KeyPath, content), id);
      events := events + [Event("context.source_excluded", Some(id))];
    }

    method ExcludeChunk(id: string)
      modifies this
      ensures View() == ExcludeStep(old(View()), id)
    {
      excluded := excluded + {id};
      events := events + [Event("context.source_excluded", Some(id))];
    }

    /** Clears the indexes and posts every chunk again, under the identifier on its label. */
    method RebuildIndexes()
      requires Filed(chunks)
      modifies this
      ensures View() == RebuildStep(env, old(View()))
    {
      hide Keys, InsertAll, Built, Among, Elements, Sorted, Filed;
      keyword, symbol, structured := map[], map[], map[];
      var ids, i := InOrder(chunks.Keys), 0;
      RebuildBegins(env, Keyword, chunks, ids);
      RebuildBegins(env, Symbol, chunks, ids);
      RebuildBegins(env, KeyPath, chunks, ids);
      while i < |ids|
        invariant 0 <= i <= |ids|
        invariant chunks == old(chunks) && revoked == old(revoked) && excluded == old(excluded) && events == old(events)
        invariant keyword == Built(env, Keyword, Among(chunks, Elements(ids[..i])))
        invariant symbol == Built(env, Symbol, Among(chunks, Elements(ids[..i])))
        invariant structured == Built(env, KeyPath, Among(chunks, Elements(ids[..i])))
      {
        RebuildOneMore(env, Keyword, chunks, ids, i);
        RebuildOneMore(env, Symbol, chunks, ids, i);
        RebuildOneMore(env, KeyPath, chunks, ids, i);
        var chunk := chunks[ids[i]];
        keyword := AddPostings(keyword, Keys(env, Keyword, chunk.content), chunk.nutrition.chunkId);
        symbol := AddPostings(symbol, Keys(env, Symbol, chunk.content), chunk.nutrition.chunkId);
        structured := AddPostings(structured, Keys(env, KeyPath, chunk.content), chunk.nutrition.chunkId);
        i := i + 1;
      }
      events := events + [Event("index.rebuilt", None)];
    }

    method QueryChunks(r: Request, queryId: string) returns (result: QueryResult)
      modifies this
      ensures (View(), result) == QueryStep(env, old(View()), r, queryId)
    {
      ghost var s := View();
      hide Union, Ranked, LowerAll, Listed, Selections, SelectionEvents, Candidates, Exclusions, Best, InOrder;
      var termHits := CollectHits(keyword, LowerAll(r.terms));
      var symbolHits := CollectHits(symbol, r.symbols);
      var pathHits := CollectHits(structured, r.keyPaths);
      var hits := termHits + symbolHits + pathHits;
      if hits == {} && !HasChannels(r) {
        hits := chunks.Keys;
      }
      assert hits == IndexHits(s, r);
      var candidates, exclusions := Sift(r, hits);
      var best := Best(candidates, r.limit);
      var selections := SelectAll(r, candidates, best);
      events := events + [Event("retrieval.completed", None), Event("knowledge.queried", None)];
      var listed := ListAll(exclusions);
      result := QueryResult(selections, listed, queryId);
    }

    /** Re-verifies every hit against the authoritative chunk. */
    method Sift(r: Request, hits: set<string>)
        returns (candidates: map<string, seq<Reason>>, exclusions: map<string, ExclusionReason>)
      ensures candidates == Candidates(env, View(), r, hits) && exclusions == Exclusions(env, View(), r, hits)
    {
      hide Gate, Reasons, Elements, Sorted, Candidates, Exclusions;
      var ids, i := InOrder(hits), 0;
      candidates, exclusions := map[], map[];
      ElementsOfSorted(hits, ids, 0);
      SiftNothing(env, View(), r);
      while i < |ids|
        invariant 0 <= i <= |ids|
        invariant candidates == Candidates(env, View(), r, Elements(ids[..i]))
        invariant exclusions == Exclusions(env, View(), r, Elements(ids[..i]))
      {
        ElementsOfSorted(hits, ids, i);
        SiftOneMore(env, View(), r, Elements(ids[..i]), ids[i]);
        if ids[i] in chunks {
          var gate := Gate(env, View(), r, ids[i]);
          if gate.Some? {
            exclusions := exclusions[ids[i] := gate.value];
          } else {
            var reasons := CollectReasons(env, chunks[ids[i]].content, r);
            candidates := candidates[ids[i] := reasons];
          }
        }
        i := i + 1;
      }
    }

    method SelectAll(r: Request, candidates: map<string, seq<Reason>>, best: seq<string>)
        returns (selections: seq<Selected>)
      requires FromFabric(View(), candidates, best)
      modifies this`events
      ensures selections == Selections(old(View()), r, candidates, best)
      ensures events == old(events) + SelectionEvents(old(View()), r, candidates, best)
    {
      hide RedactChunk, Select, Selections, SelectionEvents, FromFabric;
      ghost var s := View();
      selections := [];
      NoneSelected(s, r, candidates, best);
      var i := 0;
      while i < |best|
        invariant 0 <= i <= |best|
        invariant FromFabric(s, candidates, best[..i])
        invariant selections == Selections(s, r, candidates, best[..i])
        invariant events == old(events) + SelectionEvents(s, r, candidates, best[..i])
      {
        OneMoreSelected(s, r, candidates, best, i);
        var chunk := chunks[best[i]];
        var content, redacted := RedactContent(chunk.content, r.ceiling);
        SelectIs(chunk, candidates[best[i]], r.ceiling);
        ghost var logged := SelectionEvents(s, r, candidates, best[..i]);
        ghost var redaction := if redacted != [] then [Event("knowledge.redacted", Some(best[i]))] else [];
        AssociateEvents(old(events), logged, redaction, [Event("context.chunk_selected", Some(best[i]))]);
        if redacted != [] {
          events := events + [Event("knowledge.redacted", Some(best[i]))];
        }
        selections := selections + [Selected(Chunk(chunk.nutrition, content), candidates[best[i]][0], redacted)];
        events := events + [Event("context.chunk_selected", Some(best[i]))];
        i := i + 1;
      }
    }
  }

  lemma AllInOrder(exclusions: map<string, ExclusionReason>, ids: seq<string>)
    requires forall id | id in ids :: id in exclusions
    ensures Listed(exclusions, ids[..0]) == [] && ids[..|ids|] == ids
  {
  }

  lemma OneMoreListed(exclusions: map<string, ExclusionReason>, ids: seq<string>, i: nat)
    requires i < |ids| && forall id | id in ids :: id in exclusions
    ensures Listed(exclusions, ids[..i + 1])
         == Listed(exclusions, ids[..i]) + [Excluded(ids[i], exclusions[ids[i]])]
  {
    assert ids[..i + 1][..i] == ids[..i];
  }

  method ListAll(exclusions: map<string, ExclusionReason>) returns (listed: seq<Excluded>)
    ensures listed == Listed(exclusions, InOrder(exclusions.Keys))
  {
    hide InOrder, Sorted;
    var ids, i := InOrder(exclusions.Keys), 0;
    listed := [];
    AllInOrder(exclusions, ids);
    while i < |ids|
      invariant 0 <= i <= |ids|
      invariant listed == Listed(exclusions, ids[..i])
    {
      OneMoreListed(exclusions, ids, i);
      listed := listed + [Excluded(ids[i], exclusions[ids[i]])];
      i := i + 1;
    }
  }

  lemma AssociateEvents(a: seq<Event>, b: seq<Event>, c: seq<Event>, d: seq<Event>)
    ensures a + (b + c + d) == (a + b) + c + d && a + b + [] == a + b
  {
  }

  lemma SelectIs(chunk: Chunk, reasons: seq<Reason>, ceiling: DataClass)
    requires reasons != []
    ensures Select(chunk, reasons, ceiling)
         == Selected(Chunk(chunk.nutrition, RedactChunk(chunk.content, ceiling).0), reasons[0],
            RedactChunk(chunk.content, ceiling).1)
  {
  }

  lemma NoneSelected(s: State, r: Request, candidates: map<string, seq<Reason>>, ids: seq<string>)
    requires FromFabric(s, candidates, ids)
    ensures FromFabric(s, candidates, ids[..0]) && ids[..|ids|] == ids
    ensures Selections(s, r, candidates, ids[..0]) == [] && SelectionEvents(s, r, candidates, ids[..0]) == []
  {
  }

  lemma OneMoreSelected(s: State, r: Request, candidates: map<string, seq<Reason>>, ids: seq<string>, i: nat)
    requires FromFabric(s, candidates, ids) && i < |ids|
    ensures FromFabric(s, candidates, ids[..i]) && FromFabric(s, candidates, ids[..i + 1])
    ensures ids[i] in s.chunks && ids[i] in candidates && candidates[ids[i]] != []
    ensures Selections(s, r, candidates, ids[..i + 1])
         == Selections(s, r, candidates, ids[..i]) + [Select(s.chunks[ids[i]], candidates[ids[i]], r.ceiling)]
    ensures SelectionEvents(s, r, candidates, ids[..i + 1])
         == SelectionEvents(s, r, candidates, ids[..i])
            + (if Select(s.chunks[ids[i]], candidates[ids[i]], r.ceiling).redactedFields != []
                then [Event("knowledge.redacted", Some(ids[i]))] else [])
            + [Event("context.chunk_selected", Some(ids[i]))]
  {
    hide Select;
    assert ids[..i + 1][..i] == ids[..i];
    assert ids[i] in ids;
  }

  lemma RebuildBegins(env: Env, channel: Channel, chunks: Chunks, ids: seq<string>)
    requires ids == InOrder(chunks.Keys)
    ensures Built(env, channel, Among(chunks, Elements(ids[..0]))) == map[]
    ensures Among(chunks, Elements(ids[..|ids|])) == chunks
  {
    hide Sorted, Elements, Built;
    ElementsOfSorted(chunks.Keys, ids, 0);
    NothingBuilt(env, channel);
    assert Among(chunks, {}) == map[] && Among(chunks, chunks.Keys) == chunks;
  }

  lemma RebuildOneMore(env: Env, channel: Channel, chunks: Chunks, ids: seq<string>, i: nat)
    requires Filed(chunks) && ids == InOrder(chunks.Keys) && i < |ids|
    ensures ids[i] in chunks && chunks[ids[i]].nutrition.chunkId == ids[i]
    ensures InsertAll(Built(env, channel, Among(chunks, Elements(ids[..i]))),
            Keys(env, channel, chunks[ids[i]].content), ids[i])
         == Built(env, channel, Among(chunks, Elements(ids[..i + 1])))
  {
    hide Keys, Sorted, InsertAll, Built, Elements, AdmitChunk;
    ElementsOfSorted(chunks.Keys, ids, i);
    assert ids[i] in chunks.Keys;
    AmongSteps(chunks, Elements(ids[..i]), ids[i]);
    BuiltGrows(env, channel, Among(chunks, Elements(ids[..i])), ids[i], chunks[ids[i]]);
  }
}
