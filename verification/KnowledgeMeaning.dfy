/**
 * What the fabric indexes, which chunks a query selects, which it shuts out
 * and why, and what it shows of them: by positions in the text and by the
 * fields of chunks and requests.
 */
module KnowledgeMeaning {
  import opened JsonValue
  import opened KnowledgeFabric
  import opened Outcomes
  import opened Redaction
  import opened Sensitivity
  import opened TextOrder

  // ---------- words ----------

  predicate WordChar(env: Env, c: char) {
    env.alphanumeric(c) || c == '_'
  }

  /** The positions from `i` up to `j` hold word characters, and the run extends no further on either side. */
  predicate WordRun(env: Env, s: string, i: nat, j: nat) {
    && i <= j <= |s|
    && (forall k | i <= k < j :: WordChar(env, s[k]))
    && (i == 0 || !WordChar(env, s[i - 1]))
    && (j == |s| || !WordChar(env, s[j]))
  }

  /** Such a run spells `t`. */
  predicate Spells(env: Env, s: string, t: string, i: nat, j: nat) {
    WordRun(env, s, i, j) && s[i..j] == t
  }

  ghost predicate IsWordOf(env: Env, s: string, t: string) {
    exists i, j :: Spells(env, s, t, i, j)
  }

  ghost predicate StartsText(env: Env, s: string, t: string) {
    exists j :: Spells(env, s, t, 0, j)
  }

  ghost predicate IsLaterWord(env: Env, s: string, t: string) {
    exists i, j :: i > 0 && Spells(env, s, t, i, j)
  }

  lemma RunShifts(env: Env, s: string, t: string, i: nat, j: nat)
    requires s != "" && (i > 0 || !WordChar(env, s[0]))
    ensures Spells(env, s, t, i + 1, j + 1) <==> Spells(env, s[1..], t, i, j)
  {
    if Spells(env, s[1..], t, i, j) {
      forall k | i + 1 <= k < j + 1 ensures WordChar(env, s[k]) {
        assert s[k] == s[1..][k - 1];
      }
      assert s[i + 1..j + 1] == s[1..][i..j];
    }
    if Spells(env, s, t, i + 1, j + 1) {
      forall k | i <= k < j ensures WordChar(env, s[1..][k]) {
        assert s[k + 1] == s[1..][k];
      }
      assert s[i + 1..j + 1] == s[1..][i..j];
    }
  }

  lemma SpelledInside(env: Env, s: string, t: string, i: nat, j: nat)
    requires Spells(env, s, t, i, j)
    ensures i <= j <= |s| && (i > 0 ==> !WordChar(env, s[i - 1]))
  {
  }

  lemma LaterShifts(env: Env, s: string, t: string)
    requires s != ""
    ensures IsLaterWord(env, s, t)
            <==> if WordChar(env, s[0]) then IsLaterWord(env, s[1..], t) else IsWordOf(env, s[1..], t)
  {
    hide Spells, WordChar;
    if i: nat, j: nat :| i > 0 && Spells(env, s, t, i, j) {
      SpelledInside(env, s, t, i, j);
      RunShifts(env, s, t, i - 1, j - 1);
    }
    if i: nat, j: nat :| Spells(env, s[1..], t, i, j) && (i > 0 || !WordChar(env, s[0])) {
      RunShifts(env, s, t, i, j);
    }
  }

  lemma FirstShifts(env: Env, s: string, t: string)
    requires s != "" && WordChar(env, s[0])
    ensures StartsText(env, s, t) <==> t != "" && t[0] == s[0] && StartsText(env, s[1..], t[1..])
  {
    if j: nat :| Spells(env, s, t, 0, j) {
      assert forall k | 0 <= k < j - 1 :: s[1..][k] == s[k + 1];
      assert Spells(env, s[1..], t[1..], 0, j - 1);
    }
    if t != "" && t[0] == s[0] && StartsText(env, s[1..], t[1..]) {
      var j: nat :| Spells(env, s[1..], t[1..], 0, j);
      forall k | 0 <= k < j + 1 ensures WordChar(env, s[k]) {
        assert k > 0 ==> s[k] == s[1..][k - 1];
      }
      assert s[0..j + 1] == [s[0]] + s[1..][0..j] && t == [t[0]] + t[1..];
      assert Spells(env, s, t, 0, j + 1);
    }
  }

  lemma {:induction false} PiecesAreRuns(env: Env, s: string, t: string)
    ensures t == Pieces(env, s)[0] <==> StartsText(env, s, t)
    ensures t in Pieces(env, s)[1..] <==> IsLaterWord(env, s, t)
  {
    hide Spells, StartsText, IsLaterWord, IsWordOf;
    if s == "" {
      NoLaterWord(env, t);
    } else {
      var rest := Pieces(env, s[1..]);
      PiecesAreRuns(env, s[1..], t);
      LaterShifts(env, s, t);
      WordIsFirstOrLater(env, s[1..], t);
      assert rest == [rest[0]] + rest[1..];
      if WordChar(env, s[0]) {
        FirstShifts(env, s, t);
        if t != "" {
          PiecesAreRuns(env, s[1..], t[1..]);
          assert t == [t[0]] + t[1..];
        }
      } else {
        EmptyRunFirst(env, s, t);
      }
    }
  }

  lemma NoLaterWord(env: Env, t: string)
    ensures StartsText(env, "", t) <==> t == ""
    ensures !IsLaterWord(env, "", t)
  {
    assert Spells(env, "", "", 0, 0);
  }

  lemma EmptyRunFirst(env: Env, s: string, t: string)
    requires s != "" && !WordChar(env, s[0])
    ensures StartsText(env, s, t) <==> t == ""
  {
    assert Spells(env, s, "", 0, 0);
  }

  lemma WordIsFirstOrLater(env: Env, s: string, t: string)
    ensures IsWordOf(env, s, t) <==> StartsText(env, s, t) || IsLaterWord(env, s, t)
  {
    hide Spells;
    if i: nat, j: nat :| Spells(env, s, t, i, j) {
      assert i > 0 || StartsText(env, s, t);
    }
  }

  lemma PiecesAreWords(env: Env, s: string, t: string)
    ensures t in Pieces(env, s) <==> IsWordOf(env, s, t)
  {
    PiecesAreRuns(env, s, t);
    WordIsFirstOrLater(env, s, t);
    var pieces := Pieces(env, s);
    assert pieces == [pieces[0]] + pieces[1..];
    hide Pieces, StartsText, IsLaterWord, IsWordOf;
  }

  // ---------- keys ----------

  /** `lowered` is the text with its ASCII capitals made small, and nothing else changed. */
  predicate Lowers(s: string, lowered: string) {
    && |lowered| == |s|
    && forall i | 0 <= i < |s| ::
         if 'A' <= s[i] <= 'Z' then lowered[i] as int == s[i] as int + 32 else lowered[i] == s[i]
  }

  lemma LowerLowers(s: string)
    ensures forall lowered :: Lowers(s, lowered) <==> lowered == Lower(s)
  {
  }

  /** The text of the content that is searched for words. */
  predicate IsSearched(env: Env, content: Content, text: string) {
    match content
    case Text(own) => text == own
    case Code(path, _, own) => text == path + "\n" + own
    case Structured(value, _) => text == env.render(value)
  }

  /** A word of at least two bytes of the lower-cased text. */
  ghost predicate HasWord(env: Env, content: Content, word: string) {
    && env.byteLength(word) >= 2
    && exists text, lowered :: IsSearched(env, content, text) && Lowers(text, lowered) && IsWordOf(env, lowered, word)
  }

  /** A word of at least three bytes, in its own case, that starts with a letter; structured values have none. */
  ghost predicate HasSymbol(env: Env, content: Content, symbol: string) {
    && !content.Structured? && IsWordOf(env, content.text, symbol)
    && env.byteLength(symbol) >= 3 && symbol != "" && env.alphabetic(symbol[0])
  }

  /** A structured value has a member, through objects and arrays, whose names joined by dots are the path. */
  ghost predicate HasPath(content: Content, path: string) {
    content.Structured? && exists names :: Walk(content.value, names) && ExtendAll("", names) == path
  }

  lemma WordKeys(env: Env, content: Content, key: string)
    ensures key in Terms(env, content) <==> HasWord(env, content, key)
  {
    hide Pieces, IsWordOf, Lowers, Lower;
    var text := TextForIndex(env, content);
    assert IsSearched(env, content, text);
    LowerLowers(text);
    PiecesAreWords(env, Lower(text), key);
    if HasWord(env, content, key) {
      var own, lowered :| IsSearched(env, content, own) && Lowers(own, lowered) && IsWordOf(env, lowered, key);
      assert own == text && lowered == Lower(text);
    }
    if key in Terms(env, content) {
      assert Lowers(text, Lower(text)) && IsWordOf(env, Lower(text), key);
    }
  }

  lemma SymbolKeys(env: Env, content: Content, key: string)
    ensures key in Symbols(env, content) <==> HasSymbol(env, content, key)
  {
    if !content.Structured? {
      PiecesAreWords(env, content.text, key);
    }
    hide Pieces, IsWordOf;
  }

  lemma PathIsWalk(v: Json, key: string)
    requires key in PathsUnder(v, "")
    ensures exists names :: Walk(v, names) && ExtendAll("", names) == key
  {
    PathsAreWalks(v, "", key);
  }

  lemma WalkIsPath(v: Json, names: seq<string>)
    requires Walk(v, names)
    ensures ExtendAll("", names) in PathsUnder(v, "")
  {
    PathsAreWalks(v, "", ExtendAll("", names));
  }

  lemma PathKeys(content: Content, key: string)
    ensures key in KeyPaths(content) <==> HasPath(content, key)
  {
    hide PathsUnder, Walk, ExtendAll;
    if content.Structured? {
      if key in KeyPaths(content) {
        PathIsWalk(content.value, key);
      }
      if names :| Walk(content.value, names) && ExtendAll("", names) == key {
        WalkIsPath(content.value, names);
      }
    }
  }

  /** What each index holds about a content, exactly. */
  lemma KeysAreWords(env: Env, content: Content, key: string)
    ensures key in Keys(env, Keyword, content) <==> HasWord(env, content, key)
    ensures key in Keys(env, Symbol, content) <==> HasSymbol(env, content, key)
    ensures key in Keys(env, KeyPath, content) <==> HasPath(content, key)
  {
    hide Terms, Symbols, KeyPaths, HasWord, HasSymbol, HasPath;
    WordKeys(env, content, key);
    SymbolKeys(env, content, key);
    PathKeys(content, key);
  }

  // ---------- what a chunk has of a request ----------

  ghost predicate HasTerm(env: Env, content: Content, asked: string) {
    exists word :: Lowers(asked, word) && HasWord(env, content, word)
  }

  /** The chunk has something the request names, or the request names nothing. */
  ghost predicate Answers(env: Env, content: Content, r: Request) {
    || (r.terms == [] && r.symbols == [] && r.keyPaths == [])
    || (exists asked :: asked in r.terms && HasTerm(env, content, asked))
    || (exists symbol :: symbol in r.symbols && HasSymbol(env, content, symbol))
    || (exists path :: path in r.keyPaths && HasPath(content, path))
  }

  /** `at` lists, in ascending order, the positions of the texts that are there. */
  predicate ThereAt(wanted: seq<string>, have: set<string>, at: seq<nat>) {
    && (forall j, k | 0 <= j < k < |at| :: at[j] < at[k])
    && (forall k | 0 <= k < |at| :: at[k] < |wanted| && wanted[at[k]] in have)
    && (forall i: nat | i < |wanted| && wanted[i] in have :: i in at)
  }

  predicate NamesAt(channel: Channel, wanted: seq<string>, at: seq<nat>, reasons: seq<Reason>) {
    |reasons| == |at| && forall k | 0 <= k < |at| :: at[k] < |wanted| && reasons[k] == Matched(channel, wanted[at[k]])
  }

  /** One reason for each requested text that is there, in request order. */
  lemma {:induction false} FoundAt(channel: Channel, wanted: seq<string>, have: set<string>) returns (at: seq<nat>)
    ensures ThereAt(wanted, have, at) && NamesAt(channel, wanted, at, Found(channel, wanted, have))
  {
    hide ThereAt, NamesAt, Found;
    FoundSnoc(channel, wanted, have);
    if wanted == [] {
      at := [];
    } else {
      var n := |wanted| - 1;
      at := FoundAt(channel, wanted[..n], have);
      ThereAtSnoc(wanted, have, at);
      NamesAtLonger(channel, wanted, at, Found(channel, wanted[..n], have));
      if wanted[n] in have {
        at := at + [n];
      }
    }
  }

  lemma FoundSnoc(channel: Channel, wanted: seq<string>, have: set<string>)
    ensures ThereAt([], have, []) && NamesAt(channel, [], [], Found(channel, [], have))
    ensures wanted != [] ==>
              var init, last := Found(channel, wanted[..|wanted| - 1], have), wanted[|wanted| - 1];
              Found(channel, wanted, have) == if last in have then init + [Matched(channel, last)] else init
  {
  }

  lemma ThereAtSnoc(wanted: seq<string>, have: set<string>, at: seq<nat>)
    requires wanted != [] && ThereAt(wanted[..|wanted| - 1], have, at)
    ensures ThereAt(wanted, have, if wanted[|wanted| - 1] in have then at + [|wanted| - 1] else at)
  {
    assert wanted == wanted[..|wanted| - 1] + [wanted[|wanted| - 1]];
  }

  lemma NamesAtLonger(channel: Channel, wanted: seq<string>, at: seq<nat>, reasons: seq<Reason>)
    requires wanted != [] && NamesAt(channel, wanted[..|wanted| - 1], at, reasons)
    ensures NamesAt(channel, wanted, at, reasons)
    ensures NamesAt(channel, wanted, at + [|wanted| - 1], reasons + [Matched(channel, wanted[|wanted| - 1])])
  {
  }

  lemma FoundNothing(channel: Channel, wanted: seq<string>, have: set<string>)
    ensures Found(channel, wanted, have) == [] <==> forall w | w in wanted :: w !in have
  {
    var at := FoundAt(channel, wanted, have);
    if w :| w in wanted && w in have {
      var i :| 0 <= i < |wanted| && wanted[i] == w;
      assert i in at;
    }
    if at != [] {
      assert wanted[at[0]] in wanted;
    }
  }

  lemma LoweredTerms(env: Env, content: Content, r: Request)
    ensures (exists w :: w in LowerAll(r.terms) && HasWord(env, content, w))
            <==> exists asked :: asked in r.terms && HasTerm(env, content, asked)
  {
    hide HasWord, Lowers, Lower;
    if w :| w in LowerAll(r.terms) && HasWord(env, content, w) {
      var i :| 0 <= i < |r.terms| && LowerAll(r.terms)[i] == w;
      LowerLowers(r.terms[i]);
      assert r.terms[i] in r.terms && HasTerm(env, content, r.terms[i]);
    }
    if asked :| asked in r.terms && HasTerm(env, content, asked) {
      var i :| 0 <= i < |r.terms| && r.terms[i] == asked;
      LowerLowers(asked);
      assert LowerAll(r.terms)[i] in LowerAll(r.terms);
    }
  }

  lemma MatchesIff(env: Env, content: Content, r: Request)
    ensures !HasChannels(r) || Matches(env, content, r) != [] <==> Answers(env, content, r)
  {
    hide Found, Keys, HasSymbol, HasPath, HasWord, HasTerm, LowerAll;
    FoundNothing(Keyword, LowerAll(r.terms), Keys(env, Keyword, content));
    FoundNothing(Symbol, r.symbols, Keys(env, Symbol, content));
    FoundNothing(KeyPath, r.keyPaths, Keys(env, KeyPath, content));
    forall key
      ensures key in Keys(env, Keyword, content) <==> HasWord(env, content, key)
      ensures key in Keys(env, Symbol, content) <==> HasSymbol(env, content, key)
      ensures key in Keys(env, KeyPath, content) <==> HasPath(content, key)
    {
      KeysAreWords(env, content, key);
    }
    LoweredTerms(env, content, r);
  }

  // ---------- gates ----------

  /** The gate for this reason is shut. */
  predicate Shut(env: Env, s: State, r: Request, id: string, reason: ExclusionReason)
    requires id in s.chunks
  {
    var l := s.chunks[id].nutrition;
    match reason
    case ForeignScope => l.scope.tenant != r.scope.tenant || l.scope.workspace != r.scope.workspace
    case RevokedChunk => id in s.revoked
    case UserExclusion => id in s.excluded
    case TooSensitive => !AtMost(l.sensitivity, r.ceiling)
    case Expired => l.expiresAt.Some? && r.now >= l.expiresAt.value
    case UntrustedNotAdmitted => l.provenance.trust == Untrusted && !r.includeUntrusted
    case LabelForgery => l.contentDigest != env.digestOf(s.chunks[id].content)
  }

  /** The order in which the gates are tried. */
  function Turn(reason: ExclusionReason): nat {
    match reason
    case ForeignScope => 0
    case RevokedChunk => 1
    case UserExclusion => 2
    case TooSensitive => 3
    case Expired => 4
    case UntrustedNotAdmitted => 5
    case LabelForgery => 6
  }

  ghost predicate Passes(env: Env, s: State, r: Request, id: string) {
    id in s.chunks && forall reason :: !Shut(env, s, r, id, reason)
  }

  ghost predicate ShutFirst(env: Env, s: State, r: Request, id: string, reason: ExclusionReason) {
    id in s.chunks && Shut(env, s, r, id, reason) && forall other | Turn(other) < Turn(reason) ::
        !Shut(env, s, r, id, other)
  }

  lemma GateIff(env: Env, s: State, r: Request, id: string)
    requires id in s.chunks
    ensures Gate(env, s, r, id).None? <==> Passes(env, s, r, id)
    ensures forall reason :: Gate(env, s, r, id) == Some(reason) <==> ShutFirst(env, s, r, id, reason)
  {
    RankIsTheOrder(s.chunks[id].nutrition.sensitivity, r.ceiling);
    hide AtMost, DataClass.Rank;
    assert forall a: ExclusionReason, b: ExclusionReason | Turn(a) == Turn(b) :: a == b;
    var gate := Gate(env, s, r, id);
    if gate.None? {
      forall reason ensures !Shut(env, s, r, id, reason) {
        match reason
        case ForeignScope =>
        case RevokedChunk =>
        case UserExclusion =>
        case TooSensitive =>
        case Expired =>
        case UntrustedNotAdmitted =>
        case LabelForgery =>
      }
    } else {
      assert Shut(env, s, r, id, gate.value);
      assert ShutFirst(env, s, r, id, gate.value);
    }
  }

  // ---------- reasons ----------

  predicate Ascending(at: seq<nat>) {
    forall j, k | 0 <= j < k < |at| :: at[j] < at[k]
  }

  /** `at` lists, in ascending order, exactly the requested terms, symbols or paths the content has. */
  ghost predicate TermsAt(env: Env, content: Content, r: Request, at: seq<nat>) {
    Ascending(at) && forall i: nat :: i in at <==> i < |r.terms| && HasTerm(env, content, r.terms[i])
  }

  ghost predicate SymbolsAt(env: Env, content: Content, r: Request, at: seq<nat>) {
    Ascending(at) && forall i: nat :: i in at <==> i < |r.symbols| && HasSymbol(env, content, r.symbols[i])
  }

  ghost predicate PathsAt(content: Content, r: Request, at: seq<nat>) {
    Ascending(at) && forall i: nat :: i in at <==> i < |r.keyPaths| && HasPath(content, r.keyPaths[i])
  }

  /** The reasons name these terms in small letters, then these symbols, then these paths. */
  predicate Explains(r: Request, reasons: seq<Reason>, terms: seq<nat>, symbols: seq<nat>, paths: seq<nat>) {
    && |reasons| == |terms| + |symbols| + |paths|
    && (forall k | 0 <= k < |terms| :: terms[k] < |r.terms| && NamesTerm(reasons[k], r.terms[terms[k]]))
    && (forall k | 0 <= k < |symbols| ::
          symbols[k] < |r.symbols| && reasons[|terms| + k] == Matched(Symbol, r.symbols[symbols[k]]))
    && (forall k | 0 <= k < |paths| ::
          paths[k] < |r.keyPaths| && reasons[|terms| + |symbols| + k] == Matched(KeyPath, r.keyPaths[paths[k]]))
  }

  predicate NamesTerm(reason: Reason, asked: string) {
    reason.Matched? && reason.channel == Keyword && Lowers(asked, reason.text)
  }

  lemma TermsFound(env: Env, content: Content, r: Request, at: seq<nat>)
    requires ThereAt(LowerAll(r.terms), Keys(env, Keyword, content), at)
    ensures TermsAt(env, content, r, at)
  {
    hide Keys, Lower, Lowers, HasWord;
    forall i: nat ensures i in at <==> i < |r.terms| && HasTerm(env, content, r.terms[i]) {
      if i < |r.terms| {
        LowerLowers(r.terms[i]);
        KeysAreWords(env, content, Lower(r.terms[i]));
        assert LowerAll(r.terms)[i] == Lower(r.terms[i]);
      }
      if i in at {
        var k :| 0 <= k < |at| && at[k] == i;
      }
    }
  }

  lemma SymbolsFound(env: Env, content: Content, r: Request, at: seq<nat>)
    requires ThereAt(r.symbols, Keys(env, Symbol, content), at)
    ensures SymbolsAt(env, content, r, at)
  {
    hide Keys, HasSymbol;
    forall i: nat ensures i in at <==> i < |r.symbols| && HasSymbol(env, content, r.symbols[i]) {
      if i < |r.symbols| {
        KeysAreWords(env, content, r.symbols[i]);
      }
      if i in at {
        var k :| 0 <= k < |at| && at[k] == i;
      }
    }
  }

  lemma PathsFound(env: Env, content: Content, r: Request, at: seq<nat>)
    requires ThereAt(r.keyPaths, Keys(env, KeyPath, content), at)
    ensures PathsAt(content, r, at)
  {
    hide Keys, HasPath;
    forall i: nat ensures i in at <==> i < |r.keyPaths| && HasPath(content, r.keyPaths[i]) {
      if i < |r.keyPaths| {
        KeysAreWords(env, content, r.keyPaths[i]);
      }
      if i in at {
        var k :| 0 <= k < |at| && at[k] == i;
      }
    }
  }

  lemma ExplainedBy(r: Request, terms: seq<nat>, symbols: seq<nat>, paths: seq<nat>,
      a: seq<Reason>, b: seq<Reason>, c: seq<Reason>)
    requires NamesAt(Keyword, LowerAll(r.terms), terms, a) && NamesAt(Symbol, r.symbols, symbols, b)
    requires NamesAt(KeyPath, r.keyPaths, paths, c)
    ensures Explains(r, a + b + c, terms, symbols, paths)
  {
    forall k | 0 <= k < |terms| ensures NamesTerm((a + b + c)[k], r.terms[terms[k]]) {
      LowerLowers(r.terms[terms[k]]);
    }
  }

  /**
   * Why a chunk is given: one reason for each requested term, then symbol, then
   * path it has, in request order, and `Pinned` when it has none of them.
   */
  lemma ReasonsMeaning(env: Env, content: Content, r: Request)
      returns (terms: seq<nat>, symbols: seq<nat>, paths: seq<nat>)
    ensures TermsAt(env, content, r, terms) && SymbolsAt(env, content, r, symbols) && PathsAt(content, r, paths)
    ensures if terms == [] && symbols == [] && paths == [] then Reasons(env, content, r) == [Pinned]
            else Explains(r, Reasons(env, content, r), terms, symbols, paths)
  {
    hide Found, Keys, LowerAll, Explains, NamesAt, ThereAt;
    terms := FoundAt(Keyword, LowerAll(r.terms), Keys(env, Keyword, content));
    symbols := FoundAt(Symbol, r.symbols, Keys(env, Symbol, content));
    paths := FoundAt(KeyPath, r.keyPaths, Keys(env, KeyPath, content));
    TermsFound(env, content, r, terms);
    SymbolsFound(env, content, r, symbols);
    PathsFound(env, content, r, paths);
    hide TermsAt, SymbolsAt, PathsAt;
    ExplainedBy(r, terms, symbols, paths, Found(Keyword, LowerAll(r.terms), Keys(env, Keyword, content)),
        Found(Symbol, r.symbols, Keys(env, Symbol, content)), Found(KeyPath, r.keyPaths, Keys(env, KeyPath, content)));
    ExplainedLength(r, Matches(env, content, r), terms, symbols, paths);
  }

  lemma ExplainedLength(r: Request, reasons: seq<Reason>, terms: seq<nat>, symbols: seq<nat>, paths: seq<nat>)
    requires Explains(r, reasons, terms, symbols, paths)
    ensures |reasons| == |terms| + |symbols| + |paths|
  {
  }

  // ---------- what is shown ----------

  /** The class of the path is above the ceiling. */
  predicate Secret(restricted: map<string, DataClass>, ceiling: DataClass, path: string) {
    path in restricted && !AtMost(restricted[path], ceiling)
  }

  /** Secret paths are masked or absent, and those masked that lie under no other are reported. */
  predicate SecretsMasked(value: Json, restricted: map<string, DataClass>, ceiling: DataClass, shown: Json,
      reported: seq<string>) {
    forall path | path in restricted && Secret(restricted, ceiling, path) ::
      && (Lookup(shown, Segments(path)) == None || Lookup(shown, Segments(path)) == Some(Str("[saber:redacted]")))
      && (path in reported <==>
            && Lookup(value, Segments(path)).Some?
            && forall above | above in restricted && Secret(restricted, ceiling, above) ::
                 !(Segments(above) < Segments(path)))
  }

  /** The path is neither at, below nor above a secret one. */
  predicate Unrelated(restricted: map<string, DataClass>, ceiling: DataClass, q: Path) {
    forall path | path in restricted && Secret(restricted, ceiling, path) ::
      !(Segments(path) <= q) && !(q <= Segments(path))
  }

  ghost predicate RestIntact(value: Json, restricted: map<string, DataClass>, ceiling: DataClass, shown: Json) {
    forall q: Path | Unrelated(restricted, ceiling, q) :: Lookup(shown, q) == Lookup(value, q)
  }

  /**
   * The shown content: text as it is; of a structured value, secret paths
   * masked or absent and unrelated ones intact.
   */
  ghost predicate ShownAs(content: Content, ceiling: DataClass, shown: Content, reported: seq<string>) {
    if !content.Structured? then shown == content && reported == []
    else
      && shown.Structured? && shown.restricted == content.restricted
      && SecretsMasked(content.value, content.restricted, ceiling, shown.value, reported)
      && (forall path | path in reported :: Secret(content.restricted, ceiling, path))
      && RestIntact(content.value, content.restricted, ceiling, shown.value)
  }

  lemma SecretIff(restricted: map<string, DataClass>, ceiling: DataClass)
    ensures forall path :: Secret(restricted, ceiling, path)
                           <==> path in restricted && restricted[path].Rank() > ceiling.Rank()
  {
    forall c: DataClass ensures c.Rank() <= ceiling.Rank() <==> AtMost(c, ceiling) {
      RankIsTheOrder(c, ceiling);
    }
    hide AtMost;
  }

  lemma SecretsAreMasked(value: Json, restricted: map<string, DataClass>, ceiling: DataClass)
    ensures var (shown, reported) := RedactAll(value, RestrictedPaths(restricted, ceiling));
            SecretsMasked(value, restricted, ceiling, shown, reported)
  {
    hide Lookup, RedactAll, Segments, AtMost;
    SecretIff(restricted, ceiling);
    hide Secret;
    forall path | path in restricted && Secret(restricted, ceiling, path)
      ensures Masked(Lookup(RedactAll(value, RestrictedPaths(restricted, ceiling)).0, Segments(path)))
      ensures path in RedactAll(value, RestrictedPaths(restricted, ceiling)).1
              <==> Lookup(value, Segments(path)).Some?
                   && forall above | above in restricted && Secret(restricted, ceiling, above) ::
                        !(Segments(above) < Segments(path))
    {
      RestrictedPathsAreMasked(value, restricted, ceiling, path);
    }
  }

  lemma RestIsIntact(value: Json, restricted: map<string, DataClass>, ceiling: DataClass)
    ensures RestIntact(value, restricted, ceiling, RedactAll(value, RestrictedPaths(restricted, ceiling)).0)
  {
    hide Lookup, RedactAll, Segments, AtMost;
    SecretIff(restricted, ceiling);
    hide Secret;
    forall q: Path | Unrelated(restricted, ceiling, q)
      ensures Lookup(RedactAll(value, RestrictedPaths(restricted, ceiling)).0, q) == Lookup(value, q)
    {
      DisjointPathsKeepTheirValue(value, restricted, ceiling, q);
    }
  }

  lemma RedactedIsShown(content: Content, ceiling: DataClass)
    ensures var (shown, reported) := RedactChunk(content, ceiling); ShownAs(content, ceiling, shown, reported)
  {
    hide SecretsMasked, RestIntact, RedactAll, AtMost;
    if content.Structured? {
      SecretIff(content.restricted, ceiling);
      hide Secret;
      ReportedArePaths(content.value, RestrictedPaths(content.restricted, ceiling));
      SecretsAreMasked(content.value, content.restricted, ceiling);
      RestIsIntact(content.value, content.restricted, ceiling);
    }
  }

  /** The selection is of this chunk: its label, its content as shown at the ceiling, and its first reason. */
  ghost predicate ShowsChunk(env: Env, s: State, r: Request, id: string, selected: Selected) {
    && id in s.chunks && selected.chunk.nutrition == s.chunks[id].nutrition
    && selected.reason == Reasons(env, s.chunks[id].content, r)[0]
    && ShownAs(s.chunks[id].content, r.ceiling, selected.chunk.content, selected.redactedFields)
  }

  // ---------- queries ----------

  /** A live chunk that answers the request and that no gate shuts out. */
  ghost predicate Eligible(env: Env, s: State, r: Request, id: string) {
    id in s.chunks && Answers(env, s.chunks[id].content, r) && Passes(env, s, r, id)
  }

  lemma RelevantIff(env: Env, s: State, r: Request, id: string)
    ensures id in Relevant(env, s, r) <==> id in s.chunks && Answers(env, s.chunks[id].content, r)
  {
    hide Answers, Matches, HasChannels;
    if id in s.chunks {
      MatchesIff(env, s.chunks[id].content, r);
    }
  }

  lemma CandidatesAre(env: Env, s: State, r: Request)
    requires ExactIndexes(env, s)
    ensures var candidates := Candidates(env, s, r, IndexHits(s, r));
            && (forall id :: id in candidates <==> Eligible(env, s, r, id))
            && forall id | id in candidates :: candidates[id] == Reasons(env, s.chunks[id].content, r)
  {
    ExactHits(env, s, r);
    hide ExactIndexes, IndexHits, Relevant, Gate, Reasons, Answers, Passes;
    forall id
      ensures id in Relevant(env, s, r) <==> id in s.chunks && Answers(env, s.chunks[id].content, r)
      ensures id in s.chunks ==> (Gate(env, s, r, id).None? <==> Passes(env, s, r, id))
    {
      RelevantIff(env, s, r, id);
      if id in s.chunks {
        GateIff(env, s, r, id);
      }
    }
  }

  /** More reasons first, then by identifier. */
  predicate Before(env: Env, s: State, r: Request, a: string, b: string) {
    && a in s.chunks && b in s.chunks
    && var m, n := |Reasons(env, s.chunks[a].content, r)|, |Reasons(env, s.chunks[b].content, r)|;
       m > n || (m == n && Less(a, b))
  }

  /** Ranked eligible chunks, as many as the limit allows, none left out going before one taken. */
  ghost predicate IsTop(env: Env, s: State, r: Request, ids: seq<string>) {
    && (forall id | id in ids :: Eligible(env, s, r, id))
    && |ids| <= r.limit && (|ids| < r.limit ==> forall id | Eligible(env, s, r, id) :: id in ids)
    && (forall i, j | 0 <= i < j < |ids| :: Before(env, s, r, ids[i], ids[j]))
    && (forall a, b | a in ids && Eligible(env, s, r, b) && b !in ids :: Before(env, s, r, a, b))
  }

  /** One selection for each identifier, in order. */
  ghost predicate ShowsAll(env: Env, s: State, r: Request, ids: seq<string>, selections: seq<Selected>) {
    |selections| == |ids| && forall i | 0 <= i < |ids| :: ShowsChunk(env, s, r, ids[i], selections[i])
  }

  /** Over exact indexes a query gives the top eligible chunks, each shown with its first reason. */
  lemma QueryGivesTop(env: Env, s: State, r: Request, queryId: string) returns (ids: seq<string>)
    requires ExactIndexes(env, s)
    ensures IsTop(env, s, r, ids) && ShowsAll(env, s, r, ids, QueryStep(env, s, r, queryId).1.selections)
  {
    var candidates := Candidates(env, s, r, IndexHits(s, r));
    ids := Best(candidates, r.limit);
    CandidatesAre(env, s, r);
    TopOfCandidates(env, s, r, candidates);
    hide IsTop, ExactIndexes, Candidates, IndexHits, Reasons, Best, RedactChunk, InOrder, Eligible;
    var selections := QueryStep(env, s, r, queryId).1.selections;
    forall i | 0 <= i < |ids| ensures ShowsChunk(env, s, r, ids[i], selections[i]) {
      var id := ids[i];
      assert id in candidates;
      SelectIs(s.chunks[id], candidates[id], r.ceiling);
      RedactedIsShown(s.chunks[id].content, r.ceiling);
    }
  }

  lemma TopOfCandidates(env: Env, s: State, r: Request, candidates: map<string, seq<Reason>>)
    requires forall id :: id in candidates <==> Eligible(env, s, r, id)
    requires forall id | id in candidates :: id in s.chunks && candidates[id] == Reasons(env, s.chunks[id].content, r)
    ensures IsTop(env, s, r, Best(candidates, r.limit))
  {
    BestAreSelected(candidates, r.limit);
    hide Best, Eligible, Reasons, Less;
    var best := Best(candidates, r.limit);
    if |best| < r.limit {
      AllAreBest(candidates, best);
    }
  }

  lemma AllAreBest(candidates: map<string, seq<Reason>>, best: seq<string>)
    requires (forall x | x in best :: x in candidates) && InRank(candidates, best) && |best| == |candidates.Keys|
    ensures forall x | x in candidates :: x in best
  {
    var taken := set x | x in best;
    RankedAreDistinct(candidates, best);
    assert taken <= candidates.Keys;
    SameSize(taken, candidates.Keys);
  }

  lemma {:induction false} RankedAreDistinct(candidates: map<string, seq<Reason>>, best: seq<string>)
    requires (forall x | x in best :: x in candidates) && InRank(candidates, best)
    ensures |set x | x in best| == |best|
  {
    if best == [] {
    } else {
      var init, last := best[..|best| - 1], best[|best| - 1];
      RankedAreDistinct(candidates, init);
      assert best == init + [last];
      if last in init {
        var i :| 0 <= i < |init| && init[i] == last;
        assert Precedes(candidates, best[i], best[|best| - 1]);
        Irreflexive(last);
      }
      assert (set x | x in best) == (set x | x in init) + {last};
    }
  }

  lemma {:induction false} SameSize(a: set<string>, b: set<string>)
    requires a <= b && |a| == |b|
    ensures a == b
  {
    if x :| x in b && x !in a {
      assert a <= b - {x};
      SmallerSize(a, b - {x});
    }
  }

  lemma {:induction false} SmallerSize(a: set<string>, b: set<string>)
    requires a <= b
    ensures |a| <= |b|
  {
    if a == {} {
    } else {
      var x :| x in a;
      SmallerSize(a - {x}, b - {x});
    }
  }

  /** The exclusions are, in order, exactly the answering chunks some gate shuts out, each with the first that does. */
  lemma ExclusionsMeaning(env: Env, s: State, r: Request, queryId: string)
    requires ExactIndexes(env, s)
    ensures var exclusions := QueryStep(env, s, r, queryId).1.exclusions;
            && (forall i, j | 0 <= i < j < |exclusions| :: Less(exclusions[i].chunkId, exclusions[j].chunkId))
            && forall x :: x in exclusions
                           <==> x.chunkId in s.chunks && Answers(env, s.chunks[x.chunkId].content, r)
                                && ShutFirst(env, s, r, x.chunkId, x.reason)
  {
    ExactHits(env, s, r);
    hide ExactIndexes, IndexHits, Relevant, Gate, Candidates, Best, Selections, SelectionEvents, Answers, ShutFirst,
        Less;
    var shut := Exclusions(env, s, r, IndexHits(s, r));
    ListedIs(shut, InOrder(shut.Keys));
    forall x: Excluded
      ensures x.chunkId in shut && shut[x.chunkId] == x.reason
              <==> x.chunkId in s.chunks && Answers(env, s.chunks[x.chunkId].content, r)
                   && ShutFirst(env, s, r, x.chunkId, x.reason)
    {
      RelevantIff(env, s, r, x.chunkId);
      if x.chunkId in s.chunks {
        GateIff(env, s, r, x.chunkId);
      }
    }
  }

  lemma {:induction false} ListedIs(exclusions: map<string, ExclusionReason>, ids: seq<string>)
    requires forall id | id in ids :: id in exclusions
    ensures |Listed(exclusions, ids)| == |ids|
    ensures forall i | 0 <= i < |ids| :: Listed(exclusions, ids)[i] == Excluded(ids[i], exclusions[ids[i]])
    ensures forall x :: x in Listed(exclusions, ids) <==> x.chunkId in ids && exclusions[x.chunkId] == x.reason
  {
    if ids == [] {
    } else {
      ListedIs(exclusions, ids[..|ids| - 1]);
      assert ids == ids[..|ids| - 1] + [ids[|ids| - 1]];
    }
  }

  /** Some selection is of this chunk. */
  ghost predicate IsSelected(env: Env, s: State, r: Request, queryId: string, id: string) {
    exists selected :: selected in QueryStep(env, s, r, queryId).1.selections && ShowsChunk(env, s, r, id, selected)
  }

  /** When the limit allows for all chunks, every eligible one is selected. */
  lemma EligibleIsSelected(env: Env, s: State, r: Request, queryId: string, id: string)
    requires ExactIndexes(env, s) && Eligible(env, s, r, id) && r.limit >= |s.chunks|
    ensures IsSelected(env, s, r, queryId, id)
  {
    hide ExactIndexes, QueryStep, ShowsChunk, ShowsAll, IsTop, Eligible;
    var ids := QueryGivesTop(env, s, r, queryId);
    EligibleIsTop(env, s, r, ids, id);
    ShownInAll(env, s, r, ids, QueryStep(env, s, r, queryId).1.selections, id);
  }

  lemma EligibleIsTop(env: Env, s: State, r: Request, ids: seq<string>, id: string)
    requires IsTop(env, s, r, ids) && Eligible(env, s, r, id) && r.limit >= |s.chunks|
    ensures id in ids
  {
    hide Answers, Passes, Before;
    if |ids| == r.limit {
      TopIsAll(env, s, r, ids);
    }
  }

  lemma ShownInAll(env: Env, s: State, r: Request, ids: seq<string>, selections: seq<Selected>, id: string)
    requires ShowsAll(env, s, r, ids, selections) && id in ids
    ensures exists selected :: selected in selections && ShowsChunk(env, s, r, id, selected)
  {
    hide ShowsChunk;
    var i :| 0 <= i < |ids| && ids[i] == id;
    assert selections[i] in selections;
  }

  /**
   * A word is found in any ASCII letter case: after any run without a lost key,
   * a live chunk with the asked word that no gate shuts out is selected, when
   * the limit allows for all chunks.
   */
  lemma AskedWordIsSelected(env: Env, commands: seq<Command>, r: Request, queryId: string, id: string, asked: string)
    requires NoKeyLost(env, EMPTY, commands)
    requires var s := Run(env, EMPTY, commands);
             && id in s.chunks && asked in r.terms && HasTerm(env, s.chunks[id].content, asked)
             && Passes(env, s, r, id) && r.limit >= |s.chunks|
    ensures var s := Run(env, EMPTY, commands);
            IsSelected(env, s, r, queryId, id) && Reasons(env, s.chunks[id].content, r)[0].Matched?
  {
    hide Run, NoKeyLost, ExactIndexes, QueryStep, ScanStep, Passes, HasTerm, IsSelected, Reasons, EMPTY;
    var s := Run(env, EMPTY, commands);
    EveryQueryIsScan(env, commands, r, queryId);
    assert Answers(env, s.chunks[id].content, r);
    hide Answers;
    EligibleIsSelected(env, s, r, queryId, id);
    MatchedIsNotPinned(env, s.chunks[id].content, r, asked);
  }

  lemma MatchedIsNotPinned(env: Env, content: Content, r: Request, asked: string)
    requires asked in r.terms && HasTerm(env, content, asked)
    ensures Reasons(env, content, r)[0].Matched?
  {
    hide Matches, HasTerm, Found;
    MatchesIff(env, content, r);
    PinnedIffUnmatched(env, content, r);
  }

  lemma TopIsAll(env: Env, s: State, r: Request, ids: seq<string>)
    requires IsTop(env, s, r, ids) && |ids| == r.limit >= |s.chunks|
    ensures forall id | id in s.chunks :: id in ids
  {
    hide Answers, Passes, Reasons;
    TopDistinct(env, s, r, ids);
    hide IsTop;
    var taken := set x | x in ids;
    SmallerSize(taken, s.chunks.Keys);
    SameSize(taken, s.chunks.Keys);
  }

  lemma TopDistinct(env: Env, s: State, r: Request, ids: seq<string>)
    requires IsTop(env, s, r, ids)
    ensures |set x | x in ids| == |ids| && (set x | x in ids) <= s.chunks.Keys
  {
    hide Answers, Passes, Reasons, Less;
    forall i, j | 0 <= i < j < |ids| ensures ids[i] != ids[j] {
      assert ids[i] in ids && ids[j] in ids;
      Irreflexive(ids[i]);
    }
    DistinctSize(ids);
  }

  lemma {:induction false} DistinctSize(ids: seq<string>)
    requires forall i, j | 0 <= i < j < |ids| :: ids[i] != ids[j]
    ensures |set x | x in ids| == |ids|
  {
    if ids == [] {
    } else {
      var init, last := ids[..|ids| - 1], ids[|ids| - 1];
      DistinctSize(init);
      assert ids == init + [last];
      assert (set x | x in ids) == (set x | x in init) + {last};
    }
  }

  // ---------- admission and exclusion ----------

  /** A chunk is admitted exactly when it is fully labelled and its label has the digest of its content. */
  lemma AdmittedIff(env: Env, s: State, l: Label, content: Content)
    ensures var (s', answer) := AdmitStep(env, s, l, content);
            && answer == (if l.chunkId == "" || l.scope.tenant == "" || l.scope.workspace == ""
               || l.provenance.origin == ""
                          then Err(Unclassified)
                          else if l.contentDigest[..if |l.contentDigest| < 7 then |l.contentDigest| else 7] != "sha256:"
                                  || env.byteLength(l.contentDigest) != 71
                          then Err(Malformed)
                          else if l.contentDigest != env.digestOf(content) then Err(DigestMismatch)
                          else Ok(l.chunkId))
            && (answer.Err? ==> s' == s)
            && (answer.Ok? ==>
                  && s'.chunks.Keys == s.chunks.Keys + {l.chunkId} && s'.chunks[l.chunkId] == Chunk(l, content)
                  && (forall id | id in s.chunks && id != l.chunkId :: s'.chunks[id] == s.chunks[id])
                  && s'.revoked == s.revoked && s'.excluded == s.excluded && s'.events == s.events)
  {
    hide Keys, InsertAll;
  }

  lemma ExclusionsOnlyGrow(env: Env, s: State, c: Command)
    ensures s.excluded <= Step(env, s, c).excluded
  {
    hide Answer, Built, InsertAll, RemoveAll, Keys;
    if c.Query? {
      AnswerOnlyLogs(env, s, c.request, c.queryId, IndexHits(s, c.request));
    }
  }

  lemma {:induction false} RunKeepsExclusions(env: Env, s: State, commands: seq<Command>)
    ensures s.excluded <= Run(env, s, commands).excluded
    decreases |commands|
  {
    hide Step;
    if commands == [] {
    } else {
      ExclusionsOnlyGrow(env, s, commands[0]);
      RunKeepsExclusions(env, Step(env, s, commands[0]), commands[1..]);
    }
  }

  /** Once a user excludes or an owner revokes a live identifier, no query of any continuation selects it. */
  lemma StoppedIsNeverSelected(env: Env, before: seq<Command>, c: Command, id: string, after: seq<Command>, r: Request,
      queryId: string)
    requires c == Exclude(id) || (c == Revoke(id) && id in Run(env, EMPTY, before).chunks)
    ensures var s := Run(env, Step(env, Run(env, EMPTY, before), c), after);
            forall selected | selected in QueryStep(env, s, r, queryId).1.selections ::
                selected.chunk.nutrition.chunkId != id
  {
    var live := Run(env, EMPTY, before);
    var stopped := Step(env, live, c);
    var s := Run(env, stopped, after);
    EmptyIsExact(env);
    assert id in stopped.excluded || id in stopped.revoked by {
      hide RemoveAll, Keys;
    }
    hide Run, QueryStep, Step, AdmitChunk, RedactChunk, ExactIndexes;
    RunKeepsLabels(env, EMPTY, before);
    StepKeepsLabels(env, live, c);
    RunKeepsLabels(env, stopped, after);
    RunKeepsExclusions(env, stopped, after);
    SelectionsAreAdmissible(env, s, r, queryId);
  }
}
