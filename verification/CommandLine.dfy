/**
 * The command-line splitter and re-quoter of the local console: `SplitArgs`
 * is a quote-and-escape automaton over the characters of one line, `Join`
 * prints an argument vector back into a line.
 */
module CommandLine {
  import opened TextSplit

  datatype Quote = Unquoted | Single | Double

  predicate IsBlank(c: char) { c == ' ' || c == '\t' }

  /** The characters a backslash escapes outside quotes. */
  predicate IsMeta(c: char) { c in "'\"\\ \t\n" }

  predicate IsDoubleEscapable(c: char) { c == '"' || c == '\\' }

  function Flush(current: string): seq<string> {
    if current == "" then [] else [current]
  }

  /** What the automaton does at the first character of its input. */
  datatype Action = Push(c: char, width: nat) | Enter(quote: Quote) | Break

  function Next(input: string, quote: Quote): (action: Action)
    requires input != ""
    ensures action.Push? ==> 1 <= action.width <= |input|
  {
    var c := input[0];
    match quote
    case Single =>
      if c == '\'' then Enter(Unquoted) else Push(c, 1)
    case Double =>
      if c == '\\' && |input| > 1 && IsDoubleEscapable(input[1]) then Push(input[1], 2)
      else if c == '"' then Enter(Unquoted)
      else Push(c, 1)
    case Unquoted =>
      if c == '\\' && |input| > 1 && IsMeta(input[1]) then Push(input[1], 2)
      else if c == '"' then Enter(Double)
      else if c == '\'' then Enter(Single)
      else if IsBlank(c) then Break
      else Push(c, 1)
  }

  /** The words still to be read from `input` when the automaton is in `quote` with `current` pending. */
  function Scan(input: string, quote: Quote, current: string): seq<string>
    decreases |input|
  {
    if input == "" then Flush(current)
    else
      match Next(input, quote)
      case Push(c, width) => Scan(input[width..], quote, current + [c])
      case Enter(q) => Scan(input[1..], q, current)
      case Break => Flush(current) + Scan(input[1..], Unquoted, "")
  }

  function Split(input: string): seq<string> {
    Scan(input, Unquoted, "")
  }

  method SplitArgs(input: string) returns (parts: seq<string>)
    ensures parts == Split(input)
  {
    parts := [];
    var current, quote, index := "", Unquoted, 0;
    while index < |input|
      invariant 0 <= index <= |input|
      invariant Split(input) == parts + Scan(input[index..], quote, current)
    {
      var c := input[index];
      assert input[index..][0] == c && input[index..][1..] == input[index + 1..];
      assert index + 1 < |input| ==> input[index..][1] == input[index + 1] && input[index..][2..] == input[index + 2..];
      if quote == Single {
        if c == '\'' {
          quote := Unquoted;
        } else {
          current := current + [c];
        }
        index := index + 1;
        continue;
      }
      if quote == Double {
        if c == '\\' && index + 1 < |input| && IsDoubleEscapable(input[index + 1]) {
          current := current + [input[index + 1]];
          index := index + 2;
          continue;
        }
        if c == '"' {
          quote := Unquoted;
        } else {
          current := current + [c];
        }
        index := index + 1;
        continue;
      }
      if c == '\\' && index + 1 < |input| && IsMeta(input[index + 1]) {
        current := current + [input[index + 1]];
        index := index + 2;
        continue;
      }
      if c == '"' || c == '\'' {
        quote := if c == '"' then Double else Single;
        index := index + 1;
        continue;
      }
      if IsBlank(c) {
        if |current| > 0 {
          parts := parts + [current];
          current := "";
        }
        index := index + 1;
        continue;
      }
      current := current + [c];
      index := index + 1;
    }
    if |current| > 0 {
      parts := parts + [current];
    }
  }

  // ---------- what a line may look like ----------

  /** One element between double quotes. */
  datatype Inner = Plain(c: char) | Escaped(c: char) | Backslash(c: char)
  {
    predicate Valid() {
      match this
      case Plain(c) => !IsDoubleEscapable(c)
      case Escaped(c) => IsDoubleEscapable(c)
      case Backslash(c) => !IsDoubleEscapable(c)
    }

    function Text(): string {
      match this
      case Plain(c) => [c]
      case Escaped(c) => ['\\', c]
      case Backslash(c) => ['\\', c]
    }

    function Value(): string {
      match this
      case Plain(c) => [c]
      case Escaped(c) => [c]
      case Backslash(c) => ['\\', c]
    }
  }

  function InnerText(inners: seq<Inner>): string {
    if inners == [] then "" else inners[0].Text() + InnerText(inners[1..])
  }

  function InnerValue(inners: seq<Inner>): string {
    if inners == [] then "" else inners[0].Value() + InnerValue(inners[1..])
  }

  /** One way of writing a stretch of a word: bare, escaped, a literal backslash, or quoted either way. */
  datatype Piece =
    | Bare(c: char)
    | Escape(c: char)
    | Literal(c: char)
    | SingleQuoted(text: string)
    | DoubleQuoted(inners: seq<Inner>)
  {
    predicate Valid() {
      match this
      case Bare(c) => !IsBlank(c) && c !in "'\"\\"
      case Escape(c) => IsMeta(c)
      case Literal(c) => !IsMeta(c)
      case SingleQuoted(text) => '\'' !in text
      case DoubleQuoted(inners) => forall i | i in inners :: i.Valid()
    }

    function Text(): string {
      match this
      case Bare(c) => [c]
      case Escape(c) => ['\\', c]
      case Literal(c) => ['\\', c]
      case SingleQuoted(text) => "'" + text + "'"
      case DoubleQuoted(inners) => "\"" + InnerText(inners) + "\""
    }

    function Value(): string {
      match this
      case Bare(c) => [c]
      case Escape(c) => [c]
      case Literal(c) => ['\\', c]
      case SingleQuoted(text) => text
      case DoubleQuoted(inners) => InnerValue(inners)
    }
  }

  predicate ValidPieces(pieces: seq<Piece>) { forall p | p in pieces :: p.Valid() }

  function PiecesText(pieces: seq<Piece>): string {
    if pieces == [] then "" else pieces[0].Text() + PiecesText(pieces[1..])
  }

  function PiecesValue(pieces: seq<Piece>): string {
    if pieces == [] then "" else pieces[0].Value() + PiecesValue(pieces[1..])
  }

  /** A word as written: the blanks before it and its pieces. */
  datatype Written = Written(blanks: string, pieces: seq<Piece>)

  predicate AllBlank(s: string) { forall c | c in s :: IsBlank(c) }

  /** Words separated by blanks, each denoting at least one character. */
  predicate ValidLine(line: seq<Written>) {
    && (forall w | w in line :: AllBlank(w.blanks) && ValidPieces(w.pieces) && PiecesValue(w.pieces) != "")
    && (forall i | 0 < i < |line| :: line[i].blanks != "")
  }

  function LineText(line: seq<Written>): string {
    if line == [] then "" else line[0].blanks + PiecesText(line[0].pieces) + LineText(line[1..])
  }

  function LineWords(line: seq<Written>): seq<string> {
    if line == [] then [] else [PiecesValue(line[0].pieces)] + LineWords(line[1..])
  }

  // ---------- the automaton reads every quoting ----------

  lemma Regroup(a: string, b: string, c: string, d: string)
    ensures a + b + c + d == a + (b + c + d)
  {
  }

  lemma {:induction false} ScanSingle(text: string, rest: string, current: string)
    requires '\'' !in text
    ensures Scan(text + "'" + rest, Single, current) == Scan(rest, Unquoted, current + text)
  {
    if text == "" {
      assert (text + "'" + rest)[1..] == rest;
      assert current + text == current;
    } else {
      assert (text + "'" + rest)[1..] == text[1..] + "'" + rest;
      ScanSingle(text[1..], rest, current + [text[0]]);
      assert current + [text[0]] + text[1..] == current + text;
    }
  }

  lemma ScanPush(lead: string, rest: string, quote: Quote, c: char, current: string)
    requires lead != "" && Next(lead + rest, quote) == Push(c, |lead|)
    ensures Scan(lead + rest, quote, current) == Scan(rest, quote, current + [c])
  {
    assert (lead + rest)[|lead|..] == rest;
  }

  lemma ScanEnter(c: char, rest: string, quote: Quote, next: Quote, current: string)
    requires Next([c] + rest, quote) == Enter(next)
    ensures Scan([c] + rest, quote, current) == Scan(rest, next, current)
  {
    assert ([c] + rest)[1..] == rest;
  }

  /** A backslash that escapes nothing stays in the word, with the character after it. */
  lemma ScanBackslash(c: char, rest: string, quote: Quote, current: string)
    requires Next(['\\', c] + rest, quote) == Push('\\', 1) && Next([c] + rest, quote) == Push(c, 1)
    ensures Scan(['\\', c] + rest, quote, current) == Scan(rest, quote, current + ['\\', c])
  {
    assert ['\\', c] + rest == ['\\'] + ([c] + rest);
    ScanPush(['\\'], [c] + rest, quote, '\\', current);
    ScanPush([c], rest, quote, c, current + ['\\']);
    assert current + ['\\'] + [c] == current + ['\\', c];
  }

  lemma ScanInner(inner: Inner, rest: string, current: string)
    requires inner.Valid()
    ensures Scan(inner.Text() + rest, Double, current) == Scan(rest, Double, current + inner.Value())
  {
    match inner
    case Plain(c) => ScanPush([c], rest, Double, c, current);
    case Escaped(c) => ScanPush(['\\', c], rest, Double, c, current);
    case Backslash(c) => ScanBackslash(c, rest, Double, current);
  }

  lemma {:induction false} ScanDouble(inners: seq<Inner>, rest: string, current: string)
    requires forall i | i in inners :: i.Valid()
    ensures Scan(InnerText(inners) + "\"" + rest, Double, current) == Scan(rest, Unquoted, current + InnerValue(inners))
  {
    if inners == [] {
      assert InnerText(inners) + "\"" + rest == ['"'] + rest;
      ScanEnter('"', rest, Double, Unquoted, current);
      assert current + InnerValue(inners) == current;
    } else {
      Regroup(inners[0].Text(), InnerText(inners[1..]), "\"", rest);
      ScanInner(inners[0], InnerText(inners[1..]) + "\"" + rest, current);
      ScanDouble(inners[1..], rest, current + inners[0].Value());
      Associate(current, inners[0].Value(), InnerValue(inners[1..]));
    }
  }

  lemma {:induction false} ScanPiece(piece: Piece, rest: string, current: string)
    requires piece.Valid()
    ensures Scan(piece.Text() + rest, Unquoted, current) == Scan(rest, Unquoted, current + piece.Value())
  {
    match piece
    case Bare(c) => ScanPush([c], rest, Unquoted, c, current);
    case Escape(c) => ScanPush(['\\', c], rest, Unquoted, c, current);
    case Literal(c) => ScanBackslash(c, rest, Unquoted, current);
    case SingleQuoted(text) =>
      var quoted := text + "'" + rest;
      assert "'" + text + "'" + rest == ['\''] + quoted;
      ScanEnter('\'', quoted, Unquoted, Single, current);
      ScanSingle(text, rest, current);
    case DoubleQuoted(inners) =>
      var quoted := InnerText(inners) + "\"" + rest;
      assert "\"" + InnerText(inners) + "\"" + rest == ['"'] + quoted;
      ScanEnter('"', quoted, Unquoted, Double, current);
      ScanDouble(inners, rest, current);
  }

  lemma {:induction false} ScanPieces(pieces: seq<Piece>, rest: string, current: string)
    requires ValidPieces(pieces)
    ensures Scan(PiecesText(pieces) + rest, Unquoted, current) == Scan(rest, Unquoted, current + PiecesValue(pieces))
  {
    if pieces == [] {
      assert PiecesText(pieces) + rest == rest;
      assert current + PiecesValue(pieces) == current;
    } else {
      Associate(pieces[0].Text(), PiecesText(pieces[1..]), rest);
      ScanPiece(pieces[0], PiecesText(pieces[1..]) + rest, current);
      ScanPieces(pieces[1..], rest, current + pieces[0].Value());
      Associate(current, pieces[0].Value(), PiecesValue(pieces[1..]));
    }
  }

  lemma {:induction false} ScanBlanks(blanks: string, rest: string, current: string)
    requires AllBlank(blanks)
    requires blanks != "" || current == ""
    ensures Scan(blanks + rest, Unquoted, current) == Flush(current) + Scan(rest, Unquoted, "")
  {
    if blanks == "" {
      assert blanks + rest == rest;
    } else {
      assert blanks[0] in blanks && Next(blanks + rest, Unquoted) == Break;
      assert (blanks + rest)[1..] == blanks[1..] + rest;
      ScanBlanks(blanks[1..], rest, "");
      assert Flush("") + Scan(rest, Unquoted, "") == Scan(rest, Unquoted, "");
    }
  }

  lemma ValidRest(line: seq<Written>)
    requires ValidLine(line) && line != []
    ensures ValidLine(line[1..])
  {
    forall i | 0 < i < |line[1..]| ensures line[1..][i].blanks != "" {
      assert line[1..][i] == line[i + 1];
    }
  }

  /** One written word: the pending word ends at its blanks, and it becomes the pending word. */
  lemma ScanWritten(w: Written, rest: string, current: string)
    requires AllBlank(w.blanks) && ValidPieces(w.pieces)
    requires w.blanks != "" || current == ""
    ensures Scan(w.blanks + PiecesText(w.pieces) + rest, Unquoted, current)
         == Flush(current) + Scan(rest, Unquoted, PiecesValue(w.pieces))
  {
    Associate(w.blanks, PiecesText(w.pieces), rest);
    ScanBlanks(w.blanks, PiecesText(w.pieces) + rest, current);
    ScanPieces(w.pieces, rest, "");
    assert "" + PiecesValue(w.pieces) == PiecesValue(w.pieces);
  }

  lemma {:induction false} ScanLine(line: seq<Written>, trailing: string, current: string)
    requires ValidLine(line) && AllBlank(trailing)
    requires line == [] || line[0].blanks != "" || current == ""
    ensures Scan(LineText(line) + trailing, Unquoted, current) == Flush(current) + LineWords(line)
  {
    if line == [] {
      assert LineText(line) + trailing == trailing + "";
      if trailing != "" {
        ScanBlanks(trailing, "", current);
      }
    } else {
      var w := line[0];
      ValidRest(line);
      Associate(w.blanks + PiecesText(w.pieces), LineText(line[1..]), trailing);
      ScanWritten(w, LineText(line[1..]) + trailing, current);
      ScanLine(line[1..], trailing, PiecesValue(w.pieces));
    }
  }

  /**
   * However the words of a line are written (bare, escaped, single- or
   * double-quoted, in any mixture, with any blanks around them), splitting
   * yields exactly the words they denote.
   */
  lemma {:induction false} SplitReadsEveryQuoting(line: seq<Written>, trailing: string)
    requires ValidLine(line) && AllBlank(trailing)
    ensures Split(LineText(line) + trailing) == LineWords(line)
  {
    ScanLine(line, trailing, "");
  }

  /** How a line may end: blanks, an open quote, or a lone backslash, each still part of the last word. */
  datatype Ending =
    | Blanks(text: string)
    | OpenSingle(text: string)
    | OpenDouble(inners: seq<Inner>, slash: bool)
    | LoneBackslash
  {
    predicate Valid() {
      match this
      case Blanks(text) => AllBlank(text)
      case OpenSingle(text) => '\'' !in text
      case OpenDouble(inners, _) => forall i | i in inners :: i.Valid()
      case LoneBackslash => true
    }

    function Text(): string {
      match this
      case Blanks(text) => text
      case OpenSingle(text) => "'" + text
      case OpenDouble(inners, slash) => "\"" + (InnerText(inners) + if slash then "\\" else "")
      case LoneBackslash => "\\"
    }

    function Value(): string {
      match this
      case Blanks(_) => ""
      case OpenSingle(text) => text
      case OpenDouble(inners, slash) => InnerValue(inners) + if slash then "\\" else ""
      case LoneBackslash => "\\"
    }
  }

  /** Words separated by blanks, some of which may denote nothing. */
  predicate AnyLine(line: seq<Written>) {
    && (forall w | w in line :: AllBlank(w.blanks) && ValidPieces(w.pieces))
    && (forall i | 0 < i < |line| :: line[i].blanks != "")
  }

  /** The words a line denotes: empty ones are dropped, and the ending belongs to the last. */
  function Denoted(line: seq<Written>, ending: Ending): seq<string> {
    if line == [] then Flush(ending.Value())
    else if |line| == 1 then Flush(PiecesValue(line[0].pieces) + ending.Value())
    else Flush(PiecesValue(line[0].pieces)) + Denoted(line[1..], ending)
  }

  lemma {:induction false} ScanOpenSingle(text: string, current: string)
    requires '\'' !in text
    ensures Scan(text, Single, current) == Flush(current + text)
  {
    if text == "" {
      assert current + text == current;
    } else {
      ScanOpenSingle(text[1..], current + [text[0]]);
      assert current + [text[0]] + text[1..] == current + text;
    }
  }

  lemma {:induction false} ScanOpenDouble(inners: seq<Inner>, slash: bool, current: string)
    requires forall i | i in inners :: i.Valid()
    ensures var last := if slash then "\\" else "";
            Scan(InnerText(inners) + last, Double, current) == Flush(current + (InnerValue(inners) + last))
  {
    var last := if slash then "\\" else "";
    if inners == [] {
      assert InnerText(inners) + last == last && current + (InnerValue(inners) + last) == current + last;
      assert !slash ==> current + last == current;
    } else {
      Associate(inners[0].Text(), InnerText(inners[1..]), last);
      ScanInner(inners[0], InnerText(inners[1..]) + last, current);
      ScanOpenDouble(inners[1..], slash, current + inners[0].Value());
      assert current + inners[0].Value() + (InnerValue(inners[1..]) + last) == current + (InnerValue(inners) + last);
    }
  }

  lemma {:induction false} ScanEnding(ending: Ending, current: string)
    requires ending.Valid()
    ensures Scan(ending.Text(), Unquoted, current) == Flush(current + ending.Value())
  {
    match ending
    case Blanks(text) =>
      assert current + "" == current && text + "" == text;
      if text != "" {
        ScanBlanks(text, "", current);
      }
    case OpenSingle(text) =>
      ScanEnter('\'', text, Unquoted, Single, current);
      ScanOpenSingle(text, current);
    case OpenDouble(inners, slash) =>
      ScanEnter('"', InnerText(inners) + if slash then "\\" else "", Unquoted, Double, current);
      ScanOpenDouble(inners, slash, current);
    case LoneBackslash =>
  }

  lemma {:induction false} ScanAnyLine(line: seq<Written>, ending: Ending, current: string)
    requires AnyLine(line) && ending.Valid()
    requires line == [] || line[0].blanks != "" || current == ""
    ensures Scan(LineText(line) + ending.Text(), Unquoted, current)
         == if line == [] then Flush(current + ending.Value()) else Flush(current) + Denoted(line, ending)
  {
    if line == [] {
      assert LineText(line) + ending.Text() == ending.Text();
      ScanEnding(ending, current);
    } else {
      var w := line[0];
      assert forall i | 0 < i < |line[1..]| :: line[1..][i] == line[i + 1];
      Associate(w.blanks + PiecesText(w.pieces), LineText(line[1..]), ending.Text());
      ScanWritten(w, LineText(line[1..]) + ending.Text(), current);
      ScanAnyLine(line[1..], ending, PiecesValue(w.pieces));
    }
  }

  /**
   * Also when a line ends inside a quote or with a lone backslash, and when
   * some of its words denote nothing: the open quote runs to the end, the
   * backslash is kept, and empty words are dropped.
   */
  lemma SplitReadsEveryEnding(line: seq<Written>, ending: Ending)
    requires AnyLine(line) && ending.Valid()
    ensures Split(LineText(line) + ending.Text()) == Denoted(line, ending)
  {
    ScanAnyLine(line, ending, "");
    assert "" + ending.Value() == ending.Value();
  }

  lemma {:induction false} ScanYieldsNonEmptyWords(input: string, quote: Quote, current: string)
    ensures forall w | w in Scan(input, quote, current) :: w != ""
    decreases |input|
  {
    if input == "" {
    } else {
      match Next(input, quote)
      case Push(c, width) => ScanYieldsNonEmptyWords(input[width..], quote, current + [c]);
      case Enter(q) => ScanYieldsNonEmptyWords(input[1..], q, current);
      case Break => ScanYieldsNonEmptyWords(input[1..], Unquoted, "");
    }
  }

  // ---------- printing ----------

  predicate IsSafe(c: char) {
    'A' <= c <= 'Z' || 'a' <= c <= 'z' || '0' <= c <= '9' || c in "_@%+=:,./-"
  }

  predicate SafeWord(word: string) { word != "" && forall c | c in word :: IsSafe(c) }

  /** Every `'` written as `'\''`. */
  function ReplaceQuotes(word: string): string {
    if word == "" then "" else (if word[0] == '\'' then "'\\''" else [word[0]]) + ReplaceQuotes(word[1..])
  }

  function QuoteWord(word: string): string {
    if SafeWord(word) then word else "'" + ReplaceQuotes(word) + "'"
  }

  function Join(argv: seq<string>): string {
    if argv == [] then ""
    else if |argv| == 1 then QuoteWord(argv[0])
    else QuoteWord(argv[0]) + " " + Join(argv[1..])
  }

  lemma {:induction false} ScanSafe(word: string, rest: string, current: string)
    requires forall c | c in word :: IsSafe(c)
    ensures Scan(word + rest, Unquoted, current) == Scan(rest, Unquoted, current + word)
  {
    if word == "" {
      assert word + rest == rest && current + word == current;
    } else {
      var c, tail := word[0], word[1..] + rest;
      assert c in word && word + rest == [c] + tail;
      ScanPush([c], tail, Unquoted, c, current);
      ScanSafe(word[1..], rest, current + [c]);
      assert current + [c] + word[1..] == current + word;
    }
  }

  /** Inside single quotes, `'\''` closes them, escapes one quote and opens them again. */
  lemma ScanRequote(tail: string, current: string)
    ensures Scan("'\\''" + tail, Single, current) == Scan(tail, Single, current + ['\''])
  {
    var reopened := ['\''] + tail;
    var escape := ['\\', '\''] + reopened;
    assert "'\\''" + tail == ['\''] + escape;
    ScanEnter('\'', escape, Single, Unquoted, current);
    ScanPush(['\\', '\''], reopened, Unquoted, '\'', current);
    ScanEnter('\'', tail, Unquoted, Single, current + ['\'']);
  }

  lemma {:induction false} ScanReplaced(word: string, rest: string, current: string)
    ensures Scan(ReplaceQuotes(word) + "'" + rest, Single, current) == Scan(rest, Unquoted, current + word)
  {
    if word == "" {
      assert ReplaceQuotes(word) + "'" + rest == ['\''] + rest && current + word == current;
      ScanEnter('\'', rest, Single, Unquoted, current);
    } else {
      var c, tail := word[0], ReplaceQuotes(word[1..]) + "'" + rest;
      if c == '\'' {
        Regroup("'\\''", ReplaceQuotes(word[1..]), "'", rest);
        ScanRequote(tail, current);
      } else {
        Regroup([c], ReplaceQuotes(word[1..]), "'", rest);
        ScanPush([c], tail, Single, c, current);
      }
      ScanReplaced(word[1..], rest, current + [c]);
      assert current + [c] + word[1..] == current + word;
    }
  }

  lemma {:induction false} ScanQuoteWord(word: string, rest: string)
    ensures Scan(QuoteWord(word) + rest, Unquoted, "") == Scan(rest, Unquoted, word)
  {
    assert "" + word == word;
    if SafeWord(word) {
      ScanSafe(word, rest, "");
    } else {
      var quoted := ReplaceQuotes(word) + "'" + rest;
      assert QuoteWord(word) + rest == ['\''] + quoted;
      ScanEnter('\'', quoted, Unquoted, Single, "");
      ScanReplaced(word, rest, "");
    }
  }

  lemma {:induction false} SplitJoinNonEmpty(argv: seq<string>)
    requires forall w | w in argv :: w != ""
    ensures Split(Join(argv)) == argv
  {
    if argv == [] {
    } else {
      var rest := if |argv| == 1 then "" else " " + Join(argv[1..]);
      assert Join(argv) == QuoteWord(argv[0]) + rest;
      ScanQuoteWord(argv[0], rest);
      assert argv == [argv[0]] + argv[1..] && argv[0] in argv;
      assert forall w | w in argv[1..] :: w in argv;
      if |argv| > 1 {
        assert rest[1..] == Join(argv[1..]);
        SplitJoinNonEmpty(argv[1..]);
        assert Scan(rest, Unquoted, argv[0]) == [argv[0]] + Split(Join(argv[1..]));
      }
    }
  }

  /** `SplitArgs` is a left inverse of `Join` exactly on the vectors without empty words. */
  lemma {:induction false} SplitUndoesJoin(argv: seq<string>)
    ensures Split(Join(argv)) == argv <==> forall w | w in argv :: w != ""
  {
    if forall w | w in argv :: w != "" {
      SplitJoinNonEmpty(argv);
    } else {
      ScanYieldsNonEmptyWords(Join(argv), Unquoted, "");
    }
  }

  /** The line recorded for a run splits to the argument vector that was executed, whatever was typed. */
  lemma {:induction false} RerunExecutesTheSameVector(command: string)
    ensures Split(Join(Split(command))) == Split(command)
  {
    ScanYieldsNonEmptyWords(command, Unquoted, "");
    SplitUndoesJoin(Split(command));
  }

  /** A word is left bare exactly when it is not empty and has only characters that no shell treats specially. */
  lemma JoinQuotesWhatNeedsIt(word: string)
    ensures Join([word]) == word
       <==> word != "" && forall c | c in word ::
              'A' <= c <= 'Z' || 'a' <= c <= 'z' || '0' <= c <= '9' || c == '_' || c == '@' || c == '%' || c == '+'
              || c == '=' || c == ':' || c == ',' || c == '.' || c == '/' || c == '-'
  {
    assert |"'" + ReplaceQuotes(word) + "'"| == |ReplaceQuotes(word)| + 2;
    ReplacedIsLonger(word);
  }

  lemma {:induction false} ReplacedIsLonger(word: string)
    ensures |ReplaceQuotes(word)| >= |word|
  {
    if word == "" {
    } else {
      ReplacedIsLonger(word[1..]);
    }
  }
}
