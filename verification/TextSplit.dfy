/** Splitting text at every occurrence of a separator, as `str::split(char)` does, and joining it back. */
module TextSplit {

  lemma Associate(a: string, b: string, c: string)
    ensures a + b + c == a + (b + c)
  {
  }

  function SplitOn(s: string, sep: char): (parts: seq<string>)
    ensures |parts| >= 1
  {
    if s == "" then [""]
    else if s[0] == sep then [""] + SplitOn(s[1..], sep)
    else
      var rest := SplitOn(s[1..], sep);
      [[s[0]] + rest[0]] + rest[1..]
  }

  function JoinOn(parts: seq<string>, sep: char): string
    requires |parts| >= 1
  {
    if |parts| == 1 then parts[0] else parts[0] + ([sep] + JoinOn(parts[1..], sep))
  }

  predicate Free(parts: seq<string>, sep: char) {
    forall p | p in parts :: sep !in p
  }

  lemma JoinCons(c: char, parts: seq<string>, sep: char)
    requires |parts| >= 1
    ensures JoinOn([[c] + parts[0]] + parts[1..], sep) == [c] + JoinOn(parts, sep)
  {
    var longer := [[c] + parts[0]] + parts[1..];
    if |parts| > 1 {
      var rest := [sep] + JoinOn(parts[1..], sep);
      assert longer[1..] == parts[1..];
      assert ([c] + parts[0]) + rest == [c] + (parts[0] + rest);
    }
  }

  lemma {:induction false} JoinSplit(s: string, sep: char)
    ensures JoinOn(SplitOn(s, sep), sep) == s
  {
    if s == "" {
    } else {
      var rest := SplitOn(s[1..], sep);
      JoinSplit(s[1..], sep);
      if s[0] == sep {
        assert SplitOn(s, sep)[1..] == rest;
        assert [sep] + s[1..] == s;
      } else {
        JoinCons(s[0], rest, sep);
        assert [s[0]] + s[1..] == s;
      }
    }
  }

  lemma {:induction false} SplitFreeText(p: string, sep: char)
    requires sep !in p
    ensures SplitOn(p, sep) == [p]
  {
    if p == "" {
    } else {
      SplitFreeText(p[1..], sep);
      assert [p[0]] + p[1..] == p;
    }
  }

  lemma {:induction false} SplitAtFirst(p: string, rest: string, sep: char)
    requires sep !in p
    ensures SplitOn(p + ([sep] + rest), sep) == [p] + SplitOn(rest, sep)
  {
    if p == "" {
      assert "" + ([sep] + rest) == [sep] + rest && ([sep] + rest)[1..] == rest;
    } else {
      assert (p + ([sep] + rest))[1..] == p[1..] + ([sep] + rest);
      SplitAtFirst(p[1..], rest, sep);
      assert [p[0]] + p[1..] == p;
    }
  }

  lemma {:induction false} SplitJoin(parts: seq<string>, sep: char)
    requires |parts| >= 1 && Free(parts, sep)
    ensures SplitOn(JoinOn(parts, sep), sep) == parts
  {
    assert parts[0] in parts;
    if |parts| == 1 {
      SplitFreeText(parts[0], sep);
    } else {
      SplitAtFirst(parts[0], JoinOn(parts[1..], sep), sep);
      SplitJoin(parts[1..], sep);
      assert [parts[0]] + parts[1..] == parts;
    }
  }

  lemma SplitCons(c: char, s: string, sep: char)
    ensures SplitOn([c] + s, sep) == if c == sep then [""] + SplitOn(s, sep)
            else [[c] + SplitOn(s, sep)[0]] + SplitOn(s, sep)[1..]
  {
    assert ([c] + s)[1..] == s;
  }

  lemma ConcatCons<T>(x: T, left: seq<T>, right: seq<T>)
    requires |left| >= 1
    ensures (left + right)[0] == left[0] && (left + right)[1..] == left[1..] + right
    ensures ([x] + left) + right == [x] + (left + right)
    ensures ([x] + left[1..]) + right == [x] + (left[1..] + right)
  {
  }

  /** Splitting at one known separator splits both sides. */
  lemma {:induction false} SplitConcat(p: string, rest: string, sep: char)
    ensures SplitOn(p + ([sep] + rest), sep) == SplitOn(p, sep) + SplitOn(rest, sep)
  {
    if p == "" {
      SplitAtFirst("", rest, sep);
    } else {
      hide SplitOn;
      SplitConcat(p[1..], rest, sep);
      var left, right := SplitOn(p[1..], sep), SplitOn(rest, sep);
      SplitCons(p[0], p[1..], sep);
      SplitCons(p[0], p[1..] + ([sep] + rest), sep);
      assert [p[0]] + p[1..] == p;
      Associate([p[0]], p[1..], [sep] + rest);
      ConcatCons("", left, right);
      ConcatCons([p[0]] + left[0], left, right);
    }
  }

  lemma TrailingSeparator(s: string, sep: char)
    requires s != "" && s[|s| - 1] == sep
    ensures "" in SplitOn(s, sep)
  {
    var front := s[..|s| - 1];
    assert s == front + ([sep] + "");
    SplitConcat(front, "", sep);
    assert SplitOn("", sep) == [""];
  }

  lemma {:induction false} JoinConcat(a: seq<string>, b: seq<string>, sep: char)
    requires |a| >= 1 && |b| >= 1
    ensures JoinOn(a + b, sep) == JoinOn(a, sep) + ([sep] + JoinOn(b, sep))
  {
    assert (a + b)[1..] == a[1..] + b;
    if |a| > 1 {
      JoinConcat(a[1..], b, sep);
      AssociateAround(a[0], [sep], JoinOn(a[1..], sep), [sep] + JoinOn(b, sep));
    } else {
      assert a[1..] + b == b;
    }
  }

  lemma AssociateAround(a: string, b: string, c: string, d: string)
    ensures a + (b + (c + d)) == (a + (b + c)) + d
  {
  }
}
