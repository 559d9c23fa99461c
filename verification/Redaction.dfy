/**
 * Redaction of restricted fields inside a JSON value, and exactly what a
 * redacted value still reveals about the original.
 */
module Redaction {
  import opened JsonValue
  import opened Outcomes
  import opened Sensitivity
  import opened TextOrder
  import opened TextSplit

  const MARKER: Json := Str("[saber:redacted]")

  type Path = seq<string>

  /** Replaces the value at the path by the marker if object members lead to it, and says whether they did. */
  function RedactAt(v: Json, path: Path): (Json, bool) {
    if path == [] || !v.Object? || path[0] !in v.fields then (v, false)
    else if |path| == 1 then (Object(v.fields[path[0] := MARKER]), true)
    else
      var (child, hit) := RedactAt(v.fields[path[0]], path[1..]);
      (Object(v.fields[path[0] := child]), hit)
  }

  function Segments(path: string): Path {
    SplitOn(path, '.')
  }

  /** Redacts one path after the other, keeping the list of those that were there. */
  function RedactAll(v: Json, paths: seq<string>): (Json, seq<string>)
    decreases |paths|
  {
    if paths == [] then (v, [])
    else
      var (first, hit) := RedactAt(v, Segments(paths[0]));
      var (rest, reported) := RedactAll(first, paths[1..]);
      (rest, if hit then [paths[0]] + reported else reported)
  }

  /** The field paths classified above the ceiling, in the order given. */
  function Above(keys: seq<string>, restricted: map<string, DataClass>, ceiling: DataClass): (above: seq<string>)
    requires forall k | k in keys :: k in restricted
    ensures forall k :: k in above <==> k in keys && restricted[k].Rank() > ceiling.Rank()
  {
    if keys == [] then []
    else
      (if restricted[keys[0]].Rank() > ceiling.Rank() then [keys[0]] else []) + Above(keys[1..], restricted, ceiling)
  }

  function RestrictedPaths(restricted: map<string, DataClass>, ceiling: DataClass): (paths: seq<string>)
    ensures forall k :: k in paths <==> k in restricted && restricted[k].Rank() > ceiling.Rank()
  {
    Above(InOrder(restricted.Keys), restricted, ceiling)
  }

  lemma AssociateList(a: seq<string>, b: seq<string>, c: seq<string>)
    ensures (a + b) + c == a + (b + c)
  {
  }

  lemma RedactCons(v: Json, path: string, later: seq<string>)
    ensures var (next, hit) := RedactAt(v, Segments(path));
            RedactAll(v, [path] + later)
              == (RedactAll(next, later).0, if hit then [path] + RedactAll(next, later).1 else RedactAll(next, later).1)
  {
    hide RedactAt;
    assert ([path] + later)[1..] == later;
  }

  lemma OneMoreKey(v: Json, keys: seq<string>,
      restricted: map<string, DataClass>, ceiling: DataClass)
    requires keys != [] && forall k | k in keys :: k in restricted
    ensures var later := Above(keys[1..], restricted, ceiling);
            var (next, hit) := RedactAt(v, Segments(keys[0]));
            RedactAll(v, Above(keys, restricted, ceiling))
              == if restricted[keys[0]].Rank() <= ceiling.Rank() then RedactAll(v, later)
                 else (RedactAll(next, later).0, if hit then [keys[0]] + RedactAll(next, later).1
                     else RedactAll(next, later).1)
  {
    var later := Above(keys[1..], restricted, ceiling);
    RedactCons(v, keys[0], later);
    hide RedactAt, RedactAll, Segments;
    assert restricted[keys[0]].Rank() <= ceiling.Rank() ==> Above(keys, restricted, ceiling) == later;
  }

  /** What is left to redact completes what has been done to the whole result. */
  ghost predicate Completes(whole: (Json, seq<string>), v: Json, reported: seq<string>, paths: seq<string>) {
    whole == (RedactAll(v, paths).0, reported + RedactAll(v, paths).1)
  }

  lemma CompletesStep(
      whole: (Json, seq<string>), v: Json, reported: seq<string>, keys: seq<string>,
      restricted: map<string, DataClass>, ceiling: DataClass)
    requires keys != [] && forall k | k in keys :: k in restricted
    requires Completes(whole, v, reported, Above(keys, restricted, ceiling))
    ensures var (next, hit) := RedactAt(v, Segments(keys[0]));
            if restricted[keys[0]].Rank() <= ceiling.Rank()
                then Completes(whole, v, reported, Above(keys[1..], restricted, ceiling))
            else
              var longer := if hit then reported + [keys[0]] else reported;
              Completes(whole, next, longer, Above(keys[1..], restricted, ceiling))
  {
    OneMoreKey(v, keys, restricted, ceiling);
    hide RedactAt, RedactAll, Above, Segments;
    var next := RedactAt(v, Segments(keys[0])).0;
    AssociateList(reported, [keys[0]], RedactAll(next, Above(keys[1..], restricted, ceiling)).1);
  }

  lemma CompletesEnds(value: Json, keys: seq<string>, restricted: map<string, DataClass>, ceiling: DataClass)
    requires forall k | k in keys :: k in restricted
    ensures Completes(RedactAll(value, Above(keys, restricted, ceiling)), value, [],
            Above(keys[0..], restricted, ceiling))
    ensures forall whole, v, reported | Completes(whole, v, reported, Above(keys[|keys|..], restricted, ceiling)) ::
            whole == (v, reported)
  {
    assert keys[0..] == keys;
    var paths := Above(keys, restricted, ceiling);
    assert [] + RedactAll(value, paths).1 == RedactAll(value, paths).1;
    forall whole, v, reported | Completes(whole, v, reported, Above(keys[|keys|..], restricted, ceiling))
        ensures whole == (v, reported) {
      assert reported + [] == reported;
    }
  }

  lemma Onward(keys: seq<string>, i: nat)
    requires i < |keys|
    ensures keys[i..][0] == keys[i] && keys[i..][1..] == keys[i + 1..]
  {
  }

  method RedactFields(value: Json, restricted: map<string, DataClass>, ceiling: DataClass)
      returns (redacted: Json, reported: seq<string>)
    ensures (redacted, reported) == RedactAll(value, RestrictedPaths(restricted, ceiling))
  {
    hide RedactAt, Segments, Completes, Above, RedactAll;
    var keys, i := InOrder(restricted.Keys), 0;
    ghost var whole := RedactAll(value, RestrictedPaths(restricted, ceiling));
    redacted, reported := value, [];
    CompletesEnds(value, keys, restricted, ceiling);
    while i < |keys|
      invariant 0 <= i <= |keys|
      invariant Completes(whole, redacted, reported, Above(keys[i..], restricted, ceiling))
    {
      CompletesStep(whole, redacted, reported, keys[i..], restricted, ceiling);
      Onward(keys, i);
      if restricted[keys[i]].Rank() > ceiling.Rank() {
        var (next, hit) := RedactAt(redacted, Segments(keys[i]));
        redacted := next;
        if hit {
          reported := reported + [keys[i]];
        }
      }
      i := i + 1;
    }
  }

  // ---------- the order of the paths ----------

  /** A path comes after the paths it lies under. */
  ghost predicate RootsFirst(paths: seq<string>) {
    forall i, j | 0 <= i < j < |paths| ::
        Segments(paths[i]) != Segments(paths[j]) && !(Segments(paths[j]) <= Segments(paths[i]))
  }

  lemma RootIsLess(root: string, path: string)
    requires Segments(root) <= Segments(path) && root != path
    ensures Less(root, path)
  {
    hide SplitOn, JoinOn;
    JoinSplit(root, '.');
    JoinSplit(path, '.');
    var a, whole := Segments(root), Segments(path);
    assert |a| == |whole| ==> a == whole;
    if |a| < |whole| {
      var below := whole[|a|..];
      assert a + below == whole;
      JoinConcat(a, below, '.');
      assert path == root + (['.'] + JoinOn(below, '.'));
      PrefixLess(root, path);
    }
  }

  lemma SortedRootsFirst(paths: seq<string>)
    requires Sorted(paths)
    ensures RootsFirst(paths)
  {
    hide SplitOn;
    forall i, j | 0 <= i < j < |paths|
      ensures Segments(paths[i]) != Segments(paths[j]) && !(Segments(paths[j]) <= Segments(paths[i]))
    {
      assert Segments(paths[i]) == Segments(paths[j]) ==> Segments(paths[j]) <= Segments(paths[i]);
      Asymmetric(paths[i], paths[j]);
      if Segments(paths[j]) <= Segments(paths[i]) {
        Irreflexive(paths[i]);
        RootIsLess(paths[j], paths[i]);
      }
    }
  }

  lemma {:induction false} AboveIsSorted(keys: seq<string>, restricted: map<string, DataClass>, ceiling: DataClass)
    requires Sorted(keys) && forall k | k in keys :: k in restricted
    ensures Sorted(Above(keys, restricted, ceiling))
  {
    hide Less;
    if keys == [] {
    } else {
      AboveIsSorted(keys[1..], restricted, ceiling);
      var later := Above(keys[1..], restricted, ceiling);
      forall k | k in later ensures Less(keys[0], k) {
        var j :| 0 <= j < |keys| - 1 && keys[1..][j] == k;
        assert keys[j + 1] == k;
      }
    }
  }

  lemma RestrictedRootsFirst(restricted: map<string, DataClass>, ceiling: DataClass)
    ensures RootsFirst(RestrictedPaths(restricted, ceiling))
  {
    AboveIsSorted(InOrder(restricted.Keys), restricted, ceiling);
    SortedRootsFirst(RestrictedPaths(restricted, ceiling));
  }

  lemma TailRootsFirst(paths: seq<string>)
    requires RootsFirst(paths) && paths != []
    ensures RootsFirst(paths[1..])
    ensures forall q | q in paths[1..] :: Segments(q) != Segments(paths[0]) && !(Segments(q) <= Segments(paths[0]))
  {
    hide SplitOn;
    var tail := paths[1..];
    forall i, j | 0 <= i < j < |tail|
      ensures Segments(tail[i]) != Segments(tail[j]) && !(Segments(tail[j]) <= Segments(tail[i]))
    {
      assert tail[i] == paths[i + 1] && tail[j] == paths[j + 1];
    }
    forall q | q in tail ensures Segments(q) != Segments(paths[0]) && !(Segments(q) <= Segments(paths[0])) {
      var j :| 0 <= j < |tail| && tail[j] == q;
      assert paths[j + 1] == q;
    }
  }

  // ---------- exactly what is hidden ----------

  /** The paths below one member. */
  function Below(hidden: set<Path>, field: string): set<Path> {
    set p | p in hidden && p != [] && p[0] == field :: p[1..]
  }

  /** The two values differ at most at or below hidden paths, and have the same members everywhere else. */
  ghost predicate Agree(v: Json, w: Json, hidden: set<Path>) {
    || v == w
    || (v.Object? && w.Object? && v.fields.Keys == w.fields.Keys
        && forall k | k in v.fields :: [k] in hidden || Agree(v.fields[k], w.fields[k], Below(hidden, k)))
  }

  lemma BelowOthers(hidden: set<Path>, path: Path, field: string)
    requires path != [] && path[0] != field
    ensures Below(hidden - {path}, field) == Below(hidden, field)
    ensures [field] in hidden - {path} <==> [field] in hidden
  {
  }

  lemma BelowSame(hidden: set<Path>, path: Path)
    requires path != []
    ensures Below(hidden - {path}, path[0]) == Below(hidden, path[0]) - {path[1..]}
    ensures path in hidden ==> path[1..] in Below(hidden, path[0])
  {
    assert path == [path[0]] + path[1..];
    forall q | q in Below(hidden, path[0]) && q != path[1..] ensures q in Below(hidden - {path}, path[0]) {
      var p :| p in hidden && p != [] && p[0] == path[0] && p[1..] == q;
      assert p != path;
    }
    forall q | q in Below(hidden - {path}, path[0]) ensures q != path[1..] {
      var p :| p in hidden - {path} && p != [] && p[0] == path[0] && p[1..] == q;
      assert p == [p[0]] + p[1..];
    }
  }

  lemma BelowKeepsRoots(hidden: set<Path>, path: Path)
    requires |path| > 1 && forall p | p in hidden :: !(p < path)
    ensures [path[0]] !in hidden
    ensures forall p | p in Below(hidden, path[0]) :: !(p < path[1..])
  {
    assert [path[0]] < path;
    forall p | p in Below(hidden, path[0]) ensures !(p < path[1..]) {
      var q :| q in hidden && q != [] && q[0] == path[0] && q[1..] == p;
      assert q == [path[0]] + p && path == [path[0]] + path[1..];
    }
  }

  /** Members that agree outside the hidden paths still do when the one a path leads to is replaced. */
  lemma AgreeReplaced(v: Json, w: Json, hidden: set<Path>, path: Path, a: Json, b: Json)
    requires Agree(v, w, hidden) && v != w && path != [] && path[0] in v.fields
    requires Agree(a, b, Below(hidden - {path}, path[0]))
    ensures Agree(Object(v.fields[path[0] := a]), Object(w.fields[path[0] := b]), hidden - {path})
  {
    hide Below;
    forall k | k in v.fields && k != path[0]
      ensures [k] in hidden - {path} || Agree(v.fields[k], w.fields[k], Below(hidden - {path}, k))
    {
      BelowOthers(hidden, path, k);
    }
  }

  lemma AgreeMissing(v: Json, w: Json, hidden: set<Path>, path: Path)
    requires Agree(v, w, hidden) && path != [] && v.Object? && path[0] !in v.fields
    ensures Agree(v, w, hidden - {path})
  {
    hide Below;
    if v != w {
      forall k | k in v.fields
          ensures [k] in hidden - {path} || Agree(v.fields[k], w.fields[k], Below(hidden - {path}, k)) {
        BelowOthers(hidden, path, k);
      }
    }
  }

  lemma AgreeMembers(v: Json, w: Json, hidden: set<Path>)
    requires Agree(v, w, hidden) && v != w
    ensures v.Object? && w.Object? && v.fields.Keys == w.fields.Keys
    ensures forall k | k in v.fields :: [k] in hidden || Agree(v.fields[k], w.fields[k], Below(hidden, k))
  {
  }

  lemma AgreeSame(v: Json, hidden: set<Path>)
    ensures Agree(v, v, hidden)
  {
  }

  /**
   * Redacting a topmost hidden path in two values that agree outside the
   * hidden paths leaves them agreeing outside the others.
   */
  lemma {:induction false} RedactOneHides(v: Json, w: Json, hidden: set<Path>, path: Path)
    requires Agree(v, w, hidden) && path != []
    requires forall p | p in hidden :: !(p < path)
    ensures RedactAt(v, path).1 == RedactAt(w, path).1
    ensures Agree(RedactAt(v, path).0, RedactAt(w, path).0, hidden - {path})
    decreases |path|
  {
    hide Below, Agree;
    if v == w {
      AgreeSame(RedactAt(v, path).0, hidden - {path});
    } else {
      AgreeMembers(v, w, hidden);
      var key := path[0];
      if key !in v.fields {
        AgreeMissing(v, w, hidden, path);
      } else if |path| == 1 {
        AgreeSame(MARKER, Below(hidden - {path}, key));
        AgreeReplaced(v, w, hidden, path, MARKER, MARKER);
      } else {
        BelowKeepsRoots(hidden, path);
        BelowSame(hidden, path);
        var a, b := v.fields[key], w.fields[key];
        RedactOneHides(a, b, Below(hidden, key), path[1..]);
        AgreeReplaced(v, w, hidden, path, RedactAt(a, path[1..]).0, RedactAt(b, path[1..]).0);
      }
    }
  }

  /** Values that agree outside the hidden paths after redacting one of them agreed before. */
  lemma {:induction false} RedactOneKeepsTheRest(v: Json, w: Json, hidden: set<Path>, path: Path)
    requires path in hidden && path != []
    requires RedactAt(v, path).1 == RedactAt(w, path).1
    requires Agree(RedactAt(v, path).0, RedactAt(w, path).0, hidden - {path})
    ensures Agree(v, w, hidden)
    decreases |path|
  {
    hide Below;
    if RedactAt(v, path).1 {
      var key := path[0];
      var v', w' := RedactAt(v, path).0, RedactAt(w, path).0;
      assert v'.fields.Keys == v.fields.Keys && w'.fields.Keys == w.fields.Keys;
      forall k | k in v.fields ensures [k] in hidden || Agree(v.fields[k], w.fields[k], Below(hidden, k)) {
        assert [k] in hidden - {path} || Agree(v'.fields[k], w'.fields[k], Below(hidden - {path}, k));
        if k != key {
          BelowOthers(hidden, path, k);
        } else if |path| > 1 && [k] !in hidden {
          BelowSame(hidden, path);
          RedactOneKeepsTheRest(v.fields[k], w.fields[k], Below(hidden, k), path[1..]);
        } else if |path| == 1 {
          assert path == [k];
        }
      }
    } else {
      MissIsIdentity(v, path);
      MissIsIdentity(w, path);
      AgreeOutsideFewer(v, w, hidden - {path}, hidden);
    }
  }

  lemma {:induction false} MissIsIdentity(v: Json, path: Path)
    requires !RedactAt(v, path).1
    ensures RedactAt(v, path).0 == v
  {
    if path != [] && v.Object? && path[0] in v.fields && |path| > 1 {
      MissIsIdentity(v.fields[path[0]], path[1..]);
      assert v.fields[path[0] := v.fields[path[0]]] == v.fields;
    }
  }

  lemma {:induction false} AgreeOutsideFewer(v: Json, w: Json, fewer: set<Path>, hidden: set<Path>)
    requires fewer <= hidden && Agree(v, w, fewer)
    ensures Agree(v, w, hidden)
    decreases v
  {
    if v != w {
      forall k | k in v.fields ensures [k] in hidden || Agree(v.fields[k], w.fields[k], Below(hidden, k)) {
        if [k] !in fewer {
          AgreeOutsideFewer(v.fields[k], w.fields[k], Below(fewer, k), Below(hidden, k));
        }
      }
    }
  }

  lemma {:induction false} AgreeOutsideNothing(v: Json, w: Json)
    requires Agree(v, w, {})
    ensures v == w
    decreases v
  {
    if v.Object? && w.Object? && v.fields.Keys == w.fields.Keys {
      forall k | k in v.fields && Agree(v.fields[k], w.fields[k], Below({}, k)) ensures v.fields[k] == w.fields[k] {
        assert Below({}, k) == {};
        AgreeOutsideNothing(v.fields[k], w.fields[k]);
      }
      if forall k | k in v.fields :: v.fields[k] == w.fields[k] {
        assert v.fields == w.fields;
      }
    }
  }

  function PathSet(paths: seq<string>): set<Path> {
    set q | q in paths :: Segments(q)
  }

  lemma PathSetTail(paths: seq<string>)
    requires RootsFirst(paths) && paths != []
    ensures PathSet(paths[1..]) == PathSet(paths) - {Segments(paths[0])}
    ensures Segments(paths[0]) in PathSet(paths) && Segments(paths[0]) != []
    ensures forall p | p in PathSet(paths) :: !(p < Segments(paths[0]))
  {
    TailRootsFirst(paths);
    hide SplitOn, RootsFirst;
    assert paths == [paths[0]] + paths[1..];
    assert |Segments(paths[0])| >= 1;
    forall p | p in PathSet(paths) ensures !(p < Segments(paths[0])) {
      var q :| q in paths && Segments(q) == p;
      if q != paths[0] {
        assert q in paths[1..];
      }
    }
  }

  lemma {:induction false} ReportedArePaths(v: Json, paths: seq<string>)
    ensures forall q | q in RedactAll(v, paths).1 :: q in paths
    decreases |paths|
  {
    hide RedactAt;
    if paths == [] {
    } else {
      ReportedArePaths(RedactAt(v, Segments(paths[0])).0, paths[1..]);
    }
  }

  lemma SameFirstReport(a: seq<string>, b: seq<string>, p: string)
    requires p !in a && p !in b
    ensures [p] + a != b && a != [p] + b
    ensures [p] + a == [p] + b ==> a == b
  {
    assert ([p] + a)[0] == p && ([p] + b)[0] == p;
    assert ([p] + a)[1..] == a && ([p] + b)[1..] == b;
  }

  lemma {:induction false} RedactAllReveals(v: Json, w: Json, paths: seq<string>)
    requires RootsFirst(paths)
    ensures RedactAll(v, paths) == RedactAll(w, paths) <==> Agree(v, w, PathSet(paths))
    decreases |paths|
  {
    if paths == [] {
      assert PathSet(paths) == {};
      if Agree(v, w, {}) {
        AgreeOutsideNothing(v, w);
      }
    } else {
      var path := Segments(paths[0]);
      TailRootsFirst(paths);
      PathSetTail(paths);
      var v', w' := RedactAt(v, path).0, RedactAt(w, path).0;
      RedactAllReveals(v', w', paths[1..]);
      ReportedArePaths(v', paths[1..]);
      ReportedArePaths(w', paths[1..]);
      assert paths[0] !in paths[1..];
      SameFirstReport(RedactAll(v', paths[1..]).1, RedactAll(w', paths[1..]).1, paths[0]);
      hide Agree, RedactAt, PathSet, RootsFirst, SplitOn;
      if Agree(v, w, PathSet(paths)) {
        RedactOneHides(v, w, PathSet(paths), path);
      }
      if RedactAll(v, paths) == RedactAll(w, paths) {
        assert RedactAt(v, path).1 == RedactAt(w, path).1;
        RedactOneKeepsTheRest(v, w, PathSet(paths), path);
      }
    }
  }

  /**
   * What redaction reveals, exactly: two values redact to the same value with
   * the same list of redacted fields if and only if they differ at most at or
   * below paths classified above the ceiling, with the same members elsewhere.
   */
  lemma RedactionRevealsExactlyTheRest(v: Json, w: Json, restricted: map<string, DataClass>, ceiling: DataClass)
    ensures var paths := RestrictedPaths(restricted, ceiling);
            RedactAll(v, paths) == RedactAll(w, paths)
            <==> Agree(v, w, set q | q in restricted && restricted[q].Rank() > ceiling.Rank() :: Segments(q))
  {
    hide Agree, RedactAll, Segments;
    var paths := RestrictedPaths(restricted, ceiling);
    RestrictedRootsFirst(restricted, ceiling);
    RedactAllReveals(v, w, paths);
    assert PathSet(paths) == set q | q in restricted && restricted[q].Rank() > ceiling.Rank() :: Segments(q);
  }

  // ---------- what a redacted value looks like ----------

  /** The value object members lead to. */
  function Lookup(v: Json, path: Path): Option<Json> {
    if path == [] then Some(v)
    else if v.Object? && path[0] in v.fields then Lookup(v.fields[path[0]], path[1..])
    else None
  }

  lemma {:induction false} LookupAfterOne(v: Json, path: Path, q: Path)
    requires path != []
    ensures RedactAt(v, path).1 <==> Lookup(v, path).Some?
    ensures !(path <= q) && !(q <= path) ==> Lookup(RedactAt(v, path).0, q) == Lookup(v, q)
    ensures path <= q && RedactAt(v, path).1
            ==> Lookup(RedactAt(v, path).0, q) == if q == path then Some(MARKER) else None
    ensures !RedactAt(v, path).1 ==> RedactAt(v, path).0 == v
    ensures q < path && RedactAt(v, path).1
            ==> Lookup(v, q).Some? && Lookup(v, q).value.Object? && Lookup(RedactAt(v, path).0, q).Some?
    decreases |path|
  {
    if !RedactAt(v, path).1 {
      MissIsIdentity(v, path);
    }
    if v.Object? && path[0] in v.fields {
      var (v', hit) := RedactAt(v, path);
      if |path| == 1 {
        assert path[1..] == [];
        if q != [] && q[0] == path[0] {
          assert path <= q;
          assert q == path <==> q[1..] == [];
        }
      } else if q == [] {
        LookupAfterOne(v.fields[path[0]], path[1..], []);
      } else {
        LookupAfterOne(v.fields[path[0]], path[1..], q[1..]);
        assert path == [path[0]] + path[1..] && q == [q[0]] + q[1..];
        assert q[0] == path[0] ==> (path <= q <==> path[1..] <= q[1..]) && (q <= path <==> q[1..] <= path[1..]);
        assert q[0] != path[0] ==> !(path <= q) && !(q <= path);
      }
    }
  }

  lemma {:induction false} PrefixesArePresent(v: Json, p: Path, q: Path)
    requires p <= q && Lookup(v, q).Some?
    ensures Lookup(v, p).Some?
    decreases |p|
  {
    if p == [] {
    } else {
      assert p[1..] <= q[1..];
      PrefixesArePresent(v.fields[p[0]], p[1..], q[1..]);
    }
  }

  lemma {:induction false} OthersKeep(v: Json, paths: seq<string>, q: Path)
    requires forall p | p in paths :: !(Segments(p) <= q) && !(q <= Segments(p))
    ensures Lookup(RedactAll(v, paths).0, q) == Lookup(v, q)
    decreases |paths|
  {
    hide Lookup, RedactAt, SplitOn;
    if paths == [] {
    } else {
      LookupAfterOne(v, Segments(paths[0]), q);
      OthersKeep(RedactAt(v, Segments(paths[0])).0, paths[1..], q);
    }
  }

  /**
   * Every path that is neither below nor above a path classified above the
   * ceiling keeps its value, present or absent.
   */
  lemma DisjointPathsKeepTheirValue(v: Json, restricted: map<string, DataClass>, ceiling: DataClass, q: Path)
    requires forall p | p in restricted && restricted[p].Rank() > ceiling.Rank() ::
             !(Segments(p) <= q) && !(q <= Segments(p))
    ensures Lookup(RedactAll(v, RestrictedPaths(restricted, ceiling)).0, q) == Lookup(v, q)
  {
    OthersKeep(v, RestrictedPaths(restricted, ceiling), q);
  }

  predicate Masked(o: Option<Json>) {
    o.Some? ==> o.value == MARKER
  }

  lemma {:induction false} MaskedStays(v: Json, paths: seq<string>, q: Path)
    requires Masked(Lookup(v, q))
    ensures Masked(Lookup(RedactAll(v, paths).0, q))
    decreases |paths|
  {
    hide Lookup, RedactAt, SplitOn;
    if paths == [] {
    } else {
      var p := Segments(paths[0]);
      LookupAfterOne(v, p, q);
      assert q <= p ==> q < p || q == p;
      MaskedStays(RedactAt(v, p).0, paths[1..], q);
    }
  }

  lemma {:induction false} RestrictedAreMasked(v: Json, paths: seq<string>, q: string)
    requires q in paths
    ensures Masked(Lookup(RedactAll(v, paths).0, Segments(q)))
    decreases |paths|
  {
    hide Lookup, RedactAt, SplitOn;
    var p := Segments(paths[0]);
    LookupAfterOne(v, p, Segments(q));
    if q == paths[0] {
      MaskedStays(RedactAt(v, p).0, paths[1..], Segments(q));
    } else {
      assert q in paths[1..];
      RestrictedAreMasked(RedactAt(v, p).0, paths[1..], q);
    }
  }

  lemma {:induction false} ReportedWhenTopmost(v: Json, paths: seq<string>, q: string)
    requires RootsFirst(paths) && q in paths
    ensures q in RedactAll(v, paths).1
       <==> Lookup(v, Segments(q)).Some? && forall p | p in paths :: !(Segments(p) < Segments(q))
    decreases |paths|
  {
    var p, at := Segments(paths[0]), Segments(q);
    TailRootsFirst(paths);
    PathSetTail(paths);
    var (v', hit) := RedactAt(v, p);
    LookupAfterOne(v, p, at);
    ReportedArePaths(v', paths[1..]);
    hide Lookup, RedactAt, SplitOn, RootsFirst;
    assert paths == [paths[0]] + paths[1..];
    if q == paths[0] {
      forall r | r in paths ensures !(Segments(r) < at) {
        assert Segments(r) in PathSet(paths);
      }
    } else {
      ReportedWhenTopmost(v', paths[1..], q);
      if p <= at && Lookup(v, at).Some? {
        PrefixesArePresent(v, p, at);
      }
      assert p <= at ==> p < at;
      assert Lookup(v', at).Some? <==> Lookup(v, at).Some? && !(p < at);
    }
  }

  /**
   * A path classified above the ceiling is afterwards absent or the marker,
   * and it is reported exactly when it was there and lies under no other such path.
   */
  lemma RestrictedPathsAreMasked(v: Json, restricted: map<string, DataClass>, ceiling: DataClass, q: string)
    requires q in restricted && restricted[q].Rank() > ceiling.Rank()
    ensures var (redacted, reported) := RedactAll(v, RestrictedPaths(restricted, ceiling));
            && Masked(Lookup(redacted, Segments(q)))
            && (q in reported
                <==> Lookup(v, Segments(q)).Some?
                     && forall p | p in restricted && restricted[p].Rank() > ceiling.Rank() ::
                        !(Segments(p) < Segments(q)))
  {
    hide Lookup, RedactAll, Segments;
    var paths := RestrictedPaths(restricted, ceiling);
    RestrictedRootsFirst(restricted, ceiling);
    RestrictedAreMasked(v, paths, q);
    ReportedWhenTopmost(v, paths, q);
  }
}
