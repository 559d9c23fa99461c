/** The closed capability vocabulary, the resource grammar and resource selectors. */
module Vocabulary {
  import opened TextSplit

  datatype Action =
    | FsRead | FsWrite | FsDelete
    | ProcessSpawn | ProcessSignal
    | NetworkHttp | NetworkRaw | NetworkListen
    | SecretUse | BrowserControl
    | GitCommit | GitPush | GitForce
    | CloudDeploy
    | ExternalRead | ExternalWrite
    | PluginInstall | CapabilityPublish | SelfProposeChange
  {
    function Name(): string {
      match this
      case FsRead => "fs.read"
      case FsWrite => "fs.write"
      case FsDelete => "fs.delete"
      case ProcessSpawn => "process.spawn"
      case ProcessSignal => "process.signal"
      case NetworkHttp => "network.http"
      case NetworkRaw => "network.raw"
      case NetworkListen => "network.listen"
      case SecretUse => "secret.use"
      case BrowserControl => "browser.control"
      case GitCommit => "git.commit"
      case GitPush => "git.push"
      case GitForce => "git.force"
      case CloudDeploy => "cloud.deploy"
      case ExternalRead => "external.read"
      case ExternalWrite => "external.write"
      case PluginInstall => "plugin.install"
      case CapabilityPublish => "capability.publish"
      case SelfProposeChange => "self.propose-change"
    }

    function Scheme(): string {
      match this
      case FsRead | FsWrite | FsDelete => "workspace"
      case ProcessSpawn | ProcessSignal => "process"
      case NetworkHttp | NetworkRaw | NetworkListen => "network"
      case SecretUse => "secret"
      case BrowserControl => "browser"
      case GitCommit | GitPush | GitForce => "git"
      case CloudDeploy => "cloud"
      case ExternalRead | ExternalWrite => "external"
      case PluginInstall => "plugin"
      case CapabilityPublish => "capability"
      case SelfProposeChange => "self"
    }

    predicate RequiresSandbox() {
      !ExternalRead? && !ExternalWrite?
    }

    predicate RequiresSecret() {
      SecretUse? || GitPush? || GitForce? || CloudDeploy?
    }

    /** `ApprovalMode::Always`; the other actions are risk-based. */
    predicate AlwaysNeedsApproval() {
      !FsRead? && !FsWrite? && !GitCommit? && !ExternalRead?
    }
  }

  lemma NamesAreDistinct(a: Action, b: Action)
    requires a.Name() == b.Name()
    ensures a == b
  {
    assert |a.Name()| == |b.Name()| && a.Name()[1] == b.Name()[1];
  }

  /** Character classes and the encoded length of text. */
  datatype TextRules = TextRules(control: char -> bool, whitespace: char -> bool, byteLength: string -> nat)

  predicate StartsWith(s: string, prefix: string) {
    prefix <= s
  }

  /** Contains `%2e` in either case. */
  predicate HasEncodedDot(s: string) {
    exists i :: 0 <= i < |s| - 2 && s[i] == '%' && s[i + 1] == '2' && (s[i + 2] == 'e' || s[i + 2] == 'E')
  }

  predicate ValidResource(rules: TextRules, action: Action, value: string) {
    && rules.byteLength(value) <= 2048
    && (forall c | c in value :: !rules.control(c) && !rules.whitespace(c) && c != '?' && c != '#' && c != '\\')
    && StartsWith(value, action.Scheme() + "://")
    && var remainder := value[|action.Scheme() + "://"|..];
       && remainder != ""
       && remainder[0] != '/'
       && (forall part | part in SplitOn(remainder, '/') :: part != "" && part != "." && part != "..")
       && !HasEncodedDot(remainder)
  }

  datatype Pattern = Exact(resource: string) | Prefix(resource: string)

  function TrimSlashes(s: string): (t: string)
    ensures t <= s && (t == "" || t[|t| - 1] != '/')
    ensures s == "" || s[|s| - 1] != '/' ==> t == s
  {
    if s != "" && s[|s| - 1] == '/' then TrimSlashes(s[..|s| - 1]) else s
  }

  /** Whether the selector contains the resource. */
  predicate Covers(p: Pattern, resource: string) {
    match p
    case Exact(expected) => expected == resource
    case Prefix(root) =>
      var t := TrimSlashes(root);
      resource == t || (StartsWith(resource, t) && StartsWith(resource[|t|..], "/"))
  }

  /** Whether the first selector is no narrower than the second. */
  predicate PatternCovers(parent: Pattern, child: Pattern) {
    match child
    case Exact(r) => Covers(parent, r)
    case Prefix(r) => parent.Prefix? && Covers(parent, r)
  }

  // ---------- what a selector contains ----------

  predicate Canonical(resource: string) {
    resource != "" && resource[|resource| - 1] != '/'
  }

  lemma ValidIsCanonical(rules: TextRules, action: Action, value: string)
    requires ValidResource(rules, action, value)
    ensures Canonical(value)
  {
    var head := |action.Scheme() + "://"|;
    var remainder := value[head..];
    if remainder[|remainder| - 1] == '/' {
      TrailingSeparator(remainder, '/');
    }
    assert value[|value| - 1] == remainder[|remainder| - 1];
  }

  /** Below a root: the root's text, a slash and more. */
  lemma CoversBelow(root: string, resource: string)
    requires Canonical(root)
    ensures Covers(Prefix(root), resource)
        <==> resource == root || exists rest :: resource == root + (['/'] + rest)
  {
    if Covers(Prefix(root), resource) && resource != root {
      var rest := resource[|root| + 1..];
      assert resource[..|root|] == root && resource[|root|] == resource[|root|..][0] == '/';
      assert resource == root + (['/'] + rest);
    }
    if exists rest :: resource == root + (['/'] + rest) {
      var rest :| resource == root + (['/'] + rest);
      assert resource[..|root|] == root && resource[|root|..] == ['/'] + rest;
    }
  }

  /**
   * A prefix selector contains exactly the resources whose path segments begin
   * with its own: no resource that merely shares leading characters.
   */
  lemma PrefixIsSegmentwise(root: string, resource: string)
    requires Canonical(root)
    ensures Covers(Prefix(root), resource) <==> SplitOn(root, '/') <= SplitOn(resource, '/')
  {
    hide SplitOn, JoinOn, Covers;
    CoversBelow(root, resource);
    var head, whole := SplitOn(root, '/'), SplitOn(resource, '/');
    if Covers(Prefix(root), resource) {
      if resource != root {
        var rest :| resource == root + (['/'] + rest);
        SplitConcat(root, rest, '/');
      }
    }
    if head <= whole {
      JoinSplit(root, '/');
      JoinSplit(resource, '/');
      if |head| == |whole| {
        assert head == whole;
      } else {
        var below := whole[|head|..];
        assert head + below == whole;
        JoinConcat(head, below, '/');
        assert resource == root + (['/'] + JoinOn(below, '/'));
      }
    }
  }

  predicate CanonicalPattern(p: Pattern) {
    Canonical(p.resource)
  }

  lemma CoversItself(p: Pattern)
    requires CanonicalPattern(p)
    ensures Covers(p, p.resource)
  {
  }

  /** One selector is accepted as no broader than another exactly when everything it contains the other contains too. */
  lemma NarrowingIsExact(parent: Pattern, child: Pattern)
    requires CanonicalPattern(parent) && CanonicalPattern(child)
    ensures PatternCovers(parent, child) <==> forall r :: Covers(child, r) ==> Covers(parent, r)
  {
    CoversItself(child);
    if PatternCovers(parent, child) && child.Prefix? {
      forall r | Covers(child, r) ensures Covers(parent, r) {
        PrefixIsSegmentwise(child.resource, r);
        PrefixIsSegmentwise(parent.resource, child.resource);
        PrefixIsSegmentwise(parent.resource, r);
        hide SplitOn, Covers;
        assert Covers(Prefix(parent.resource), child.resource);
        SeqPrefixTransitive(SplitOn(parent.resource, '/'), SplitOn(child.resource, '/'), SplitOn(r, '/'));
      }
    }
    if child.Prefix? && parent.Exact? {
      var below := child.resource + (['/'] + "x");
      CoversBelow(child.resource, below);
      assert Covers(child, below) && below != child.resource;
    }
  }

  lemma SeqPrefixTransitive(a: seq<string>, b: seq<string>, c: seq<string>)
    requires a <= b && b <= c
    ensures a <= c
  {
    assert a == b[..|a|] && b == c[..|b|];
  }
}
