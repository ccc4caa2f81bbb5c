/**
 Path classification and learn mode: which paths are redirected into the enclave, and how a
 recorded session becomes a list of work-data roots.
 */
module Paths {
  import opened Common

  predicate IsSep(c: char) { c == '/' || c == '\\' }

  predicate IsAsciiAlpha(c: char) { 'a' <= c <= 'z' || 'A' <= c <= 'Z' }

  function LowerChar(c: char): char { if 'A' <= c <= 'Z' then c - 'A' + 'a' else c }

  function SlashChar(c: char): char { if c == '\\' then '/' else c }

  /** The string with every backslash turned into a slash. */
  function Slashed(s: string): (r: string)
    ensures |r| == |s|
  {
    seq(|s|, i requires 0 <= i < |s| => SlashChar(s[i]))
  }

  function TrimEnd(s: string): (r: string)
    ensures r <= s && (r != "" ==> r[|r| - 1] != '/')
    ensures forall i :: |r| <= i < |s| ==> s[i] == '/'
  {
    if s != "" && s[|s| - 1] == '/' then TrimEnd(s[..|s| - 1]) else s
  }

  /** ASCII lower case, if folding is on. */
  function Fold(fold: bool, s: string): (r: string)
    ensures |r| == |s|
  {
    if fold then seq(|s|, i requires 0 <= i < |s| => LowerChar(s[i])) else s
  }

  predicate IsWindowsStyle(s: string) {
    '\\' in s || (|s| >= 2 && IsAsciiAlpha(s[0]) && s[1] == ':')
  }

  function Normal(fold: bool, s: string): string { Fold(fold, TrimEnd(Slashed(s))) }

  /** `q` is `p` or continues it with a slash. */
  predicate Extends(q: string, p: string) { q == p || (p <= q && |q| > |p| && q[|p|] == '/') }

  predicate Under(path: string, prefix: string) {
    var fold := IsWindowsStyle(prefix);
    var p := Normal(fold, prefix);
    p != "" &&
    Extends(Normal(fold, path), p)
  }

  // ----- what "under" means: component lists -----

  /** The components between slashes; a string without a slash is one component. */
  function Split(s: string): (r: seq<string>)
    ensures |r| >= 1
  {
    if s == "" then [""]
    else
      var rest := Split(s[1..]);
      if s[0] == '/' then [""] + rest else [[s[0]] + rest[0]] + rest[1..]
  }

  lemma {:induction false} PrefixIsComponentPrefix(p: string, q: string)
    ensures Extends(q, p) <==> Split(p) <= Split(q)
    decreases |p|
  {
    if p == "" {
    } else if q == "" {
      assert |Split(p)| == 1 ==> Split(p)[0] != "";
    } else {
      var p', q' := p[1..], q[1..];
      PrefixIsComponentPrefix(p', q');
      assert p == [p[0]] + p' && q == [q[0]] + q';
      if p[0] == q[0] {
        SplitStep(p[0], p', q');
        assert p <= q <==> p' <= q';
        assert p <= q && |q| > |p| ==> q[|p|] == q'[|p'|];
      } else {
        FirstComponent(p);
        FirstComponent(q);
      }
    }
  }

  lemma FirstComponent(s: string)
    requires s != ""
    ensures s[0] == '/' ==> Split(s)[0] == ""
    ensures s[0] != '/' ==> Split(s)[0] != "" && Split(s)[0][0] == s[0]
  {
  }

  lemma ConsPrefix<T>(x: T, y: T, a: seq<T>, b: seq<T>)
    ensures [x] + a <= [y] + b <==> x == y && a <= b
  {
    if [x] + a <= [y] + b {
      assert ([x] + a)[0] == ([y] + b)[0];
      assert a == ([x] + a)[1..] && b == ([y] + b)[1..];
    }
  }

  lemma SplitStep(c: char, p: string, q: string)
    ensures Split([c] + p) <= Split([c] + q) <==> Split(p) <= Split(q)
  {
    assert ([c] + p)[1..] == p && ([c] + q)[1..] == q;
    var sp, sq := Split(p), Split(q);
    if c == '/' {
      ConsPrefix("", "", sp, sq);
    } else {
      assert sp == [sp[0]] + sp[1..] && sq == [sq[0]] + sq[1..];
      assert [c] + sp[0] == [c] + sq[0] <==> sp[0] == sq[0] by {
        assert ([c] + sp[0])[1..] == sp[0] && ([c] + sq[0])[1..] == sq[0];
      }
      ConsPrefix(sp[0], sq[0], sp[1..], sq[1..]);
      ConsPrefix([c] + sp[0], [c] + sq[0], sp[1..], sq[1..]);
    }
  }

  /** `Under` holds exactly when the prefix is not blank and its components start those of the path. */
  lemma UnderIsComponentPrefix(path: string, prefix: string)
    ensures var fold := IsWindowsStyle(prefix);
            Under(path, prefix) <==>
              Normal(fold, prefix) != "" && Split(Normal(fold, prefix)) <= Split(Normal(fold, path))
  {
    var fold := IsWindowsStyle(prefix);
    PrefixIsComponentPrefix(Normal(fold, prefix), Normal(fold, path));
  }

  // ----- classification -----

  datatype PathClass = WorkData | SystemCow | PassThrough

  datatype FilePolicy = FilePolicy(workDataRoots: seq<string>, cowRoots: seq<string>)

  predicate UnderAny(path: string, roots: seq<string>) {
    exists i :: 0 <= i < |roots| && Under(path, roots[i])
  }

  function ClassifyPath(path: string, mount: string, passthrough: seq<string>, files: FilePolicy): PathClass {
    if Under(path, mount) then PassThrough
    else if UnderAny(path, passthrough) then PassThrough
    else if UnderAny(path, files.workDataRoots) then WorkData
    else if UnderAny(path, files.cowRoots) then SystemCow
    else PassThrough
  }

  /** The path has the components of the root as its first ones, by the root's own rules for case. */
  predicate Within(path: string, root: string) {
    var fold := IsWindowsStyle(root);
    Normal(fold, root) != "" && Split(Normal(fold, root)) <= Split(Normal(fold, path))
  }

  ghost predicate WithinAny(path: string, roots: seq<string>) { exists r :: r in roots && Within(path, r) }

  lemma WithinAnyIff(path: string, roots: seq<string>)
    ensures UnderAny(path, roots) <==> WithinAny(path, roots)
  {
    forall r ensures Under(path, r) <==> Within(path, r) {
      UnderIsComponentPrefix(path, r);
    }
    if UnderAny(path, roots) {
      var i :| 0 <= i < |roots| && Under(path, roots[i]);
      assert roots[i] in roots && Within(path, roots[i]);
    }
    if WithinAny(path, roots) {
      var r :| r in roots && Within(path, r);
      var i :| 0 <= i < |roots| && roots[i] == r;
      assert Under(path, roots[i]);
    }
  }

  /**
   A path is work data iff it lies within a work-data root, and copy-on-write iff it lies within such a root
   and no work-data root, unless it lies within the mount or a passthrough root; all else passes through.
   */
  lemma ClassifyMeans(path: string, mount: string, passthrough: seq<string>, files: FilePolicy)
    ensures var (r, exempt) := (ClassifyPath(path, mount, passthrough, files), Within(path, mount) || WithinAny(path, passthrough));
            && (r == WorkData <==> !exempt && WithinAny(path, files.workDataRoots))
            && (r == SystemCow <==> !exempt && !WithinAny(path, files.workDataRoots) && WithinAny(path, files.cowRoots))
            && (r == PassThrough <==>
                  exempt || (!WithinAny(path, files.workDataRoots) && !WithinAny(path, files.cowRoots)))
  {
    UnderIsComponentPrefix(path, mount);
    WithinAnyIff(path, passthrough);
    WithinAnyIff(path, files.workDataRoots);
    WithinAnyIff(path, files.cowRoots);
  }

  /** The same letter up to case, or the same character. */
  predicate SameLetter(x: char, y: char) {
    || x == y
    || ('A' <= x <= 'Z' && y as int - x as int == 32)
    || ('A' <= y <= 'Z' && x as int - y as int == 32)
  }

  predicate SameSpelling(a: string, b: string) {
    |a| == |b| && forall i :: 0 <= i < |a| ==> SameLetter(a[i], b[i])
  }

  /** A prefix with a backslash or a drive letter ignores case in the path. */
  lemma WindowsPrefixIgnoresCase(path: string, other: string, prefix: string)
    requires SameSpelling(path, other)
    requires '\\' in prefix || (|prefix| >= 2 && ('a' <= prefix[0] <= 'z' || 'A' <= prefix[0] <= 'Z') && prefix[1] == ':')
    ensures Under(path, prefix) <==> Under(other, prefix)
  {
    SameNormal(path, other);
  }

  lemma {:induction false} SameNormal(a: string, b: string)
    requires SameSpelling(a, b)
    ensures Normal(true, a) == Normal(true, b)
  {
    var x, y := Slashed(a), Slashed(b);
    assert forall i :: 0 <= i < |x| ==> SameLetter(x[i], y[i]);
    SameTrim(x, y);
  }

  lemma {:induction false} SameTrim(x: string, y: string)
    requires SameSpelling(x, y)
    ensures SameSpelling(TrimEnd(x), TrimEnd(y)) && Fold(true, TrimEnd(x)) == Fold(true, TrimEnd(y))
  {
    if x != "" {
      assert SameLetter(x[|x| - 1], y[|y| - 1]);
      if x[|x| - 1] == '/' {
        SameTrim(x[..|x| - 1], y[..|y| - 1]);
      }
    }
  }

  /** Any other prefix is compared as it is: up to slashes at its end, the path starts with it, letter by letter. */
  lemma OtherPrefixIsExact(path: string, prefix: string)
    requires '\\' !in prefix && !(|prefix| >= 2 && ('a' <= prefix[0] <= 'z' || 'A' <= prefix[0] <= 'Z') && prefix[1] == ':')
    requires Under(path, prefix)
    ensures var p := TrimEnd(prefix);
            p != "" && |p| <= |path| && forall i :: 0 <= i < |p| ==> p[i] == if path[i] == '\\' then '/' else path[i]
  {
    assert Slashed(prefix) == prefix;
    assert TrimEnd(prefix) <= TrimEnd(Slashed(path)) <= Slashed(path);
  }

  // ----- learn mode -----

  /** Position of the last separator. */
  function LastSep(s: string): (r: Option<nat>)
    ensures r.Some? ==> r.value < |s| && IsSep(s[r.value])
    ensures forall i :: (if r.Some? then r.value + 1 else 0) <= i < |s| ==> !IsSep(s[i])
  {
    if s == "" then None
    else if IsSep(s[|s| - 1]) then Some(|s| - 1)
    else LastSep(s[..|s| - 1])
  }

  /** The text before the last separator, if there is any. */
  function ParentDir(path: string): Option<string> {
    match LastSep(path)
    case None => None
    case Some(i) => if i == 0 then None else Some(path[..i])
  }

  /** The parent of a path is what stands before its last separator, if that is anything. */
  lemma ParentDirMeans(path: string, dir: string)
    ensures ParentDir(path) == Some(dir) <==>
            dir != "" && |dir| < |path| && dir == path[..|dir|] && IsSep(path[|dir|])
            && forall i :: |dir| < i < |path| ==> !IsSep(path[i])
  {
  }

  predicate HasName(s: string) { exists i :: 0 <= i < |s| && !IsSep(s[i]) }

  lemma FoldConcat(fold: bool, a: string, b: string)
    ensures Fold(fold, a + b) == Fold(fold, a) + Fold(fold, b)
  {
  }

  /** Trimming keeps everything up to the last character that is not a slash. */
  lemma {:induction false} TrimPrefix(a: string, n: nat)
    requires n <= |a| && (forall i :: n <= i < |a| ==> a[i] == '/') && (n > 0 ==> a[n - 1] != '/')
    ensures TrimEnd(a) == a[..n]
    decreases |a|
  {
    if n == |a| {
      assert a[..n] == a;
    } else {
      TrimPrefix(a[..|a| - 1], n);
      assert a[..|a| - 1][..n] == a[..n];
    }
  }

  lemma FoldExtends(fold: bool, q: string, p: string)
    requires Extends(q, p)
    ensures Extends(Fold(fold, q), Fold(fold, p))
  {
    assert q == p + q[|p|..];
    FoldConcat(fold, p, q[|p|..]);
  }

  lemma ParentExtends(path: string)
    requires ParentDir(path).Some? && HasName(ParentDir(path).value)
    ensures Extends(TrimEnd(Slashed(path)), TrimEnd(Slashed(ParentDir(path).value)))
  {
    var dir := ParentDir(path).value;
    var whole, part := Slashed(path), TrimEnd(Slashed(dir));
    assert whole[..|dir|] == Slashed(dir) && whole[|dir|] == '/';
    if |dir| + 1 == |path| {
      BlankIff(dir);
      assert forall i :: |part| <= i < |dir| ==> whole[i] == Slashed(dir)[i];
      TrimPrefix(whole, |part|);
      assert whole[..|part|] == part;
    } else {
      assert whole[|whole| - 1] != '/';
      TrimPrefix(whole, |whole|);
      assert whole[..|whole|] == whole;
      assert whole[|part|] == '/';
      assert part <= whole;
    }
  }

  /** A path lies under its own parent text exactly when that text has a character besides separators. */
  lemma UnderOwnParentIff(path: string)
    requires ParentDir(path).Some?
    ensures Under(path, ParentDir(path).value) <==> HasName(ParentDir(path).value)
  {
    var dir := ParentDir(path).value;
    BlankIff(dir);
    if HasName(dir) {
      ParentExtends(path);
      FoldExtends(IsWindowsStyle(dir), TrimEnd(Slashed(path)), TrimEnd(Slashed(dir)));
    }
  }

  lemma BlankIff(dir: string)
    ensures TrimEnd(Slashed(dir)) == "" <==> !HasName(dir)
  {
    var part := TrimEnd(Slashed(dir));
    if part != "" {
      assert !IsSep(dir[|part| - 1]);
    } else {
      forall i | 0 <= i < |dir| ensures IsSep(dir[i]) {
        assert Slashed(dir)[i] == '/';
      }
    }
  }

  datatype Observation = PathAccess(path: string, write: bool) | NamedObject(name: string)

  datatype ContainerKind = Native | Chromium

  datatype LaunchProfile = LaunchProfile(
    profileSubdir: string, container: ContainerKind, args: seq<string>, env: seq<(string, string)>,
    namespacePrefix: Option<string>, hiveSeed: Option<string>, passthroughPaths: seq<string>, seedHome: seq<string>)

  datatype LearnedProfile = LearnedProfile(appId: string, workDataRoots: seq<string>, launch: LaunchProfile)

  /** A launch profile of its own for the application, with a namespace if it uses named objects. */
  function Launch(appId: string, named: bool): LaunchProfile {
    LaunchProfile(appId, Native, [], [], if named then Some("Clave-" + appId + "\\") else None, None, [], [])
  }

  /** This observation makes `dir` a root. */
  predicate Suggests(obs: Observation, mount: string, dir: string) {
    obs.PathAccess? && obs.write && !Under(obs.path, mount) && ParentDir(obs.path) == Some(dir)
  }

  /** Lexicographic order of strings. */
  predicate Less(a: string, b: string) {
    b != "" && (a == "" || a[0] < b[0] || (a[0] == b[0] && Less(a[1..], b[1..])))
  }

  lemma {:induction false} LessTransitive(a: string, b: string, c: string)
    requires Less(a, b) && Less(b, c)
    ensures Less(a, c)
  {
    if a != "" && a[0] == b[0] == c[0] {
      LessTransitive(a[1..], b[1..], c[1..]);
    }
  }

  lemma {:induction false} LessTotal(a: string, b: string)
    ensures Less(a, b) || a == b || Less(b, a)
  {
    if a != "" && b != "" && a[0] == b[0] {
      LessTotal(a[1..], b[1..]);
      assert a == [a[0]] + a[1..] && b == [b[0]] + b[1..];
    }
  }

  /** Before a string comes whatever it properly continues, and whatever has a lesser character where they first differ. */
  lemma {:induction false} LessMeans(a: string, b: string)
    ensures Less(a, b) <==>
            exists k :: 0 <= k <= |a| && k < |b| && a[..k] == b[..k] && (k == |a| || a[k] < b[k])
  {
    if a == "" {
      assert b != "" ==> a[..0] == b[..0];
    } else if b != "" && a[0] == b[0] {
      LessMeans(a[1..], b[1..]);
      if Less(a[1..], b[1..]) {
        var k :| 0 <= k <= |a[1..]| && k < |b[1..]| && a[1..][..k] == b[1..][..k] && (k == |a[1..]| || a[1..][k] < b[1..][k]);
        assert a[..k + 1] == [a[0]] + a[1..][..k] && b[..k + 1] == [b[0]] + b[1..][..k];
      }
      if k: int :| 0 <= k <= |a| && k < |b| && a[..k] == b[..k] && (k == |a| || a[k] < b[k]) {
        assert k > 0;
        assert a[1..][..k - 1] == a[..k][1..] && b[1..][..k - 1] == b[..k][1..];
      }
    } else if b != "" && a[0] < b[0] {
      assert a[..0] == b[..0];
    } else {
      forall k | 0 < k <= |a| && k < |b| ensures a[..k] != b[..k] {
        assert a[..k][0] == a[0] && b[..k][0] == b[0];
      }
    }
  }

  predicate StrictlySorted(s: seq<string>) { forall i, j :: 0 <= i < j < |s| ==> Less(s[i], s[j]) }

  /** The place of `x` in a sorted list. */
  method InsertSorted(x: string, s: seq<string>) returns (r: seq<string>)
    requires StrictlySorted(s) && x !in s
    ensures StrictlySorted(r)
    ensures forall y :: y in r <==> y == x || y in s
  {
    var i := 0;
    while i < |s| && Less(s[i], x)
      invariant 0 <= i <= |s|
      invariant forall j :: 0 <= j < i ==> Less(s[j], x)
    {
      i := i + 1;
    }
    if i < |s| {
      LessTotal(x, s[i]);
      forall j | i < j < |s| ensures Less(x, s[j]) {
        LessTransitive(x, s[i], s[j]);
      }
    }
    r := s[..i] + [x] + s[i..];
    assert forall y :: y in s <==> y in s[..i] || y in s[i..] by {
      assert s == s[..i] + s[i..];
    }
  }

  method Sort(s: seq<string>) returns (r: seq<string>)
    requires forall i, j :: 0 <= i < j < |s| ==> s[i] != s[j]
    ensures StrictlySorted(r)
    ensures forall y :: y in r <==> y in s
  {
    r := [];
    for i := 0 to |s|
      invariant StrictlySorted(r)
      invariant forall y :: y in r <==> y in s[..i]
    {
      r := InsertSorted(s[i], r);
      assert s[..i + 1] == s[..i] + [s[i]];
    }
    assert s[..|s|] == s;
  }

  /** One of the observations suggests the directory. */
  ghost predicate Suggested(observations: seq<Observation>, mount: string, dir: string) {
    && observations != []
    && var n := |observations| - 1;
       Suggested(observations[..n], mount, dir) || Suggests(observations[n], mount, dir)
  }

  lemma {:induction false} SuggestedIff(observations: seq<Observation>, mount: string, dir: string)
    ensures Suggested(observations, mount, dir) <==>
            exists i :: 0 <= i < |observations| && Suggests(observations[i], mount, dir)
  {
    if observations != [] {
      var n := |observations| - 1;
      SuggestedIff(observations[..n], mount, dir);
      assert forall i :: 0 <= i < n ==> observations[..n][i] == observations[i];
    }
  }

  class LearnSession {
    const appId: string
    var observations: seq<Observation>

    constructor (appId: string)
      ensures this.appId == appId && observations == []
    {
      this.appId, observations := appId, [];
    }

    method Record(obs: Observation)
      modifies this
      ensures observations == old(observations) + [obs]
    {
      observations := observations + [obs];
    }

    /** The roots are the parents of the writes outside the mount, each once and in order. */
    method Synthesize(mount: string) returns (p: LearnedProfile)
      ensures p.appId == appId
      ensures StrictlySorted(p.workDataRoots)
      ensures forall dir :: dir in p.workDataRoots <==>
                exists i :: 0 <= i < |observations| && Suggests(observations[i], mount, dir)
      ensures var named := exists i :: 0 <= i < |observations| && observations[i].NamedObject?;
              p.launch == LaunchProfile(appId, Native, [], [], if named then Some("Clave-" + appId + "\\") else None,
                                        None, [], [])
    {
      var roots: seq<string> := [];
      var named := false;
      for n := 0 to |observations|
        invariant forall i, j :: 0 <= i < j < |roots| ==> roots[i] != roots[j]
        invariant forall dir :: dir in roots <==> Suggested(observations[..n], mount, dir)
        invariant named <==> exists i :: 0 <= i < n && observations[i].NamedObject?
      {
        ghost var before := roots;
        match observations[n] {
          case PathAccess(path, write) =>
            if write && !Under(path, mount) {
              var dir := ParentDir(path);
              if dir.Some? && dir.value !in roots {
                roots := roots + [dir.value];
              }
            }
          case NamedObject(_) =>
            named := true;
        }
        assert forall dir :: dir in roots <==> dir in before || Suggests(observations[n], mount, dir);
        assert observations[..n + 1][..n] == observations[..n];
      }
      assert observations[..|observations|] == observations;
      forall dir ensures dir in roots <==> exists i :: 0 <= i < |observations| && Suggests(observations[i], mount, dir) {
        SuggestedIff(observations, mount, dir);
      }
      var sorted := Sort(roots);
      p := LearnedProfile(appId, sorted, Launch(appId, named));
    }
  }

  /** Every learned write whose parent has a name is classified as work data afterwards. */
  lemma LearnedWritesAreWorkData(observations: seq<Observation>, mount: string, roots: seq<string>, cow: seq<string>, path: string)
    requires forall dir :: dir in roots <==> exists i :: 0 <= i < |observations| && Suggests(observations[i], mount, dir)
    requires PathAccess(path, true) in observations && !Under(path, mount)
    requires ParentDir(path).Some? && HasName(ParentDir(path).value)
    ensures ClassifyPath(path, mount, [], FilePolicy(roots, cow)) == WorkData
  {
    var dir := ParentDir(path).value;
    var i :| 0 <= i < |observations| && observations[i] == PathAccess(path, true);
    assert Suggests(observations[i], mount, dir);
    assert dir in roots;
    var k :| 0 <= k < |roots| && roots[k] == dir;
    UnderOwnParentIff(path);
    assert Under(path, roots[k]);
  }
}
