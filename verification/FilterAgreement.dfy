/** On plain filters the folder walk and the single-path predicate accept the same files. */
module FilterAgreement {
  import opened Text
  import opened Lists
  import opened FileTree
  import opened FileWalk
  import opened FilterSpec
  import opened Enumerate
  import opened PathFilter

  // ----- plain filters

  /** One path segment that means itself to the parser and to the matcher. */
  predicate Ordinary(s: string) {
    && IsName(s) && !HasGlob(s)
    && s[0] != '-' && s[0] != '+' && s[|s| - 1] != '+'
    && !IsSpacePy(s[0]) && !IsSpacePy(s[|s| - 1])
  }

  predicate PlainInclude(token: string) {
    || token == "*"
    || Ordinary(token)
    || (EndsWith(token, "/*") && Ordinary(token[..|token| - 2]))
  }

  /** -x, in its short form. */
  predicate PlainExclude(token: string) {
    token != "" && token[0] == '-' && Ordinary(token[1..])
  }

  /** The characters at the ends of a token that the parser does not strip. */
  predicate Firm(token: string) {
    && token != "" && token != "."
    && !IsSpacePy(token[0]) && !IsSpacePy(token[|token| - 1])
    && token[0] != '+' && token[|token| - 1] != '+' && token[0] != '-'
  }

  lemma FirmParses(token: string)
    requires Firm(token)
    ensures IncludesOf(token) == [token] && ExcludesOf(token) == []
  {
    StripNoop(token, IsSpacePy);
    StripNoop(token, IsPlus);
  }

  lemma OrdinaryParses(token: string)
    requires Ordinary(token)
    ensures IncludesOf(token) == [token] && ExcludesOf(token) == [] && ExpandRsyncDir(token) == [token]
  {
    FirmParses(token);
    assert token[|token| - 1] !in "*?[]";
  }

  lemma ChildrenParses(token: string, s: string)
    requires s != "" && s[0] != '-' && s[0] != '+' && !IsSpacePy(s[0]) && token == s + "/*"
    ensures IncludesOf(token) == [token] && ExcludesOf(token) == [] && ExpandRsyncDir(token) == [token]
  {
    assert token[0] == s[0] && token[|token| - 1] == '*' && token[|token| - 2] == '/';
    FirmParses(token);
  }

  lemma StarParses(token: string)
    requires |token| == 1 && token[0] == '*'
    ensures IncludesOf(token) == [token] && ExcludesOf(token) == [] && ExpandRsyncDir(token) == [token]
  {
    assert Firm(token);
    FirmParses(token);
  }

  lemma PlainIncludeParses(token: string)
    requires PlainInclude(token)
    ensures IncludesOf(token) == [token] && ExcludesOf(token) == [] && ExpandRsyncDir(token) == [token]
  {
    if token == "*" {
      StarParses(token);
    } else if Ordinary(token) {
      OrdinaryParses(token);
    } else {
      ChildrenParses(token, token[..|token| - 2]);
    }
  }

  lemma PlainExcludeParses(token: string)
    requires PlainExclude(token)
    ensures var name := token[1..];
            IncludesOf(token) == [] && ExcludesOf(token) == [name, name + "/**"]
  {
    var name := token[1..];
    StripNoop(token, IsSpacePy);
    assert StripLeft(token, IsDash) == StripLeft(name, IsDash) == name;
  }

  lemma BareExclude(name: string)
    requires Ordinary(name)
    ensures BareNameOf(name) == [name] && GlobPathOf(name) == []
  {
  }

  lemma SubtreeExclude(name: string, pattern: string)
    requires name != "" && name[0] != '-' && pattern == name + "/**"
    ensures BareNameOf(pattern) == [] && GlobPathOf(pattern) == [pattern]
  {
  }

  // ----- what a plain filter parses to

  function PlainNameOf(token: string): seq<string> {
    if PlainExclude(token) then [token[1..]] else []
  }

  function PlainIncludeOf(token: string): seq<string> {
    if PlainExclude(token) then [] else [token]
  }

  function SubtreeOf(name: string): seq<string> {
    [name + "/**"]
  }

  /** The names that the filter excludes. */
  function PlainExcludes(expanded: seq<string>): seq<string> {
    FlatMap(PlainNameOf, expanded)
  }

  function PlainIncludes(expanded: seq<string>): seq<string> {
    FlatMap(PlainIncludeOf, expanded)
  }

  function Subtrees(names: seq<string>): seq<string> {
    FlatMap(SubtreeOf, names)
  }

  predicate Plain(expanded: seq<string>) {
    forall i :: 0 <= i < |expanded| ==> PlainInclude(expanded[i]) || PlainExclude(expanded[i])
  }

  /** A filter whose tokens, once directives are in their short form, are plain includes and plain excludes. */
  predicate PlainFilter(filter: seq<string>) {
    Plain(ExpandDirectives(filter))
  }

  lemma {:induction false} IncludesArePlain(expanded: seq<string>)
    requires Plain(expanded)
    ensures Includes(expanded) == PlainIncludes(expanded)
    ensures forall i :: 0 <= i < |PlainIncludes(expanded)| ==> PlainInclude(PlainIncludes(expanded)[i])
  {
    if expanded != [] {
      var n := |expanded| - 1;
      IncludesArePlain(expanded[..n]);
      if PlainExclude(expanded[n]) {
        PlainExcludeParses(expanded[n]);
      } else {
        PlainIncludeParses(expanded[n]);
      }
    }
  }

  lemma RsyncLeavesPlain(includes: seq<string>)
    requires forall i :: 0 <= i < |includes| ==> PlainInclude(includes[i])
    ensures ExpandRsyncDirs(includes) == includes
  {
    forall i | 0 <= i < |includes| ensures ExpandRsyncDir(includes[i]) == [includes[i]] {
      PlainIncludeParses(includes[i]);
    }
    FlatMapSame(ExpandRsyncDir, includes);
  }

  lemma ExcludePush(bareOf: string -> seq<string>, globOf: string -> seq<string>, excludes: seq<string>,
                    name: string, subtree: string)
    requires bareOf(name) == [name] && bareOf(subtree) == [] && globOf(name) == [] && globOf(subtree) == [subtree]
    ensures FlatMap(bareOf, excludes + [name, subtree]) == FlatMap(bareOf, excludes) + [name]
    ensures FlatMap(globOf, excludes + [name, subtree]) == FlatMap(globOf, excludes) + [subtree]
  {
    FlatMapPushTwo(bareOf, excludes, name, subtree, [name]);
    FlatMapPushTwo(globOf, excludes, name, subtree, [subtree]);
  }

  lemma PlainExcludePush(excludes: seq<string>, name: string)
    requires Ordinary(name)
    ensures var more := excludes + [name, name + "/**"];
            && FlatMap(BareNameOf, more) == FlatMap(BareNameOf, excludes) + [name]
            && FlatMap(GlobPathOf, more) == FlatMap(GlobPathOf, excludes) + [name + "/**"]
  {
    BareExclude(name);
    SubtreeExclude(name, name + "/**");
    ExcludePush(BareNameOf, GlobPathOf, excludes, name, name + "/**");
  }

  lemma {:induction false} ExcludesArePlain(expanded: seq<string>)
    requires Plain(expanded)
    ensures var names := PlainExcludes(expanded);
            && FlatMap(BareNameOf, Excludes(expanded)) == names
            && GlobPaths(Excludes(expanded)) == Subtrees(names)
            && forall x :: x in names ==> Ordinary(x)
  {
    if expanded != [] {
      var n := |expanded| - 1;
      var last := expanded[n];
      ExcludesArePlain(expanded[..n]);
      if PlainExclude(last) {
        PlainExcludeParses(last);
        PlainExcludePush(Excludes(expanded[..n]), last[1..]);
        FlatMapPush(SubtreeOf, PlainExcludes(expanded[..n]), last[1..]);
      } else {
        PlainIncludeParses(last);
        assert Excludes(expanded) == Excludes(expanded[..n]);
        assert PlainExcludes(expanded) == PlainExcludes(expanded[..n]);
      }
    }
  }

  /** Excluding a name's subtree excludes exactly the paths directly in a folder of that name. */
  lemma {:induction false} SubtreesExclude(names: seq<string>, parts: seq<string>)
    requires forall x :: x in names ==> Ordinary(x)
    ensures ExcludedPath(parts, Subtrees(names)) <==> |parts| >= 2 && parts[|parts| - 2] in names
  {
    if names == [] {
    } else {
      var n := |names| - 1;
      var globs := Subtrees(names[..n]);
      SubtreesExclude(names[..n], parts);
      SubtreeMatch(names[n], parts);
      assert Subtrees(names)[n] == names[n] + "/**" by { SubtreesLength(names[..n]); }
      SubtreesLength(names[..n]);
      assert forall i :: 0 <= i < n ==> Subtrees(names)[i] == globs[i];
      assert names == names[..n] + [names[n]];
      if ExcludedPath(parts, globs) {
        var i :| 0 <= i < |globs| && PathMatch(parts, globs[i]);
        assert PathMatch(parts, Subtrees(names)[i]);
      }
    }
  }

  lemma {:induction false} SubtreesLength(names: seq<string>)
    ensures |Subtrees(names)| == |names|
  {
    if names != [] {
      SubtreesLength(names[..|names| - 1]);
    }
  }

  lemma SubtreeMatch(name: string, parts: seq<string>)
    requires Ordinary(name)
    ensures PathMatch(parts, name + "/**") <==> |parts| >= 2 && parts[|parts| - 2] == name
  {
    SplitHead(name, "**", '/');
    SplitHead("**", "", '/');
    assert name + "/" + "**" == name + "/**";
    RealOfReal([name, "**"]);
    assert Parts(name + "/**") == [name, "**"];
    if |parts| >= 2 {
      LiteralMatch(name, parts[|parts| - 2]);
      StarsMatch(parts[|parts| - 1]);
    }
  }

  // ----- the walk under a plain filter

  /** A plain filter's includes and excluded names. */
  datatype PlainSpec = PlainSpec(includes: seq<string>, names: seq<string>)

  function PlainSpecOf(filter: seq<string>): PlainSpec {
    PlainSpec(PlainIncludes(ExpandDirectives(filter)), PlainExcludes(ExpandDirectives(filter)))
  }

  lemma PlainParse(filter: seq<string>)
    requires PlainFilter(filter)
    ensures var spec, plain := Parse(filter), PlainSpecOf(filter);
            && spec.includes == plain.includes && spec.includeAll == (plain.includes == [])
            && BareNames(spec.excludes) == (set n | n in plain.names)
            && GlobPaths(spec.excludes) == Subtrees(plain.names)
            && (forall n :: n in plain.names ==> Ordinary(n))
            && (forall t :: t in plain.includes ==> PlainInclude(t))
            && (spec.topLevelOnly ==> !spec.includeAll)
  {
    IncludesArePlain(ExpandDirectives(filter));
    RsyncLeavesPlain(PlainIncludes(ExpandDirectives(filter)));
    ExcludesArePlain(ExpandDirectives(filter));
  }

  /** No folder on the way to the file has an excluded name. */
  predicate Clean(names: seq<string>, p: Path) {
    forall k :: 0 <= k < |p| - 1 ==> p[k] !in names
  }

  /** The walk's excluder under a plain filter. */
  ghost predicate PlainExcluder(x: Excluder, names: seq<string>) {
    && x.bare == (set n | n in names)
    && forall p :: x.excludes(p) <==> |p| >= 2 && p[|p| - 2] in names
  }

  lemma ReachedFromBase(x: Excluder, names: seq<string>, p: Path)
    requires PlainExcluder(x, names) && p != []
    ensures Reached(x, [], p) <==> Clean(names, p) && (|p| == 1 ==> x.base !in names)
  {
    assert [] + p == p;
    if Reached(x, [], p) {
      forall k | 0 <= k < |p| - 1 ensures p[k] !in names {
        assert !SkipDir(x, [] + p[..k + 1]);
      }
    }
    if Clean(names, p) {
      forall k | 0 < k < |p| ensures !SkipDir(x, [] + p[..k]) {
        var d := [] + p[..k];
        assert d == p[..k] && d[k - 1] == p[k - 1];
        assert k >= 2 ==> d[k - 2] == p[k - 2];
      }
    }
  }

  lemma ReachedFromFolder(x: Excluder, names: seq<string>, s: string, p: Path)
    requires PlainExcluder(x, names) && p != []
    ensures Reached(x, [s], p) <==> Clean(names, [s] + p)
  {
    var q := [s] + p;
    if Reached(x, [s], p) {
      forall k | 0 <= k < |q| - 1 ensures q[k] !in names {
        if 0 < k {
          assert !SkipDir(x, [s] + p[..k]);
          assert ([s] + p[..k])[k] == q[k];
        } else if |p| > 1 {
          assert !SkipDir(x, [s] + p[..1]);
        }
      }
    }
    if Clean(names, q) {
      forall k | 0 < k < |p| ensures !SkipDir(x, [s] + p[..k]) {
        var d := [s] + p[..k];
        assert d[k] == q[k] && d[k - 1] == q[k - 1];
      }
    }
  }

  lemma NotSpecial(s: string)
    requires Ordinary(s)
    ensures s != "*" && !EndsWith(s, "/*")
  {
  }

  lemma PartsOfOrdinary(s: string)
    requires Ordinary(s)
    ensures Parts(s) == [s]
  {
    SplitHead(s, "", '/');
    RealOfReal([s]);
  }

  /** What one plain include token contributes to the walk. */
  predicate TokenPicks(base: string, names: seq<string>, token: string, p: Path) {
    if token == "*" then |p| == 1
    else
      && Clean(names, p) && (|p| == 1 ==> base !in names)
      && p != []
      && (token != "" ==> if EndsWith(token, "/*") then |p| == 2 && p[0] + "/*" == token else p[0] == token)
  }

  lemma SubtreePicks(src: Source, spec: Spec, x: Excluder, names: seq<string>, s: string, p: Path)
    requires Valid(src.tree) && PlainExcluder(x, names) && x.base == src.base && Ordinary(s)
    ensures p in SyncFiles(src, spec, x, s) <==> IsFile(src.tree, p) && TokenPicks(src.base, names, s, p)
  {
    PartsOfOrdinary(s);
    NotSpecial(s);
    NoEmptyFile(src.tree);
    if p != [] && p[0] == s {
      var q := p[1..];
      assert p == [s] + q;
      LookupMeans(src.tree, [s], q);
      match Lookup(src.tree, [s])
      case Missing =>
      case FileNode =>
        assert q == [] <==> p == [s];
        assert p == [s] ==> (SkipFile(x, p) <==> src.base in names);
      case DirNode(children) =>
        WalkReaches(x, children, [s], q);
        NoEmptyFile(children);
        if q != [] {
          ReachedFromFolder(x, names, s, q);
        }
    } else if p in SyncFiles(src, spec, x, s) {
      match Lookup(src.tree, [s])
      case FileNode => assert false;
      case DirNode(children) => WalkedBelow(x, children, [s], p);
    }
  }

  lemma ChildrenRoot(s: string, token: string)
    requires token == s + "/*"
    ensures forall r: string :: r + "/*" == token ==> r == s
  {
    forall r: string | r + "/*" == token ensures r == s {
      assert (r + "/*")[..|r|] == r;
    }
  }

  lemma ChildrenPick(src: Source, spec: Spec, x: Excluder, names: seq<string>, s: string, p: Path)
    requires Valid(src.tree) && PlainExcluder(x, names) && x.base == src.base && Ordinary(s)
    ensures p in SyncFiles(src, spec, x, s + "/*") <==> IsFile(src.tree, p) && TokenPicks(src.base, names, s + "/*", p)
  {
    var token := s + "/*";
    assert token[..|token| - 2] == s && token[|token| - 2..] == "/*";
    assert token[|token| - 1] in "*?[]";
    assert SyncFiles(src, spec, x, token) == ChildFiles(src, x, token);
    PartsOfOrdinary(s);
    NoEmptyFile(src.tree);
    ChildrenRoot(s, token);
    if p != [] && p[0] == s {
      var q := p[1..];
      assert p == [s] + q;
      LookupMeans(src.tree, [s], q);
      match Lookup(src.tree, [s])
      case Missing =>
      case FileNode =>
      case DirNode(children) =>
        KeptFilesHave(x, FileNames(children), [s], q);
        if |q| == 1 {
          FileNamesAreFiles(children, q[0]);
          assert q == [q[0]];
        }
    } else if p in SyncFiles(src, spec, x, token) {
      match Lookup(src.tree, [s])
      case DirNode(children) => KeptBelow(x, FileNames(children), [s], p);
    }
  }

  lemma PlainTokenPicks(src: Source, spec: Spec, x: Excluder, names: seq<string>, token: string, p: Path)
    requires Valid(src.tree) && PlainExcluder(x, names) && x.base == src.base
    requires PlainInclude(token) || (token == "" && !spec.topLevelOnly)
    ensures p in SyncFiles(src, spec, x, token) <==> IsFile(src.tree, p) && TokenPicks(src.base, names, token, p)
  {
    if token == "" {
      assert [] + p == p;
      WalkReaches(x, src.tree, [], p);
      NoEmptyFile(src.tree);
      if p != [] {
        ReachedFromBase(x, names, p);
      }
    } else if token == "*" {
      TopFilesAre(src.tree, p);
    } else if Ordinary(token) {
      SubtreePicks(src, spec, x, names, token, p);
    } else {
      assert token == token[..|token| - 2] + "/*";
      ChildrenPick(src, spec, x, names, token[..|token| - 2], p);
    }
  }

  // ----- the predicate under a plain filter

  lemma {:induction false} RelEnds(p: Path)
    requires Named(p)
    ensures Relative(p) != "" && Relative(p)[0] != '/' && Relative(p)[|Relative(p)| - 1] != '/'
  {
    if |p| > 1 {
      RelEnds(p[1..]);
    }
  }

  lemma RelParts(p: Path)
    requires Named(p)
    ensures Strip(Relative(p), IsSlash) == Relative(p) && Split(Relative(p), '/') == p && Parts(Relative(p)) == p
  {
    RelEnds(p);
    StripNoop(Relative(p), IsSlash);
    SplitJoin(p, '/');
    RealOfReal(p);
  }

  lemma SubtreeMatches(s: string, p: Path)
    requires Ordinary(s) && Named(p)
    ensures MatchesInclude(s, Relative(p), p) <==> p[0] == s
  {
    RelParts(p);
    NotSpecial(s);
    if s + "/" <= Relative(p) {
      var r := Relative(p)[|s| + 1..];
      assert Relative(p) == s + ['/'] + r;
      SplitHead(s, r, '/');
    }
    if Relative(p) == s {
      SplitHead(s, "", '/');
    }
    if p[0] == s && |p| > 1 {
      assert Relative(p) == s + "/" + Join(p[1..], "/");
    }
  }

  lemma ChildrenMatch(s: string, p: Path)
    requires Ordinary(s) && Named(p)
    ensures MatchesInclude(s + "/*", Relative(p), p) <==> |p| == 2 && p[0] == s
  {
    var token := s + "/*";
    assert token[..|token| - 2] == s && token[|token| - 2..] == "/*";
    StripNoop(s, IsSlash);
    PartsOfOrdinary(s);
  }

  lemma CleanIsNotExcluded(spec: Spec, names: seq<string>, p: Path)
    requires BareNames(spec.excludes) == (set n | n in names) && GlobPaths(spec.excludes) == Subtrees(names)
    requires forall n :: n in names ==> Ordinary(n)
    ensures Clean(names, p) <==>
              && !ExcludedPath(p, GlobPaths(spec.excludes))
              && !(exists k :: 0 <= k < |p| - 1 && p[k] in BareNames(spec.excludes))
  {
    SubtreesExclude(names, p);
    if !Clean(names, p) {
      var k :| 0 <= k < |p| - 1 && p[k] in names;
      assert p[k] in BareNames(spec.excludes);
    }
  }

  /** The predicate on a plain filter, in the walk's terms. */
  lemma PlainAccepts(filter: seq<string>, p: Path)
    requires PlainFilter(filter) && Named(p)
    ensures var plain := PlainSpecOf(filter);
            Accepts(Relative(p), filter) <==>
              && Clean(plain.names, p)
              && (plain.includes != [] ==> exists t :: t in plain.includes && MatchesInclude(t, Relative(p), p))
  {
    var plain := PlainSpecOf(filter);
    PlainParse(filter);
    RelParts(p);
    CleanIsNotExcluded(Parse(filter), plain.names, p);
    SpecMatches(Relative(p), p, Parse(filter));
  }

  lemma SpecMatches(rel: string, p: Path, spec: Spec)
    requires spec.includeAll == (spec.includes == []) && (spec.topLevelOnly ==> !spec.includeAll)
    ensures MatchesSpec(rel, p, spec) <==>
              && !ExcludedPath(p, GlobPaths(spec.excludes))
              && !(exists k :: 0 <= k < |p| - 1 && p[k] in BareNames(spec.excludes))
              && (spec.includes != [] ==> exists t :: t in spec.includes && MatchesInclude(t, rel, p))
  {
  }

  lemma PicksAsMatches(base: string, names: seq<string>, token: string, p: Path)
    requires PlainInclude(token) && Named(p)
    ensures TokenPicks(base, names, token, p) <==>
              MatchesInclude(token, Relative(p), p) && (token == "*" || (Clean(names, p) && (|p| == 1 ==> base !in names)))
  {
    if token == "*" {
    } else if Ordinary(token) {
      SubtreeMatches(token, p);
      NotSpecial(token);
    } else {
      var s := token[..|token| - 2];
      assert token == s + "/*";
      ChildrenMatch(s, p);
      if |p| == 2 && p[0] + "/*" == token {
        assert (p[0] + "/*")[..|p[0]|] == p[0];
      }
    }
  }

  // ----- agreement

  /**
   For every tree, base name and plain filter: the walk yields a file exactly when the predicate accepts it, but
   for the files at the top when the folder's own name is excluded and no "*" asks for them.
   */
  lemma WalkAgainstPredicate(src: Source, filter: seq<string>, p: Path)
    requires Valid(src.tree) && PlainFilter(filter)
    ensures var plain := PlainSpecOf(filter);
            p in FilesOf(src, false, filter) <==>
              && IsFile(src.tree, p) && Accepts(Relative(p), filter)
              && (|p| == 1 && src.base in plain.names ==> "*" in plain.includes)
  {
    var spec, plain := Parse(filter), PlainSpecOf(filter);
    var x := ExcluderFor(src, spec);
    PlainParse(filter);
    PlainExcluderFor(src, filter);
    EnumeratedHas(FilesFor(src, spec, x, false), IncludeTokens(spec), p);
    if IsFile(src.tree, p) {
      FileTop(src.tree, p);
      PlainAccepts(filter, p);
      TokensPick(src, spec, x, plain, p);
    } else {
      forall t | t in IncludeTokens(spec) ensures p !in FilesFor(src, spec, x, false)(t) {
        PlainTokenPicks(src, spec, x, plain.names, t, p);
      }
    }
  }

  lemma TokensPick(src: Source, spec: Spec, x: Excluder, plain: PlainSpec, p: Path)
    requires Valid(src.tree) && IsFile(src.tree, p) && Named(p) && PlainExcluder(x, plain.names) && x.base == src.base
    requires spec.includes == plain.includes && spec.includeAll == (plain.includes == [])
    requires (spec.topLevelOnly ==> !spec.includeAll) && forall t :: t in plain.includes ==> PlainInclude(t)
    ensures Considered(FilesFor(src, spec, x, false), IncludeTokens(spec), p) <==>
              && Clean(plain.names, p)
              && (plain.includes != [] ==> exists t :: t in plain.includes && MatchesInclude(t, Relative(p), p))
              && (|p| == 1 && src.base in plain.names ==> "*" in plain.includes)
  {
    var tokens := IncludeTokens(spec);
    forall t | t in tokens
      ensures p in FilesFor(src, spec, x, false)(t) <==> TokenPicks(src.base, plain.names, t, p)
      ensures t != "" ==>
                (TokenPicks(src.base, plain.names, t, p) <==>
                   (MatchesInclude(t, Relative(p), p)
                    && (t == "*" || (Clean(plain.names, p) && (|p| == 1 ==> src.base !in plain.names)))))
    {
      PlainTokenPicks(src, spec, x, plain.names, t, p);
      if t != "" {
        PicksAsMatches(src.base, plain.names, t, p);
      }
    }
    if plain.includes == [] {
      assert "" in tokens;
      assert Considered(FilesFor(src, spec, x, false), tokens, p) <==> p in FilesFor(src, spec, x, false)("");
    } else if |p| == 1 && "*" in plain.includes {
      assert MatchesInclude("*", Relative(p), p);
      assert p in FilesFor(src, spec, x, false)("*");
    } else {
      assert forall t :: t in tokens ==> t != "";
      if exists t :: t in plain.includes && MatchesInclude(t, Relative(p), p) {
        var t :| t in plain.includes && MatchesInclude(t, Relative(p), p);
        assert p in FilesFor(src, spec, x, false)(t) <==> Clean(plain.names, p) && (|p| == 1 ==> src.base !in plain.names);
      }
    }
  }

  lemma TopMatch(token: string, name: string)
    requires PlainInclude(token) && IsName(name)
    ensures MatchesInclude(token, name, [name]) <==> token == "*" || token == name
  {
    var p := [name];
    assert Relative(p) == name;
    if token == "*" {
    } else if Ordinary(token) {
      SubtreeMatches(token, p);
    } else {
      assert token == token[..|token| - 2] + "/*" && token[|token| - 2] == '/';
      ChildrenMatch(token[..|token| - 2], p);
    }
  }

  /** What the predicate makes of a file at the top. */
  lemma AcceptsTop(filter: seq<string>, name: string)
    requires PlainFilter(filter) && IsName(name)
    ensures var includes := PlainSpecOf(filter).includes;
            Accepts(name, filter) <==> includes == [] || "*" in includes || name in includes
  {
    var includes := PlainSpecOf(filter).includes;
    PlainParse(filter);
    PlainAccepts(filter, [name]);
    assert Relative([name]) == name;
    forall t | t in includes ensures MatchesInclude(t, name, [name]) <==> t == "*" || t == name {
      TopMatch(t, name);
    }
  }

  /** A top file that the predicate accepts and the walk drops with the folder's own name. */
  predicate DroppedAtTop(src: Source, filter: seq<string>, p: Path) {
    var plain := PlainSpecOf(filter);
    && |p| == 1 && IsFile(src.tree, p) && src.base in plain.names
    && "*" !in plain.includes && (plain.includes == [] || p[0] in plain.includes)
  }

  lemma AgreeUnlessDropped(src: Source, filter: seq<string>, p: Path)
    requires Valid(src.tree) && PlainFilter(filter)
    ensures (p in FilesOf(src, false, filter) <==> IsFile(src.tree, p) && Accepts(Relative(p), filter)) <==>
            !DroppedAtTop(src, filter, p)
  {
    WalkAgainstPredicate(src, filter, p);
    if |p| == 1 && IsFile(src.tree, p) {
      FileTop(src.tree, p);
      AcceptsTop(filter, p[0]);
      assert Relative(p) == p[0];
    }
  }

  /**
   The walk and the predicate agree on a tree exactly when the folder's own name is not excluded, or a star asks for
   the top files, or there are includes and none of them is the name of a top file (or there is no top file).
   */
  lemma AgreementExactlyWhen(src: Source, filter: seq<string>)
    requires Valid(src.tree) && PlainFilter(filter)
    ensures var plain := PlainSpecOf(filter);
            (forall p :: p in FilesOf(src, false, filter) <==> IsFile(src.tree, p) && Accepts(Relative(p), filter)) <==>
            (src.base !in plain.names || "*" in plain.includes
             || forall name :: IsFile(src.tree, [name]) ==> plain.includes != [] && name !in plain.includes)
    ensures NoRepeats(FilesOf(src, false, filter))
  {
    forall p
      ensures (p in FilesOf(src, false, filter) <==> IsFile(src.tree, p) && Accepts(Relative(p), filter)) <==>
              !DroppedAtTop(src, filter, p)
    {
      AgreeUnlessDropped(src, filter, p);
    }
    DroppedExactlyWhen(src, filter);
    var spec := Parse(filter);
    MergeNoRepeats([], FlatMap(FilesFor(src, spec, ExcluderFor(src, spec), false), IncludeTokens(spec)));
  }

  lemma DroppedExactlyWhen(src: Source, filter: seq<string>)
    ensures var plain := PlainSpecOf(filter);
            (forall p :: !DroppedAtTop(src, filter, p)) <==>
            (src.base !in plain.names || "*" in plain.includes
             || forall name :: IsFile(src.tree, [name]) ==> plain.includes != [] && name !in plain.includes)
  {
    forall p | DroppedAtTop(src, filter, p) ensures p == [p[0]] {}
    if forall p :: !DroppedAtTop(src, filter, p) {
      forall name | IsFile(src.tree, [name]) ensures !DroppedAtTop(src, filter, [name]) {}
    }
  }

  lemma UnprunedHas(x: Excluder, names: seq<string>, spec: Spec, e: Entries, p: Path)
    requires PlainExcluder(x, names) && (spec.excludes == [] ==> names == [])
    ensures p in Unpruned(x, spec, e, []) <==> IsFile(e, p) && p != [] && ParentName(x, p) !in names
  {
    assert [] + p == p;
    FilterHas(Listing(e, []), Allows(x));
    ListingHasFiles(e, [], p);
    NoEmptyFile(e);
  }

  lemma PlainExcluderFor(src: Source, filter: seq<string>)
    requires PlainFilter(filter)
    ensures PlainExcluder(ExcluderFor(src, Parse(filter)), PlainSpecOf(filter).names)
    ensures Parse(filter).excludes == [] ==> PlainSpecOf(filter).names == []
  {
    var x, names := ExcluderFor(src, Parse(filter)), PlainSpecOf(filter).names;
    PlainParse(filter);
    forall q ensures x.excludes(q) <==> |q| >= 2 && q[|q| - 2] in names {
      SubtreesExclude(names, q);
    }
    if Parse(filter).excludes == [] {
      assert forall n :: n in names ==> n in BareNames([]);
    }
  }

  /** Without includes, the unpruned walk looks only at the name of the folder right above the file. */
  lemma UnprunedUnderExcludes(src: Source, filter: seq<string>, p: Path)
    requires PlainFilter(filter) && PlainSpecOf(filter).includes == []
    ensures p in FilesOf(src, true, filter) <==>
              && IsFile(src.tree, p) && p != []
              && (if |p| == 1 then src.base else p[|p| - 2]) !in PlainSpecOf(filter).names
  {
    var spec := Parse(filter);
    var x := ExcluderFor(src, spec);
    PlainExcluderFor(src, filter);
    assert spec.includeAll && !spec.topLevelOnly by { PlainParse(filter); }
    UnprunedHas(x, PlainSpecOf(filter).names, spec, src.tree, p);
    OneToken(src, spec, x, p);
  }

  lemma OneToken(src: Source, spec: Spec, x: Excluder, p: Path)
    requires !spec.topLevelOnly
    ensures p in Enumerated(FilesFor(src, spec, x, true), [""]) <==> p in Unpruned(x, spec, src.tree, [])
  {
    EnumeratedHas(FilesFor(src, spec, x, true), [""], p);
    assert FilesFor(src, spec, x, true)("") == Unpruned(x, spec, src.tree, []);
    assert "" in [""];
  }

  lemma OneExclude(token: string, name: string)
    requires Ordinary(name) && token == "-" + name
    ensures PlainFilter([token]) && PlainSpecOf([token]) == PlainSpec([], [name])
  {
    assert token[0] == '-' && token[1] == name[0] != '-' && token[1..] == name;
    assert !TakesNext(token) && ShortForm(token) == token;
    var one := [token];
    assert one[0] == token && one[1..] == [] && one[..0] == [];
    assert ExpandDirectives(one) == [token];
    assert PlainExclude(token);
    assert [] + one == one;
    FlatMapPush(PlainNameOf, [], token);
    FlatMapPush(PlainIncludeOf, [], token);
  }

  lemma OneInclude(s: string)
    requires Ordinary(s)
    ensures ExpandDirectives([s]) == [s] && PlainFilter([s]) && PlainSpecOf([s]) == PlainSpec([s], [])
  {
    assert !TakesNext(s) && ShortForm(s) == s;
    var one := [s];
    assert one[0] == s && one[1..] == [] && one[..0] == [] && [] + one == one;
    assert PlainInclude(s) && !PlainExclude(s);
    FlatMapPush(PlainNameOf, [], s);
    FlatMapPush(PlainIncludeOf, [], s);
  }

  /** In a folder that excludes its own name, the predicate accepts every top file and the walk yields none. */
  lemma OwnNameDropsTopFiles(src: Source, token: string, name: string)
    requires Valid(src.tree) && IsFile(src.tree, [name]) && Ordinary(src.base) && token == "-" + src.base
    ensures Accepts(name, [token]) && [name] !in FilesOf(src, false, [token])
  {
    OneExclude(token, src.base);
    var filter, p := [token], [name];
    FileTop(src.tree, p);
    assert IsName(p[0]);
    AcceptsTop(filter, name);
    assert Accepts(name, filter);
    assert Relative(p) == name;
    assert src.base in PlainSpecOf(filter).names;
    assert DroppedAtTop(src, filter, p);
    AgreeUnlessDropped(src, filter, p);
  }

  /**
   Excludes make the size estimate visible: under -a, only the unpruned walk yields a/b/f, or any other file below
   a folder of that name but not directly in one.
   */
  lemma ExcludesShowTheEstimate(src: Source, token: string, name: string, p: Path)
    requires Valid(src.tree) && Ordinary(name) && token == "-" + name && IsFile(src.tree, p) && |p| >= 3
    requires name in p[..|p| - 2] && p[|p| - 2] != name
    ensures p !in FilesOf(src, false, [token])
    ensures p in FilesOf(src, true, [token])
  {
    OneExclude(token, name);
    FileTop(src.tree, p);
    PlainAccepts([token], p);
    var k :| 0 <= k < |p| - 2 && p[..|p| - 2][k] == name;
    assert !Clean([name], p) by { assert p[k] in [name]; }
    WalkAgainstPredicate(src, [token], p);
    UnprunedUnderExcludes(src, [token], p);
  }
}
