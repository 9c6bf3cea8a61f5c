/** When the prefix hints may narrow a bucket listing, and what the hint of a folder include loses. */
module HintCoverage {
  import opened Text
  import opened Lists
  import opened FileTree
  import opened FilterSpec
  import opened PathFilter
  import opened FilterAgreement
  import opened GlobIncludes
  import opened PrefixHints

  // ----- giving up

  /** The ends of an include that a hint can leave out. */
  const TAILS := ["", "/*", "/**", "/**/*"]

  function Without(token: string, tail: string): string
    requires EndsWith(token, tail)
  {
    token[..|token| - |tail|]
  }

  /** A glob character stands outside a final slash and star, slash and two stars, or both. */
  predicate StrayGlob(token: string) {
    forall tail :: tail in TAILS && EndsWith(token, tail) ==> HasGlob(Without(token, tail))
  }

  /** An include that could match anywhere in the bucket. */
  predicate Wide(token: string) {
    token == "" || token == "*" || StrayGlob(token)
  }

  lemma TailsAre(tail: string)
    ensures tail in TAILS <==> tail == "" || tail == "/*" || tail == "/**" || tail == "/**/*"
  {
    assert TAILS[0] == "" && TAILS[1] == "/*" && TAILS[2] == "/**" && TAILS[3] == "/**/*";
  }

  lemma StrayUnfolded(token: string)
    ensures var n := |token|;
            StrayGlob(token) <==>
              && HasGlob(token)
              && (EndsWith(token, "/*") ==> HasGlob(token[..n - 2]))
              && (EndsWith(token, "/**") ==> HasGlob(token[..n - 3]))
              && (EndsWith(token, "/**/*") ==> HasGlob(token[..n - 5]))
  {
    forall tail ensures tail in TAILS <==> tail == "" || tail == "/*" || tail == "/**" || tail == "/**/*" {
      TailsAre(tail);
    }
    assert EndsWith(token, "") && Without(token, "") == token;
    assert EndsWith(token, "/*") ==> Without(token, "/*") == token[..|token| - 2];
    assert EndsWith(token, "/**") ==> Without(token, "/**") == token[..|token| - 3];
    assert EndsWith(token, "/**/*") ==> Without(token, "/**/*") == token[..|token| - 5];
  }

  /** The slash before the stars is no glob character. */
  lemma SlashBeforeStars(token: string)
    requires EndsWith(token, "/**/*")
    ensures HasGlob(token[..|token| - 4]) <==> HasGlob(token[..|token| - 5])
  {
    var n := |token| - 5;
    assert token[n..][0] == '/';
    assert token[n] == '/';
    if HasGlob(token[..n]) {
      var i :| 0 <= i < n && token[..n][i] in "*?[]";
      assert token[..n + 1][i] in "*?[]";
    }
    if HasGlob(token[..n + 1]) {
      var i :| 0 <= i < n + 1 && token[..n + 1][i] in "*?[]";
      assert token[..n][i] in "*?[]";
    }
  }

  /** The hints are given up for an include exactly when it could match anywhere. */
  lemma GivesUpExactlyWhen(token: string)
    ensures GivesUp(token) <==> Wide(token)
  {
    StrayUnfolded(token);
    if EndsWith(token, "/**/*") {
      SlashBeforeStars(token);
    }
  }

  lemma RootCut(token: string, body: string, tail: string)
    requires token == body + tail
    ensures EndsWith(token, tail) && token[..|token| - |tail|] == body
  {
  }

  lemma AsFolderIs(root: string, slashes: string)
    requires Blank(IsSlash, slashes) && (root != "" ==> root[|root| - 1] != '/')
    ensures StripRight(root + slashes, IsSlash) == root && AsFolder(root + slashes) == root + "/"
  {
    TrailingIs(root + slashes, IsSlash, |slashes|);
  }

  lemma SlashesNoGlob(root: string, slashes: string)
    requires Blank(IsSlash, slashes) && !HasGlob(root)
    ensures !HasGlob(root + slashes)
  {
    var body := root + slashes;
    forall i | 0 <= i < |body| ensures body[i] !in "*?[]" {
      assert i < |root| ==> root[i] !in "*?[]";
    }
  }

  lemma LiteralBody(token: string, body: string)
    requires token == body && body != "" && !HasGlob(body)
    ensures HintOf(token) == Prefix(AsFolder(body))
  {
    assert token[|token| - 1] !in "*?[]";
  }

  lemma ChildrenBody(token: string, body: string)
    requires token == body + "/*" && !HasGlob(body)
    ensures HintOf(token) == Prefix(AsFolder(body))
  {
    RootCut(token, body, "/*");
  }

  lemma SubtreeBody(token: string, body: string)
    requires token == body + "/**" && !HasGlob(body)
    ensures HintOf(token) == Prefix(AsFolder(body))
  {
    RootCut(token, body, "/**");
    assert token[|token| - 2..][0] == '*';
  }

  lemma DeepBody(token: string, body: string)
    requires token == body + "/**/*" && !HasGlob(body) && !HasGlob(body + "/")
    ensures HintOf(token) == if StripRight(body + "/", IsSlash) == "" then NoHint else Prefix(AsFolder(body + "/"))
  {
    var n := |token|;
    RootCut(token, body, "/**/*");
    RootCut(token, body + "/", "**/*");
    assert token[..n - 2][n - 4] == '*' && token[n - 3..][0] == '*';
  }

  /** The hint of an include is its folder without the final slashes and stars; only the root folder gives none. */
  lemma HintIsRoot(token: string, root: string, slashes: string, tail: string)
    requires token == root + slashes + tail && token != "" && tail in TAILS
    requires Blank(IsSlash, slashes) && !HasGlob(root) && (root != "" ==> root[|root| - 1] != '/')
    ensures HintOf(token) == if tail == "/**/*" && root == "" then NoHint else Prefix(root + "/")
  {
    TailsAre(tail);
    SlashesNoGlob(root, slashes);
    AsFolderIs(root, slashes);
    if tail == "" {
      LiteralBody(token, root + slashes);
    } else if tail == "/*" {
      ChildrenBody(token, root + slashes);
    } else if tail == "/**" {
      SubtreeBody(token, root + slashes);
    } else {
      assert (root + slashes) + "/" == root + (slashes + "/");
      SlashesNoGlob(root, slashes + "/");
      AsFolderIs(root, slashes + "/");
      DeepBody(token, root + slashes);
    }
  }

  /** The whole bucket has to be listed. */
  predicate NeedsAll(spec: Spec) {
    spec.includeAll || spec.excludes != [] || exists i :: 0 <= i < |spec.includes| && Wide(spec.includes[i])
  }

  lemma NoHintsWhenWide(spec: Spec)
    requires NeedsAll(spec)
    ensures ComputeHints(spec) == []
  {
    if exists i :: 0 <= i < |spec.includes| && Wide(spec.includes[i]) {
      var i :| 0 <= i < |spec.includes| && Wide(spec.includes[i]);
      GivesUpExactlyWhen(spec.includes[i]);
    }
  }

  /**
   With an exclude, with no include, or with one that could match anywhere, no key under the base prefix that passes
   the filter is missed.
   */
  lemma WideFilterMissesNothing(bp: string, filter: seq<string>, skipFolders: bool, key: string)
    requires NeedsAll(Parse(filter))
    ensures Fetched(bp, ComputeHints(Parse(filter)), key) && Emits(bp, filter, skipFolders, key) <==>
              bp <= key && Emits(bp, filter, skipFolders, key)
  {
    NoHintsWhenWide(Parse(filter));
  }

  // ----- folder includes

  predicate FolderInclude(s: string, token: string) {
    Ordinary(s) && (token == s + "/" || token == s + "/**")
  }

  lemma FolderTokenHint(s: string, token: string, tail: string)
    requires Ordinary(s) && token == s + tail && tail in TAILS
    ensures HintOf(token) == Prefix(s + "/")
  {
    assert token == s + "" + tail;
    HintIsRoot(token, s, "", tail);
  }

  lemma FolderHints(s: string, token: string)
    requires FolderInclude(s, token)
    ensures Firm(token) && ComputeHints(Parse([token])) == [s + "/"]
  {
    var near, deep := s + "/*", s + "/**/*";
    FolderTokenHint(s, near, TAILS[1]);
    FolderTokenHint(s, deep, TAILS[3]);
    if token == s + "/" {
      SlashExpands(s, token);
      OneParse(token, [deep]);
      HintsOfOne(Parse([token]), deep, s + "/");
    } else {
      StarsExpand(s, token);
      OneParse(token, [near, deep]);
      HintsOfTwo(Parse([token]), near, deep, s + "/");
    }
  }

  lemma HintsOfOne(spec: Spec, x: string, prefix: string)
    requires spec.includes == [x] && spec.excludes == [] && !spec.includeAll && HintOf(x) == Prefix(prefix)
    ensures ComputeHints(spec) == [prefix]
  {
    FlatMapOne(PrefixesOf, x);
    assert PrefixesOf(x) == [prefix];
    assert Merge([], [prefix]) == [prefix];
  }

  lemma HintsOfTwo(spec: Spec, x: string, y: string, prefix: string)
    requires spec.includes == [x, y] && spec.excludes == [] && !spec.includeAll
    requires HintOf(x) == Prefix(prefix) && HintOf(y) == Prefix(prefix)
    ensures ComputeHints(spec) == [prefix]
  {
    FlatMapPushTwo(PrefixesOf, [], x, y, [prefix, prefix]);
    assert [] + [x, y] == [x, y];
    MergeTwice(prefix);
  }

  lemma MergeTwice<T>(x: T)
    ensures Merge([], [x, x]) == [x]
  {
    assert [] + [x] == [x] && [x, x][1..] == [x] && [x][1..] == [];
    assert Merge([x], [x]) == [x];
  }

  lemma BelowFolder(bp: string, s: string, p: Path)
    requires Ordinary(s) && Named(p)
    ensures |p| >= 2 && p[0] == s ==> bp + (s + "/") <= bp + Relative(p)
    ensures bp + (s + "/") <= bp + Relative(p) ==> p[0] == s
  {
    SubtreeMatches(s, p);
    NotSpecial(s);
    if |p| >= 2 && p[0] == s {
      assert Relative(p) == s + "/" + Join(p[1..], "/");
    }
    if bp + (s + "/") <= bp + Relative(p) {
      assert (bp + Relative(p))[|bp|..] == Relative(p);
      assert (bp + Relative(p))[|bp|..][..|s| + 1] == s + "/";
      assert s + "/" <= Relative(p);
    }
  }

  /** Of the keys that a folder include matches, its hint fetches exactly those below that folder at the top. */
  lemma FolderHintFetches(bp: string, s: string, token: string, p: Path)
    requires FolderInclude(s, token) && Named(p) && Accepts(Relative(p), [token])
    ensures Fetched(bp, ComputeHints(Parse([token])), bp + Relative(p)) <==> p[0] == s
  {
    FolderHints(s, token);
    if token == s + "/" {
      SlashAccepts(s, token, p);
    } else {
      StarsAccept(s, token, p);
    }
    BelowFolder(bp, s, p);
    assert s + "/" in [s + "/"];
  }

  /** So a matching object below another folder is lost. */
  lemma FolderHintLoses(bp: string, s: string, token: string, top: string, p: Path)
    requires FolderInclude(s, token) && IsName(top) && top != s && p == [top, s, "a", "b"]
    ensures Accepts(Relative(p), [token])
    ensures !Fetched(bp, ComputeHints(Parse([token])), bp + Relative(p))
  {
    if token == s + "/" {
      SlashAccepts(s, token, p);
    } else {
      StarsAccept(s, token, p);
    }
    FolderHintFetches(bp, s, token, p);
  }
}
