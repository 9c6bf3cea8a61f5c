/** What glob includes and glob excludes mean to the single-path predicate. */
module GlobIncludes {
  import opened Text
  import opened Lists
  import opened FileTree
  import opened FilterSpec
  import opened PathFilter
  import opened FilterAgreement
  import opened FilterSpelling

  // ----- one segment

  /** What one character of a pattern may stand for. */
  predicate Fits(c: char, piece: string) {
    if c == '*' then true else if c == '?' then |piece| == 1 else piece == [c]
  }

  predicate AllFit(pattern: string, pieces: seq<string>) {
    |pieces| == |pattern| && forall i :: 0 <= i < |pattern| ==> Fits(pattern[i], pieces[i])
  }

  /** The name falls into pieces, one for each character of the pattern. */
  ghost predicate Covers(pattern: string, name: string) {
    exists pieces: seq<string> :: AllFit(pattern, pieces) && Concat(pieces) == name
  }

  lemma {:induction false} PiecesOf(pattern: string, name: string) returns (pieces: seq<string>)
    requires SegmentMatch(pattern, name)
    ensures AllFit(pattern, pieces) && Concat(pieces) == name
    decreases |pattern| + |name|
  {
    if pattern == "" {
      pieces := [];
    } else if pattern[0] == '*' && SegmentMatch(pattern[1..], name) {
      var rest := PiecesOf(pattern[1..], name);
      pieces := [""] + rest;
    } else if pattern[0] == '*' {
      var rest := PiecesOf(pattern, name[1..]);
      pieces := [[name[0]] + rest[0]] + rest[1..];
      assert name == [name[0]] + name[1..];
    } else {
      var rest := PiecesOf(pattern[1..], name[1..]);
      pieces := [[name[0]]] + rest;
      assert name == [name[0]] + name[1..];
    }
  }

  lemma {:induction false} PiecesMatch(pattern: string, pieces: seq<string>)
    requires AllFit(pattern, pieces)
    ensures SegmentMatch(pattern, Concat(pieces))
    decreases |pattern| + |Concat(pieces)|
  {
    if pattern != "" {
      var head, name := pieces[0], Concat(pieces);
      assert name == head + Concat(pieces[1..]);
      if head == "" {
        PiecesMatch(pattern[1..], pieces[1..]);
        assert name == Concat(pieces[1..]);
      } else if pattern[0] == '*' {
        var rest := [head[1..]] + pieces[1..];
        assert Concat(rest) == name[1..];
        PiecesMatch(pattern, rest);
      } else {
        PiecesMatch(pattern[1..], pieces[1..]);
        assert name[1..] == Concat(pieces[1..]);
      }
    }
  }

  /** A segment matches a pattern exactly when it falls into pieces that fit the characters of the pattern. */
  lemma MatchIsCover(pattern: string, name: string)
    ensures SegmentMatch(pattern, name) <==> Covers(pattern, name)
  {
    if SegmentMatch(pattern, name) {
      var pieces := PiecesOf(pattern, name);
    }
    if Covers(pattern, name) {
      var pieces :| AllFit(pattern, pieces) && Concat(pieces) == name;
      PiecesMatch(pattern, pieces);
    }
  }

  lemma NoGlobTail(x: string)
    requires !HasGlob(x) && x != ""
    ensures !HasGlob(x[1..]) && x[0] !in "*?[]"
  {
    assert x[0] !in "*?[]";
    forall i | 0 <= i < |x| - 1 ensures x[1..][i] !in "*?[]" {
      assert x[i + 1] !in "*?[]";
    }
  }

  lemma {:induction false} LiteralHead(x: string, rest: string, name: string)
    requires !HasGlob(x)
    ensures SegmentMatch(x + rest, name) <==> x <= name && SegmentMatch(rest, name[|x|..])
    decreases |x|
  {
    if x == "" {
      assert x + rest == rest && name[0..] == name;
    } else {
      NoGlobTail(x);
      assert (x + rest)[1..] == x[1..] + rest;
      if name != "" && x[0] == name[0] {
        LiteralHead(x[1..], rest, name[1..]);
        assert x == [x[0]] + x[1..] && name == [name[0]] + name[1..];
        assert x[1..] <= name[1..] ==> name[1..][|x| - 1..] == name[|x|..];
      }
    }
  }

  lemma {:induction false} StarTail(pattern: string, y: string, name: string)
    requires !HasGlob(y) && pattern == "*" + y
    ensures SegmentMatch(pattern, name) <==> EndsWith(name, y)
    decreases |name|
  {
    assert pattern[0] == '*' && pattern[1..] == y;
    LiteralMatch(y, name);
    if name != "" {
      StarTail(pattern, y, name[1..]);
      if |y| < |name| {
        assert name[1..][|name| - 1 - |y|..] == name[|name| - |y|..];
      }
    }
  }

  /** x*y: starts with x and, after that, ends in y. */
  lemma StarMatches(x: string, y: string, name: string)
    requires !HasGlob(x) && !HasGlob(y)
    ensures SegmentMatch(x + ("*" + y), name) <==> x <= name && EndsWith(name[|x|..], y)
  {
    LiteralHead(x, "*" + y, name);
    if x <= name {
      StarTail("*" + y, y, name[|x|..]);
    }
  }

  /** x?y: exactly one character between x and y. */
  lemma QuestionMatches(x: string, y: string, name: string)
    requires !HasGlob(x) && !HasGlob(y)
    ensures SegmentMatch(x + ("?" + y), name) <==> exists c: char :: name == x + [c] + y
  {
    LiteralHead(x, "?" + y, name);
    assert ("?" + y)[0] == '?' && ("?" + y)[1..] == y;
    if x <= name && |x| < |name| {
      var rest := name[|x|..];
      LiteralMatch(y, rest[1..]);
      assert name == x + [rest[0]] + rest[1..];
    }
    if exists c: char :: name == x + [c] + y {
      var c :| name == x + [c] + y;
      assert name[|x|..] == [c] + y && name[|x|..][1..] == y;
    }
  }

  // ----- one include

  /** The parser keeps the token as it is. */
  predicate Kept(token: string) {
    Firm(token) && !EndsWith(token, "/") && !EndsWith(token, "/**")
  }

  lemma OneParse(token: string, expanded: seq<string>)
    requires Firm(token) && ExpandRsyncDir(token) == expanded && expanded != []
    ensures var spec := Parse([token]);
            spec.includes == expanded && spec.excludes == [] && !spec.includeAll
  {
    assert !TakesNext(token) && ShortForm(token) == token;
    assert [token][1..] == [] && ExpandDirectives([token]) == [token];
    FirmParses(token);
    FlatMapOne(IncludesOf, token);
    FlatMapOne(ExcludesOf, token);
    FlatMapOne(ExpandRsyncDir, token);
  }

  lemma OneAccepts(token: string, expanded: seq<string>, p: Path)
    requires Firm(token) && ExpandRsyncDir(token) == expanded && expanded != [] && Named(p)
    ensures Accepts(Relative(p), [token]) <==> exists t :: t in expanded && MatchesInclude(t, Relative(p), p)
  {
    OneParse(token, expanded);
    RelParts(p);
    NothingExcluded(Relative(p), p, Parse([token]));
  }

  lemma NothingExcluded(rel: string, p: Path, spec: Spec)
    requires spec.excludes == [] && !spec.includeAll
    ensures MatchesSpec(rel, p, spec) <==> exists t :: t in spec.includes && MatchesInclude(t, rel, p)
  {
  }

  lemma KeptAccepts(token: string, p: Path)
    requires Kept(token) && Named(p)
    ensures Accepts(Relative(p), [token]) <==> MatchesInclude(token, Relative(p), p)
  {
    OneAccepts(token, [token], p);
    assert token in [token];
  }

  // ----- patterns of one or more segments

  /** Segments of a pattern. */
  predicate PatternPath(gs: Path) {
    gs != [] && forall i :: 0 <= i < |gs| ==> gs[i] != "" && '/' !in gs[i] && gs[i] != "."
  }

  /** The last segments of the path, one by one. */
  ghost predicate CoversEnd(gs: Path, p: Path) {
    |gs| <= |p| && forall i :: 0 <= i < |gs| ==> Covers(gs[i], p[|p| - |gs| + i])
  }

  lemma PatternParts(gs: Path)
    requires PatternPath(gs)
    ensures Split(Relative(gs), '/') == gs && Parts(Relative(gs)) == gs
    ensures Relative(gs) != "" && Relative(gs)[0] == gs[0][0] != '/'
  {
    SplitJoin(gs, '/');
    RealOfReal(gs);
  }

  lemma PathMatchUnfolded(gs: Path, p: Path)
    requires PatternPath(gs)
    ensures PathMatch(p, Relative(gs)) <==>
              |gs| <= |p| && forall i :: 0 <= i < |gs| ==> SegmentMatch(gs[i], p[|p| - |gs| + i])
  {
    PatternParts(gs);
  }

  lemma PathMatchMeans(gs: Path, p: Path)
    requires PatternPath(gs)
    ensures PathMatch(p, Relative(gs)) <==> CoversEnd(gs, p)
  {
    PathMatchUnfolded(gs, p);
    if |gs| <= |p| {
      forall i | 0 <= i < |gs|
        ensures SegmentMatch(gs[i], p[|p| - |gs| + i]) <==> Covers(gs[i], p[|p| - |gs| + i])
      {
        MatchIsCover(gs[i], p[|p| - |gs| + i]);
      }
    }
  }

  /** It is neither the direct children of a folder nor a bare name. */
  predicate PatternToken(token: string) {
    && Kept(token) && token != "*" && (HasGlob(token) || '/' in token)
    && !(EndsWith(token, "/*") && !HasGlob(token[..|token| - 2]))
  }

  lemma DeepHead(gs: Path)
    requires PatternPath(gs) && "**/" <= Relative(gs)
    ensures gs[0] == "**" && |gs| >= 2 && PatternPath(gs[1..]) && Relative(gs)[3..] == Relative(gs[1..])
  {
    PatternParts(gs);
    var rest := Relative(gs)[3..];
    assert Relative(gs) == "**" + ['/'] + rest;
    SplitHead("**", rest, '/');
    assert gs == ["**"] + Split(rest, '/');
    assert Relative(gs) == "**" + "/" + Relative(gs[1..]);
  }

  lemma TwoStarsInFront(gs: Path)
    requires |gs| == 2 && gs[0] == "**"
    ensures "**/" <= Relative(gs)
  {
    assert Relative(gs)[..3] == "**/";
  }

  lemma TailOnOwnName(gs: Path, p: Path)
    requires PatternPath(gs) && p != []
    ensures PathMatch([p[|p| - 1]], Relative(gs)) <==> |gs| == 1 && Covers(gs[0], p[|p| - 1])
  {
    PathMatchMeans(gs, [p[|p| - 1]]);
  }

  /**
   An include with a slash or a glob character is matched from the right end of the path, segment by segment; two stars
   in front of one name leave that name alone to be matched, so that files at the top are taken too.
   */
  lemma PatternAccepts(gs: Path, p: Path)
    requires PatternPath(gs) && PatternToken(Relative(gs)) && Named(p)
    ensures Accepts(Relative(p), [Relative(gs)]) <==>
              CoversEnd(gs, p) || (gs[0] == "**" && |gs| == 2 && Covers(gs[1], p[|p| - 1]))
  {
    GlobBranch(Relative(gs), p);
    PathMatchMeans(gs, p);
    if gs[0] == "**" && |gs| == 2 {
      TwoStarsInFront(gs);
    }
    if "**/" <= Relative(gs) {
      DeepHead(gs);
      TailOnOwnName(gs[1..], p);
    }
  }

  lemma CoversLast(g: string, p: Path)
    requires p != []
    ensures CoversEnd([g], p) <==> Covers(g, p[|p| - 1])
    ensures CoversEnd([g], [p[|p| - 1]]) <==> Covers(g, p[|p| - 1])
    ensures CoversEnd(["**", g], p) ==> Covers(g, p[|p| - 1])
  {
    var one, two := [g], ["**", g];
    assert one[0] == g && two[1] == g;
    assert |p| - |one| + 0 == |p| - 1 && |p| - |two| + 1 == |p| - 1;
  }

  lemma GlobBranch(token: string, p: Path)
    requires PatternToken(token) && Named(p)
    ensures Accepts(Relative(p), [token]) <==>
              PathMatch(p, token) || ("**/" <= token && PathMatch([p[|p| - 1]], token[3..]))
  {
    KeptAccepts(token, p);
  }

  /** A glob name takes the files of that name at any depth. */
  lemma NameGlobAccepts(g: string, p: Path)
    requires PatternToken(g) && '/' !in g && Named(p)
    ensures Accepts(Relative(p), [g]) <==> Covers(g, p[|p| - 1])
  {
    GlobBranch(g, p);
    OneSegment(g, p);
    NoSlashNoHead(g, "**/");
  }

  lemma NoSlashNoHead(g: string, head: string)
    requires '/' !in g && '/' in head
    ensures !(head <= g)
  {
  }

  lemma OneSegment(g: string, p: Path)
    requires g != "" && g != "." && '/' !in g && p != []
    ensures PathMatch(p, g) <==> Covers(g, p[|p| - 1])
    ensures PathMatch([p[|p| - 1]], g) <==> Covers(g, p[|p| - 1])
  {
    var gs := [g];
    assert Relative(gs) == g;
    PathMatchMeans(gs, p);
    PathMatchMeans(gs, [p[|p| - 1]]);
    CoversLast(g, p);
  }

  /** Text without a slash at the end of a longer one does not reach over the slash. */
  lemma ShortTail(head: string, g: string, tail: string)
    requires '/' !in g && tail != "" && tail[0] == '/' && |tail| <= |g|
    ensures !EndsWith(head + g, tail)
  {
    var token := head + g;
    assert token[|token| - |tail|..][0] == g[|g| - |tail|];
  }

  lemma NotASubtree(token: string, g: string)
    requires token == "**/" + g && g != "" && '/' !in g && g != "**"
    ensures !EndsWith(token, "/**")
  {
    if |g| >= 3 {
      ShortTail("**/", g, "/**");
    } else if |g| == 2 {
      assert token[|token| - 3..][1..] == g && "/**"[1..] == "**";
    } else {
      assert token[|token| - 3..][0] == '*';
    }
  }

  lemma DeepToken(token: string, g: string)
    requires token == "**/" + g && g != "" && '/' !in g && g != "**"
    requires !IsSpacePy(g[|g| - 1]) && g[|g| - 1] != '+'
    ensures PatternToken(token) && "**/" <= token && token[3..] == g
  {
    assert token[0] == '*' && token[0] in "*?[]" && token[2] == '/' && token[|token| - 1] == g[|g| - 1] != '/';
    NotASubtree(token, g);
    assert token[..|token| - 2][0] == '*';
  }

  lemma DeepSegments(token: string, g: string, p: Path)
    requires token == "**/" + g && g != "" && '/' !in g && g != "." && p != []
    ensures PathMatch(p, token) ==> Covers(g, p[|p| - 1])
  {
    var gs := ["**", g];
    assert gs[1..] == [g] && Join([g], "/") == g;
    assert Relative(gs) == token;
    PathMatchMeans(gs, p);
    CoversLast(g, p);
  }

  /** With two stars in front it takes the same files, those at the top included. */
  lemma DeepGlobAccepts(token: string, g: string, p: Path)
    requires token == "**/" + g && g != "" && '/' !in g && g != "." && g != "**" && Named(p)
    requires !IsSpacePy(g[|g| - 1]) && g[|g| - 1] != '+'
    ensures Accepts(Relative(p), [token]) <==> Covers(g, p[|p| - 1])
  {
    DeepToken(token, g);
    GlobBranch(token, p);
    DeepSegments(token, g, p);
    OneSegment(g, p);
  }

  /** *s: the files whose own name ends in s, at any depth, with or without two stars and a slash in front. */
  lemma SuffixAccepts(star: string, deep: string, s: string, p: Path)
    requires star == "*" + s && deep == "**/" + star && Named(p)
    requires s != "" && !HasGlob(s) && '/' !in s && !IsSpacePy(s[|s| - 1]) && s[|s| - 1] != '+'
    ensures Accepts(Relative(p), [star]) <==> EndsWith(p[|p| - 1], s)
    ensures Accepts(Relative(p), [deep]) <==> EndsWith(p[|p| - 1], s)
  {
    var last := s[|s| - 1];
    assert last !in "*?[]" && star[0] == '*' && star[|star| - 1] == last;
    NameGlobAccepts(star, p);
    DeepGlobAccepts(deep, star, p);
    StarTail(star, s, p[|p| - 1]);
    MatchIsCover(star, p[|p| - 1]);
  }

  lemma NameToken(token: string)
    requires Firm(token) && '/' !in token && token != "*" && HasGlob(token)
    ensures PatternToken(token)
  {
    NoSlashNoTail(token, "/");
    NoSlashNoTail(token, "/*");
    NoSlashNoTail(token, "/**");
  }

  lemma NoSlashNoTail(g: string, tail: string)
    requires '/' !in g && '/' in tail
    ensures !EndsWith(g, tail)
  {
  }

  /** x*y: the files whose own name starts with x and, after that, ends in y. */
  lemma StarAccepts(token: string, x: string, y: string, p: Path)
    requires token == x + ("*" + y) && Firm(token) && '/' !in token && token != "*" && Named(p)
    requires !HasGlob(x) && !HasGlob(y)
    ensures Accepts(Relative(p), [token]) <==> x <= p[|p| - 1] && EndsWith(p[|p| - 1][|x|..], y)
  {
    assert token[|x|] in "*?[]";
    NameToken(token);
    NameGlobAccepts(token, p);
    MatchIsCover(token, p[|p| - 1]);
    StarMatches(x, y, p[|p| - 1]);
  }

  /** x?y: the files whose own name has one character between x and y. */
  lemma QuestionAccepts(token: string, x: string, y: string, p: Path)
    requires token == x + ("?" + y) && Firm(token) && '/' !in token && Named(p)
    requires !HasGlob(x) && !HasGlob(y)
    ensures Accepts(Relative(p), [token]) <==> exists c: char :: p[|p| - 1] == x + [c] + y
  {
    assert token[|x|] in "*?[]" && token[|x|] == '?';
    NameToken(token);
    NameGlobAccepts(token, p);
    MatchIsCover(token, p[|p| - 1]);
    QuestionMatches(x, y, p[|p| - 1]);
  }

  // ----- one exclude

  lemma OneExcludeParse(token: string, v: string)
    requires token == "-" + v && v != "" && v[0] != '-' && !IsSpacePy(v[|v| - 1]) && ('/' in v || HasGlob(v))
    requires !Directive(token)
    ensures Parse([token]) == Spec([], [v], true, false)
  {
    ExpandOne(token);
    ExcludeTokenAdds(v, "");
    assert "-" + v + "" == token;
    ParseOne([token], token);
  }

  lemma OneGlobPath(v: string)
    requires v != "" && v[0] != '-' && ('/' in v || HasGlob(v))
    ensures GlobPaths([v]) == [v] && BareNames([v]) == {}
  {
    LeadingIs(v, IsDash, 0);
    FlatMapOne(GlobPathOf, v);
    FlatMapOne(BareNameOf, v);
  }

  lemma OneExclusion(rel: string, p: Path, v: string)
    requires GlobPaths([v]) == [v] && BareNames([v]) == {}
    ensures MatchesSpec(rel, p, Spec([], [v], true, false)) <==> !PathMatch(p, v)
  {
    assert ExcludedPath(p, [v]) <==> PathMatch(p, [v][0]);
  }

  /** An exclude with a slash or a glob character drops exactly the paths that it covers from the right end. */
  lemma GlobExcludeDrops(gs: Path, token: string, p: Path)
    requires PatternPath(gs) && Named(p) && token == "-" + Relative(gs) && !Directive(token)
    requires '/' in Relative(gs) || HasGlob(Relative(gs))
    requires gs[0][0] != '-' && !IsSpacePy(Relative(gs)[|Relative(gs)| - 1])
    ensures Accepts(Relative(p), [token]) <==> !CoversEnd(gs, p)
  {
    var v := Relative(gs);
    PatternParts(gs);
    OneExcludeParse(token, v);
    OneGlobPath(v);
    RelParts(p);
    OneExclusion(Relative(p), p, v);
    PathMatchMeans(gs, p);
  }

  // ----- folders

  lemma FolderCover(s: string, p: Path)
    requires !HasGlob(s)
    ensures CoversEnd([s, "**", "*"], p) <==> |p| >= 3 && p[|p| - 3] == s
  {
    if |p| >= 3 {
      var gs := [s, "**", "*"];
      LiteralMatch(s, p[|p| - 3]);
      MatchIsCover(s, p[|p| - 3]);
      StarsMatch(p[|p| - 2]);
      MatchIsCover("**", p[|p| - 2]);
      StarsMatch(p[|p| - 1]);
      MatchIsCover("*", p[|p| - 1]);
      assert gs[0] == s && gs[1] == "**" && gs[2] == "*";
      assert |p| - |gs| + 0 == |p| - 3 && |p| - |gs| + 1 == |p| - 2 && |p| - |gs| + 2 == |p| - 1;
    }
  }

  lemma DeepFolderToken(s: string, token: string)
    requires Ordinary(s) && token == s + "/**/*"
    ensures token == Relative([s, "**", "*"]) && PatternToken(token) && !("**/" <= token)
  {
    assert Relative(["**", "*"]) == "**/*";
    assert token[|s|..] == "/**/*" && token[|s| + 1] in "*?[]" && token[|token| - 1] == '*';
    assert token[..|token| - 2][|s| + 1] == '*';
    assert s[0] !in "*?[]" && token[0] == s[0];
  }

  lemma DeepFolderMatches(s: string, token: string, p: Path)
    requires Ordinary(s) && token == s + "/**/*" && Named(p)
    ensures MatchesInclude(token, Relative(p), p) <==> |p| >= 3 && p[|p| - 3] == s
  {
    DeepFolderToken(s, token);
    PathMatchMeans([s, "**", "*"], p);
    FolderCover(s, p);
  }

  lemma SlashExpands(s: string, token: string)
    requires Ordinary(s) && token == s + "/"
    ensures Firm(token) && ExpandRsyncDir(token) == [s + "/**/*"]
  {
    assert token[..|token| - 1] == s && token[0] == s[0];
  }

  lemma StarsExpand(s: string, token: string)
    requires Ordinary(s) && token == s + "/**"
    ensures Firm(token) && ExpandRsyncDir(token) == [s + "/*", s + "/**/*"]
  {
    assert token[..|token| - 3] == s && token[0] == s[0] && token[|token| - 1] == '*';
  }

  /**
   A folder with a slash does not take all files below it: it takes those exactly two levels below a folder of that
   name, wherever that folder is.
   */
  lemma SlashAccepts(s: string, token: string, p: Path)
    requires Ordinary(s) && token == s + "/" && Named(p)
    ensures Accepts(Relative(p), [token]) <==> |p| >= 3 && p[|p| - 3] == s
  {
    var deep := s + "/**/*";
    SlashExpands(s, token);
    OneAccepts(token, [deep], p);
    TwoTokens(deep, deep, p);
    DeepFolderMatches(s, deep, p);
  }

  /** With a slash and two stars, also those directly in the folder at the top. */
  lemma StarsAccept(s: string, token: string, p: Path)
    requires Ordinary(s) && token == s + "/**" && Named(p)
    ensures Accepts(Relative(p), [token]) <==> (|p| == 2 && p[0] == s) || (|p| >= 3 && p[|p| - 3] == s)
  {
    var near, deep := s + "/*", s + "/**/*";
    StarsExpand(s, token);
    OneAccepts(token, [near, deep], p);
    TwoTokens(near, deep, p);
    DeepFolderMatches(s, deep, p);
    ChildrenMatch(s, p);
  }

  lemma TwoTokens(x: string, y: string, p: Path)
    ensures (exists t :: t in [x, y] && MatchesInclude(t, Relative(p), p)) <==>
              MatchesInclude(x, Relative(p), p) || MatchesInclude(y, Relative(p), p)
    ensures (exists t :: t in [x] && MatchesInclude(t, Relative(p), p)) <==> MatchesInclude(x, Relative(p), p)
  {
    assert x in [x, y] && y in [x, y] && x in [x];
  }

  // ----- direct children

  lemma {:induction false} JoinEnds(gs: Path)
    requires PatternPath(gs)
    ensures Relative(gs) != "" && Relative(gs)[0] != '/' && Relative(gs)[|Relative(gs)| - 1] != '/'
  {
    if |gs| > 1 {
      JoinEnds(gs[1..]);
    }
  }

  lemma ChildrenShape(token: string, body: string)
    requires token == body + "/*" && Firm(token)
    ensures Kept(token) && token != "*" && EndsWith(token, "/*") && token[..|token| - 2] == body
  {
    assert token[|token| - 2] == '/' && token[|token| - 1] == '*';
  }

  /** A folder path with a slash and a star accepts exactly the files directly in that folder; slashes around do not matter. */
  lemma ChildrenAccept(token: string, s1: string, gs: Path, s2: string, p: Path)
    requires Blank(IsSlash, s1) && Blank(IsSlash, s2) && (gs == [] || PatternPath(gs)) && !HasGlob(s1 + Relative(gs) + s2)
    requires token == s1 + Relative(gs) + s2 + "/*" && Firm(token) && Named(p)
    ensures Accepts(Relative(p), [token]) <==> p[..|p| - 1] == gs
  {
    ChildrenShape(token, s1 + Relative(gs) + s2);
    KeptAccepts(token, p);
    StripPad(IsSlash, s1, Relative(gs), s2);
    if gs != [] {
      JoinEnds(gs);
      PatternParts(gs);
      StripNoop(Relative(gs), IsSlash);
    }
  }
}
