/** An include that is a path of two or more folders: what the walk, the predicate and the bucket listing make of it. */
module PathIncludes {
  import opened Text
  import opened FileTree
  import opened FileWalk
  import opened FilterSpec
  import opened Enumerate
  import opened PathFilter
  import opened FilterAgreement
  import opened GlobIncludes
  import opened PrefixHints
  import opened HintCoverage

  /** Two or more names without glob characters that the parser keeps as they are. */
  predicate FolderPath(gs: Path) {
    && Named(gs) && |gs| >= 2 && Firm(Relative(gs))
    && forall i :: 0 <= i < |gs| ==> !HasGlob(gs[i])
  }

  lemma NoGlobConcat(x: string, y: string)
    requires !HasGlob(x) && !HasGlob(y)
    ensures !HasGlob(x + "/" + y)
  {
    var z := x + "/" + y;
    forall i | 0 <= i < |z| ensures z[i] !in "*?[]" {
      assert i < |x| ==> x[i] !in "*?[]";
      assert i > |x| ==> y[i - |x| - 1] !in "*?[]";
    }
  }

  lemma {:induction false} NoGlobJoin(gs: Path)
    requires forall i :: 0 <= i < |gs| ==> !HasGlob(gs[i])
    ensures !HasGlob(Relative(gs))
  {
    if |gs| > 1 {
      NoGlobJoin(gs[1..]);
      NoGlobConcat(gs[0], Relative(gs[1..]));
    }
  }

  lemma {:induction false} SlashInJoin(gs: Path)
    requires |gs| >= 2
    ensures '/' in Relative(gs)
  {
    assert Relative(gs)[|gs[0]|] == '/';
  }

  lemma NoGlobNoStar(token: string)
    requires !HasGlob(token)
    ensures token != "*" && !EndsWith(token, "/*") && !EndsWith(token, "/**") && !EndsWith(token, "/**/*")
  {
    if token != "" {
      assert token[|token| - 1] !in "*?[]";
    }
  }

  lemma PathToken(gs: Path)
    requires FolderPath(gs)
    ensures PatternToken(Relative(gs)) && !HasGlob(Relative(gs)) && PatternPath(gs) && gs[0] != "**"
  {
    NoGlobJoin(gs);
    SlashInJoin(gs);
    NoGlobNoStar(Relative(gs));
    RelEnds(gs);
    NoGlobNoStars(gs[0]);
  }

  lemma NoGlobNoStars(s: string)
    requires !HasGlob(s)
    ensures s != "**"
  {
    if s != "" {
      assert s[0] !in "*?[]";
    }
  }

  lemma LiteralEnd(gs: Path, p: Path)
    requires forall i :: 0 <= i < |gs| ==> !HasGlob(gs[i])
    ensures CoversEnd(gs, p) <==> |gs| <= |p| && p[|p| - |gs|..] == gs
  {
    if |gs| <= |p| {
      var tail := p[|p| - |gs|..];
      forall i | 0 <= i < |gs| ensures Covers(gs[i], p[|p| - |gs| + i]) <==> tail[i] == gs[i] {
        MatchIsCover(gs[i], tail[i]);
        LiteralMatch(gs[i], tail[i]);
      }
    }
  }

  /** The single-path predicate takes the files whose path ends in the folder path. */
  lemma PathAccepts(gs: Path, p: Path)
    requires FolderPath(gs) && Named(p)
    ensures Accepts(Relative(p), [Relative(gs)]) <==> |gs| <= |p| && p[|p| - |gs|..] == gs
  {
    PathToken(gs);
    PatternAccepts(gs, p);
    LiteralEnd(gs, p);
  }

  lemma WalkedWhole(src: Source, spec: Spec, children: Entries, gs: Path, p: Path)
    requires spec.excludes == []
    ensures p in Walked(ExcluderFor(src, spec), children, gs) <==> gs <= p && IsFile(children, p[|gs|..])
  {
    var x := ExcluderFor(src, spec);
    if gs <= p {
      assert p == gs + p[|gs|..];
      WalkReaches(x, children, gs, p[|gs|..]);
      NoEmptyFile(children);
    } else if p in Walked(x, children, gs) {
      WalkedBelow(x, children, gs, p);
    }
  }

  lemma PathFiles(src: Source, spec: Spec, token: string, gs: Path, p: Path)
    requires Valid(src.tree) && spec.excludes == [] && gs != []
    requires token != "" && token != "*" && !HasGlob(token) && Parts(token) == gs
    ensures p in SyncFiles(src, spec, ExcluderFor(src, spec), token) <==> IsFile(src.tree, p) && gs <= p
  {
    if gs <= p {
      assert p == gs + p[|gs|..];
      LookupMeans(src.tree, gs, p[|gs|..]);
    }
    match Lookup(src.tree, gs)
    case Missing =>
    case FileNode => assert gs <= p ==> (p[|gs|..] == [] <==> p == gs);
    case DirNode(children) => WalkedWhole(src, spec, children, gs, p);
  }

  /** The walk takes the files below that folder, or the file of that path. */
  lemma PathWalks(src: Source, gs: Path, p: Path)
    requires Valid(src.tree) && FolderPath(gs)
    ensures p in FilesOf(src, false, [Relative(gs)]) <==> IsFile(src.tree, p) && gs <= p
  {
    var token := Relative(gs);
    var spec := Parse([token]);
    PathToken(gs);
    RelEnds(gs);
    PatternParts(gs);
    LiteralParses(token);
    PathFiles(src, spec, token, gs, p);
    OnlyToken(FilesFor(src, spec, ExcluderFor(src, spec), false), token, p);
  }

  /** They agree on a file exactly when its path both starts and ends in the folder path, or neither. */
  lemma PathAgreement(src: Source, gs: Path, p: Path)
    requires Valid(src.tree) && FolderPath(gs) && IsFile(src.tree, p)
    ensures (p in FilesOf(src, false, [Relative(gs)]) <==> Accepts(Relative(p), [Relative(gs)])) <==>
              (gs <= p <==> |gs| <= |p| && p[|p| - |gs|..] == gs)
  {
    FileTop(src.tree, p);
    PathWalks(src, gs, p);
    PathAccepts(gs, p);
  }

  // ----- patterns

  /** rglob finds the files of the tree whose last segments the pattern covers. */
  ghost predicate FindsByPattern(src: Source, gs: Path) {
    forall p :: p in src.globbed(Relative(gs)) <==> IsFile(src.tree, p) && CoversEnd(gs, p)
  }

  /** Then walk and predicate agree on every file under a pattern without two stars in front, whatever the estimate. */
  lemma PatternAgreement(src: Source, async: bool, gs: Path, p: Path)
    requires Valid(src.tree) && IsFile(src.tree, p) && FindsByPattern(src, gs)
    requires PatternPath(gs) && PatternToken(Relative(gs)) && HasGlob(Relative(gs)) && gs[0] != "**"
    ensures p in FilesOf(src, async, [Relative(gs)]) <==> Accepts(Relative(p), [Relative(gs)])
  {
    FileTop(src.tree, p);
    PatternAccepts(gs, p);
    OneParse(Relative(gs), [Relative(gs)]);
    GlobWalks(src, async, [Relative(gs)], Relative(gs), p);
  }

  // ----- the bucket

  lemma HeadSplits(head: string, below: string, text: string, parts: Path)
    requires '/' !in head && text == head + "/" + below && Split(below, '/') == parts
    ensures Split(text, '/') == [head] + parts
  {
    SplitHead(head, below, '/');
  }

  lemma Regrouped(x: string, y: string, z: string)
    ensures (x + "/" + y) + "/" + z == x + "/" + (y + "/" + z)
  {
  }

  lemma {:induction false} SplitBelow(gs: Path, rest: string, below: Path)
    requires gs != [] && (forall i :: 0 <= i < |gs| ==> '/' !in gs[i]) && Split(rest, '/') == below
    ensures Split(Relative(gs) + "/" + rest, '/') == gs + below
  {
    if |gs| == 1 {
      HeadSplits(gs[0], rest, gs[0] + "/" + rest, below);
      assert gs == [gs[0]];
    } else {
      SplitBelow(gs[1..], rest, below);
      Regrouped(gs[0], Relative(gs[1..]), rest);
      HeadSplits(gs[0], Relative(gs[1..]) + "/" + rest, Relative(gs) + "/" + rest, gs[1..] + below);
      assert [gs[0]] + (gs[1..] + below) == gs + below;
    }
  }

  lemma {:induction false} JoinBelow(gs: Path, q: Path)
    requires gs != [] && q != []
    ensures Relative(gs + q) == Relative(gs) + "/" + Relative(q)
  {
    assert (gs + q)[0] == gs[0] && (gs + q)[1..] == gs[1..] + q;
    if |gs| > 1 {
      JoinBelow(gs[1..], q);
    } else {
      assert gs[1..] + q == q;
    }
  }

  /** A prefix with a slash at its end is a folder: it covers what is below. */
  lemma PrefixIsFolder(bp: string, gs: Path, p: Path)
    requires Named(gs) && Named(p)
    ensures bp + (Relative(gs) + "/") <= bp + Relative(p) <==> gs <= p && |gs| < |p|
  {
    var head := Relative(gs) + "/";
    if bp + head <= bp + Relative(p) {
      assert (bp + Relative(p))[|bp|..][..|head|] == head;
      var rest := Relative(p)[|head|..];
      assert Relative(p) == Relative(gs) + "/" + rest;
      SplitBelow(gs, rest, Split(rest, '/'));
      SplitJoin(p, '/');
    }
    if gs <= p && |gs| < |p| {
      assert p == gs + p[|gs|..];
      JoinBelow(gs, p[|gs|..]);
    }
  }

  lemma LiteralParses(token: string)
    requires Firm(token) && !HasGlob(token) && token[|token| - 1] != '/'
    ensures Parse([token]).includes == [token] && Parse([token]).excludes == [] && !Parse([token]).includeAll
  {
    NoGlobNoStar(token);
    OneParse(token, [token]);
  }

  lemma PathHint(gs: Path)
    requires FolderPath(gs)
    ensures ComputeHints(Parse([Relative(gs)])) == [Relative(gs) + "/"]
  {
    PathToken(gs);
    RelEnds(gs);
    assert Relative(gs) == Relative(gs) + "" + TAILS[0];
    HintIsRoot(Relative(gs), Relative(gs), "", TAILS[0]);
    LiteralParses(Relative(gs));
    HintsOfOne(Parse([Relative(gs)]), Relative(gs), Relative(gs) + "/");
  }

  /**
   The bucket listing asks for the objects below the folder and then keeps those whose path ends in the folder path:
   for a folder in which that path does not come again, none.
   */
  lemma PathListing(bp: string, gs: Path, p: Path)
    requires FolderPath(gs) && Named(p)
    ensures Fetched(bp, ComputeHints(Parse([Relative(gs)])), bp + Relative(p)) <==> gs <= p && |gs| < |p|
    ensures Fetched(bp, ComputeHints(Parse([Relative(gs)])), bp + Relative(p)) && Accepts(Relative(p), [Relative(gs)]) <==>
              gs <= p && |gs| < |p| && p[|p| - |gs|..] == gs
  {
    PathHint(gs);
    PrefixIsFolder(bp, gs, p);
    PathAccepts(gs, p);
    assert Relative(gs) + "/" in [Relative(gs) + "/"];
  }
}
