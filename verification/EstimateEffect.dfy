/** Exactly which files the size estimate adds to the asynchronous enumeration. */
module EstimateEffect {
  import opened Lists
  import opened FileTree
  import opened FileWalk
  import opened FilterSpec
  import opened Enumerate

  datatype Walk = NoWalk | Walk(root: Path, entries: Entries)

  /** The subtree that an include token asks to walk, if it asks for one. */
  function WalkOf(src: Source, spec: Spec, token: string): Walk {
    if token == "" then (if spec.topLevelOnly then NoWalk else Walk([], src.tree))
    else if HasGlob(token) then NoWalk
    else
      match Lookup(src.tree, Parts(token))
      case DirNode(children) => Walk(Parts(token), children)
      case _ => NoWalk
  }

  /** What a token that walks no subtree yields: top files, one file, the files of one folder, or a pattern's files. */
  predicate Direct(src: Source, spec: Spec, x: Excluder, token: string, q: Path) {
    if token == "" || token == "*" then |q| == 1 && IsFile(src.tree, q)
    else if !HasGlob(token) then
      q == Parts(token) && q != [] && Lookup(src.tree, q) == FileNode && !SkipFile(x, q)
    else if IsChildrenToken(token) then
      var folder := Parts(token[..|token| - 2]);
      && folder < q && |q| == |folder| + 1 && !SkipFile(x, q)
      && Lookup(src.tree, folder).DirNode? && IsFile(Lookup(src.tree, folder).children, q[|folder|..])
    else q in src.globbed(token) && (spec.topLevelOnly ==> |q| == 1) && (q == [] || !SkipFile(x, q))
  }

  /** q is a file that the token asks for and that passes its own test. */
  predicate Covers(src: Source, spec: Spec, x: Excluder, token: string, q: Path) {
    match WalkOf(src, spec, token)
    case NoWalk => Direct(src, spec, x, token, q)
    case Walk(root, entries) => root < q && IsFile(entries, q[|root|..]) && !SkipFile(x, q)
  }

  /** The token's walk skips a folder strictly between its root and q. */
  predicate Prunes(src: Source, spec: Spec, x: Excluder, token: string, q: Path) {
    match WalkOf(src, spec, token)
    case NoWalk => false
    case Walk(root, _) => exists k :: |root| < k < |q| && SkipDir(x, q[..k])
  }

  lemma DirectHas(src: Source, spec: Spec, x: Excluder, token: string, q: Path)
    requires WalkOf(src, spec, token) == NoWalk
    ensures q in SyncFiles(src, spec, x, token) <==> Direct(src, spec, x, token, q)
    ensures q in AsyncFiles(src, spec, x, token) <==> Direct(src, spec, x, token, q)
  {
    if token == "" || token == "*" {
      TopFilesAre(src.tree, q);
    } else if HasGlob(token) {
      if IsChildrenToken(token) {
        ChildFilesHave(src, x, token, q);
      } else {
        FilterHas(src.globbed(token), AllowsGlobbed(spec, x));
      }
    }
  }

  lemma ChildFilesHave(src: Source, x: Excluder, token: string, q: Path)
    requires IsChildrenToken(token)
    ensures q in ChildFiles(src, x, token) <==>
              var folder := Parts(token[..|token| - 2]);
              && folder < q && |q| == |folder| + 1 && !SkipFile(x, q)
              && Lookup(src.tree, folder).DirNode? && IsFile(Lookup(src.tree, folder).children, q[|folder|..])
  {
    var folder := Parts(token[..|token| - 2]);
    match Lookup(src.tree, folder)
    case DirNode(children) =>
      if folder < q {
        KeptFilesHave(x, FileNames(children), folder, q[|folder|..]);
        assert q == folder + q[|folder|..];
        if |q| == |folder| + 1 {
          FileNamesAreFiles(children, q[|folder|]);
          assert q[|folder|..] == [q[|folder|]];
        }
      } else if q in ChildFiles(src, x, token) {
        KeptBelow(x, FileNames(children), folder, q);
      }
    case _ =>
  }

  lemma UnprunedWalk(x: Excluder, spec: Spec, e: Entries, root: Path, q: Path)
    requires spec.excludes == [] ==> x.bare == {} && forall p :: !x.excludes(p)
    ensures q in Unpruned(x, spec, e, root) <==> root < q && IsFile(e, q[|root|..]) && !SkipFile(x, q)
  {
    FilterHas(Listing(e, root), Allows(x));
    if root < q {
      assert q == root + q[|root|..];
      ListingHasFiles(e, root, q[|root|..]);
    } else {
      NotBelow(x, e, root, q);
    }
  }

  lemma PrunedWalk(x: Excluder, e: Entries, root: Path, q: Path)
    ensures q in Walked(x, e, root) <==>
              && root < q && IsFile(e, q[|root|..]) && !SkipFile(x, q)
              && !(exists k :: |root| < k < |q| && SkipDir(x, q[..k]))
  {
    if root < q {
      var p := q[|root|..];
      assert q == root + p;
      WalkReaches(x, e, root, p);
      assert forall k :: 0 < k < |p| ==> root + p[..k] == q[..|root| + k];
      if exists k :: |root| < k < |q| && SkipDir(x, q[..k]) {
        var k :| |root| < k < |q| && SkipDir(x, q[..k]);
        assert SkipDir(x, root + p[..k - |root|]);
      }
    } else {
      NotBelow(x, e, root, q);
    }
  }

  lemma NotBelow(x: Excluder, e: Entries, root: Path, q: Path)
    requires !(root < q)
    ensures q !in Walked(x, e, root) && q !in Listing(e, root)
  {
    if q in Walked(x, e, root) {
      WalkedBelow(x, e, root, q);
    }
    if q in Listing(e, root) {
      ListingBelow(e, root, q);
    }
  }

  lemma TokenFiles(src: Source, spec: Spec, token: string, q: Path)
    ensures var x := ExcluderFor(src, spec);
            && (q in AsyncFiles(src, spec, x, token) <==> Covers(src, spec, x, token, q))
            && (q in SyncFiles(src, spec, x, token) <==>
                  Covers(src, spec, x, token, q) && !Prunes(src, spec, x, token, q))
  {
    var x := ExcluderFor(src, spec);
    match WalkOf(src, spec, token)
    case NoWalk => DirectHas(src, spec, x, token, q);
    case Walk(root, entries) =>
      UnprunedWalk(x, spec, entries, root, q);
      PrunedWalk(x, entries, root, q);
  }

  /** Some token asks for q and its walk prunes q away, and no other token makes up for it. */
  predicate Hidden(src: Source, filter: seq<string>, q: Path) {
    var spec := Parse(filter);
    var x := ExcluderFor(src, spec);
    var tokens := IncludeTokens(spec);
    && (exists token :: token in tokens && Covers(src, spec, x, token, q))
    && (forall token :: token in tokens && Covers(src, spec, x, token, q) ==> Prunes(src, spec, x, token, q))
  }

  /** The files that a large estimate adds, for every filter and every tree: exactly the hidden ones. */
  lemma EstimateAdds(src: Source, filter: seq<string>, q: Path)
    ensures q in FilesOf(src, true, filter) && q !in FilesOf(src, false, filter) <==> Hidden(src, filter, q)
  {
    var spec := Parse(filter);
    var x := ExcluderFor(src, spec);
    var tokens := IncludeTokens(spec);
    EnumeratedHas(FilesFor(src, spec, x, true), tokens, q);
    EnumeratedHas(FilesFor(src, spec, x, false), tokens, q);
    forall token | token in tokens
      ensures q in FilesFor(src, spec, x, true)(token) <==> Covers(src, spec, x, token, q)
      ensures q in FilesFor(src, spec, x, false)(token) <==>
                Covers(src, spec, x, token, q) && !Prunes(src, spec, x, token, q)
    {
      TokenFiles(src, spec, token, q);
    }
  }

  lemma {:induction false} LookedUp(e: Entries, p: Path, children: Entries, q: Path)
    requires Lookup(e, p) == DirNode(children) && IsFile(children, q)
    ensures IsFile(e, p + q)
    decreases e
  {
    NoEmptyFile(children);
    if p == [] {
      assert p + q == q;
    } else {
      match e
      case File(_, rest) => LookedUp(rest, p, children, q);
      case Dir(name, inner, rest) =>
        if p[0] == name {
          LookedUp(inner, p[1..], children, q);
          assert (p + q)[1..] == p[1..] + q;
        } else {
          LookedUp(rest, p, children, q);
        }
    }
  }

  lemma HiddenIsListed(src: Source, filter: seq<string>, q: Path)
    requires Hidden(src, filter, q)
    ensures q in Listing(src.tree, [])
  {
    var spec := Parse(filter);
    var x := ExcluderFor(src, spec);
    var token :| token in IncludeTokens(spec) && Covers(src, spec, x, token, q);
    assert Prunes(src, spec, x, token, q);
    var walk := WalkOf(src, spec, token);
    if walk.root != [] {
      LookedUp(src.tree, walk.root, walk.entries, q[|walk.root|..]);
      assert walk.root + q[|walk.root|..] == q;
    }
    ListingHasFiles(src.tree, [], q);
    assert [] + q == q;
  }

  /** The estimate does not change what is enumerated exactly when no listed file is hidden. */
  lemma EstimateInvisibleExactlyWhen(src: Source, filter: seq<string>)
    ensures (forall q :: q in FilesOf(src, true, filter) <==> q in FilesOf(src, false, filter)) <==>
            (forall q :: q in Listing(src.tree, []) ==> !Hidden(src, filter, q))
  {
    forall q
      ensures q in FilesOf(src, true, filter) && q !in FilesOf(src, false, filter) <==> Hidden(src, filter, q)
      ensures q in FilesOf(src, false, filter) ==> q in FilesOf(src, true, filter)
      ensures Hidden(src, filter, q) ==> q in Listing(src.tree, [])
    {
      EstimateAdds(src, filter, q);
      if q in FilesOf(src, false, filter) {
        AsyncContainsSync(src, filter, SMALL, q);
      }
      if Hidden(src, filter, q) {
        HiddenIsListed(src, filter, q);
      }
    }
  }
}
