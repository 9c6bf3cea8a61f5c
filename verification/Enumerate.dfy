/** The two enumerations of a folder under a filter: iter_files and the async walk. */
module Enumerate {
  import opened Text
  import opened Lists
  import opened FileTree
  import opened FileWalk
  import opened FilterSpec

  /** base: the folder's own name. globbed: the files that base.rglob finds for a pattern. */
  datatype Source = Source(tree: Entries, base: string, globbed: string -> seq<Path>)

  datatype Node = Missing | FileNode | DirNode(children: Entries)

  /** base / token, then is_file or is_dir. */
  function Lookup(e: Entries, p: Path): Node
    decreases e
  {
    if p == [] then DirNode(e)
    else
      match e
      case End => Missing
      case File(name, rest) => if p == [name] then FileNode else Lookup(rest, p)
      case Dir(name, children, rest) => if p[0] == name then Lookup(children, p[1..]) else Lookup(rest, p)
  }

  /** The files below the node that a path leads to are the files of the tree whose path starts with it. */
  lemma {:induction false} LookupMeans(e: Entries, p: Path, q: Path)
    requires Valid(e)
    ensures match Lookup(e, p)
            case Missing => !IsFile(e, p + q)
            case FileNode => IsFile(e, p + q) <==> q == []
            case DirNode(children) => Valid(children) && (IsFile(e, p + q) <==> IsFile(children, q))
    decreases e
  {
    if p == [] {
      assert p + q == q;
    } else {
      match e
      case End =>
      case File(name, rest) =>
        if p == [name] {
          NotBelowFile(name, rest, q);
        } else {
          LookupMeans(rest, p, q);
          assert p + q == [name] ==> p == [name];
        }
      case Dir(name, children, rest) =>
        assert (p + q)[0] == p[0] && (p + q)[1..] == p[1..] + q;
        if p[0] == name {
          LookupMeans(children, p[1..], q);
          NoEmptyFile(children);
          if IsFile(rest, p + q) {
            FileTop(rest, p + q);
          }
        } else {
          LookupMeans(rest, p, q);
        }
    }
  }

  lemma NotBelowFile(name: string, rest: Entries, q: Path)
    requires Valid(rest) && name !in Names(rest)
    ensures !IsFile(rest, [name] + q)
  {
    if IsFile(rest, [name] + q) {
      FileTop(rest, [name] + q);
    }
  }

  function MakeExcluder(base: string, bare: set<string>, globs: seq<string>): Excluder {
    Excluder(base, bare, p => ExcludedPath(p, globs))
  }

  function ExcluderFor(src: Source, spec: Spec): Excluder {
    MakeExcluder(src.base, BareNames(spec.excludes), GlobPaths(spec.excludes))
  }

  function TopFiles(e: Entries): seq<Path> {
    var names := FileNames(e);
    seq(|names|, i requires 0 <= i < |names| => [names[i]])
  }

  lemma TopFilesAre(e: Entries, p: Path)
    ensures p in TopFiles(e) <==> |p| == 1 && IsFile(e, p)
  {
    var names := FileNames(e);
    if |p| == 1 {
      FileNamesAreFiles(e, p[0]);
      assert p == [p[0]];
      if p[0] in names {
        var i :| 0 <= i < |names| && names[i] == p[0];
        assert TopFiles(e)[i] == p;
      }
    }
    if p in TopFiles(e) {
      var i :| 0 <= i < |names| && TopFiles(e)[i] == p;
      assert p[0] == names[i];
    }
  }

  function Allows(x: Excluder): Path -> bool {
    p => p == [] || !SkipFile(x, p)
  }

  function AllowsGlobbed(spec: Spec, x: Excluder): Path -> bool {
    p => (spec.topLevelOnly ==> |p| == 1) && (p == [] || !SkipFile(x, p))
  }

  function IsChildrenToken(token: string): bool {
    EndsWith(token, "/*") && !HasGlob(token[..|token| - 2])
  }

  // The files directly in the folder that a children token names: the same in both enumerations.
  function ChildFiles(src: Source, x: Excluder, token: string): seq<Path>
    requires IsChildrenToken(token)
  {
    var p := Parts(token[..|token| - 2]);
    match Lookup(src.tree, p)
    case DirNode(children) => KeptFiles(x, FileNames(children), p)
    case _ => []
  }

  /** rglob of a pattern, the same in both enumerations. */
  function GlobFiles(src: Source, spec: Spec, x: Excluder, token: string): seq<Path> {
    Filter(src.globbed(token), AllowsGlobbed(spec, x))
  }

  /** What iter_files considers for one include token. */
  function SyncFiles(src: Source, spec: Spec, x: Excluder, token: string): seq<Path> {
    if token == "" then (if spec.topLevelOnly then TopFiles(src.tree) else Walked(x, src.tree, []))
    else if token == "*" then TopFiles(src.tree)
    else if !HasGlob(token) then
      var p := Parts(token);
      (match Lookup(src.tree, p)
       case FileNode => if p == [] || SkipFile(x, p) then [] else [p]
       case DirNode(children) => Walked(x, children, p)
       case Missing => [])
    else if IsChildrenToken(token) then ChildFiles(src, x, token)
    else GlobFiles(src, spec, x, token)
  }

  /** rglob("*") below p, filtered file by file, without pruning. */
  function Unpruned(x: Excluder, spec: Spec, e: Entries, p: Path): seq<Path> {
    if spec.excludes == [] then Listing(e, p) else Filter(Listing(e, p), Allows(x))
  }

  /** What the async walk considers for one include token. */
  function AsyncFiles(src: Source, spec: Spec, x: Excluder, token: string): seq<Path> {
    if token == "" then (if spec.topLevelOnly then TopFiles(src.tree) else Unpruned(x, spec, src.tree, []))
    else if token == "*" then TopFiles(src.tree)
    else if !HasGlob(token) then
      var p := Parts(token);
      (match Lookup(src.tree, p)
       case FileNode => if p == [] || SkipFile(x, p) then [] else [p]
       case DirNode(children) => Unpruned(x, spec, children, p)
       case Missing => [])
    else if IsChildrenToken(token) then ChildFiles(src, x, token)
    else GlobFiles(src, spec, x, token)
  }

  function FilesFor(src: Source, spec: Spec, x: Excluder, async: bool): string -> seq<Path> {
    token => if async then AsyncFiles(src, spec, x, token) else SyncFiles(src, spec, x, token)
  }

  function IncludeTokens(spec: Spec): seq<string> {
    if spec.includeAll then [""] else spec.includes
  }

  /** The tokens one after the other, each path once. */
  function Enumerated(filesFor: string -> seq<Path>, tokens: seq<string>): seq<Path> {
    Merge([], FlatMap(filesFor, tokens))
  }

  function FilesOf(src: Source, async: bool, filter: seq<string>): seq<Path> {
    var spec := Parse(filter);
    Enumerated(FilesFor(src, spec, ExcluderFor(src, spec), async), IncludeTokens(spec))
  }

  /** The flag of a filter whose only include is a star: its enumeration is that of the files at the top. */
  lemma TopLevelOnlyExactlyWhen(src: Source, async: bool, filter: seq<string>, p: Path)
    ensures var spec := Parse(filter);
            && (spec.topLevelOnly <==> (set t | t in spec.includes) == {"*"})
            && (spec.topLevelOnly ==> (p in FilesOf(src, async, filter) <==> |p| == 1 && IsFile(src.tree, p)))
  {
    var spec := Parse(filter);
    StarsOnly(spec.includes, set t | t in spec.includes);
    EnumeratedHas(FilesFor(src, spec, ExcluderFor(src, spec), async), IncludeTokens(spec), p);
    TopFilesAre(src.tree, p);
    if spec.topLevelOnly {
      assert spec.includes[0] in spec.includes;
    }
  }

  lemma StarsOnly(includes: seq<string>, all: set<string>)
    requires forall t :: t in all <==> t in includes
    ensures (includes != [] && forall i :: 0 <= i < |includes| ==> includes[i] == "*") <==> all == {"*"}
  {
    if includes != [] && forall i :: 0 <= i < |includes| ==> includes[i] == "*" {
      assert includes[0] in includes;
    }
    if all == {"*"} {
      assert "*" in all;
      forall i | 0 <= i < |includes| ensures includes[i] == "*" {
        assert includes[i] in all;
      }
    }
  }

  // ----- the loops

  method AddNew(seen: seq<Path>, more: seq<Path>) returns (out: seq<Path>)
    ensures out == Merge(seen, more)
  {
    out := seen;
    for i := 0 to |more|
      invariant Merge(out, more[i..]) == Merge(seen, more)
    {
      assert more[i..][1..] == more[i + 1..];
      if more[i] !in out {
        out := out + [more[i]];
      }
    }
  }

  lemma EnumerateNext(filesFor: string -> seq<Path>, tokens: seq<string>, i: nat)
    requires i < |tokens|
    ensures Enumerated(filesFor, tokens[..i + 1]) == Merge(Enumerated(filesFor, tokens[..i]), filesFor(tokens[i]))
  {
    assert tokens[..i + 1][..i] == tokens[..i];
    MergeConcat([], FlatMap(filesFor, tokens[..i]), filesFor(tokens[i]));
  }

  method SyncToken(src: Source, spec: Spec, x: Excluder, token: string, seen: seq<Path>) returns (out: seq<Path>)
    ensures out == Merge(seen, FilesFor(src, spec, x, false)(token))
  {
    if token == "" && !spec.topLevelOnly {
      out := WalkPruned(x, src.tree, [], seen);
    } else if token != "" && token != "*" && !HasGlob(token) && Lookup(src.tree, Parts(token)).DirNode? {
      out := WalkPruned(x, Lookup(src.tree, Parts(token)).children, Parts(token), seen);
    } else {
      out := AddNew(seen, SyncFiles(src, spec, x, token));
    }
  }

  method SplitFilter(src: Source, filter: seq<string>) returns (spec: Spec, x: Excluder)
    ensures spec == Parse(filter) && x == ExcluderFor(src, spec)
  {
    spec := ParseFilterSpec(filter);
    var bare, globs := SplitExcludes(spec.excludes);
    x := MakeExcluder(src.base, bare, globs);
  }

  method IterFiles(src: Source, filter: seq<string>) returns (out: seq<Path>)
    ensures out == FilesOf(src, false, filter)
  {
    var spec, x := SplitFilter(src, filter);
    var tokens := IncludeTokens(spec);
    ghost var filesFor := FilesFor(src, spec, x, false);
    out := [];
    for i := 0 to |tokens|
      invariant out == Enumerated(filesFor, tokens[..i])
    {
      EnumerateNext(filesFor, tokens, i);
      out := SyncToken(src, spec, x, tokens[i], out);
    }
    assert tokens[..|tokens|] == tokens;
  }

  const SMALL := 1000

  /** get_filepaths_rsync_async: the size estimate picks the pruned walk or the unpruned one. */
  method FilePathsAsync(src: Source, filter: seq<string>, estimate: int) returns (out: seq<Path>)
    ensures out == FilesOf(src, estimate >= 1000, filter)
  {
    if estimate < SMALL {
      out := IterFiles(src, filter);
      return;
    }
    var spec, x := SplitFilter(src, filter);
    var tokens := IncludeTokens(spec);
    ghost var filesFor := FilesFor(src, spec, x, true);
    out := [];
    for i := 0 to |tokens|
      invariant out == Enumerated(filesFor, tokens[..i])
    {
      EnumerateNext(filesFor, tokens, i);
      out := AddNew(out, AsyncFiles(src, spec, x, tokens[i]));
    }
    assert tokens[..|tokens|] == tokens;
  }

  // ----- pruned against unpruned

  predicate Considered(filesFor: string -> seq<Path>, tokens: seq<string>, p: Path) {
    exists token :: token in tokens && p in filesFor(token)
  }

  lemma EnumeratedHas(filesFor: string -> seq<Path>, tokens: seq<string>, p: Path)
    ensures p in Enumerated(filesFor, tokens) <==> Considered(filesFor, tokens, p)
  {
    MergeHas([], FlatMap(filesFor, tokens), p);
    if p in FlatMap(filesFor, tokens) {
      var token := FlatMapFrom(filesFor, tokens, p);
    }
    if Considered(filesFor, tokens, p) {
      var token :| token in tokens && p in filesFor(token);
      FlatMapHas(filesFor, tokens, token, p);
    }
  }

  lemma WalkedIsUnpruned(x: Excluder, spec: Spec, e: Entries, dir: Path, q: Path)
    ensures q in Walked(x, e, dir) ==> q in Unpruned(x, spec, e, dir)
    ensures spec.excludes == [] && (forall p :: !x.excludes(p)) && x.bare == {} ==>
              (q in Walked(x, e, dir) <==> q in Unpruned(x, spec, e, dir))
  {
    FilterHas(Listing(e, dir), Allows(x));
    if q in Walked(x, e, dir) {
      WalkedBelow(x, e, dir, q);
    }
    if q in Listing(e, dir) {
      ListingBelow(e, dir, q);
    }
    if dir <= q {
      var p := q[|dir|..];
      assert q == dir + p;
      WalkReaches(x, e, dir, p);
      ListingHasFiles(e, dir, p);
      NoEmptyFile(e);
    }
  }

  lemma TokenUnpruned(src: Source, spec: Spec, x: Excluder, token: string, q: Path)
    ensures q in SyncFiles(src, spec, x, token) ==> q in AsyncFiles(src, spec, x, token)
    ensures spec.excludes == [] && (forall p :: !x.excludes(p)) && x.bare == {} ==>
              (q in SyncFiles(src, spec, x, token) <==> q in AsyncFiles(src, spec, x, token))
  {
    WalkedIsUnpruned(x, spec, src.tree, [], q);
    var p := Parts(token);
    match Lookup(src.tree, p)
    case DirNode(children) => WalkedIsUnpruned(x, spec, children, p, q);
    case _ =>
  }

  /** The async enumeration never misses a file that iter_files yields, whatever the estimate. */
  lemma AsyncContainsSync(src: Source, filter: seq<string>, estimate: int, q: Path)
    requires q in FilesOf(src, false, filter)
    ensures q in FilesOf(src, estimate >= SMALL, filter)
  {
    var spec := Parse(filter);
    var x := ExcluderFor(src, spec);
    var tokens := IncludeTokens(spec);
    EnumeratedHas(FilesFor(src, spec, x, false), tokens, q);
    EnumeratedHas(FilesFor(src, spec, x, true), tokens, q);
    var token :| token in tokens && q in FilesFor(src, spec, x, false)(token);
    TokenUnpruned(src, spec, x, token, q);
    assert q in FilesFor(src, spec, x, true)(token);
  }

  /** Without excludes the estimate does not matter, and no file comes twice. */
  lemma EstimateIsInvisible(src: Source, filter: seq<string>, estimate: int, q: Path)
    requires Parse(filter).excludes == []
    ensures q in FilesOf(src, false, filter) <==> q in FilesOf(src, estimate >= SMALL, filter)
    ensures NoRepeats(FilesOf(src, estimate >= SMALL, filter))
  {
    var spec := Parse(filter);
    var x := ExcluderFor(src, spec);
    var tokens := IncludeTokens(spec);
    EnumeratedHas(FilesFor(src, spec, x, false), tokens, q);
    EnumeratedHas(FilesFor(src, spec, x, true), tokens, q);
    MergeNoRepeats([], FlatMap(FilesFor(src, spec, x, false), tokens));
    MergeNoRepeats([], FlatMap(FilesFor(src, spec, x, true), tokens));
    assert x.bare == {} && forall p :: !x.excludes(p);
    if Considered(FilesFor(src, spec, x, true), tokens, q) {
      var token :| token in tokens && q in FilesFor(src, spec, x, true)(token);
      TokenUnpruned(src, spec, x, token, q);
      assert q in FilesFor(src, spec, x, false)(token);
    }
    if Considered(FilesFor(src, spec, x, false), tokens, q) {
      AsyncContainsSync(src, filter, SMALL, q);
    }
  }

  /**
   With excludes the two differ by exactly the files that pass their own test below a folder that the walk prunes.
   */
  lemma PruningDifference(x: Excluder, spec: Spec, e: Entries, dir: Path, p: Path)
    requires spec.excludes != []
    ensures dir + p in Unpruned(x, spec, e, dir) && dir + p !in Walked(x, e, dir) <==>
              && IsFile(e, p) && p != [] && !SkipFile(x, dir + p)
              && exists k :: 0 < k < |p| && SkipDir(x, dir + p[..k])
  {
    FilterHas(Listing(e, dir), Allows(x));
    WalkReaches(x, e, dir, p);
    ListingHasFiles(e, dir, p);
    NoEmptyFile(e);
  }

  lemma GlobTokenFiles(src: Source, spec: Spec, x: Excluder, async: bool, token: string)
    requires HasGlob(token) && token != "*" && !IsChildrenToken(token)
    ensures FilesFor(src, spec, x, async)(token) == Filter(src.globbed(token), AllowsGlobbed(spec, x))
  {
  }

  lemma GlobbedPasses(src: Source, spec: Spec, p: Path)
    requires !spec.topLevelOnly && p != []
    ensures AllowsGlobbed(spec, ExcluderFor(src, spec))(p) <==>
              && !ExcludedPath(p, GlobPaths(spec.excludes))
              && (if |p| == 1 then src.base else p[|p| - 2]) !in BareNames(spec.excludes)
  {
  }

  lemma OnlyToken(filesFor: string -> seq<Path>, token: string, p: Path)
    ensures p in Enumerated(filesFor, [token]) <==> p in filesFor(token)
  {
    EnumeratedHas(filesFor, [token], p);
    assert token in [token];
  }

  /** Under a general pattern both enumerations keep of the files that rglob finds those that pass the exclude tests. */
  lemma GlobWalks(src: Source, async: bool, filter: seq<string>, token: string, p: Path)
    requires Parse(filter).includes == [token] && !Parse(filter).includeAll && HasGlob(token) && token != "*"
    requires !(EndsWith(token, "/*") && !HasGlob(token[..|token| - 2])) && p != []
    ensures var excludes := Parse(filter).excludes;
            p in FilesOf(src, async, filter) <==>
              && p in src.globbed(token) && !ExcludedPath(p, GlobPaths(excludes))
              && (if |p| == 1 then src.base else p[|p| - 2]) !in BareNames(excludes)
  {
    var spec := Parse(filter);
    var x := ExcluderFor(src, spec);
    assert spec.includes[0] == token && !spec.topLevelOnly;
    OnlyToken(FilesFor(src, spec, x, async), token, p);
    GlobTokenFiles(src, spec, x, async, token);
    FilterHas(src.globbed(token), AllowsGlobbed(spec, x));
    GlobbedPasses(src, spec, p);
  }
}
