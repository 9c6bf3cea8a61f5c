/** os.walk with subdirectories pruned in place, and what it reaches. */
module FileWalk {
  import opened FileTree
  import opened Lists

  /** base: the walked folder's own name. excludes: whether a path matches an exclude pattern. */
  datatype Excluder = Excluder(base: string, bare: set<string>, excludes: Path -> bool)

  /** _should_descend under include_all, and the same test in the walk of a subtree. */
  predicate SkipDir(x: Excluder, p: Path)
    requires p != []
  {
    p[|p| - 1] in x.bare || x.excludes(p)
  }

  function ParentName(x: Excluder, p: Path): string
    requires p != []
  {
    if |p| == 1 then x.base else p[|p| - 2]
  }

  predicate SkipFile(x: Excluder, p: Path)
    requires p != []
  {
    x.excludes(p) || ParentName(x, p) in x.bare
  }

  function FileNames(e: Entries): seq<string> {
    match e
    case End => []
    case File(name, rest) => [name] + FileNames(rest)
    case Dir(_, _, rest) => FileNames(rest)
  }

  function Subdirs(e: Entries): seq<(string, Entries)> {
    match e
    case End => []
    case File(_, rest) => Subdirs(rest)
    case Dir(name, children, rest) => [(name, children)] + Subdirs(rest)
  }

  function KeptFiles(x: Excluder, names: seq<string>, dir: Path): seq<Path> {
    if names == [] then []
    else
      var n := |names| - 1;
      KeptFiles(x, names[..n], dir) + (if SkipFile(x, dir + [names[n]]) then [] else [dir + [names[n]]])
  }

  /** The files of the folder, then those of its kept subfolders: the order of a top-down walk. */
  function Walked(x: Excluder, e: Entries, dir: Path): seq<Path>
    decreases e, 1
  {
    KeptFiles(x, FileNames(e), dir) + Below(x, e, dir)
  }

  function Below(x: Excluder, e: Entries, dir: Path): seq<Path>
    decreases e, 0
  {
    match e
    case End => []
    case File(_, rest) => Below(x, rest, dir)
    case Dir(name, children, rest) =>
      (if SkipDir(x, dir + [name]) then [] else Walked(x, children, dir + [name])) + Below(x, rest, dir)
  }

  // ----- the walk with a worklist

  function KeptOf(x: Excluder, name: string, children: Entries, dir: Path): seq<(Path, Entries)> {
    if SkipDir(x, dir + [name]) then [] else [(dir + [name], children)]
  }

  function Kept(x: Excluder, subdirs: seq<(string, Entries)>, dir: Path): seq<(Path, Entries)> {
    if subdirs == [] then []
    else KeptOf(x, subdirs[0].0, subdirs[0].1, dir) + Kept(x, subdirs[1..], dir)
  }

  function Pending(x: Excluder, work: seq<(Path, Entries)>): seq<Path> {
    if work == [] then [] else Walked(x, work[0].1, work[0].0) + Pending(x, work[1..])
  }

  function Size(e: Entries): nat {
    match e
    case End => 1
    case File(_, rest) => 1 + Size(rest)
    case Dir(_, children, rest) => 1 + Size(children) + Size(rest)
  }

  function Sizes(work: seq<(Path, Entries)>): nat {
    if work == [] then 0 else Size(work[0].1) + Sizes(work[1..])
  }

  lemma {:induction false} PendingConcat(x: Excluder, a: seq<(Path, Entries)>, b: seq<(Path, Entries)>)
    ensures Pending(x, a + b) == Pending(x, a) + Pending(x, b)
  {
    if a == [] {
      assert a + b == b;
    } else {
      PendingConcat(x, a[1..], b);
      PendingHead(x, a[0], a[1..], b);
      assert [a[0]] + a[1..] == a;
    }
  }

  lemma PendingHead(x: Excluder, w: (Path, Entries), a: seq<(Path, Entries)>, b: seq<(Path, Entries)>)
    requires Pending(x, a + b) == Pending(x, a) + Pending(x, b)
    ensures Pending(x, [w] + a + b) == Pending(x, [w] + a) + Pending(x, b)
  {
    assert ([w] + a + b)[1..] == a + b && ([w] + a)[1..] == a;
  }

  lemma {:induction false} SizesConcat(a: seq<(Path, Entries)>, b: seq<(Path, Entries)>)
    ensures Sizes(a + b) == Sizes(a) + Sizes(b)
  {
    if a == [] {
      assert a + b == b;
    } else {
      SizesConcat(a[1..], b);
      assert (a + b)[1..] == a[1..] + b;
    }
  }

  lemma {:induction false} KeptIsBelow(x: Excluder, e: Entries, dir: Path)
    ensures Pending(x, Kept(x, Subdirs(e), dir)) == Below(x, e, dir)
    ensures Sizes(Kept(x, Subdirs(e), dir)) < Size(e)
  {
    match e
    case End =>
    case File(_, rest) => KeptIsBelow(x, rest, dir);
    case Dir(name, children, rest) =>
      KeptIsBelow(x, rest, dir);
      var first := KeptOf(x, name, children, dir);
      assert Subdirs(e)[0] == (name, children) && Subdirs(e)[1..] == Subdirs(rest);
      assert Kept(x, Subdirs(e), dir) == first + Kept(x, Subdirs(rest), dir);
      PendingConcat(x, first, Kept(x, Subdirs(rest), dir));
      SizesConcat(first, Kept(x, Subdirs(rest), dir));
  }

  method ReadDir(entries: Entries) returns (subdirs: seq<(string, Entries)>, files: seq<string>)
    ensures subdirs == Subdirs(entries) && files == FileNames(entries)
  {
    subdirs, files := [], [];
    var e := entries;
    while e != End
      invariant subdirs + Subdirs(e) == Subdirs(entries) && files + FileNames(e) == FileNames(entries)
      decreases e
    {
      match e
      case File(name, rest) =>
        files := files + [name];
        e := rest;
      case Dir(name, children, rest) =>
        subdirs := subdirs + [(name, children)];
        e := rest;
    }
  }

  method Prune(x: Excluder, subdirs: seq<(string, Entries)>, dir: Path) returns (keep: seq<(Path, Entries)>)
    ensures keep == Kept(x, subdirs, dir)
  {
    keep := [];
    var rest := subdirs;
    while rest != []
      invariant keep + Kept(x, rest, dir) == Kept(x, subdirs, dir)
      decreases |rest|
    {
      var more := KeptOf(x, rest[0].0, rest[0].1, dir);
      assert keep + (more + Kept(x, rest[1..], dir)) == keep + more + Kept(x, rest[1..], dir);
      keep := keep + more;
      rest := rest[1..];
    }
  }

  method EmitFiles(x: Excluder, files: seq<string>, cur: Path, seen: seq<Path>) returns (out: seq<Path>)
    ensures out == Merge(seen, KeptFiles(x, files, cur))
  {
    out := seen;
    for i := 0 to |files|
      invariant out == Merge(seen, KeptFiles(x, files[..i], cur))
    {
      assert files[..i + 1][..i] == files[..i];
      var f := cur + [files[i]];
      MergeConcat(seen, KeptFiles(x, files[..i], cur), if SkipFile(x, f) then [] else [f]);
      if !SkipFile(x, f) {
        if f !in out {
          out := out + [f];
        }
      }
    }
    assert files[..|files|] == files;
  }

  /** What is pending once the first folder on the worklist is read and its kept subfolders take its place. */
  lemma OneFolder(x: Excluder, cur: Path, entries: Entries, rest: seq<(Path, Entries)>, out: seq<Path>)
    ensures var keep := Kept(x, Subdirs(entries), cur);
            && Merge(out, Walked(x, entries, cur) + Pending(x, rest))
               == Merge(Merge(out, KeptFiles(x, FileNames(entries), cur)), Pending(x, keep + rest))
            && Sizes(keep + rest) < Size(entries) + Sizes(rest)
  {
    KeptIsBelow(x, entries, cur);
    PendingConcat(x, Kept(x, Subdirs(entries), cur), rest);
    SizesConcat(Kept(x, Subdirs(entries), cur), rest);
    MergeThree(out, KeptFiles(x, FileNames(entries), cur), Below(x, entries, cur), Pending(x, rest));
  }

  /** Adds what the walk reaches to out, each path once. */
  method WalkPruned(x: Excluder, root: Entries, dir: Path, seen: seq<Path>) returns (out: seq<Path>)
    ensures out == Merge(seen, Walked(x, root, dir))
  {
    out := seen;
    var work := [(dir, root)];
    assert Pending(x, work) == Walked(x, root, dir);
    while work != []
      invariant Merge(out, Pending(x, work)) == Merge(seen, Walked(x, root, dir))
      decreases Sizes(work)
    {
      var cur, entries, rest := work[0].0, work[0].1, work[1..];
      var subdirs, files := ReadDir(entries);
      var keep := Prune(x, subdirs, cur);
      OneFolder(x, cur, entries, rest, out);
      out := EmitFiles(x, files, cur, out);
      work := keep + rest;
    }
  }

  // ----- what the walk reaches

  /** No folder strictly between dir and the file is skipped, nor the file itself. */
  predicate Reached(x: Excluder, dir: Path, p: Path) {
    && p != [] && !SkipFile(x, dir + p)
    && forall k :: 0 < k < |p| ==> !SkipDir(x, dir + p[..k])
  }

  lemma {:induction false} KeptFilesHave(x: Excluder, names: seq<string>, dir: Path, p: Path)
    ensures dir + p in KeptFiles(x, names, dir) <==> |p| == 1 && p[0] in names && !SkipFile(x, dir + p)
  {
    if names != [] {
      var n := |names| - 1;
      KeptFilesHave(x, names[..n], dir, p);
      assert names == names[..n] + [names[n]];
      if dir + p == dir + [names[n]] {
        assert p == (dir + p)[|dir|..] == [names[n]];
      }
    }
  }

  lemma {:induction false} FileNamesAreFiles(e: Entries, name: string)
    ensures name in FileNames(e) <==> IsFile(e, [name])
  {
    match e
    case End =>
    case File(_, rest) => FileNamesAreFiles(rest, name);
    case Dir(_, _, rest) => FileNamesAreFiles(rest, name);
  }

  /** For every folder, pattern test and set of names: the walk yields exactly the files it should reach. */
  lemma {:induction false} WalkReaches(x: Excluder, e: Entries, dir: Path, p: Path)
    ensures dir + p in Walked(x, e, dir) <==> IsFile(e, p) && Reached(x, dir, p)
    decreases e, 1
  {
    KeptFilesHave(x, FileNames(e), dir, p);
    BelowReaches(x, e, dir, p);
    NoEmptyFile(e);
    if |p| == 1 {
      FileNamesAreFiles(e, p[0]);
      assert p == [p[0]];
    }
  }

  lemma {:induction false} BelowReaches(x: Excluder, e: Entries, dir: Path, p: Path)
    ensures dir + p in Below(x, e, dir) <==> |p| >= 2 && IsFile(e, p) && Reached(x, dir, p)
    decreases e, 0
  {
    match e
    case End =>
    case File(_, rest) => BelowReaches(x, rest, dir, p);
    case Dir(name, children, rest) =>
      BelowReaches(x, rest, dir, p);
      var sub := dir + [name];
      if p != [] && p[0] == name {
        var q := p[1..];
        assert dir + p == sub + q;
        WalkReaches(x, children, sub, q);
        NoEmptyFile(children);
        ReachedBelow(x, dir, p);
      } else {
        NotWalkedBelow(x, children, dir, name, p);
      }
  }

  lemma NotWalkedBelow(x: Excluder, children: Entries, dir: Path, name: string, p: Path)
    requires p == [] || p[0] != name
    ensures dir + p !in Walked(x, children, dir + [name])
  {
    assert (dir + [name])[|dir|] == name && (p != [] ==> (dir + p)[|dir|] == p[0]);
    if dir + p in Walked(x, children, dir + [name]) {
      WalkedBelow(x, children, dir + [name], dir + p);
    }
  }

  /** Reaching p from dir is entering its first folder and reaching the rest from there. */
  lemma ReachedBelow(x: Excluder, dir: Path, p: Path)
    requires p != []
    ensures |p| >= 2 ==>
              (Reached(x, dir, p) <==> !SkipDir(x, dir + [p[0]]) && Reached(x, dir + [p[0]], p[1..]))
  {
    if |p| >= 2 {
      var sub, q := dir + [p[0]], p[1..];
      assert sub + q == dir + p;
      assert dir + p[..1] == sub;
      forall k | 0 < k < |q| ensures sub + q[..k] == dir + p[..k + 1] {
        assert p[..k + 1] == [p[0]] + q[..k];
      }
      if Reached(x, dir, p) {
        forall k | 0 < k < |q| ensures !SkipDir(x, sub + q[..k]) {
          assert !SkipDir(x, dir + p[..k + 1]);
        }
        assert !SkipDir(x, dir + p[..1]);
      }
      if !SkipDir(x, sub) && Reached(x, sub, q) {
        forall k | 0 < k < |p| ensures !SkipDir(x, dir + p[..k]) {
          if k > 1 {
            assert !SkipDir(x, sub + q[..k - 1]);
          }
        }
      }
    }
  }

  lemma {:induction false} WalkedBelow(x: Excluder, e: Entries, dir: Path, q: Path)
    requires q in Walked(x, e, dir)
    ensures dir < q
    decreases e, 1
  {
    if q in Below(x, e, dir) {
      BelowBelow(x, e, dir, q);
    } else {
      KeptBelow(x, FileNames(e), dir, q);
    }
  }

  lemma {:induction false} BelowBelow(x: Excluder, e: Entries, dir: Path, q: Path)
    requires q in Below(x, e, dir)
    ensures dir < q
    decreases e, 0
  {
    match e
    case File(_, rest) => BelowBelow(x, rest, dir, q);
    case Dir(name, children, rest) =>
      if q in Below(x, rest, dir) {
        BelowBelow(x, rest, dir, q);
      } else {
        WalkedBelow(x, children, dir + [name], q);
      }
  }

  lemma {:induction false} KeptBelow(x: Excluder, names: seq<string>, dir: Path, q: Path)
    requires q in KeptFiles(x, names, dir)
    ensures dir < q
  {
    var n := |names| - 1;
    if q in KeptFiles(x, names[..n], dir) {
      KeptBelow(x, names[..n], dir, q);
    }
  }
}
