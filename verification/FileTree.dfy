/** A folder as its entries in listing order, and the list that listFiles makes of it. */
module FileTree {
  import opened Text
  import opened Lists

  datatype Entries = End | File(name: string, rest: Entries) | Dir(name: string, children: Entries, rest: Entries)

  /** Path segments from the folder that is listed. */
  type Path = seq<string>

  /** A name that a file system can give to an entry. */
  predicate IsName(name: string) {
    name != "" && '/' !in name && name != "." && name != ".."
  }

  predicate Named(p: Path) {
    p != [] && forall i :: 0 <= i < |p| ==> IsName(p[i])
  }

  /** The path as one string: object_identity, relative_path, as_posix(). */
  function Relative(p: Path): string {
    Join(p, "/")
  }

  function Names(e: Entries): set<string> {
    match e
    case End => {}
    case File(name, rest) => {name} + Names(rest)
    case Dir(name, _, rest) => {name} + Names(rest)
  }

  predicate Valid(e: Entries) {
    match e
    case End => true
    case File(name, rest) => IsName(name) && name !in Names(rest) && Valid(rest)
    case Dir(name, children, rest) => IsName(name) && name !in Names(rest) && Valid(children) && Valid(rest)
  }

  predicate IsFile(e: Entries, p: Path) {
    match e
    case End => false
    case File(name, rest) => p == [name] || IsFile(rest, p)
    case Dir(name, children, rest) => (|p| >= 2 && p[0] == name && IsFile(children, p[1..])) || IsFile(rest, p)
  }

  /** The files in the order that a depth-first reading of the entries meets them. */
  function Listing(e: Entries, dir: Path): seq<Path> {
    match e
    case End => []
    case File(name, rest) => [dir + [name]] + Listing(rest, dir)
    case Dir(name, children, rest) => Listing(children, dir + [name]) + Listing(rest, dir)
  }

  method Walk(dir: Path, entries: Entries, files: seq<Path>) returns (out: seq<Path>)
    ensures out == files + Listing(entries, dir)
    decreases entries
  {
    out := files;
    var e := entries;
    while e != End
      invariant out + Listing(e, dir) == files + Listing(entries, dir)
      invariant e == entries || e < entries
      decreases e
    {
      match e
      case File(name, rest) =>
        out := out + [dir + [name]];
        e := rest;
      case Dir(name, children, rest) =>
        ghost var before := out;
        out := Walk(dir + [name], children, out);
        assert before + (Listing(children, dir + [name]) + Listing(rest, dir)) == out + Listing(rest, dir);
        e := rest;
    }
  }

  method ListFiles(root: Entries) returns (files: seq<Path>)
    ensures files == Listing(root, [])
  {
    files := Walk([], root, []);
  }

  /** The listing has exactly the files of the folder. */
  lemma {:induction false} ListingHasFiles(e: Entries, dir: Path, p: Path)
    ensures dir + p in Listing(e, dir) <==> IsFile(e, p)
  {
    match e
    case End =>
    case File(name, rest) =>
      ListingHasFiles(rest, dir, p);
      if dir + p == dir + [name] {
        assert p == (dir + p)[|dir|..] == [name];
      }
    case Dir(name, children, rest) =>
      ListingHasFiles(rest, dir, p);
      if p != [] && p[0] == name {
        ListingHasFiles(children, dir + [name], p[1..]);
        assert dir + p == dir + [name] + p[1..];
        if |p| == 1 {
          NoEmptyFile(children);
        }
      } else {
        NotListedBelow(children, dir, name, p);
      }
  }

  lemma NotListedBelow(children: Entries, dir: Path, name: string, p: Path)
    requires p == [] || p[0] != name
    ensures dir + p !in Listing(children, dir + [name])
  {
    assert (dir + [name])[|dir|] == name && (p != [] ==> (dir + p)[|dir|] == p[0]);
    if dir + p in Listing(children, dir + [name]) {
      ListingBelow(children, dir + [name], dir + p);
    }
  }

  lemma {:induction false} NoEmptyFile(e: Entries)
    ensures !IsFile(e, [])
  {
    match e
    case End =>
    case File(_, rest) => NoEmptyFile(rest);
    case Dir(_, _, rest) => NoEmptyFile(rest);
  }

  lemma {:induction false} ListingBelow(e: Entries, dir: Path, q: Path)
    requires q in Listing(e, dir)
    ensures dir < q && q == dir + q[|dir|..]
  {
    match e
    case File(name, rest) =>
      if q in Listing(rest, dir) {
        ListingBelow(rest, dir, q);
      }
    case Dir(name, children, rest) =>
      if q in Listing(rest, dir) {
        ListingBelow(rest, dir, q);
      } else {
        ListingBelow(children, dir + [name], q);
      }
  }

  lemma {:induction false} FileTop(e: Entries, p: Path)
    requires IsFile(e, p) && Valid(e)
    ensures Named(p) && p[0] in Names(e)
  {
    match e
    case File(name, rest) =>
      if p != [name] {
        FileTop(rest, p);
      }
    case Dir(name, children, rest) =>
      if IsFile(rest, p) {
        FileTop(rest, p);
      } else {
        FileTop(children, p[1..]);
        assert forall i :: 0 < i < |p| ==> p[i] == p[1..][i - 1];
      }
  }

  /** No file is listed twice. */
  lemma {:induction false} ListingNoRepeats(e: Entries, dir: Path)
    requires Valid(e)
    ensures NoRepeats(Listing(e, dir))
  {
    match e
    case End =>
    case File(name, rest) =>
      ListingNoRepeats(rest, dir);
      forall q | q in Listing(rest, dir) ensures q != dir + [name] {
        ListedTop(rest, dir, q);
        assert (dir + [name])[|dir|] == name;
      }
      NoRepeatsConcat([dir + [name]], Listing(rest, dir));
    case Dir(name, children, rest) =>
      ListingNoRepeats(rest, dir);
      ListingNoRepeats(children, dir + [name]);
      forall q | q in Listing(children, dir + [name]) ensures q !in Listing(rest, dir) {
        ListingBelow(children, dir + [name], q);
        assert q[|dir|] == (dir + [name])[|dir|];
        if q in Listing(rest, dir) {
          ListedTop(rest, dir, q);
        }
      }
      NoRepeatsConcat(Listing(children, dir + [name]), Listing(rest, dir));
  }

  lemma ListedTop(e: Entries, dir: Path, q: Path)
    requires Valid(e) && q in Listing(e, dir)
    ensures dir < q && q[|dir|] in Names(e) && IsFile(e, q[|dir|..])
    ensures forall i :: |dir| <= i < |q| ==> IsName(q[i])
  {
  }

  /** p comes before q when the folder is read entry by entry, each subfolder as a whole in its place. */
  predicate ReadBefore(e: Entries, p: Path, q: Path) {
    match e
    case End => false
    case File(name, rest) => p == [name] || ReadBefore(rest, p, q)
    case Dir(name, children, rest) =>
      if p == [] || p[0] != name then ReadBefore(rest, p, q)
      else q == [] || q[0] != name || ReadBefore(children, p[1..], q[1..])
  }

  lemma ListedAt(e: Entries, dir: Path, k: nat, p: Path)
    requires Valid(e) && k < |Listing(e, dir)| && Listing(e, dir)[k] == dir + p
    ensures p != [] && p[0] in Names(e)
  {
    ListedTop(e, dir, dir + p);
  }

  lemma ListedInner(e: Entries, dir: Path, name: string, k: nat, p: Path)
    requires Valid(e) && k < |Listing(e, dir + [name])| && Listing(e, dir + [name])[k] == dir + p
    ensures p != [] && p[0] == name && dir + p == dir + [name] + p[1..]
  {
    ListedTop(e, dir + [name], dir + p);
    assert (dir + p)[|dir|] == (dir + [name])[|dir|];
  }

  /** The files are listed in that order. */
  lemma {:induction false} ListingInOrder(e: Entries, dir: Path, i: nat, j: nat, p: Path, q: Path)
    requires Valid(e) && i < j < |Listing(e, dir)| && Listing(e, dir)[i] == dir + p && Listing(e, dir)[j] == dir + q
    ensures ReadBefore(e, p, q)
  {
    match e
    case File(name, rest) =>
      if i > 0 {
        ListingInOrder(rest, dir, i - 1, j - 1, p, q);
      } else {
        assert p == (dir + p)[|dir|..] == [name];
      }
    case Dir(name, children, rest) =>
      var n := |Listing(children, dir + [name])|;
      if j < n {
        ListedInner(children, dir, name, i, p);
        ListedInner(children, dir, name, j, q);
        ListingInOrder(children, dir + [name], i, j, p[1..], q[1..]);
      } else if i < n {
        ListedInner(children, dir, name, i, p);
        ListedAt(rest, dir, j - n, q);
      } else {
        ListedAt(rest, dir, i - n, p);
        ListingInOrder(rest, dir, i - n, j - n, p, q);
      }
  }
}
