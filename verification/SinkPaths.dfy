/** Where the two sinks of the transfer put a file, on POSIX paths. */
module SinkPaths {
  import opened Text
  import opened FileTree
  import opened Transfer
  import opened TransferCheckpoint

  // ----- the folder sink

  /** One segment of path.resolve. */
  function Enter(at: Path, segment: string): Path {
    if segment == "" || segment == "." then at
    else if segment == ".." then (if at == [] then [] else at[..|at| - 1])
    else at + [segment]
  }

  function EnterAll(at: Path, segments: seq<string>): Path
    decreases |segments|
  {
    if segments == [] then at else EnterAll(Enter(at, segments[0]), segments[1..])
  }

  /** path.resolve(root, relative) for an absolute root. */
  function Resolve(root: Path, relative: string): Path {
    EnterAll(if relative != "" && relative[0] == '/' then [] else root, Split(relative, '/'))
  }

  /** The segments as the string that path.resolve returns. */
  function PathText(p: Path): string {
    if p == [] then "/" else Slashed(p)
  }

  function Slashed(p: Path): string {
    if p == [] then "" else "/" + p[0] + Slashed(p[1..])
  }

  /** The guard in write: not destination.startsWith(root + "/") and not the root itself is refused. */
  predicate Admitted(root: Path, destination: Path) {
    (PathText(root) + "/" <= PathText(destination)) || PathText(destination) == PathText(root)
  }

  predicate Plain(p: Path) {
    forall i :: 0 <= i < |p| ==> p[i] != "" && '/' !in p[i]
  }

  lemma {:induction false} EnterAllPlain(at: Path, segments: seq<string>)
    requires Plain(at) && forall i :: 0 <= i < |segments| ==> '/' !in segments[i]
    ensures Plain(EnterAll(at, segments))
    decreases |segments|
  {
    if segments != [] {
      EnterAllPlain(Enter(at, segments[0]), segments[1..]);
    }
  }

  /** A segment that is followed by a slash or by nothing can be read off the text. */
  lemma SegmentDetermined(a: string, x: string, b: string, y: string)
    requires '/' !in a && '/' !in b && x != "" && x[0] == '/' && (y == "" || y[0] == '/')
    requires a + x <= b + y
    ensures a == b && x <= y
  {
    assert forall i :: 0 <= i < |a| ==> (a + x)[i] == a[i] != '/';
    assert forall i :: 0 <= i < |b| ==> (b + y)[i] == b[i] != '/';
    assert (a + x)[|a|] == (b + y)[|a|] == '/';
    assert y != "" && (a + x)[|b|] == (b + y)[|b|] == '/';
    assert |a| == |b|;
    assert (b + y)[..|a|] == b && (a + x)[..|a|] == a;
    assert (b + y)[|a|..] == y && (a + x)[|a|..] == x;
  }

  /** The text of one path with a slash after it starts the text of another exactly when it is a proper prefix. */
  lemma {:induction false} SlashedPrefix(p: Path, q: Path)
    requires Plain(p) && Plain(q)
    ensures Slashed(p) + "/" <= Slashed(q) <==> p < q
  {
    if p == [] || q == [] {
    } else {
      SlashedPrefix(p[1..], q[1..]);
      var a, x, b, y := p[0], Slashed(p[1..]) + "/", q[0], Slashed(q[1..]);
      assert Slashed(p) + "/" == "/" + (a + x) && Slashed(q) == "/" + (b + y);
      assert Slashed(p) + "/" <= Slashed(q) <==> a + x <= b + y by {
        assert ("/" + (a + x))[1..] == a + x && ("/" + (b + y))[1..] == b + y;
      }
      if a + x <= b + y {
        SegmentDetermined(a, x, b, y);
        assert p == [a] + p[1..] && q == [b] + q[1..];
      }
      if p < q {
        assert p[1..] < q[1..];
      }
    }
  }

  lemma {:induction false} SlashedInjective(p: Path, q: Path)
    requires Plain(p) && Plain(q) && Slashed(p) == Slashed(q)
    ensures p == q
  {
    if p != [] && q != [] {
      var a, x, b, y := p[0], Slashed(p[1..]), q[0], Slashed(q[1..]);
      assert ("/" + a + x)[1..] == a + x && ("/" + b + y)[1..] == b + y;
      SegmentDetermined(a, x + "/", b, y + "/") by {
        assert a + (x + "/") == (a + x) + "/";
        assert b + (y + "/") == (b + y) + "/";
      }
      assert |x| == |y|;
      assert x == (x + "/")[..|x|] && y == (y + "/")[..|y|];
      SlashedInjective(p[1..], q[1..]);
      assert p == [a] + p[1..] && q == [b] + q[1..];
    }
  }

  /**
   For every relative path, ".." and absolute ones included: the string guard lets a destination through exactly
   when it is the root or lies below it segment by segment, but below the root folder "/" it lets nothing through.
   */
  lemma GuardIsContainment(root: Path, relative: string)
    requires Plain(root)
    ensures var destination := Resolve(root, relative);
            Admitted(root, destination) <==> destination == root || (root != [] && root < destination)
  {
    var destination := Resolve(root, relative);
    EnterAllPlain(if relative != "" && relative[0] == '/' then [] else root, Split(relative, '/'));
    SlashedPrefix(root, destination);
    if root == [] {
      if destination != [] {
        assert PathText(destination)[1] == destination[0][0];
        assert (PathText(root) + "/")[1] == '/';
        assert |PathText(destination)| > 1;
      }
    } else if destination == [] {
      assert |PathText(root)| > 1;
    } else if PathText(destination) == PathText(root) {
      SlashedInjective(destination, root);
    }
  }

  lemma {:induction false} EnterNames(at: Path, p: Path)
    requires forall i :: 0 <= i < |p| ==> IsName(p[i])
    ensures EnterAll(at, p) == at + p
    decreases |p|
  {
    if p != [] {
      EnterNames(at + [p[0]], p[1..]);
      assert at + [p[0]] + p[1..] == at + p;
    }
  }

  lemma RelativeIsNamed(p: Path)
    requires Named(p)
    ensures Split(Relative(p), '/') == p && Relative(p) != "" && Relative(p)[0] != '/'
  {
    SplitJoin(p, '/');
  }

  /** A listed file goes to its own path below the root; it is refused exactly when the root is "/". */
  lemma ListedDestination(root: Path, e: Entries, p: Path)
    requires Plain(root) && Valid(e) && p in Listing(e, [])
    ensures Resolve(root, Relative(p)) == root + p
    ensures Admitted(root, Resolve(root, Relative(p))) <==> root != []
  {
    ListedTop(e, [], p);
    RelativeIsNamed(p);
    EnterNames(root, p);
    GuardIsContainment(root, Relative(p));
  }

  lemma {:induction false} EnterAllConcat(at: Path, a: Path, b: Path)
    ensures EnterAll(at, a + b) == EnterAll(EnterAll(at, a), b)
    decreases |a|
  {
    if a == [] {
      assert a + b == b;
    } else {
      assert (a + b)[1..] == a[1..] + b;
      EnterAllConcat(Enter(at, a[0]), a[1..], b);
    }
  }

  lemma EnterOne(at: Path, segment: string)
    ensures EnterAll(at, [segment]) == Enter(at, segment)
  {
    assert [segment][1..] == [];
  }

  /** Empty segments and dots can be left out anywhere. */
  lemma DotsVanish(at: Path, a: Path, segment: string, b: Path)
    requires segment == "" || segment == "."
    ensures EnterAll(at, a + [segment] + b) == EnterAll(at, a + b)
  {
    EnterAllConcat(at, a + [segment], b);
    EnterAllConcat(at, a, [segment]);
    EnterAllConcat(at, a, b);
    EnterOne(EnterAll(at, a), segment);
  }

  /** A name and the two dots after it cancel, anywhere; at the root folder two dots do nothing. */
  lemma UpCancels(at: Path, a: Path, name: string, up: string, b: Path)
    requires IsName(name) && up == ".."
    ensures EnterAll(at, a + [name, up] + b) == EnterAll(at, a + b)
    ensures EnterAll([], [up] + b) == EnterAll([], b)
  {
    var here := EnterAll(at, a);
    EnterAllConcat(at, a + [name, up], b);
    EnterAllConcat(at, a, [name, up]);
    EnterAllConcat(at, a, b);
    assert [name, up][1..] == [up] && (here + [name])[..|here|] == here;
    EnterOne(here + [name], up);
    assert ([up] + b)[1..] == b;
  }

  function Ancestor(p: Path, levels: nat): Path {
    if levels <= |p| then p[..|p| - levels] else []
  }

  lemma {:induction false} Climbs(at: Path, ups: Path)
    requires forall i :: 0 <= i < |ups| ==> ups[i] == ".."
    ensures EnterAll(at, ups) == Ancestor(at, |ups|)
    decreases |ups|
  {
    if ups != [] {
      Climbs(Enter(at, ups[0]), ups[1..]);
    }
  }

  /** Two dots in front climb one folder each, from the root "/" no further; an absolute path leaves the sink's root. */
  lemma ClimbingDestination(root: Path, ups: Path, p: Path)
    requires Named(p) && forall i :: 0 <= i < |ups| ==> ups[i] == ".."
    ensures Resolve(root, Relative(ups + p)) == Ancestor(root, |ups|) + p
    ensures Resolve(root, "/" + Relative(p)) == p
  {
    SplitJoin(ups + p, '/');
    Climbs(root, ups);
    EnterAllConcat(root, ups, p);
    EnterNames(Ancestor(root, |ups|), p);
    assert Relative(ups + p)[0] == (ups + p)[0][0] != '/';
    SplitJoin(p, '/');
    assert Split("/" + Relative(p), '/') == [""] + p by {
      assert ("/" + Relative(p))[1..] == Relative(p);
    }
    EnterNames([], p);
    assert ([""] + p)[1..] == p && [] + p == p;
  }

  // ----- the bucket sink

  /** [prefix, relative].filter(Boolean).join("/") */
  function GcsObjectName(prefix: string, relative: string): string {
    if prefix == "" then relative else if relative == "" then prefix else prefix + "/" + relative
  }

  predicate GcsAccepts(prefix: string, relative: string) {
    var name := GcsObjectName(prefix, relative);
    name != "" && '\0' !in name
  }

  /** A listed file has an acceptable object name unless the prefix or its path holds a NUL character. */
  lemma ListedObjectName(prefix: string, e: Entries, p: Path)
    requires Valid(e) && p in Listing(e, [])
    ensures GcsAccepts(prefix, Relative(p)) <==> '\0' !in prefix && '\0' !in Relative(p)
  {
    ListedTop(e, [], p);
    RelativeIsNamed(p);
    var name := GcsObjectName(prefix, Relative(p));
    assert forall c: char :: c in name <==> c in prefix || c in Relative(p) || (prefix != "" && c == '/');
  }

  lemma GcsInjective(prefix: string, a: string, b: string)
    requires a != "" && b != "" && GcsObjectName(prefix, a) == GcsObjectName(prefix, b)
    ensures a == b
  {
    if prefix != "" {
      assert GcsObjectName(prefix, a)[|prefix| + 1..] == a;
      assert GcsObjectName(prefix, b)[|prefix| + 1..] == b;
    }
  }

  // ----- no item overwrites another

  function Identities(files: seq<Path>): (r: seq<string>)
    ensures |r| == |files|
    ensures forall i :: 0 <= i < |r| ==> r[i] == Relative(files[i])
  {
    seq(|files|, i requires 0 <= i < |files| => Relative(files[i]))
  }

  /** Two files of one listing differ in identity, in folder destination and in object name. */
  lemma NoOverwrites(e: Entries, root: Path, prefix: string, i: nat, j: nat)
    requires Valid(e) && Plain(root)
    requires i < |Listing(e, [])| && j < |Listing(e, [])| && i != j
    ensures var a, b := Relative(Listing(e, [])[i]), Relative(Listing(e, [])[j]);
            a != b && Resolve(root, a) != Resolve(root, b) && GcsObjectName(prefix, a) != GcsObjectName(prefix, b)
  {
    ListingNoRepeats(e, []);
    var p, q := Listing(e, [])[i], Listing(e, [])[j];
    assert p != q;
    ListedTop(e, [], p);
    ListedTop(e, [], q);
    RelativeIsNamed(p);
    RelativeIsNamed(q);
    ListedDestination(root, e, p);
    ListedDestination(root, e, q);
    assert (root + p)[|root|..] == p && (root + q)[|root|..] == q;
    if GcsObjectName(prefix, Relative(p)) == GcsObjectName(prefix, Relative(q)) {
      GcsInjective(prefix, Relative(p), Relative(q));
    }
  }

  /** So a transfer of a listed folder has the distinct identities that its theorems ask for. */
  lemma ListedIdentitiesAreDistinct(e: Entries, c: Config)
    requires Valid(e) && c.identities == Identities(Listing(e, []))
    ensures DistinctIdentities(c)
  {
    forall i, j | 0 <= i < j < |c.identities| ensures c.identities[i] != c.identities[j] {
      NoOverwrites(e, [], "", i, j);
    }
  }
}
