/** Provider-side prefix hints and the bucket listing that they narrow. */
module PrefixHints {
  import opened Text
  import opened Lists
  import opened FileTree
  import opened FilterSpec
  import opened PathFilter
  import opened FilterAgreement

  datatype Hint = GiveUp | NoHint | Prefix(prefix: string)

  function AsFolder(s: string): string {
    StripRight(s, IsSlash) + "/"
  }

  /** What one include contributes to compute_prefix_hints. */
  function HintOf(token: string): Hint {
    var n := |token|;
    if token == "" || token == "*" then GiveUp
    else if EndsWith(token, "/*") && !HasGlob(token[..n - 2]) then Prefix(AsFolder(token[..n - 2]))
    else if EndsWith(token, "/**") && !HasGlob(token[..n - 3]) then Prefix(AsFolder(token[..n - 3]))
    else if EndsWith(token, "/**/*") && !HasGlob(token[..n - 4]) then
      if StripRight(token[..n - 4], IsSlash) == "" then NoHint else Prefix(AsFolder(token[..n - 4]))
    else if !HasGlob(token) then Prefix(AsFolder(token))
    else GiveUp
  }

  function PrefixesOf(token: string): seq<string> {
    var hint := HintOf(token);
    if hint.Prefix? then [hint.prefix] else []
  }

  predicate GivesUp(token: string) {
    HintOf(token) == GiveUp
  }

  function ComputeHints(spec: Spec): seq<string> {
    if spec.includeAll || spec.excludes != [] then []
    else if exists i :: 0 <= i < |spec.includes| && GivesUp(spec.includes[i]) then []
    else Merge([], FlatMap(PrefixesOf, spec.includes))
  }

  method CollectHints(givesUp: string -> bool, prefixesOf: string -> seq<string>, includes: seq<string>)
    returns (gaveUp: bool, hints: seq<string>)
    ensures gaveUp <==> exists i :: 0 <= i < |includes| && givesUp(includes[i])
    ensures !gaveUp ==> hints == Merge([], FlatMap(prefixesOf, includes))
  {
    gaveUp, hints := false, [];
    for i := 0 to |includes|
      invariant forall j :: 0 <= j < i ==> !givesUp(includes[j])
      invariant hints == Merge([], FlatMap(prefixesOf, includes[..i]))
    {
      assert includes[..i + 1][..i] == includes[..i];
      if givesUp(includes[i]) {
        return true, [];
      }
      MergeConcat([], FlatMap(prefixesOf, includes[..i]), prefixesOf(includes[i]));
      hints := Merge(hints, prefixesOf(includes[i]));
    }
    assert includes[..|includes|] == includes;
  }

  method ComputePrefixHints(filter: seq<string>) returns (hints: seq<string>)
    ensures hints == ComputeHints(Parse(filter))
  {
    var spec := ParseFilterSpec(filter);
    if spec.includeAll || spec.excludes != [] {
      return [];
    }
    var gaveUp;
    gaveUp, hints := CollectHints(GivesUp, PrefixesOf, spec.includes);
    if gaveUp {
      hints := [];
    }
  }

  // ----- the listing

  /** bp: the base prefix, empty or ending in a slash. */
  function BasePrefix(raw: string): string {
    var bp := Strip(raw, IsSlash);
    if bp == "" then "" else bp + "/"
  }

  function RelKey(bp: string, key: string): string {
    if bp <= key then key[|bp|..] else key
  }

  /** _emit, up to the seen set. skipFolders: the S3 and GCS clients drop keys that end in a slash. */
  predicate Emits(bp: string, filter: seq<string>, skipFolders: bool, key: string) {
    && key != ""
    && !(skipFolders && EndsWith(key, "/"))
    && (filter != [] ==> Accepts(RelKey(bp, key), filter))
  }

  /** The keys that are asked of the provider: under a hint, or under the base prefix when there is none. */
  predicate Fetched(bp: string, hints: seq<string>, key: string) {
    if hints == [] then bp <= key else UnderAny(bp, hints, key)
  }

  predicate UnderAny(bp: string, hints: seq<string>, key: string) {
    exists h :: h in hints && bp + h <= key
  }

  lemma UnderAnyPush(bp: string, hints: seq<string>, h: string, key: string)
    ensures UnderAny(bp, hints + [h], key) <==> UnderAny(bp, hints, key) || bp + h <= key
  {
  }

  function KeysOfPage(page: seq<string>): seq<string> { page }

  function Flatten(pages: seq<seq<string>>): seq<string> {
    FlatMap(KeysOfPage, pages)
  }

  /** pages(prefix) is the provider's paginated listing of the keys with that prefix. */
  ghost predicate ListsBucket(pages: string -> seq<seq<string>>, bucket: set<string>) {
    forall prefix, key :: key in Flatten(pages(prefix)) <==> key in bucket && prefix <= key
  }

  method EmitPages(pages: seq<seq<string>>, emits: string -> bool, seen: seq<string>) returns (out: seq<string>)
    requires NoRepeats(seen)
    ensures NoRepeats(out)
    ensures forall key :: key in out <==> key in seen || (key in Flatten(pages) && emits(key))
  {
    out := seen;
    for i := 0 to |pages|
      invariant NoRepeats(out)
      invariant forall key :: key in out <==> key in seen || (key in Flatten(pages[..i]) && emits(key))
    {
      assert pages[..i + 1][..i] == pages[..i];
      ghost var before := out;
      for j := 0 to |pages[i]|
        invariant NoRepeats(out)
        invariant forall key :: key in out <==> key in before || (key in pages[i][..j] && emits(key))
      {
        assert pages[i][..j + 1] == pages[i][..j] + [pages[i][j]];
        var key := pages[i][j];
        if key !in out && emits(key) {
          out := out + [key];
        }
      }
      assert pages[i][..|pages[i]|] == pages[i];
    }
    assert pages[..|pages|] == pages;
  }

  method KeysUnder(pages: string -> seq<seq<string>>, ghost bucket: set<string>, bp: string, hints: seq<string>,
                   emits: string -> bool)
    returns (out: seq<string>)
    requires ListsBucket(pages, bucket)
    ensures NoRepeats(out)
    ensures forall key :: key in out <==> key in bucket && Fetched(bp, hints, key) && emits(key)
  {
    out := [];
    if hints == [] {
      out := EmitPages(pages(bp), emits, out);
    } else {
      for i := 0 to |hints|
        invariant NoRepeats(out)
        invariant forall key :: key in out <==> key in bucket && UnderAny(bp, hints[..i], key) && emits(key)
      {
        assert hints[..i + 1] == hints[..i] + [hints[i]];
        forall key ensures UnderAny(bp, hints[..i + 1], key) <==> UnderAny(bp, hints[..i], key) || bp + hints[i] <= key {
          UnderAnyPush(bp, hints[..i], hints[i], key);
        }
        out := EmitPages(pages(bp + hints[i]), emits, out);
      }
      assert hints[..|hints|] == hints;
    }
  }

  /** keys: the hints in any order; each emitted key once. */
  method Keys(pages: string -> seq<seq<string>>, ghost bucket: set<string>, rawPrefix: string, filter: seq<string>,
              skipFolders: bool)
    returns (out: seq<string>)
    requires ListsBucket(pages, bucket)
    ensures NoRepeats(out)
    ensures var bp := BasePrefix(rawPrefix);
            forall key :: key in out <==>
              key in bucket && Fetched(bp, ComputeHints(Parse(filter)), key) && Emits(bp, filter, skipFolders, key)
  {
    var bp := BasePrefix(rawPrefix);
    var hints := ComputePrefixHints(filter);
    out := KeysUnder(pages, bucket, bp, hints, key => Emits(bp, filter, skipFolders, key));
  }

  /** The base prefix is the given one with exactly one slash, at its end; slashes alone are no prefix. */
  lemma BasePrefixHasOneSlash(s1: string, core: string, s2: string)
    requires Blank(IsSlash, s1) && Blank(IsSlash, s2)
    requires core != "" ==> core[0] != '/' && core[|core| - 1] != '/'
    ensures BasePrefix(s1 + core + s2) == if core == "" then "" else core + "/"
  {
    StripPad(IsSlash, s1, core, s2);
    StripNoop(core, IsSlash);
  }

  /** Under the base prefix: an object is emitted when its relative path is accepted, without a filter always. */
  lemma ObjectEmitted(bp: string, filter: seq<string>, skipFolders: bool, p: Path)
    requires Named(p)
    ensures Emits(bp, filter, skipFolders, bp + Relative(p)) <==> filter == [] || Accepts(Relative(p), filter)
  {
    var key := bp + Relative(p);
    RelEnds(p);
    assert RelKey(bp, key) == Relative(p) && key[|key| - 1] == Relative(p)[|Relative(p)| - 1];
  }

  lemma AcceptsIgnoresSlashes(a: string, rel: string, b: string, filter: seq<string>)
    requires Blank(IsSlash, a) && Blank(IsSlash, b)
    ensures Accepts(a + rel + b, filter) <==> Accepts(rel, filter)
  {
    StripPad(IsSlash, a, rel, b);
  }

  lemma RelOfFolder(bp: string, rel: string, key: string)
    requires key == bp + (rel + "/")
    ensures key != "" && EndsWith(key, "/") && RelKey(bp, key) == "" + rel + "/"
  {
    assert key[|key| - 1..] == "/" && key[|bp|..] == "" + rel + "/";
  }

  /** A key that ends in a slash stands for a folder: it is dropped, or else it is treated like an object of that path. */
  lemma FolderKeyEmitted(bp: string, filter: seq<string>, skipFolders: bool, rel: string, key: string)
    requires key == bp + (rel + "/")
    ensures Emits(bp, filter, skipFolders, key) <==> !skipFolders && (filter == [] || Accepts(rel, filter))
  {
    RelOfFolder(bp, rel, key);
    AcceptsIgnoresSlashes("", rel, "/", filter);
  }

  /** The empty key is never emitted, nor under S3 and GCS the key of the base prefix itself. */
  lemma NoKeyForBase(raw: string, filter: seq<string>)
    ensures !Emits(BasePrefix(raw), filter, true, BasePrefix(raw)) && !Emits(BasePrefix(raw), filter, false, "")
  {
    var bp := BasePrefix(raw);
    assert bp != "" ==> bp[|bp| - 1..] == "/";
  }

  // ----- narrowing loses only objects named like a bare include

  /** A bare folder name, or p followed by a slash and a star for a path p of proper names. */
  predicate HintToken(token: string) {
    || Ordinary(token)
    || (EndsWith(token, "/*") && FolderOf(token))
  }

  predicate FolderOf(token: string)
    requires |token| >= 2
  {
    var p := token[..|token| - 2];
    && Named(Split(p, '/')) && !HasGlob(p)
    && p != "" && p[0] != '-' && p[0] != '+' && !IsSpacePy(p[0])
  }

  predicate HintFilter(filter: seq<string>) {
    forall i :: 0 <= i < |ExpandDirectives(filter)| ==> HintToken(ExpandDirectives(filter)[i])
  }

  /** Some include is the key's own name. */
  predicate BareNamed(filter: seq<string>, rel: string) {
    rel in ExpandDirectives(filter) && !EndsWith(rel, "/*")
  }

  lemma HintTokenParses(token: string)
    requires HintToken(token)
    ensures IncludesOf(token) == [token] && ExcludesOf(token) == [] && ExpandRsyncDir(token) == [token]
  {
    if Ordinary(token) {
      OrdinaryParses(token);
    } else {
      ChildrenParses(token, token[..|token| - 2]);
    }
  }

  lemma HintTokensParse(tokens: seq<string>)
    requires forall i :: 0 <= i < |tokens| ==> HintToken(tokens[i])
    ensures Includes(tokens) == tokens && Excludes(tokens) == [] && ExpandRsyncDirs(tokens) == tokens
  {
    forall i | 0 <= i < |tokens|
      ensures IncludesOf(tokens[i]) == [tokens[i]] && ExcludesOf(tokens[i]) == [] && ExpandRsyncDir(tokens[i]) == [tokens[i]]
    {
      HintTokenParses(tokens[i]);
    }
    FlatMapSame(IncludesOf, tokens);
    FlatMapNone(ExcludesOf, tokens);
    FlatMapSame(ExpandRsyncDir, tokens);
  }

  lemma {:induction false} JoinEndsPlain(p: Path)
    requires Named(p)
    ensures Join(p, "/") != "" && Join(p, "/")[|Join(p, "/")| - 1] != '/'
  {
    if |p| > 1 {
      JoinEndsPlain(p[1..]);
    }
  }

  /** The hint of a token is the folder it names. */
  lemma HintIsFolder(token: string)
    requires HintToken(token)
    ensures HintOf(token) == Prefix(if Ordinary(token) then token + "/" else token[..|token| - 1])
  {
    if Ordinary(token) {
      var last := token[|token| - 1];
      assert last !in "*?[]";
      assert "/*"[1] in "*?[]" && "/**"[2] in "*?[]" && "/**/*"[4] in "*?[]" && "*"[0] in "*?[]";
    } else {
      var p := token[..|token| - 2];
      JoinSplit(p, '/');
      JoinEndsPlain(Split(p, '/'));
      assert StripRight(p, IsSlash) == p;
      assert token[..|token| - 1] == p + "/";
    }
  }

  /** The folders of a path are those of p: then the path's text starts with that of p and a slash. */
  lemma DirectlyBelow(p: string, rel: string)
    requires Named(Split(p, '/')) && Named(Split(rel, '/'))
    requires Folders(Split(rel, '/')) == Split(p, '/')
    ensures p + "/" <= rel
  {
    var parts := Split(rel, '/');
    var last := parts[|parts| - 1];
    JoinSplit(p, '/');
    JoinSplit(rel, '/');
    assert parts == Split(p, '/') + [last];
    JoinLast(Split(p, '/'), last);
  }

  lemma FolderToken(token: string)
    requires HintToken(token) && !Ordinary(token)
    ensures var p := token[..|token| - 2];
            && token == p + "/*" && token != "*" && !HasGlob(p)
            && Strip(p, IsSlash) == p && p != "" && Parts(p) == Split(p, '/')
  {
    var p := token[..|token| - 2];
    JoinSplit(p, '/');
    JoinEndsPlain(Split(p, '/'));
    SplitFirst(p);
    StripNoop(p, IsSlash);
    RealOfReal(Split(p, '/'));
  }

  /** A token matches a normal key when its hint covers it, or when the key is the token itself. */
  lemma MatchIsHinted(token: string, rel: string)
    requires HintToken(token) && Named(Split(rel, '/'))
    requires MatchesInclude(token, rel, Split(rel, '/'))
    ensures HintOf(token).Prefix? && (HintOf(token).prefix <= rel || (rel == token && Ordinary(token)))
  {
    HintIsFolder(token);
    if Ordinary(token) {
      NotSpecial(token);
    } else {
      FolderToken(token);
      DirectlyBelow(token[..|token| - 2], rel);
    }
  }

  lemma SplitFirst(p: string)
    requires p != "" && Named(Split(p, '/'))
    ensures p[0] != '/'
  {
    var first := Split(p, '/')[0];
    assert p[0] == '/' ==> first == "";
  }

  lemma {:induction false} JoinLast(p: Path, last: string)
    requires p != []
    ensures Join(p + [last], "/") == Join(p, "/") + "/" + last
  {
    if |p| > 1 {
      JoinLast(p[1..], last);
      assert (p + [last])[1..] == p[1..] + [last];
    } else {
      assert (p + [last])[1..] == [last];
    }
  }

  lemma FolderPrefixMisses(bp: string, h: string, rel: string)
    requires h != "" && h[|h| - 1] == '/' && '/' !in rel
    ensures !(bp + h <= bp + rel)
  {
    var last := |h| - 1;
    assert (bp + h)[|bp| + last] == '/' && (last < |rel| ==> (bp + rel)[|bp| + last] == rel[last]);
  }

  /** The hints are the folders of the tokens. */
  ghost predicate HintsOf(hints: seq<string>, tokens: seq<string>) {
    && (forall i :: 0 <= i < |tokens| ==> HintToken(tokens[i]))
    && (hints == [] <==> tokens == [])
    && (forall h :: h in hints <==> h in FlatMap(PrefixesOf, tokens))
  }

  lemma HintParse(filter: seq<string>)
    requires HintFilter(filter)
    ensures var spec, tokens := Parse(filter), ExpandDirectives(filter);
            && spec.includes == tokens && spec.excludes == [] && spec.includeAll == (tokens == [])
            && HintsOf(ComputeHints(spec), tokens)
  {
    var tokens := ExpandDirectives(filter);
    HintTokensParse(tokens);
    forall i | 0 <= i < |tokens| ensures !GivesUp(tokens[i]) && PrefixesOf(tokens[i]) != [] {
      HintIsFolder(tokens[i]);
    }
    MergedHints(PrefixesOf, tokens);
  }

  lemma MergedHints(prefixesOf: string -> seq<string>, tokens: seq<string>)
    requires forall i :: 0 <= i < |tokens| ==> prefixesOf(tokens[i]) != []
    ensures forall h :: h in Merge([], FlatMap(prefixesOf, tokens)) <==> h in FlatMap(prefixesOf, tokens)
    ensures Merge([], FlatMap(prefixesOf, tokens)) == [] <==> tokens == []
  {
    forall h ensures h in Merge([], FlatMap(prefixesOf, tokens)) <==> h in FlatMap(prefixesOf, tokens) {
      MergeHas([], FlatMap(prefixesOf, tokens), h);
    }
    if tokens != [] {
      FlatMapHas(prefixesOf, tokens, tokens[0], prefixesOf(tokens[0])[0]);
    }
  }

  lemma AcceptedByToken(filter: seq<string>, rel: string) returns (token: string)
    requires HintFilter(filter) && Named(Split(rel, '/')) && Accepts(rel, filter) && ExpandDirectives(filter) != []
    ensures token in ExpandDirectives(filter) && HintToken(token) && MatchesInclude(token, rel, Split(rel, '/'))
  {
    HintParse(filter);
    JoinSplit(rel, '/');
    RelParts(Split(rel, '/'));
    var spec := Parse(filter);
    var i :| 0 <= i < |spec.includes| && MatchesInclude(spec.includes[i], rel, Split(rel, '/'));
    token := spec.includes[i];
  }

  /** A matching key that is not a bare include lies under the hint of the token that matches. */
  lemma TokenFetches(bp: string, hints: seq<string>, tokens: seq<string>, token: string, rel: string)
    requires HintsOf(hints, tokens) && token in tokens && Named(Split(rel, '/'))
    requires MatchesInclude(token, rel, Split(rel, '/')) && !(rel in tokens && !EndsWith(rel, "/*"))
    ensures Fetched(bp, hints, bp + rel)
  {
    MatchIsHinted(token, rel);
    if Ordinary(token) {
      NotSpecial(token);
    }
    var h := HintOf(token).prefix;
    FlatMapHas(PrefixesOf, tokens, token, h);
    assert bp + h <= bp + rel;
  }

  /** No hint covers a bare include itself. */
  lemma BareIsNotFetched(bp: string, hints: seq<string>, tokens: seq<string>, rel: string)
    requires HintsOf(hints, tokens) && rel in tokens && !EndsWith(rel, "/*")
    ensures !Fetched(bp, hints, bp + rel)
  {
    assert Ordinary(rel);
    forall h | h in hints ensures !(bp + h <= bp + rel) {
      var token := FlatMapFrom(PrefixesOf, tokens, h);
      HintIsFolder(token);
      FolderPrefixMisses(bp, h, rel);
    }
  }

  /**
   For a key of proper names under the base prefix, the narrowed listing fetches a matching key exactly when its
   relative name is not itself one of the bare includes.
   */
  lemma HintsLoseOnlyBareNames(bp: string, filter: seq<string>, rel: string)
    requires HintFilter(filter) && Named(Split(rel, '/')) && Accepts(rel, filter)
    ensures Fetched(bp, ComputeHints(Parse(filter)), bp + rel) <==> !BareNamed(filter, rel)
  {
    HintParse(filter);
    if BareNamed(filter, rel) {
      BareIsNotFetched(bp, ComputeHints(Parse(filter)), ExpandDirectives(filter), rel);
    } else if ExpandDirectives(filter) != [] {
      var token := AcceptedByToken(filter, rel);
      TokenFetches(bp, ComputeHints(Parse(filter)), ExpandDirectives(filter), token, rel);
    }
  }

  /**
   The narrowed listing emits what the full listing emits, but for the objects that a bare include names exactly;
   so with folder-star includes only, it emits the same keys.
   */
  lemma NarrowedListing(bp: string, filter: seq<string>, skipFolders: bool, key: string)
    requires HintFilter(filter) && bp <= key && Named(Split(RelKey(bp, key), '/'))
    ensures Fetched(bp, ComputeHints(Parse(filter)), key) && Emits(bp, filter, skipFolders, key) <==>
              Fetched(bp, [], key) && Emits(bp, filter, skipFolders, key) && !BareNamed(filter, RelKey(bp, key))
    ensures (forall i :: 0 <= i < |ExpandDirectives(filter)| ==> EndsWith(ExpandDirectives(filter)[i], "/*")) ==>
              !BareNamed(filter, RelKey(bp, key))
  {
    var rel := RelKey(bp, key);
    assert key == bp + rel;
    if Emits(bp, filter, skipFolders, key) {
      if filter == [] {
        HintParse(filter);
      } else {
        HintsLoseOnlyBareNames(bp, filter, rel);
      }
    }
  }

  /** The object named like the only include matches the filter, and no hint fetches it. */
  lemma BareIncludeIsLost(bp: string, s: string)
    requires Ordinary(s)
    ensures Accepts(s, [s]) && !Fetched(bp, ComputeHints(Parse([s])), bp + s)
  {
    OneInclude(s);
    AcceptsTop([s], s);
    SplitJoin([s], '/');
    NotSpecial(s);
    HintsLoseOnlyBareNames(bp, [s], s);
  }
}
