/** The include/exclude filter from its shell-split tokens: parsing, and path matching. */
module FilterSpec {
  import opened Lists
  import opened Text

  predicate HasGlob(s: string) {
    exists i :: 0 <= i < |s| && s[i] in "*?[]"
  }

  predicate IsPlus(c: char) { c == '+' }

  predicate IsDash(c: char) { c == '-' }

  predicate TakesNext(token: string) {
    token == "--exclude" || token == "--include"
  }

  function Signed(directive: string, value: string): string {
    (if directive == "--exclude" then "-" else "") + value
  }

  function ShortForm(token: string): string {
    if "--exclude=" <= token then "-" + token[10..]
    else if "--include=" <= token then token[10..]
    else token
  }

  /** --exclude X, --include X, --exclude=X and --include=X in the short form. */
  function ExpandDirectives(tokens: seq<string>): seq<string>
    decreases |tokens|
  {
    if tokens == [] then []
    else if TakesNext(tokens[0]) then
      if |tokens| == 1 then [] else [Signed(tokens[0], tokens[1])] + ExpandDirectives(tokens[2..])
    else [ShortForm(tokens[0])] + ExpandDirectives(tokens[1..])
  }

  function NormalizeInclude(token: string): seq<string> {
    var t := Strip(TrimPy(token), IsPlus);
    if t == "" || t == "." then [] else [t]
  }

  function NormalizeExclude(token: string): seq<string> {
    var t := StripLeft(TrimPy(token), IsDash);
    if t == "" then []
    else if !IsBare(t) then [t]
    else [t, t + "/**"]
  }

  function ExpandRsyncDir(token: string): seq<string> {
    if EndsWith(token, "/") then [token[..|token| - 1] + "/**/*"]
    else if EndsWith(token, "/**") then [token[..|token| - 3] + "/*", token[..|token| - 3] + "/**/*"]
    else [token]
  }

  function IncludesOf(token: string): seq<string> {
    if "-" <= token then [] else NormalizeInclude(token)
  }

  function ExcludesOf(token: string): seq<string> {
    if "-" <= token then NormalizeExclude(token) else []
  }

  function Includes(expanded: seq<string>): seq<string> {
    FlatMap(IncludesOf, expanded)
  }

  function Excludes(expanded: seq<string>): seq<string> {
    FlatMap(ExcludesOf, expanded)
  }

  function ExpandRsyncDirs(includes: seq<string>): seq<string> {
    FlatMap(ExpandRsyncDir, includes)
  }

  datatype Spec = Spec(includes: seq<string>, excludes: seq<string>, includeAll: bool, topLevelOnly: bool)

  /** parse_filter_spec after shlex. */
  function Parse(tokens: seq<string>): Spec {
    var expanded := ExpandDirectives(tokens);
    var includes := ExpandRsyncDirs(Includes(expanded));
    Spec(includes, Excludes(expanded), includes == [],
         includes != [] && forall i :: 0 <= i < |includes| ==> includes[i] == "*")
  }

  predicate IsBare(pattern: string) {
    '/' !in pattern && !HasGlob(pattern)
  }

  function BareNameOf(exclude: string): seq<string> {
    var pattern := StripLeft(exclude, IsDash);
    if pattern != "" && IsBare(pattern) then [pattern] else []
  }

  function GlobPathOf(exclude: string): seq<string> {
    var pattern := StripLeft(exclude, IsDash);
    if pattern != "" && !IsBare(pattern) then [pattern] else []
  }

  function BareNames(excludes: seq<string>): set<string> {
    set name | name in FlatMap(BareNameOf, excludes)
  }

  function GlobPaths(excludes: seq<string>): seq<string> {
    FlatMap(GlobPathOf, excludes)
  }

  // ----- the loops that compute these

  method ExpandDirectivesLoop(tokens: seq<string>) returns (out: seq<string>)
    ensures out == ExpandDirectives(tokens)
  {
    out := [];
    var i := 0;
    while i < |tokens|
      invariant 0 <= i <= |tokens|
      invariant out + ExpandDirectives(tokens[i..]) == ExpandDirectives(tokens)
    {
      ghost var rest := tokens[i..];
      assert rest[1..] == tokens[i + 1..];
      if TakesNext(tokens[i]) {
        if i + 1 < |tokens| {
          assert rest[2..] == tokens[i + 2..];
          assert ExpandDirectives(rest) == [Signed(tokens[i], tokens[i + 1])] + ExpandDirectives(tokens[i + 2..]);
          out := out + [Signed(tokens[i], tokens[i + 1])];
          i := i + 2;
        } else {
          i := i + 1;
        }
      } else {
        assert ExpandDirectives(rest) == [ShortForm(tokens[i])] + ExpandDirectives(tokens[i + 1..]);
        out := out + [ShortForm(tokens[i])];
        i := i + 1;
      }
    }
  }

  /** The loop over the tokens: a leading dash makes an exclude, anything else an include. */
  method CollectTokens(expanded: seq<string>) returns (includes: seq<string>, excludes: seq<string>)
    ensures includes == Includes(expanded) && excludes == Excludes(expanded)
  {
    includes, excludes := [], [];
    for i := 0 to |expanded|
      invariant includes == FlatMap(IncludesOf, expanded[..i]) && excludes == FlatMap(ExcludesOf, expanded[..i])
    {
      assert expanded[..i + 1][..i] == expanded[..i];
      includes := includes + IncludesOf(expanded[i]);
      excludes := excludes + ExcludesOf(expanded[i]);
    }
    assert expanded[..|expanded|] == expanded;
  }

  /** parse_filter_spec after shlex.split. */
  method ParseFilterSpec(tokens: seq<string>) returns (spec: Spec)
    ensures spec == Parse(tokens)
  {
    var expanded := ExpandDirectivesLoop(tokens);
    var collected, excludes := CollectTokens(expanded);
    var includes := Collect(ExpandRsyncDir, collected);
    spec := Spec(includes, excludes, includes == [],
                 includes != [] && forall i :: 0 <= i < |includes| ==> includes[i] == "*");
  }

  method SplitExcludes(excludes: seq<string>) returns (bare: set<string>, globs: seq<string>)
    ensures bare == BareNames(excludes) && globs == GlobPaths(excludes)
  {
    var names := Collect(BareNameOf, excludes);
    bare := set name | name in names;
    globs := Collect(GlobPathOf, excludes);
  }

  // ----- PurePosixPath

  function Real(segments: seq<string>): (r: seq<string>)
    ensures |r| <= |segments|
    ensures forall i :: 0 <= i < |r| ==> r[i] != "" && r[i] != "." && r[i] in segments
  {
    if segments == [] then []
    else (if segments[0] == "" || segments[0] == "." then [] else [segments[0]]) + Real(segments[1..])
  }

  /** PurePosixPath(s).parts of a relative path: empty and "." segments vanish. */
  function Parts(s: string): seq<string> {
    Real(Split(s, '/'))
  }

  lemma {:induction false} RealOfReal(segments: seq<string>)
    requires forall i :: 0 <= i < |segments| ==> segments[i] != "" && segments[i] != "."
    ensures Real(segments) == segments
  {
    if segments != [] {
      RealOfReal(segments[1..]);
    }
  }

  /** One glob segment against one path segment; character classes are read literally. */
  predicate SegmentMatch(pattern: string, name: string)
    decreases |pattern| + |name|
  {
    if pattern == "" then name == ""
    else if pattern[0] == '*' then SegmentMatch(pattern[1..], name) || (name != "" && SegmentMatch(pattern, name[1..]))
    else name != "" && (pattern[0] == '?' || pattern[0] == name[0]) && SegmentMatch(pattern[1..], name[1..])
  }

  /** Right-anchored, segment by segment; a relative path never matches an absolute pattern. */
  predicate PathMatch(parts: seq<string>, pattern: string) {
    var segments := Parts(pattern);
    && segments != [] && pattern[0] != '/' && |segments| <= |parts|
    && forall i :: 0 <= i < |segments| ==> SegmentMatch(segments[i], parts[|parts| - |segments| + i])
  }

  /** _is_excluded_rel */
  predicate ExcludedPath(parts: seq<string>, globs: seq<string>) {
    exists i :: 0 <= i < |globs| && PathMatch(parts, globs[i])
  }

  lemma {:induction false} LiteralMatch(pattern: string, name: string)
    requires !HasGlob(pattern)
    ensures SegmentMatch(pattern, name) <==> pattern == name
    decreases |pattern|
  {
    if pattern != "" {
      assert pattern[0] !in "*?[]";
      if name != "" {
        assert !HasGlob(pattern[1..]) by {
          forall i | 0 <= i < |pattern| - 1 ensures pattern[1..][i] !in "*?[]" {
            assert pattern[i + 1] !in "*?[]";
          }
        }
        LiteralMatch(pattern[1..], name[1..]);
        assert pattern == [pattern[0]] + pattern[1..] && name == [name[0]] + name[1..];
      }
    }
  }

  lemma {:induction false} StarsMatch(name: string)
    ensures SegmentMatch("*", name) && SegmentMatch("**", name)
  {
    assert SegmentMatch("", "");
    if name == "" {
      assert SegmentMatch("*", name);
    } else {
      StarsMatch(name[1..]);
      assert "**"[1..] == "*";
    }
  }
}
