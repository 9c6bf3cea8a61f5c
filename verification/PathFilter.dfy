/** relpath_matches_filter: one path against the filter, without a folder. */
module PathFilter {
  import opened Text
  import opened FilterSpec

  predicate IsSlash(c: char) { c == '/' }

  function Folders(parts: seq<string>): seq<string> {
    if parts == [] then [] else parts[..|parts| - 1]
  }

  predicate MatchesInclude(token: string, rel: string, parts: seq<string>) {
    if token == "*" then |parts| == 1
    else if EndsWith(token, "/*") && !HasGlob(token[..|token| - 2]) then
      var parent := Strip(token[..|token| - 2], IsSlash);
      if parent == "" then |parts| == 1 else Folders(parts) == Parts(parent)
    else if !HasGlob(token) && '/' !in token then rel == token || token + "/" <= rel
    else
      || PathMatch(parts, token)
      || ("**/" <= token && parts != [] && PathMatch([parts[|parts| - 1]], token[3..]))
  }

  predicate MatchesSpec(rel: string, parts: seq<string>, spec: Spec) {
    && !ExcludedPath(parts, GlobPaths(spec.excludes))
    && !(exists k :: 0 <= k < |parts| - 1 && parts[k] in BareNames(spec.excludes))
    && (if spec.includeAll then spec.topLevelOnly ==> |parts| == 1
        else exists i :: 0 <= i < |spec.includes| && MatchesInclude(spec.includes[i], rel, parts))
  }

  predicate Accepts(relPosix: string, filter: seq<string>) {
    var rel := Strip(relPosix, IsSlash);
    MatchesSpec(rel, Parts(rel), Parse(filter))
  }
}
