/** The line upsert of env files and its two readers. */
module EnvFile {
  import opened Text

  /** One KEY=VALUE line as a reader sees it. */
  datatype Entry = NoEntry | Entry(key: string, value: string)

  /** A lookup in a dictionary. */
  datatype Found = Absent | Present(value: string)

  function FirstEq(s: string): (i: nat)
    requires '=' in s
    ensures i < |s| && s[i] == '=' && '=' !in s[..i]
  {
    if s[0] == '=' then 0
    else
      assert s == [s[0]] + s[1..];
      var i := FirstEq(s[1..]);
      assert s[..i + 1] == [s[0]] + s[1..][..i];
      i + 1
  }

  /** The writers test the stripped line, then cut the raw one: the key of a line that is an assignment. */
  function WriterKey(space: char -> bool, line: string): Found {
    var s := Strip(line, space);
    if s == "" || s[0] == '#' || '=' !in line then Absent
    else Present(Strip(line[..FirstEq(line)], space))
  }

  /** The readers strip the line first. */
  function ReaderEntry(space: char -> bool, line: string): Entry {
    var s := Strip(line, space);
    if s == "" || s[0] == '#' || '=' !in s then NoEntry
    else Entry(Strip(s[..FirstEq(s)], space), Strip(s[FirstEq(s) + 1..], space))
  }

  predicate IsDoubleQuote(c: char) { c == '"' }

  predicate IsSingleQuote(c: char) { c == '\'' }

  function Unquote(value: string): string {
    Strip(Strip(value, IsDoubleQuote), IsSingleQuote)
  }

  /** How a program cuts and trims lines, and strips the quotes of a value. */
  datatype Codec = Codec(
    keyOf: string -> Found, read: string -> Entry, trim: string -> string, unquote: string -> string)

  function CodecOf(space: char -> bool): Codec {
    Codec(line => WriterKey(space, line), line => ReaderEntry(space, line), v => Strip(v, space), Unquote)
  }

  function NewLine(key: string, value: string): string {
    key + "=" + value
  }

  // ----- the upsert

  predicate Targets(c: Codec, vals: map<string, string>, line: string) {
    c.keyOf(line).Present? && c.keyOf(line).value in vals
  }

  function Rewrite(c: Codec, vals: map<string, string>, line: string): string {
    if Targets(c, vals, line) then NewLine(c.keyOf(line).value, vals[c.keyOf(line).value]) else line
  }

  function Rewritten(c: Codec, vals: map<string, string>, lines: seq<string>): seq<string> {
    if lines == [] then []
    else
      var n := |lines| - 1;
      Rewritten(c, vals, lines[..n]) + [Rewrite(c, vals, lines[n])]
  }

  predicate HasKey(c: Codec, lines: seq<string>, key: string) {
    exists i :: 0 <= i < |lines| && c.keyOf(lines[i]) == Present(key)
  }

  /** The lines appended for the keys that no line had, in the dictionary's order. */
  function Appended(c: Codec, vals: map<string, string>, lines: seq<string>, order: seq<string>): seq<string>
    requires forall k :: k in order ==> k in vals
  {
    if order == [] then []
    else
      var n := |order| - 1;
      Appended(c, vals, lines, order[..n])
      + (if HasKey(c, lines, order[n]) then [] else [NewLine(order[n], vals[order[n]])])
  }

  function Upsert(c: Codec, vals: map<string, string>, order: seq<string>, lines: seq<string>): seq<string>
    requires forall k :: k in order ==> k in vals
  {
    Rewritten(c, vals, lines) + Appended(c, vals, lines, order)
  }

  /** order lists the keys of vals. */
  ghost predicate Ordered(order: seq<string>, vals: map<string, string>) {
    forall k :: k in order <==> k in vals
  }

  /** The two loops shared by persist_runtime_overrides, _upsert_env_values and upsertEnvValues. */
  method UpsertLines(c: Codec, vals: map<string, string>, order: seq<string>, lines: seq<string>)
    returns (out: seq<string>)
    requires Ordered(order, vals)
    ensures out == Upsert(c, vals, order, lines)
  {
    var seen;
    out, seen := RewriteLines(c, vals, lines);
    for i := 0 to |order|
      invariant out == Rewritten(c, vals, lines) + Appended(c, vals, lines, order[..i])
    {
      assert order[..i + 1][..i] == order[..i];
      if order[i] !in seen {
        out := out + [NewLine(order[i], vals[order[i]])];
      }
    }
    assert order[..|order|] == order;
  }

  method RewriteLines(c: Codec, vals: map<string, string>, lines: seq<string>)
    returns (out: seq<string>, seen: set<string>)
    ensures out == Rewritten(c, vals, lines)
    ensures forall k :: k in seen <==> k in vals && HasKey(c, lines, k)
  {
    out, seen := [], {};
    for i := 0 to |lines|
      invariant out == Rewritten(c, vals, lines[..i])
      invariant forall k :: k in seen <==> k in vals && HasKey(c, lines[..i], k)
    {
      assert lines[..i + 1][..i] == lines[..i];
      assert lines[..i] + [lines[i]] == lines[..i + 1];
      HasKeyPush(c, lines[..i], lines[i]);
      var key := c.keyOf(lines[i]);
      if key == Absent {
        out := out + [lines[i]];
      } else if key.value in vals {
        out := out + [NewLine(key.value, vals[key.value])];
        seen := seen + {key.value};
      } else {
        out := out + [lines[i]];
      }
    }
    assert lines[..|lines|] == lines;
  }

  predicate EndsBlank(lines: seq<string>) {
    lines != [] && lines[|lines| - 1] == ""
  }

  /** _upsert_env_values and upsertEnvValues end the file with a line feed unless its last line is already blank. */
  function Padded(out: seq<string>): seq<string> {
    if out != [] && !EndsBlank(out) then out + [""] else out
  }

  lemma HasKeyPush(c: Codec, lines: seq<string>, line: string)
    ensures forall k :: HasKey(c, lines + [line], k) <==> HasKey(c, lines, k) || c.keyOf(line) == Present(k)
  {
    var all := lines + [line];
    assert all[|lines|] == line && forall i :: 0 <= i < |lines| ==> all[i] == lines[i];
    forall k ensures HasKey(c, all, k) <==> HasKey(c, lines, k) || c.keyOf(line) == Present(k) {
      if HasKey(c, lines, k) {
        var i :| 0 <= i < |lines| && c.keyOf(lines[i]) == Present(k);
        assert c.keyOf(all[i]) == Present(k);
      }
    }
  }

  // ----- the readers

  predicate IsFor(c: Codec, line: string, key: string) {
    c.read(line).Entry? && c.read(line).key == key
  }

  /** _read_env_map: the last line for a key wins. */
  function LastOf(c: Codec, lines: seq<string>, key: string): Found {
    if lines == [] then Absent
    else
      var n := |lines| - 1;
      if IsFor(c, lines[n], key) then Present(c.read(lines[n]).value)
      else LastOf(c, lines[..n], key)
  }

  function Lookup(values: map<string, string>, key: string): Found {
    if key in values then Present(values[key]) else Absent
  }

  method ReadEnvMap(c: Codec, lines: seq<string>) returns (values: map<string, string>)
    ensures forall k :: Lookup(values, k) == LastOf(c, lines, k)
  {
    values := map[];
    for i := 0 to |lines|
      invariant forall k :: Lookup(values, k) == LastOf(c, lines[..i], k)
    {
      assert lines[..i + 1][..i] == lines[..i];
      ghost var before := values;
      var entry := c.read(lines[i]);
      if entry.Entry? {
        values := values[entry.key := entry.value];
      }
      forall k ensures Lookup(values, k) == LastOf(c, lines[..i + 1], k) {
        assert Lookup(before, k) == LastOf(c, lines[..i], k);
      }
    }
    assert lines[..|lines|] == lines;
  }

  /** readEnvValues: the same loop over a JavaScript object. */
  method ReadEnvValues(c: Codec, lines: seq<string>) returns (values: map<string, string>)
    ensures forall k :: Lookup(values, k) == if k == PROTO then Absent else LastOf(c, lines, k)
  {
    values := map[];
    for i := 0 to |lines|
      invariant forall k :: Lookup(values, k) == if k == PROTO then Absent else LastOf(c, lines[..i], k)
    {
      assert lines[..i + 1][..i] == lines[..i];
      ghost var before := values;
      var entry := c.read(lines[i]);
      if entry.Entry? && entry.key != PROTO {
        values := values[entry.key := entry.value];
      }
      forall k ensures Lookup(values, k) == if k == PROTO then Absent else LastOf(c, lines[..i + 1], k) {
        assert Lookup(before, k) == if k == PROTO then Absent else LastOf(c, lines[..i], k);
      }
    }
    assert lines[..|lines|] == lines;
  }

  /** os.environ raises on these. */
  predicate Refuses(key: string, value: string) {
    '\0' in key || '\0' in value || '=' in key
  }

  predicate Unset(found: Found) {
    found == Absent || found == Present("")
  }

  /** load_devenv on one variable while nothing is refused: a line sets it while it is unset or empty. */
  function EnvAfter(c: Codec, lines: seq<string>, key: string, start: Found): Found {
    if lines == [] then start
    else
      var n := |lines| - 1;
      var before := EnvAfter(c, lines[..n], key, start);
      if IsFor(c, lines[n], key) && key != "" && Unset(before) then Present(c.unquote(c.read(lines[n]).value)) else before
  }

  /** Line i is an entry that load_devenv tries to set, and os.environ refuses it. */
  predicate Raises(c: Codec, lines: seq<string>, i: nat, env: map<string, string>)
    requires i < |lines|
  {
    var e := c.read(lines[i]);
    && e.Entry? && e.key != "" && Refuses(e.key, c.unquote(e.value))
    && Unset(EnvAfter(c, lines[..i], e.key, Lookup(env, e.key)))
  }

  /** How many lines load_devenv gets through: it ends silently at the first exception. */
  function Stop(c: Codec, lines: seq<string>, env: map<string, string>): (n: nat)
    ensures n <= |lines|
  {
    if lines == [] then 0
    else
      var n := |lines| - 1;
      var m := Stop(c, lines[..n], env);
      if m < n || Raises(c, lines, n, env) then m else n + 1
  }

  /** What load_devenv makes of one variable. */
  function Loaded(c: Codec, lines: seq<string>, env: map<string, string>, key: string): Found {
    EnvAfter(c, lines[..Stop(c, lines, env)], key, Lookup(env, key))
  }

  method LoadDevenv(c: Codec, lines: seq<string>, start: map<string, string>)
    returns (env: map<string, string>)
    ensures forall k :: Lookup(env, k) == Loaded(c, lines, start, k)
  {
    env := start;
    for i := 0 to |lines|
      invariant Stop(c, lines[..i], start) == i
      invariant forall k :: Lookup(env, k) == EnvAfter(c, lines[..i], k, Lookup(start, k))
    {
      assert lines[..i + 1][..i] == lines[..i];
      var entry := c.read(lines[i]);
      if entry.Entry? && entry.key != "" && (entry.key !in env || env[entry.key] == "") {
        var value := c.unquote(entry.value);
        if Refuses(entry.key, value) {
          StopStays(c, lines, i + 1, start);
          return;
        }
        SetOne(c, lines, start, i, env, entry.key, value);
        env := env[entry.key := value];
      }
    }
    assert lines[..|lines|] == lines;
  }

  lemma SetOne(c: Codec, lines: seq<string>, start: map<string, string>, i: nat, before: map<string, string>,
               key: string, value: string)
    requires i < |lines| && IsFor(c, lines[i], key) && key != "" && value == c.unquote(c.read(lines[i]).value)
    requires forall k :: Lookup(before, k) == EnvAfter(c, lines[..i], k, Lookup(start, k))
    requires Unset(Lookup(before, key))
    ensures forall k :: Lookup(before[key := value], k) == EnvAfter(c, lines[..i + 1], k, Lookup(start, k))
  {
    assert lines[..i + 1][..i] == lines[..i];
    forall k ensures Lookup(before[key := value], k) == EnvAfter(c, lines[..i + 1], k, Lookup(start, k)) {
      assert Lookup(before, k) == EnvAfter(c, lines[..i], k, Lookup(start, k));
    }
  }

  /** Once a load has ended, later lines do not matter. */
  lemma {:induction false} StopStays(c: Codec, lines: seq<string>, j: nat, env: map<string, string>)
    requires j <= |lines| && Stop(c, lines[..j], env) < j
    ensures Stop(c, lines, env) == Stop(c, lines[..j], env)
  {
    if j < |lines| {
      assert lines[..|lines| - 1][..j] == lines[..j];
      StopStays(c, lines[..|lines| - 1], j, env);
    } else {
      assert lines[..j] == lines;
    }
  }

  /** A load ends at the first line that raises. */
  lemma {:induction false} StopIsFirst(c: Codec, lines: seq<string>, env: map<string, string>)
    ensures var n := Stop(c, lines, env);
            && (forall i :: 0 <= i < n ==> !Raises(c, lines, i, env))
            && (n < |lines| ==> Raises(c, lines, n, env))
  {
    if lines != [] {
      var n := |lines| - 1;
      StopIsFirst(c, lines[..n], env);
      forall i | 0 <= i < n ensures Raises(c, lines[..n], i, env) == Raises(c, lines, i, env) {
        assert lines[..n][..i] == lines[..i];
      }
    }
  }
}
