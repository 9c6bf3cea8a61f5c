/** Env files as text: str.splitlines, the connector's settings store and the launcher's env file. */
module EnvText {
  import opened Text
  import opened EnvFile
  import opened EnvFileProofs

  /** The characters at which Python's str.splitlines ends a line. */
  predicate IsBreak(c: char) {
    var n := c as int;
    10 <= n <= 13 || 0x1C <= n <= 0x1E || n == 0x85 || n == 0x2028 || n == 0x2029
  }

  lemma BreakCharacters(c: char)
    ensures IsBreak(c) <==> c as int in [0x0A, 0x0B, 0x0C, 0x0D, 0x1C, 0x1D, 0x1E, 0x85, 0x2028, 0x2029]
    ensures IsBreak(c) ==> IsSpacePy(c)
  {
  }

  predicate OneLine(s: string) {
    forall i :: 0 <= i < |s| ==> !IsBreak(s[i])
  }

  function LineEnd(s: string): (n: nat)
    ensures n <= |s| && OneLine(s[..n]) && (n < |s| ==> IsBreak(s[n]))
  {
    if s == "" || IsBreak(s[0]) then 0
    else
      var n := LineEnd(s[1..]);
      assert forall i :: 0 < i < n + 1 ==> s[i] == s[1..][i - 1];
      n + 1
  }

  function BreakLength(s: string, n: nat): (k: nat)
    requires n < |s|
    ensures 1 <= k <= 2 && n + k <= |s|
  {
    if s[n] == '\r' && n + 1 < |s| && s[n + 1] == '\n' then 2 else 1
  }

  /** What follows the first line and its break. */
  function AfterLine(s: string): (r: string)
    ensures s != "" ==> |r| < |s|
  {
    var n := LineEnd(s);
    if n == |s| then "" else s[n + BreakLength(s, n)..]
  }

  function SplitLines(s: string): (r: seq<string>)
    ensures forall i :: 0 <= i < |r| ==> OneLine(r[i])
    decreases |s|
  {
    if s == "" then [] else [s[..LineEnd(s)]] + SplitLines(AfterLine(s))
  }

  function Terminated(lines: seq<string>): string {
    if lines == [] then "" else lines[0] + "\n" + Terminated(lines[1..])
  }

  lemma {:induction false} LineEndAt(line: string, c: char, rest: string)
    requires OneLine(line) && IsBreak(c)
    ensures LineEnd(line + ([c] + rest)) == |line|
  {
    if line != "" {
      LineEndAt(line[1..], c, rest);
      assert (line + ([c] + rest))[1..] == line[1..] + ([c] + rest);
    }
  }

  /** Splitting gives back the lines that were written, each with its line feed. */
  lemma {:induction false} SplitTerminated(lines: seq<string>)
    requires forall i :: 0 <= i < |lines| ==> OneLine(lines[i])
    ensures SplitLines(Terminated(lines)) == lines
  {
    if lines != [] {
      var rest := Terminated(lines[1..]);
      var s := lines[0] + "\n" + rest;
      LineEndAt(lines[0], '\n', rest);
      assert s == lines[0] + (['\n'] + rest);
      SplitTerminated(lines[1..]);
      assert s[..|lines[0]|] == lines[0] && s[|lines[0]| + 1..] == rest;
    }
  }

  /** A line break: CR LF, or a single character, which is no CR in front of an LF. */
  predicate Breaks(brk: string, rest: string) {
    || brk == "\r\n"
    || (|brk| == 1 && IsBreak(brk[0]) && !(brk[0] == '\r' && rest != "" && rest[0] == '\n'))
  }

  lemma AfterBreak(line: string, brk: string, rest: string, s: string)
    requires OneLine(line) && Breaks(brk, rest) && s == line + brk + rest
    ensures LineEnd(s) == |line| && AfterLine(s) == rest && s[..|line|] == line
  {
    assert brk == [brk[0]] + brk[1..];
    assert s == line + ([brk[0]] + (brk[1..] + rest));
    LineEndAt(line, brk[0], brk[1..] + rest);
    assert s[|line|] == brk[0] && s[|line| + |brk|..] == rest;
    if |brk| == 2 {
      assert s[|line| + 1] == brk[1];
    } else if rest != "" {
      assert s[|line| + 1] == rest[0];
    }
  }

  /** A line and its break come off the front; CR LF is one break. A last line needs none, and is not blank. */
  lemma SplitLinesSteps(line: string, brk: string, rest: string)
    requires OneLine(line)
    ensures Breaks(brk, rest) ==> SplitLines(line + brk + rest) == [line] + SplitLines(rest)
    ensures SplitLines(line) == if line == "" then [] else [line]
  {
    if Breaks(brk, rest) {
      AfterBreak(line, brk, rest, line + brk + rest);
    }
    LineEndOfLine(line);
    assert line[..|line|] == line && SplitLines("") == [];
  }

  lemma {:induction false} LineEndOfLine(line: string)
    requires OneLine(line)
    ensures LineEnd(line) == |line|
  {
    if line != "" {
      LineEndOfLine(line[1..]);
    }
  }

  lemma {:induction false} JoinTerminated(lines: seq<string>)
    requires lines != []
    ensures Join(lines, "\n") + "\n" == Terminated(lines)
    ensures Join(lines + [""], "\n") == Terminated(lines)
  {
    if |lines| > 1 {
      JoinTerminated(lines[1..]);
      assert (lines + [""])[1..] == lines[1..] + [""];
    } else {
      assert (lines + [""])[1..] == [""];
      assert lines[1..] == [];
    }
  }

  // ----- persist_runtime_overrides

  const PREFIX := "DSXCONNECTOR_"

  function Flat(value: string): (r: string)
    ensures |r| == |value|
  {
    seq(|value|, i requires 0 <= i < |value| => if value[i] == '\r' || value[i] == '\n' then ' ' else value[i])
  }

  /** A dictionary in insertion order. */
  datatype Dict = Dict(order: seq<string>, vals: map<string, string>)

  function Put(d: Dict, key: string, value: string): Dict {
    Dict(if key in d.vals then d.order else d.order + [key], d.vals[key := value])
  }

  function Cleaned(updates: seq<(string, string)>): (d: Dict)
    ensures Ordered(d.order, d.vals)
  {
    if updates == [] then Dict([], map[])
    else
      var n := |updates| - 1;
      var d, key := Cleaned(updates[..n]), TrimPy(updates[n].0);
      if PREFIX <= key then Put(d, key, Flat(updates[n].1)) else d
  }

  function PyCodec(): Codec {
    CodecOf(IsSpacePy)
  }

  /** The text that persist_runtime_overrides writes. */
  function Persisted(file: string, d: Dict): string
    requires Ordered(d.order, d.vals)
  {
    Join(Upsert(PyCodec(), d.vals, d.order, SplitLines(file)), "\n") + "\n"
  }

  /** The environment that takes the updates one after the other, up to the first that it refuses. */
  datatype Exported = Exported(environ: map<string, string>, raised: bool)

  function Export(environ: map<string, string>, vals: map<string, string>, order: seq<string>): Exported
    requires forall k :: k in order ==> k in vals
  {
    if order == [] then Exported(environ, false)
    else
      var n := |order| - 1;
      var key := order[n];
      var before := Export(environ, vals, order[..n]);
      if before.raised then before
      else if Refuses(key, vals[key]) then Exported(before.environ, true)
      else Exported(before.environ[key := vals[key]], false)
  }

  /** Unchanged: false is returned and nothing is done. Raised: os.environ has refused an update after the file was written. */
  datatype Persistence = Saved | Unchanged | Raised

  /** The settings store of a connector: its env file and the process environment. */
  class EnvStore {
    var file: string
    var fileExists: bool
    var environ: map<string, string>

    constructor (file: string, fileExists: bool, environ: map<string, string>)
      ensures this.file == file && this.fileExists == fileExists && this.environ == environ
    {
      this.file, this.fileExists, this.environ := file, fileExists, environ;
    }

    method PersistRuntimeOverrides(updates: seq<(string, string)>) returns (result: Persistence)
      modifies this
      ensures fileExists == old(fileExists)
      ensures result == Unchanged <==> !fileExists || Cleaned(updates).order == []
      ensures result == Unchanged ==> file == old(file) && environ == old(environ)
      ensures result != Unchanged ==>
                var d := Cleaned(updates);
                var after := Export(old(environ), d.vals, d.order);
                file == Persisted(old(file), d) && environ == after.environ && (result == Raised <==> after.raised)
    {
      if !fileExists {
        return Unchanged;
      }
      var cleaned := CleanUpdates(updates);
      if cleaned.order == [] {
        return Unchanged;
      }
      var out := UpsertLines(PyCodec(), cleaned.vals, cleaned.order, SplitLines(file));
      file := Join(out, "\n") + "\n";
      result := ExportAll(cleaned.vals, cleaned.order);
    }

    /** The last loop of persist_runtime_overrides. */
    method ExportAll(vals: map<string, string>, order: seq<string>) returns (result: Persistence)
      requires forall k :: k in order ==> k in vals
      modifies this`environ
      ensures environ == Export(old(environ), vals, order).environ && result != Unchanged
      ensures result == Raised <==> Export(old(environ), vals, order).raised
    {
      for i := 0 to |order|
        invariant Export(old(environ), vals, order[..i]) == Exported(environ, false)
      {
        assert order[..i + 1][..i] == order[..i];
        var key := order[i];
        if Refuses(key, vals[key]) {
          ExportStays(old(environ), vals, order, i + 1);
          return Raised;
        }
        environ := environ[key := vals[key]];
      }
      assert order[..|order|] == order;
      result := Saved;
    }

    /** load_devenv on the store's file. */
    method Reload()
      modifies this
      ensures file == old(file) && fileExists == old(fileExists)
      ensures forall k :: Lookup(environ, k) ==
                if fileExists then Loaded(PyCodec(), SplitLines(file), old(environ), k) else Lookup(old(environ), k)
    {
      if fileExists {
        environ := LoadDevenv(PyCodec(), SplitLines(file), environ);
      }
    }
  }

  method CleanUpdates(updates: seq<(string, string)>) returns (cleaned: Dict)
    ensures cleaned == Cleaned(updates)
  {
    cleaned := Dict([], map[]);
    for i := 0 to |updates|
      invariant cleaned == Cleaned(updates[..i])
    {
      assert updates[..i + 1][..i] == updates[..i];
      var key := TrimPy(updates[i].0);
      if PREFIX <= key {
        cleaned := Put(cleaned, key, Flat(updates[i].1));
      }
    }
    assert updates[..|updates|] == updates;
  }

  /** Once an update is refused, later ones do not matter. */
  lemma {:induction false} ExportStays(environ: map<string, string>, vals: map<string, string>, order: seq<string>, j: nat)
    requires (forall k :: k in order ==> k in vals) && j <= |order| && Export(environ, vals, order[..j]).raised
    ensures Export(environ, vals, order) == Export(environ, vals, order[..j])
  {
    if j < |order| {
      assert order[..|order| - 1][..j] == order[..j];
      ExportStays(environ, vals, order[..|order| - 1], j);
    } else {
      assert order[..j] == order;
    }
  }

  /** The update of key is reached and taken. */
  predicate Takes(vals: map<string, string>, order: seq<string>, key: string)
    requires forall k :: k in order ==> k in vals
  {
    exists i :: 0 <= i < |order| && order[i] == key
                && forall j :: 0 <= j <= i ==> !Refuses(order[j], vals[order[j]])
  }

  lemma {:induction false} ExportHas(environ: map<string, string>, vals: map<string, string>, order: seq<string>, key: string)
    requires forall k :: k in order ==> k in vals
    ensures var after := Export(environ, vals, order);
            && Lookup(after.environ, key) == (if Takes(vals, order, key) then Present(vals[key]) else Lookup(environ, key))
            && (after.raised <==> exists i :: 0 <= i < |order| && Refuses(order[i], vals[order[i]]))
  {
    if order != [] {
      var n := |order| - 1;
      ExportHas(environ, vals, order[..n], key);
      assert forall i :: 0 <= i < n ==> order[..n][i] == order[i];
      TakesNext(vals, order, key);
    }
  }

  lemma TakesNext(vals: map<string, string>, order: seq<string>, key: string)
    requires order != [] && forall k :: k in order ==> k in vals
    ensures Takes(vals, order, key) <==>
              || Takes(vals, order[..|order| - 1], key)
              || (order[|order| - 1] == key && forall j :: 0 <= j < |order| ==> !Refuses(order[j], vals[order[j]]))
  {
    var n := |order| - 1;
    if Takes(vals, order[..n], key) {
      var i :| 0 <= i < n && order[..n][i] == key && forall j :: 0 <= j <= i ==> !Refuses(order[..n][j], vals[order[..n][j]]);
      assert forall j :: 0 <= j <= i ==> order[..n][j] == order[j];
      assert order[i] == key;
    }
    if Takes(vals, order, key) {
      var i :| 0 <= i <= n && order[i] == key && forall j :: 0 <= j <= i ==> !Refuses(order[j], vals[order[j]]);
      assert i < n ==> order[..n][i] == key;
      assert forall j :: 0 <= j < n ==> order[..n][j] == order[j];
    }
  }

  /** Keys that the file's syntax can hold, and values as the store flattens them. */
  ghost predicate Storable(vals: map<string, string>) {
    forall k :: k in vals ==> WellFormed(IsSpacePy, k) && OneLine(k) && '\r' !in vals[k] && '\n' !in vals[k]
  }

  ghost predicate OneLineValues(vals: map<string, string>) {
    forall k :: k in vals ==> OneLine(vals[k])
  }

  /** The keys and values that survive a trip through the file's syntax. */
  ghost predicate Writable(vals: map<string, string>) {
    Storable(vals) && OneLineValues(vals)
  }

  /** Each CR and each LF has become a blank. */
  predicate FlatOf(value: string, given: string) {
    && |value| == |given|
    && forall i :: 0 <= i < |given| ==> value[i] == if given[i] in "\r\n" then ' ' else given[i]
  }

  predicate LastUpdate(updates: seq<(string, string)>, key: string, i: nat)
    requires i < |updates|
  {
    TrimPy(updates[i].0) == key && forall j :: i < j < |updates| ==> TrimPy(updates[j].0) != key
  }

  /** The keys with the prefix are accepted, each with its last value. */
  lemma {:induction false} CleanedExactly(updates: seq<(string, string)>, key: string, i: nat)
    requires i < |updates| && LastUpdate(updates, key, i)
    ensures key in Cleaned(updates).vals <==> "DSXCONNECTOR_" <= key
    ensures key in Cleaned(updates).vals ==> FlatOf(Cleaned(updates).vals[key], updates[i].1)
  {
    var n := |updates| - 1;
    if i < n {
      assert LastUpdate(updates[..n], key, i);
      CleanedExactly(updates[..n], key, i);
    } else if !(PREFIX <= key) {
      NotCleaned(updates, key);
    }
    FlatIsFlat(updates[i].1);
  }

  lemma FlatIsFlat(given: string)
    ensures FlatOf(Flat(given), given)
  {
  }

  lemma {:induction false} NotCleaned(updates: seq<(string, string)>, key: string)
    requires !(PREFIX <= key) || forall j :: 0 <= j < |updates| ==> TrimPy(updates[j].0) != key
    ensures key !in Cleaned(updates).vals
  {
    if updates != [] {
      NotCleaned(updates[..|updates| - 1], key);
    }
  }

  predicate Distinct(order: seq<string>) {
    forall i, j :: 0 <= i < j < |order| ==> order[i] != order[j]
  }

  lemma PutKeepsPlaces(d: Dict, key: string, value: string)
    requires Ordered(d.order, d.vals) && Distinct(d.order)
    ensures d.order <= Put(d, key, value).order && Distinct(Put(d, key, value).order)
  {
    if key !in d.vals {
      assert forall i :: 0 <= i < |d.order| ==> d.order[i] in d.order;
    }
  }

  lemma {:induction false} CleanedIsDistinct(updates: seq<(string, string)>)
    ensures Distinct(Cleaned(updates).order)
  {
    if updates != [] {
      var n := |updates| - 1;
      CleanedIsDistinct(updates[..n]);
      PutKeepsPlaces(Cleaned(updates[..n]), TrimPy(updates[n].0), Flat(updates[n].1));
    }
  }

  /** Each key stands once, in the place of its first update. */
  lemma {:induction false} CleanedKeepsPlaces(updates: seq<(string, string)>, n: nat)
    requires n <= |updates|
    ensures Distinct(Cleaned(updates).order) && Cleaned(updates[..n]).order <= Cleaned(updates).order
  {
    CleanedIsDistinct(updates);
    if n < |updates| {
      var m := |updates| - 1;
      CleanedKeepsPlaces(updates[..m], n);
      assert updates[..m][..n] == updates[..n];
      PutKeepsPlaces(Cleaned(updates[..m]), TrimPy(updates[m].0), Flat(updates[m].1));
    } else {
      assert updates[..n] == updates;
    }
  }

  /** Of the keys and values that the store accepts, the file's syntax asks this more: no '=' in a key, single lines. */
  lemma CleanedKeys(updates: seq<(string, string)>, key: string)
    requires key in Cleaned(updates).vals
    ensures WellFormed(IsSpacePy, key) <==> '=' !in key
    ensures '\n' !in Cleaned(updates).vals[key] && '\r' !in Cleaned(updates).vals[key]
  {
    var i := CleanedFrom(updates, key);
    AcceptedKey(updates[i].0, key);
  }

  /** So the updates of a store can be read back if their keys have no equals sign and no line break. */
  lemma CleanedIsStorable(updates: seq<(string, string)>)
    requires forall k :: k in Cleaned(updates).vals ==> '=' !in k && OneLine(k)
    ensures Storable(Cleaned(updates).vals)
  {
    var vals := Cleaned(updates).vals;
    forall k | k in vals
      ensures WellFormed(IsSpacePy, k) && OneLine(k) && '\r' !in vals[k] && '\n' !in vals[k]
    {
      CleanedKeys(updates, k);
    }
  }

  lemma {:induction false} CleanedFrom(updates: seq<(string, string)>, key: string) returns (i: nat)
    requires key in Cleaned(updates).vals
    ensures i < |updates| && TrimPy(updates[i].0) == key && PREFIX <= key
    ensures Cleaned(updates).vals[key] == Flat(updates[i].1)
  {
    var n := |updates| - 1;
    if PREFIX <= key && key == TrimPy(updates[n].0) {
      i := n;
    } else {
      i := CleanedFrom(updates[..n], key);
    }
  }

  lemma AcceptedKey(raw: string, key: string)
    requires key == TrimPy(raw) && PREFIX <= key
    ensures WellFormed(IsSpacePy, key) <==> '=' !in key
  {
  }

  lemma UpsertIsOneLine(vals: map<string, string>, order: seq<string>, lines: seq<string>)
    requires Writable(vals) && Ordered(order, vals) && forall i :: 0 <= i < |lines| ==> OneLine(lines[i])
    ensures var out := Upsert(PyCodec(), vals, order, lines); forall i :: 0 <= i < |out| ==> OneLine(out[i])
  {
    var c := PyCodec();
    var out, added := Upsert(c, vals, order, lines), Appended(c, vals, lines, order);
    RewrittenAt(c, vals, lines);
    forall i | 0 <= i < |out| ensures OneLine(out[i]) {
      if i < |lines| {
        assert out[i] == Rewrite(c, vals, lines[i]);
        if Targets(c, vals, lines[i]) {
          NewLineIsOneLine(vals, c.keyOf(lines[i]).value);
        }
      } else {
        assert out[i] in added;
        AppendedHas(c, vals, lines, order, out[i]);
        var k :| k in order && out[i] == NewLine(k, vals[k]);
        NewLineIsOneLine(vals, k);
      }
    }
  }

  lemma NewLineIsOneLine(vals: map<string, string>, key: string)
    requires Writable(vals) && key in vals
    ensures OneLine(NewLine(key, vals[key]))
  {
  }

  lemma UpsertNotEmpty(vals: map<string, string>, order: seq<string>, lines: seq<string>)
    requires Faithful(PyCodec(), vals) && Ordered(order, vals) && order != []
    ensures Upsert(PyCodec(), vals, order, lines) != []
  {
  }
}
