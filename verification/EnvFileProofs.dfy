/** Reading an env file after an upsert. */
module EnvFileProofs {
  import opened Text
  import opened EnvFile

  // ----- stripping first or cutting first is the same

  lemma {:induction false} FirstEqIs(s: string, n: nat)
    requires n < |s| && s[n] == '=' && '=' !in s[..n]
    ensures FirstEq(s) == n
  {
  }

  /** The first equals sign is the only place where a line falls into these two parts. */
  lemma CutIs(line: string, x: string, y: string)
    requires '=' !in x && line == x + "=" + y
    ensures '=' in line && line[..FirstEq(line)] == x && line[FirstEq(line) + 1..] == y
  {
    assert line[|x|] == '=' && line[..|x|] == x && line[|x| + 1..] == y;
    FirstEqIs(line, |x|);
  }

  lemma RegroupCut(a: string, x: string, y: string, b: string)
    ensures a + (x + "=" + y) + b == (a + x) + "=" + (y + b)
  {
  }

  /** Cutting at the equals sign before or after stripping comes to the same. */
  lemma CutCommutes(space: char -> bool, line: string, a: string, s: string, b: string)
    requires Blank(space, a) && Blank(space, b) && !space('=') && '=' in s && line == a + s + b
    ensures '=' in line
    ensures Strip(line[..FirstEq(line)], space) == Strip(s[..FirstEq(s)], space)
    ensures Strip(line[FirstEq(line) + 1..], space) == Strip(s[FirstEq(s) + 1..], space)
  {
    var x, y := s[..FirstEq(s)], s[FirstEq(s) + 1..];
    assert s == x + "=" + y;
    RegroupCut(a, x, y, b);
    CutIs(line, a + x, y + b);
    StripAfter(space, a, x);
    StripBefore(space, y, b);
  }

  /** The readers see an entry exactly where the writers see a key, and the same key. */
  lemma ReadersSeeWritersKey(space: char -> bool, line: string)
    requires !space('=')
    ensures var key, entry := WriterKey(space, line), ReaderEntry(space, line);
            && (entry.Entry? <==> key.Present?)
            && (entry.Entry? ==> key == Present(entry.key))
            && (entry.Entry? ==> '=' in line && entry.value == Strip(line[FirstEq(line) + 1..], space))
  {
    var s := Strip(line, space);
    var a, b := StripSits(space, line);
    EqSurvives(space, line, a, s, b);
    if '=' in s {
      CutCommutes(space, line, a, s, b);
      SameEntry(space, line, s);
    }
  }

  lemma SameEntry(space: char -> bool, line: string, s: string)
    requires s == Strip(line, space) && '=' in s && '=' in line
    requires Strip(line[..FirstEq(line)], space) == Strip(s[..FirstEq(s)], space)
    requires Strip(line[FirstEq(line) + 1..], space) == Strip(s[FirstEq(s) + 1..], space)
    ensures var key, entry := WriterKey(space, line), ReaderEntry(space, line);
            && (entry.Entry? <==> key.Present?)
            && (entry.Entry? ==> key == Present(entry.key) && entry.value == Strip(line[FirstEq(line) + 1..], space))
  {
  }

  lemma EqSurvives(space: char -> bool, line: string, a: string, s: string, b: string)
    requires Blank(space, a) && Blank(space, b) && !space('=') && line == a + s + b
    ensures '=' in line <==> '=' in s
  {
  }

  // ----- what a line says

  predicate Trimmed(space: char -> bool, s: string) {
    s == "" || (!space(s[0]) && !space(s[|s| - 1]))
  }

  /** Blanks aside, the line is k, an equals sign and v, and it does not begin with a hash sign. */
  ghost predicate Assigns(space: char -> bool, line: string, k: string, v: string) {
    && Trimmed(space, k) && Trimmed(space, v) && '=' !in k && (k != "" ==> k[0] != '#')
    && exists a, m, n, b :: SpacedOut(space, a, m, n, b) && line == (a + k + m) + "=" + (n + v + b)
  }

  predicate SpacedOut(space: char -> bool, a: string, m: string, n: string, b: string) {
    Blank(space, a) && Blank(space, m) && Blank(space, n) && Blank(space, b)
  }

  lemma NoEqInBlank(space: char -> bool, s: string)
    requires Blank(space, s) && !space('=')
    ensures '=' !in s
  {
  }

  /** The first character that is not stripped is the first of the stripped text. */
  lemma FirstKept(space: char -> bool, a: string, c: char, rest: string)
    requires Blank(space, a) && !space(c)
    ensures Strip(a + ([c] + rest), space) != "" && Strip(a + ([c] + rest), space)[0] == c
  {
    StripLeftPad(space, a, [c] + rest);
    var y := StripRightKeeps(space, [c], rest);
  }

  lemma TrimmedStays(space: char -> bool, a: string, s: string, b: string)
    requires Blank(space, a) && Blank(space, b) && Trimmed(space, s)
    ensures Strip(a + s + b, space) == s
  {
    StripPad(space, a, s, b);
    StripNoop(s, space);
  }

  lemma AssignmentStarts(space: char -> bool, a: string, k: string, m: string, rest: string)
    requires Blank(space, a) && Blank(space, m) && Trimmed(space, k) && (k != "" ==> k[0] != '#') && !space('=')
    ensures var s := Strip((a + k + m) + "=" + rest, space); s != "" && s[0] != '#'
  {
    if k == "" {
      assert (a + k + m) + "=" + rest == (a + m) + (['='] + rest);
      FirstKept(space, a + m, '=', rest);
    } else {
      assert (a + k + m) + "=" + rest == a + ([k[0]] + (k[1..] + m + "=" + rest));
      FirstKept(space, a, k[0], k[1..] + m + "=" + rest);
    }
  }

  lemma AssignmentReads(space: char -> bool, line: string, a: string, k: string, m: string, n: string, v: string, b: string)
    requires !space('=') && SpacedOut(space, a, m, n, b) && line == (a + k + m) + "=" + (n + v + b)
    requires Trimmed(space, k) && Trimmed(space, v) && '=' !in k && (k != "" ==> k[0] != '#')
    ensures ReaderEntry(space, line) == Entry(k, v) && WriterKey(space, line) == Present(k)
  {
    NoEqInBlank(space, a);
    NoEqInBlank(space, m);
    CutIs(line, a + k + m, n + v + b);
    TrimmedStays(space, a, k, m);
    TrimmedStays(space, n, v, b);
    AssignmentStarts(space, a, k, m, n + v + b);
    ReadersSeeWritersKey(space, line);
  }

  lemma StripIsTrimmed(space: char -> bool, s: string)
    ensures Trimmed(space, Strip(s, space))
  {
    var l := StripLeft(s, space);
    assert l != "" ==> !space(l[0]);
  }

  lemma AtEq(s: string)
    requires '=' in s
    ensures s == s[..FirstEq(s)] + "=" + s[FirstEq(s) + 1..] && '=' !in s[..FirstEq(s)]
  {
  }

  lemma NoEqInside(a: string, k: string, m: string)
    requires '=' !in a + k + m
    ensures '=' !in k
  {
    assert forall c :: c in k ==> c in a + k + m;
  }

  lemma PartsAssign(space: char -> bool, line: string, a: string, s: string, b: string, x: string, y: string)
    requires line == a + s + b && s == x + "=" + y && '=' !in x && Blank(space, a) && Blank(space, b)
    requires Strip(x, space) != "" ==> Strip(x, space)[0] != '#'
    ensures Assigns(space, line, Strip(x, space), Strip(y, space))
  {
    var k, v := Strip(x, space), Strip(y, space);
    var a1, m := StripSits(space, x);
    var n, b1 := StripSits(space, y);
    StripIsTrimmed(space, x);
    StripIsTrimmed(space, y);
    NoEqInside(a1, k, m);
    AroundEq(space, line, a, a1, k, m, n, v, b1, b, s);
  }

  lemma ReadIsAssignment(space: char -> bool, line: string)
    requires ReaderEntry(space, line).Entry?
    ensures Assigns(space, line, ReaderEntry(space, line).key, ReaderEntry(space, line).value)
  {
    var s := Strip(line, space);
    var a, b := StripSits(space, line);
    AtEq(s);
    NoHash(space, line, s, s[..FirstEq(s)]);
    PartsAssign(space, line, a, s, b, s[..FirstEq(s)], s[FirstEq(s) + 1..]);
  }

  lemma AroundEq(space: char -> bool, line: string, a: string, a1: string, k: string, m: string, n: string, v: string,
                 b1: string, b: string, s: string)
    requires line == a + s + b && s == (a1 + k + m) + "=" + (n + v + b1)
    requires Blank(space, a) && Blank(space, a1) && Blank(space, m) && Blank(space, n) && Blank(space, b1) && Blank(space, b)
    ensures SpacedOut(space, a + a1, m, n, b1 + b) && line == (a + a1 + k + m) + "=" + (n + v + (b1 + b))
  {
  }

  lemma NoHash(space: char -> bool, line: string, s: string, x: string)
    requires s == Strip(line, space) && s != "" && s[0] != '#' && x <= s
    ensures Strip(x, space) != "" ==> Strip(x, space)[0] != '#'
  {
    StripIsTrimmed(space, line);
    if x != "" {
      assert Leading(x, space) == 0;
      assert StripLeft(x, space) == x;
    }
  }

  /** Reader and writer take a line as an assignment of v to k exactly when it is written as one. */
  lemma LineReadsExactlyWhen(space: char -> bool, line: string, k: string, v: string)
    requires !space('=')
    ensures ReaderEntry(space, line) == Entry(k, v) <==> Assigns(space, line, k, v)
    ensures Assigns(space, line, k, v) ==> WriterKey(space, line) == Present(k)
  {
    if ReaderEntry(space, line) == Entry(k, v) {
      ReadIsAssignment(space, line);
    }
    if Assigns(space, line, k, v) {
      var a, m, n, b :| SpacedOut(space, a, m, n, b) && line == (a + k + m) + "=" + (n + v + b);
      AssignmentReads(space, line, a, k, m, n, v, b);
    }
  }

  // ----- a key that can be written and read back

  predicate WellFormed(space: char -> bool, key: string) {
    && key != "" && '=' !in key && key[0] != '#'
    && !space(key[0]) && !space(key[|key| - 1])
  }

  lemma NewLineParses(space: char -> bool, key: string, value: string)
    requires !space('=') && WellFormed(space, key)
    ensures WriterKey(space, NewLine(key, value)) == Present(key)
    ensures ReaderEntry(space, NewLine(key, value)) == Entry(key, Strip(value, space))
  {
    var line := NewLine(key, value);
    CutIs(line, key, value);
    StripNoop(key, space);
    assert line[0] == key[0] && Leading(line, space) == 0;
    ReadersSeeWritersKey(space, line);
  }

  /** What the proofs below need of a codec: both sides see the same keys, and a written line reads back. */
  ghost predicate Faithful(c: Codec, vals: map<string, string>) {
    && (forall line :: c.read(line).Entry? <==> c.keyOf(line).Present?)
    && (forall line :: c.read(line).Entry? ==> c.keyOf(line) == Present(c.read(line).key))
    && (forall k :: k in vals ==>
          k != "" && c.keyOf(NewLine(k, vals[k])) == Present(k) && c.read(NewLine(k, vals[k])) == Entry(k, c.trim(vals[k])))
  }

  lemma CodecIsFaithful(space: char -> bool, vals: map<string, string>)
    requires !space('=') && forall k :: k in vals ==> WellFormed(space, k)
    ensures Faithful(CodecOf(space), vals)
  {
    var c := CodecOf(space);
    forall line ensures (c.read(line).Entry? <==> c.keyOf(line).Present?)
                        && (c.read(line).Entry? ==> c.keyOf(line) == Present(c.read(line).key))
    {
      ReadersSeeWritersKey(space, line);
    }
    forall k | k in vals
      ensures c.keyOf(NewLine(k, vals[k])) == Present(k) && c.read(NewLine(k, vals[k])) == Entry(k, c.trim(vals[k]))
    {
      NewLineParses(space, k, vals[k]);
    }
  }

  /** Rewriting a line keeps the key it is for. */
  lemma RewriteKeepsKey(c: Codec, vals: map<string, string>, line: string, key: string)
    requires Faithful(c, vals)
    ensures IsFor(c, Rewrite(c, vals, line), key) <==> IsFor(c, line, key)
    ensures key !in vals && IsFor(c, line, key) ==> Rewrite(c, vals, line) == line
    ensures key in vals && IsFor(c, line, key) ==> c.read(Rewrite(c, vals, line)).value == c.trim(vals[key])
    ensures Targets(c, vals, Rewrite(c, vals, line)) == Targets(c, vals, line)
    ensures Rewrite(c, vals, Rewrite(c, vals, line)) == Rewrite(c, vals, line)
  {
  }

  // ----- the readers over whole files

  predicate AnyFor(c: Codec, lines: seq<string>, key: string) {
    exists i :: 0 <= i < |lines| && IsFor(c, lines[i], key)
  }

  lemma {:induction false} LastOfConcat(c: Codec, a: seq<string>, b: seq<string>, key: string)
    ensures LastOf(c, a + b, key) == if LastOf(c, b, key).Present? then LastOf(c, b, key) else LastOf(c, a, key)
  {
    if b == [] {
      assert a + b == a;
    } else {
      var n := |b| - 1;
      LastOfConcat(c, a, b[..n], key);
      assert (a + b)[..|a + b| - 1] == a + b[..n];
    }
  }

  lemma {:induction false} EnvAfterConcat(c: Codec, a: seq<string>, b: seq<string>, key: string, start: Found)
    ensures EnvAfter(c, a + b, key, start) == EnvAfter(c, b, key, EnvAfter(c, a, key, start))
  {
    if b == [] {
      assert a + b == a;
    } else {
      var n := |b| - 1;
      EnvAfterConcat(c, a, b[..n], key, start);
      assert (a + b)[..|a + b| - 1] == a + b[..n];
    }
  }

  /** Reading only depends on the lines for the key. */
  lemma {:induction false} SameReading(c: Codec, vals: map<string, string>, lines: seq<string>, key: string, start: Found)
    requires Faithful(c, vals) && key !in vals
    ensures LastOf(c, Rewritten(c, vals, lines), key) == LastOf(c, lines, key)
    ensures EnvAfter(c, Rewritten(c, vals, lines), key, start) == EnvAfter(c, lines, key, start)
  {
    if lines != [] {
      var n := |lines| - 1;
      SameReading(c, vals, lines[..n], key, start);
      RewriteKeepsKey(c, vals, lines[n], key);
    }
  }

  lemma {:induction false} Silent(c: Codec, lines: seq<string>, key: string, start: Found)
    requires forall line :: line in lines ==> !IsFor(c, line, key)
    ensures LastOf(c, lines, key) == Absent && EnvAfter(c, lines, key, start) == start
  {
    if lines != [] {
      Silent(c, lines[..|lines| - 1], key, start);
    }
  }

  /** Every line for key carries the value v. */
  predicate AllCarry(c: Codec, lines: seq<string>, key: string, v: string) {
    forall i :: 0 <= i < |lines| && IsFor(c, lines[i], key) ==> c.read(lines[i]).value == v
  }

  lemma {:induction false} ReadsCarried(c: Codec, lines: seq<string>, key: string, v: string)
    requires key != "" && AllCarry(c, lines, key, v)
    ensures LastOf(c, lines, key) == if AnyFor(c, lines, key) then Present(v) else Absent
    ensures EnvAfter(c, lines, key, Absent) == if AnyFor(c, lines, key) then Present(c.unquote(v)) else Absent
  {
    if lines != [] {
      var n := |lines| - 1;
      ReadsCarried(c, lines[..n], key, v);
      if AnyFor(c, lines[..n], key) {
        var i :| 0 <= i < n && IsFor(c, lines[..n][i], key);
        assert IsFor(c, lines[i], key);
      }
      if AnyFor(c, lines, key) && !IsFor(c, lines[n], key) {
        var i :| 0 <= i < |lines| && IsFor(c, lines[i], key);
        assert IsFor(c, lines[..n][i], key);
      }
    }
  }

  lemma {:induction false} RewrittenAt(c: Codec, vals: map<string, string>, lines: seq<string>)
    ensures |Rewritten(c, vals, lines)| == |lines|
    ensures forall i :: 0 <= i < |lines| ==> Rewritten(c, vals, lines)[i] == Rewrite(c, vals, lines[i])
  {
    if lines != [] {
      RewrittenAt(c, vals, lines[..|lines| - 1]);
    }
  }

  lemma {:induction false} AppendedHas(
      c: Codec, vals: map<string, string>, lines: seq<string>, order: seq<string>, line: string)
    requires forall k :: k in order ==> k in vals
    ensures line in Appended(c, vals, lines, order) <==>
              exists k :: k in order && !HasKey(c, lines, k) && line == NewLine(k, vals[k])
  {
    if order != [] {
      var n := |order| - 1;
      AppendedHas(c, vals, lines, order[..n], line);
      assert order == order[..n] + [order[n]];
      if line in Appended(c, vals, lines, order[..n]) {
        var k :| k in order[..n] && !HasKey(c, lines, k) && line == NewLine(k, vals[k]);
        assert k in order;
      }
    }
  }

  /** After the upsert every line for an updated key carries the new trimmed value, and there is one. */
  lemma UpsertCarries(c: Codec, vals: map<string, string>, order: seq<string>, lines: seq<string>, key: string)
    requires Faithful(c, vals) && Ordered(order, vals) && key in vals
    ensures AllCarry(c, Upsert(c, vals, order, lines), key, c.trim(vals[key]))
    ensures AnyFor(c, Upsert(c, vals, order, lines), key)
  {
    var out := Upsert(c, vals, order, lines);
    var added := Appended(c, vals, lines, order);
    RewrittenAt(c, vals, lines);
    forall i | 0 <= i < |out| && IsFor(c, out[i], key)
      ensures c.read(out[i]).value == c.trim(vals[key])
    {
      if i < |lines| {
        RewriteKeepsKey(c, vals, lines[i], key);
      } else {
        assert out[i] in added;
        AppendedHas(c, vals, lines, order, out[i]);
        var k :| k in order && out[i] == NewLine(k, vals[k]);
      }
    }
    if HasKey(c, lines, key) {
      var i :| 0 <= i < |lines| && c.keyOf(lines[i]) == Present(key);
      RewriteKeepsKey(c, vals, lines[i], key);
      assert IsFor(c, out[i], key);
    } else {
      var line := NewLine(key, vals[key]);
      AppendedHas(c, vals, lines, order, line);
      var j :| 0 <= j < |added| && added[j] == line;
      assert out[|lines| + j] == line;
      assert IsFor(c, out[|lines| + j], key);
    }
  }

  /**
   Both readers see the update: the last-wins reader and, from an unset variable, the first-non-empty-wins reader
   give the new value (trimmed, and for the second without quotes); every other key reads as before.
   */
  lemma UpsertThenRead(
      c: Codec, vals: map<string, string>, order: seq<string>, lines: seq<string>, key: string, start: Found)
    requires Faithful(c, vals) && Ordered(order, vals)
    ensures var out := Upsert(c, vals, order, lines);
            if key in vals then
              && LastOf(c, out, key) == Present(c.trim(vals[key]))
              && EnvAfter(c, out, key, Absent) == Present(c.unquote(c.trim(vals[key])))
            else
              && LastOf(c, out, key) == LastOf(c, lines, key)
              && EnvAfter(c, out, key, start) == EnvAfter(c, lines, key, start)
  {
    if key in vals {
      UpsertCarries(c, vals, order, lines, key);
      ReadsCarried(c, Upsert(c, vals, order, lines), key, c.trim(vals[key]));
    } else {
      var a, b := Rewritten(c, vals, lines), Appended(c, vals, lines, order);
      SameReading(c, vals, lines, key, start);
      forall line | line in b ensures !IsFor(c, line, key) {
        AppendedHas(c, vals, lines, order, line);
      }
      Silent(c, b, key, EnvAfter(c, a, key, start));
      LastOfConcat(c, a, b, key);
      EnvAfterConcat(c, a, b, key, start);
    }
  }

  // ----- what the upsert leaves alone

  /** The lines that no update is for, in order. */
  function Others(c: Codec, vals: map<string, string>, lines: seq<string>): seq<string> {
    if lines == [] then []
    else
      var n := |lines| - 1;
      Others(c, vals, lines[..n]) + (if Targets(c, vals, lines[n]) then [] else [lines[n]])
  }

  lemma {:induction false} OthersConcat(c: Codec, vals: map<string, string>, a: seq<string>, b: seq<string>)
    ensures Others(c, vals, a + b) == Others(c, vals, a) + Others(c, vals, b)
  {
    if b == [] {
      assert a + b == a;
    } else {
      var n := |b| - 1;
      OthersConcat(c, vals, a, b[..n]);
      assert (a + b)[..|a + b| - 1] == a + b[..n];
    }
  }

  lemma {:induction false} OthersRewritten(c: Codec, vals: map<string, string>, lines: seq<string>)
    requires Faithful(c, vals)
    ensures Others(c, vals, Rewritten(c, vals, lines)) == Others(c, vals, lines)
  {
    if lines != [] {
      OthersRewritten(c, vals, lines[..|lines| - 1]);
      RewriteKeepsKey(c, vals, lines[|lines| - 1], "");
    }
  }

  lemma {:induction false} NoOthers(c: Codec, vals: map<string, string>, lines: seq<string>)
    requires forall line :: line in lines ==> Targets(c, vals, line)
    ensures Others(c, vals, lines) == []
  {
    if lines != [] {
      NoOthers(c, vals, lines[..|lines| - 1]);
      assert lines[|lines| - 1] in lines;
    }
  }

  /** Comments, blank lines and the lines of other keys keep their content and their order. */
  lemma UpsertKeepsOthers(c: Codec, vals: map<string, string>, order: seq<string>, lines: seq<string>)
    requires Faithful(c, vals) && Ordered(order, vals)
    ensures Others(c, vals, Upsert(c, vals, order, lines)) == Others(c, vals, lines)
  {
    OthersConcat(c, vals, Rewritten(c, vals, lines), Appended(c, vals, lines, order));
    OthersRewritten(c, vals, lines);
    var added := Appended(c, vals, lines, order);
    forall line | line in added ensures Targets(c, vals, line) {
      AppendedHas(c, vals, lines, order, line);
    }
    NoOthers(c, vals, added);
  }

  lemma {:induction false} RewrittenFixed(c: Codec, vals: map<string, string>, lines: seq<string>)
    requires forall i :: 0 <= i < |lines| ==> Rewrite(c, vals, lines[i]) == lines[i]
    ensures Rewritten(c, vals, lines) == lines
  {
    if lines != [] {
      var n := |lines| - 1;
      RewrittenFixed(c, vals, lines[..n]);
      assert lines == lines[..n] + [lines[n]];
    }
  }

  lemma {:induction false} NothingToAppend(c: Codec, vals: map<string, string>, lines: seq<string>, order: seq<string>)
    requires forall k :: k in order ==> k in vals && HasKey(c, lines, k)
    ensures Appended(c, vals, lines, order) == []
  {
    if order != [] {
      NothingToAppend(c, vals, lines, order[..|order| - 1]);
    }
  }

  /** Every line for an updated key has the new value already, and every key has one. */
  predicate UpToDate(c: Codec, vals: map<string, string>, order: seq<string>, lines: seq<string>) {
    && (forall i :: 0 <= i < |lines| ==> Rewrite(c, vals, lines[i]) == lines[i])
    && forall k :: k in order ==> HasKey(c, lines, k)
  }

  lemma UpToDateStays(c: Codec, vals: map<string, string>, order: seq<string>, lines: seq<string>)
    requires Ordered(order, vals) && UpToDate(c, vals, order, lines)
    ensures Upsert(c, vals, order, lines) == lines
  {
    RewrittenFixed(c, vals, lines);
    NothingToAppend(c, vals, lines, order);
    assert lines + [] == lines;
  }

  lemma UpsertIsUpToDate(c: Codec, vals: map<string, string>, order: seq<string>, lines: seq<string>)
    requires Faithful(c, vals) && Ordered(order, vals)
    ensures UpToDate(c, vals, order, Upsert(c, vals, order, lines))
  {
    var out := Upsert(c, vals, order, lines);
    var added := Appended(c, vals, lines, order);
    RewrittenAt(c, vals, lines);
    forall i | 0 <= i < |out| ensures Rewrite(c, vals, out[i]) == out[i] {
      if i < |lines| {
        RewriteKeepsKey(c, vals, lines[i], "");
      } else {
        assert out[i] in added;
        AppendedHas(c, vals, lines, order, out[i]);
        var k :| k in order && out[i] == NewLine(k, vals[k]);
      }
    }
    forall k | k in order ensures HasKey(c, out, k) {
      UpsertCarries(c, vals, order, lines, k);
      var i :| 0 <= i < |out| && IsFor(c, out[i], k);
    }
  }

  /** A second upsert of the same values changes nothing. */
  lemma UpsertIsIdempotent(c: Codec, vals: map<string, string>, order: seq<string>, lines: seq<string>)
    requires Faithful(c, vals) && Ordered(order, vals)
    ensures var out := Upsert(c, vals, order, lines); Upsert(c, vals, order, out) == out
  {
    UpsertIsUpToDate(c, vals, order, lines);
    UpToDateStays(c, vals, order, Upsert(c, vals, order, lines));
  }

  // ----- quotes

  /** Double quotes come off outside and single ones inside of them, any number of each. */
  lemma UnquoteTakesOff(d1: string, s1: string, w: string, s2: string, d2: string)
    requires Blank(IsDoubleQuote, d1) && Blank(IsSingleQuote, s1) && Blank(IsSingleQuote, s2) && Blank(IsDoubleQuote, d2)
    requires w != "" && w[0] !in "\"\'" && w[|w| - 1] !in "\"\'"
    ensures Unquote(d1 + (s1 + w + s2) + d2) == w
  {
    var inner := s1 + w + s2;
    assert inner[0] == (if s1 == "" then w[0] else s1[0]);
    assert inner[|inner| - 1] == (if s2 == "" then w[|w| - 1] else s2[|s2| - 1]);
    StripPad(IsDoubleQuote, d1, inner, d2);
    StripNoop(inner, IsDoubleQuote);
    StripPad(IsSingleQuote, s1, w, s2);
    StripNoop(w, IsSingleQuote);
  }

  /** Inside of single quotes, double quotes stay. */
  lemma UnquoteKeepsInner(s1: string, inner: string, s2: string)
    requires Blank(IsSingleQuote, s1) && Blank(IsSingleQuote, s2) && s1 != "" && s2 != ""
    requires inner != "" && inner[0] != '\'' && inner[|inner| - 1] != '\''
    ensures Unquote(s1 + inner + s2) == inner
  {
    StripNoop(s1 + inner + s2, IsDoubleQuote);
    StripPad(IsSingleQuote, s1, inner, s2);
    StripNoop(inner, IsSingleQuote);
  }
}
