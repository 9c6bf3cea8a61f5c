/** A connector's settings file written and read back, and what a restart makes of it. */
module EnvRoundTrip {
  import opened Text
  import opened EnvFile
  import opened EnvFileProofs
  import opened EnvText

  // ----- written lines that hold line breaks

  /** A text that ends in a line feed splits apart from what follows it. */
  lemma {:induction false} SplitConcat(s: string, t: string)
    requires s == "" || s[|s| - 1] == '\n'
    ensures SplitLines(s + t) == SplitLines(s) + SplitLines(t)
    decreases |s|
  {
    if s == "" {
      assert s + t == t;
    } else {
      var first, rest := FirstLineStays(s, t);
      SplitConcat(rest, t);
      Glue(SplitLines, s, t, first, rest);
    }
  }

  lemma Glue(split: string -> seq<string>, s: string, t: string, first: string, rest: string)
    requires split(s) == [first] + split(rest) && split(s + t) == [first] + split(rest + t)
    requires split(rest + t) == split(rest) + split(t)
    ensures split(s + t) == split(s) + split(t)
  {
  }

  lemma FirstLineStays(s: string, t: string) returns (first: string, rest: string)
    requires s != "" && s[|s| - 1] == '\n'
    ensures SplitLines(s) == [first] + SplitLines(rest) && SplitLines(s + t) == [first] + SplitLines(rest + t)
    ensures |rest| < |s| && (rest == "" || rest[|rest| - 1] == '\n')
  {
    FrontText(s, t);
    first, rest := s[..LineEnd(s)], AfterLine(s);
    HeadSplit(SplitLines, s, first, rest);
    HeadSplit(SplitLines, s + t, first, rest + t);
  }

  lemma HeadSplit(split: string -> seq<string>, s: string, first: string, rest: string)
    requires split == SplitLines && s != "" && first == s[..LineEnd(s)] && rest == AfterLine(s)
    ensures split(s) == [first] + split(rest)
  {
  }

  lemma FrontText(s: string, t: string)
    requires s != "" && s[|s| - 1] == '\n'
    ensures (s + t)[..LineEnd(s + t)] == s[..LineEnd(s)] && AfterLine(s + t) == AfterLine(s) + t
    ensures AfterLine(s) == "" || AfterLine(s)[|AfterLine(s)| - 1] == '\n'
  {
    EndInFront(s, t);
    var n := LineEnd(s);
    var m := n + BreakLength(s, n);
    assert BreakLength(s + t, n) == BreakLength(s, n);
    assert (s + t)[m..] == s[m..] + t;
  }

  lemma {:induction false} EndInFront(s: string, t: string)
    requires s != "" && s[|s| - 1] == '\n'
    ensures LineEnd(s) < |s| && LineEnd(s + t) == LineEnd(s)
  {
    if !IsBreak(s[0]) {
      EndInFront(s[1..], t);
      assert (s + t)[1..] == s[1..] + t;
    }
  }

  /** The lines that one written line becomes. */
  function Cut(line: string): seq<string> {
    SplitLines(line + "\n")
  }

  lemma CutOneLine(line: string)
    requires OneLine(line)
    ensures Cut(line) == [line]
  {
    SplitTerminated([line]);
    assert Terminated([line]) == line + "\n";
  }

  /** A written line with a break in it that is no carriage return becomes several. */
  lemma CutSeveral(line: string)
    requires !OneLine(line) && '\r' !in line
    ensures |Cut(line)| >= 2
  {
    var s := line + "\n";
    BreakInFront(line);
    assert s[LineEnd(s)] == line[LineEnd(s)];
    var rest := AfterLine(s);
    assert rest != "" && SplitLines(rest) != [];
  }

  lemma {:induction false} BreakInFront(line: string)
    requires !OneLine(line)
    ensures LineEnd(line + "\n") < |line|
  {
    if !IsBreak(line[0]) {
      BreakInFront(line[1..]);
      assert (line + "\n")[1..] == line[1..] + "\n";
    }
  }

  /** The first of these lines begins with the front of the written one. */
  lemma CutFront(a: string, v: string)
    requires OneLine(a)
    ensures Cut(v) != [] && Cut(a + v) == [a + Cut(v)[0]] + Cut(v)[1..]
  {
    var s := v + "\n";
    assert a + v + "\n" == a + s;
    FrontStays(a, s);
  }

  lemma {:induction false} FrontStays(a: string, s: string)
    requires OneLine(a) && s != ""
    ensures LineEnd(a + s) == |a| + LineEnd(s) && AfterLine(a + s) == AfterLine(s)
    ensures (a + s)[..LineEnd(a + s)] == a + s[..LineEnd(s)]
  {
    if a == "" {
      assert a + s == s;
    } else {
      FrontStays(a[1..], s);
      assert (a + s)[1..] == a[1..] + s;
      AfterTail(a + s);
    }
  }

  lemma AfterTail(s: string)
    requires s != "" && !IsBreak(s[0])
    ensures LineEnd(s) == LineEnd(s[1..]) + 1 && AfterLine(s) == AfterLine(s[1..])
  {
    var n := LineEnd(s[1..]);
    if n < |s| - 1 {
      assert BreakLength(s, n + 1) == BreakLength(s[1..], n);
    }
  }

  lemma TerminatedCuts(lines: seq<string>)
    requires lines != []
    ensures SplitLines(Terminated(lines)) == Cut(lines[0]) + SplitLines(Terminated(lines[1..]))
  {
    SplitConcat(lines[0] + "\n", Terminated(lines[1..]));
  }

  lemma {:induction false} CutHas(lines: seq<string>, line: string)
    ensures line in SplitLines(Terminated(lines)) <==> exists i :: 0 <= i < |lines| && line in Cut(lines[i])
  {
    if lines != [] {
      TerminatedCuts(lines);
      CutHas(lines[1..], line);
      if exists i :: 0 <= i < |lines| && line in Cut(lines[i]) {
        var i :| 0 <= i < |lines| && line in Cut(lines[i]);
        assert i > 0 ==> line in Cut(lines[1..][i - 1]);
      }
    }
  }

  /** How many lines the file has once these are written. */
  function LineCount(lines: seq<string>): nat {
    if lines == [] then 0 else |Cut(lines[0])| + LineCount(lines[1..])
  }

  lemma {:induction false} LineCountIs(lines: seq<string>)
    ensures |SplitLines(Terminated(lines))| == LineCount(lines)
  {
    if lines != [] {
      TerminatedCuts(lines);
      LineCountIs(lines[1..]);
    }
  }

  lemma CutLength(line: string)
    ensures |Cut(line)| >= 1
    ensures !OneLine(line) && '\r' !in line ==> |Cut(line)| >= 2
  {
    CutFront("", line);
    if !OneLine(line) && '\r' !in line {
      CutSeveral(line);
    }
  }

  /** Writing never loses lines, and a line with a break in it adds some. */
  lemma {:induction false} LineCountGrows(lines: seq<string>, i: nat)
    ensures LineCount(lines) >= |lines|
    ensures i < |lines| && !OneLine(lines[i]) && '\r' !in lines[i] ==> LineCount(lines) > |lines|
  {
    if lines != [] {
      CutLength(lines[0]);
      LineCountGrows(lines[1..], if i == 0 then 0 else i - 1);
    }
  }

  // ----- the lines of a persisted file

  /** A line of the upsert is an old line that no update is for, or the new line of an update. */
  predicate Kept(c: Codec, vals: map<string, string>, lines: seq<string>, line: string) {
    line in lines && !Targets(c, vals, line)
  }

  predicate IsNew(vals: map<string, string>, line: string) {
    exists k :: k in vals && line == NewLine(k, vals[k])
  }

  lemma OutLine(c: Codec, vals: map<string, string>, order: seq<string>, lines: seq<string>, i: nat)
    requires Ordered(order, vals) && i < |Upsert(c, vals, order, lines)|
    ensures var line := Upsert(c, vals, order, lines)[i]; Kept(c, vals, lines, line) || IsNew(vals, line)
  {
    RewrittenAt(c, vals, lines);
    var out, added := Upsert(c, vals, order, lines), Appended(c, vals, lines, order);
    if i < |lines| {
      assert out[i] == Rewrite(c, vals, lines[i]);
    } else {
      assert out[i] == added[i - |lines|];
      AppendedHas(c, vals, lines, order, out[i]);
    }
  }

  lemma PersistedText(file: string, d: Dict)
    requires Storable(d.vals) && Ordered(d.order, d.vals) && d.order != []
    ensures Persisted(file, d) == Terminated(Upsert(PyCodec(), d.vals, d.order, SplitLines(file)))
  {
    CodecIsFaithful(IsSpacePy, d.vals);
    UpsertNotEmpty(d.vals, d.order, SplitLines(file));
    JoinTerminated(Upsert(PyCodec(), d.vals, d.order, SplitLines(file)));
  }

  // ----- persisting

  /** What a persisted file says about one key under the last-wins reader. */
  ghost predicate Reads(d: Dict, before: seq<string>, after: seq<string>, key: string) {
    LastOf(PyCodec(), after, key)
    == if key in d.vals then Present(TrimPy(d.vals[key])) else LastOf(PyCodec(), before, key)
  }

  /**
   A persisted file, read back as text: an updated key has its new trimmed value, any other key reads as before, other
   lines stay, and persisting again changes nothing.
   */
  ghost predicate RoundTrips(file: string, d: Dict)
    requires Ordered(d.order, d.vals)
  {
    var before, after := SplitLines(file), SplitLines(Persisted(file, d));
    && (forall key :: Reads(d, before, after, key))
    && Others(PyCodec(), d.vals, after) == Others(PyCodec(), d.vals, before)
    && Persisted(Persisted(file, d), d) == Persisted(file, d)
  }

  lemma OneLineRoundTrip(file: string, d: Dict)
    requires Writable(d.vals) && Ordered(d.order, d.vals) && d.order != []
    ensures RoundTrips(file, d)
    ensures SplitLines(Persisted(file, d)) == Upsert(PyCodec(), d.vals, d.order, SplitLines(file))
  {
    var c, before := PyCodec(), SplitLines(file);
    var out := Upsert(c, d.vals, d.order, before);
    CodecIsFaithful(IsSpacePy, d.vals);
    UpsertIsOneLine(d.vals, d.order, before);
    PersistedText(file, d);
    SplitTerminated(out);
    forall key ensures Reads(d, before, out, key) {
      UpsertThenRead(c, d.vals, d.order, before, key, Absent);
    }
    UpsertKeepsOthers(c, d.vals, d.order, before);
    UpsertIsIdempotent(c, d.vals, d.order, before);
  }

  /** A value with a break in it makes the file longer each time it is persisted. */
  lemma BreaksPileUp(file: string, d: Dict, key: string)
    requires Storable(d.vals) && Ordered(d.order, d.vals) && key in d.vals && !OneLine(d.vals[key])
    ensures |SplitLines(Persisted(file, d))| > |SplitLines(file)|
  {
    var c, before := PyCodec(), SplitLines(file);
    var out := Upsert(c, d.vals, d.order, before);
    assert key in d.order;
    PersistedText(file, d);
    RewrittenAt(c, d.vals, before);
    var i := WrittenAt(d.vals, d.order, before, key);
    var line := out[i];
    assert line[|key| + 1..] == d.vals[key];
    assert !OneLine(line) && '\r' !in line;
    LineCountIs(out);
    LineCountGrows(out, i);
  }

  /** The upsert has the new line of every update. */
  lemma WrittenAt(vals: map<string, string>, order: seq<string>, lines: seq<string>, key: string) returns (i: nat)
    requires Storable(vals) && Ordered(order, vals) && key in vals
    ensures i < |Upsert(PyCodec(), vals, order, lines)|
    ensures Upsert(PyCodec(), vals, order, lines)[i] == NewLine(key, vals[key])
  {
    var c := PyCodec();
    var out := Upsert(c, vals, order, lines);
    CodecIsFaithful(IsSpacePy, vals);
    UpsertCarries(c, vals, order, lines, key);
    i :| 0 <= i < |out| && IsFor(c, out[i], key);
    OutLine(c, vals, order, lines, i);
    if IsNew(vals, out[i]) {
      var k :| k in vals && out[i] == NewLine(k, vals[k]);
      assert c.keyOf(out[i]) == Present(k);
    }
  }

  /**
   For keys that the file can hold: all this holds exactly when every value is a single line to str.splitlines, which
   cuts at more characters than the line feed and the carriage return that the store replaces.
   */
  lemma PersistThenRead(file: string, d: Dict)
    requires Storable(d.vals) && Ordered(d.order, d.vals) && d.order != []
    ensures RoundTrips(file, d) <==> OneLineValues(d.vals)
  {
    if OneLineValues(d.vals) {
      OneLineRoundTrip(file, d);
    } else {
      var key :| key in d.vals && !OneLine(d.vals[key]);
      BreaksPileUp(Persisted(file, d), d, key);
    }
  }
}
