/** Settings for which the env file, the running process and a restarted one part. */
module EnvExamples {
  import opened Text
  import opened EnvFile
  import opened EnvFileProofs
  import opened EnvText
  import opened EnvRoundTrip
  import opened EnvRestart

  const VERTICAL_TAB := "\U{0B}"

  /** A vertical tab inside a value is neither replaced nor stripped, but it ends a line. */
  lemma VerticalTabIsABreak(value: string)
    requires value == "a" + VERTICAL_TAB + "b"
    ensures Flat(value) == value && value == Unquote(TrimPy(value)) && !OneLine(value)
  {
    assert |value| == 3 && value[0] == 'a' && value[1] as int == 11 && value[2] == 'b';
    StripNoop(value, IsSpacePy);
    StripNoop(value, IsDoubleQuote);
    StripNoop(value, IsSingleQuote);
  }

  lemma PersistOne(key: string, value: string)
    ensures Ordered([key], map[key := value])
    ensures Persisted("", Dict([key], map[key := value])) == NewLine(key, value) + "\n"
  {
    var c, vals, order := PyCodec(), map[key := value], [key];
    assert order[..0] == [] && !HasKey(c, [], key);
    assert Appended(c, vals, [], order) == [NewLine(key, value)];
    assert Rewritten(c, vals, []) == [];
  }

  /** Persisting such a value into an empty file: a restart reads what is in front of the tab. */
  lemma VerticalTabIsCut(d: Dict, key: string, a: string, b: string, initial: map<string, string>)
    requires d == Dict([key], map[key := a + VERTICAL_TAB + b]) && WellFormed(IsSpacePy, key) && OneLine(key)
    requires OneLine(a) && OneLine(b) && '=' !in b && !Refuses(key, a) && Lookup(initial, key) == Absent
    ensures var after := SplitLines(Persisted("", d));
            after == [NewLine(key, a), b] && Loaded(PyCodec(), after, initial, key) == Present(Unquote(TrimPy(a)))
  {
    PersistOne(key, a + VERTICAL_TAB + b);
    CutNewLine(key, a, b);
    NewLineParses(IsSpacePy, key, a);
    NoEntryWithoutEq(b);
    RefusedAsWritten(key, a);
    ReadsFirst(PyCodec(), NewLine(key, a), b, key, TrimPy(a), initial);
  }

  lemma CutNewLine(key: string, a: string, b: string)
    requires OneLine(key) && OneLine(a) && OneLine(b)
    ensures Cut(NewLine(key, a + VERTICAL_TAB + b)) == [NewLine(key, a), b]
  {
    var v := a + VERTICAL_TAB + b;
    CutAtTab(a, b);
    assert v == a + (VERTICAL_TAB + b);
    CutFront(key + "=", v);
  }

  lemma ReadsFirst(c: Codec, first: string, second: string, key: string, value: string, initial: map<string, string>)
    requires key != "" && c.read(first) == Entry(key, value) && c.read(second) == NoEntry
    requires !Refuses(key, c.unquote(value)) && Lookup(initial, key) == Absent
    ensures Loaded(c, [first, second], initial, key) == Present(c.unquote(value))
  {
    var both := [first, second];
    CleanLoad(c, both, initial);
    assert both[..2] == both;
    assert both[..1] == [first] && [first][..0] == [];
    assert EnvAfter(c, [first], key, Absent) == Present(c.unquote(value));
  }

  lemma CutAtTab(a: string, b: string)
    requires OneLine(a) && OneLine(b)
    ensures Cut(a + (VERTICAL_TAB + b)) == [a, b]
  {
    var s := VERTICAL_TAB + b + "\n";
    assert s[0] as int == 11 && LineEnd(s) == 0 && AfterLine(s) == b + "\n";
    CutOneLine(b);
    assert Cut(VERTICAL_TAB + b) == [""] + Cut(b);
    CutFront(a, VERTICAL_TAB + b);
    assert a + "" == a;
  }

  lemma NoEntryWithoutEq(line: string)
    requires '=' !in line
    ensures PyCodec().read(line) == NoEntry
  {
    var a, b := StripSits(IsSpacePy, line);
    EqSurvives(IsSpacePy, line, a, Strip(line, IsSpacePy), b);
  }

  lemma QuotesComeOff(value: string)
    requires value == "\"x\""
    ensures Unquote(TrimPy(value)) == "x" && OneLine(value) && '\0' !in value
  {
    assert |value| == 3 && value[1] == 'x';
    StripNoop(value, IsSpacePy);
    assert Strip(value, IsDoubleQuote) == "x";
    StripNoop("x", IsSingleQuote);
  }

  lemma OneUpdateLoads(file: string, d: Dict, key: string, value: string, initial: map<string, string>)
    requires d == Dict([key], map[key := value]) && WellFormed(IsSpacePy, key) && OneLine(key) && OneLine(value)
    requires !Refuses(key, value) && Clean(PyCodec(), SplitLines(file)) && Lookup(initial, key) == Absent
    ensures Loaded(PyCodec(), SplitLines(Persisted(file, d)), initial, key) == Present(Unquote(TrimPy(value)))
  {
    CleanFileLoads(file, d, initial, key);
  }

  /** A quoted value, persisted into any file without a NUL, comes back without its quotes. */
  lemma QuotesAreLost(file: string, d: Dict, key: string, value: string, initial: map<string, string>)
    requires value == "\"x\"" && d == Dict([key], map[key := value])
    requires WellFormed(IsSpacePy, key) && OneLine(key) && '\0' !in key
    requires Clean(PyCodec(), SplitLines(file)) && Lookup(initial, key) == Absent
    ensures Loaded(PyCodec(), SplitLines(Persisted(file, d)), initial, key) == Present("x")
  {
    QuotesComeOff(value);
    OneUpdateLoads(file, d, key, value, initial);
  }

  /**
   A NUL in the first of two updates: the file has both, but the environment refuses the first and the call ends before
   the second; after a restart the load ends at the first, so neither variable is set, although the second is fine.
   */
  lemma NulStopsBoth(d: Dict, first: string, key: string, value: string, env: map<string, string>)
    requires first != key && d == Dict([first, key], map[first := "a\0b", key := value])
    requires WellFormed(IsSpacePy, first) && OneLine(first) && WellFormed(IsSpacePy, key) && OneLine(key) && OneLine(value)
    requires Lookup(env, first) == Absent && Lookup(env, key) == Absent
    ensures var after := SplitLines(Persisted("", d));
            && after == [NewLine(first, "a\0b"), NewLine(key, value)]
            && Export(env, d.vals, d.order) == Exported(env, true)
            && Loaded(PyCodec(), after, env, first) == Loaded(PyCodec(), after, env, key) == Absent
  {
    var nul := "a\0b";
    assert nul[1] == '\0' && |nul| == 3;
    PersistTwo(d, first, key);
    OneLineTogether(first, nul);
    OneLineTogether(key, value);
    SplitTerminated([NewLine(first, nul), NewLine(key, value)]);
    assert d.order[..1] == [first] && [first][..0] == [] && Refuses(first, nul);
    assert Export(env, d.vals, [first]) == Exported(env, true);
    NewLineParses(IsSpacePy, first, nul);
    RefusedAsWritten(first, nul);
    StopsAtOnce(PyCodec(), [NewLine(first, nul), NewLine(key, value)], env);
  }

  /** A load whose first line raises reads nothing. */
  lemma StopsAtOnce(c: Codec, lines: seq<string>, env: map<string, string>)
    requires lines != [] && c.read(lines[0]).Entry? && c.read(lines[0]).key != ""
    requires Refuses(c.read(lines[0]).key, c.unquote(c.read(lines[0]).value)) && Unset(Lookup(env, c.read(lines[0]).key))
    ensures forall key :: Loaded(c, lines, env, key) == Lookup(env, key)
  {
    StopIsFirst(c, lines, env);
    assert Raises(c, lines, 0, env);
    assert Stop(c, lines, env) == 0;
  }

  /** What another update smuggles in comes first: a restart reads it instead of the key's own value. */
  lemma SmuggledLineWins(d: Dict, first: string, key: string, a: string, z: string, value: string,
                         initial: map<string, string>)
    requires first != key && WellFormed(IsSpacePy, first) && OneLine(first) && WellFormed(IsSpacePy, key) && OneLine(key)
    requires OneLine(a) && OneLine(z) && OneLine(value) && Unquote(TrimPy(z)) != ""
    requires d == Dict([first, key], map[first := a + VERTICAL_TAB + NewLine(key, z), key := value])
    requires !Refuses(first, a) && !Refuses(key, z) && Lookup(initial, key) == Absent
    ensures Loaded(PyCodec(), SplitLines(Persisted("", d)), initial, key) == Present(Unquote(TrimPy(z)))
  {
    PersistTwo(d, first, key);
    SmuggledLines(first, key, a, z, value);
    ReadsSmuggled(PyCodec(), first, key, a, z, value, initial);
  }

  lemma SmuggledLines(first: string, key: string, a: string, z: string, value: string)
    requires OneLine(first) && OneLine(key) && OneLine(a) && OneLine(z) && OneLine(value)
    ensures SplitLines(Terminated([NewLine(first, a + VERTICAL_TAB + NewLine(key, z)), NewLine(key, value)]))
         == [NewLine(first, a), NewLine(key, z), NewLine(key, value)]
  {
    OneLineTogether(key, value);
    OneLineTogether(key, z);
    CutPair(NewLine(first, a + VERTICAL_TAB + NewLine(key, z)), NewLine(key, value));
    CutNewLine(first, a, NewLine(key, z));
  }

  lemma OneLineTogether(key: string, value: string)
    requires OneLine(key) && OneLine(value)
    ensures OneLine(NewLine(key, value))
  {
  }

  lemma CutPair(one: string, two: string)
    requires OneLine(two)
    ensures SplitLines(Terminated([one, two])) == Cut(one) + [two]
  {
    TerminatedCuts([one, two]);
    assert [one, two][1..] == [two];
    SplitTerminated([two]);
  }

  lemma WrittenEntry(c: Codec, key: string, value: string)
    requires c == PyCodec() && WellFormed(IsSpacePy, key)
    ensures c.read(NewLine(key, value)) == Entry(key, TrimPy(value))
    ensures Refuses(key, c.unquote(TrimPy(value))) <==> Refuses(key, value)
  {
    NewLineParses(IsSpacePy, key, value);
    RefusedAsWritten(key, value);
  }

  lemma ReadsSmuggled(c: Codec, first: string, key: string, a: string, z: string, value: string,
                      initial: map<string, string>)
    requires c == PyCodec() && first != key && WellFormed(IsSpacePy, first) && WellFormed(IsSpacePy, key)
    requires c.unquote(TrimPy(z)) != "" && !Refuses(first, a) && !Refuses(key, z) && Lookup(initial, key) == Absent
    ensures Loaded(c, [NewLine(first, a), NewLine(key, z), NewLine(key, value)], initial, key)
         == Present(c.unquote(TrimPy(z)))
  {
    WrittenEntry(c, first, a);
    WrittenEntry(c, key, z);
    WrittenEntry(c, key, value);
    ReadsSecond(c, [NewLine(first, a), NewLine(key, z), NewLine(key, value)], key, TrimPy(z), initial);
  }

  lemma PersistTwo(d: Dict, first: string, key: string)
    requires d.order == [first, key] && d.vals.Keys == {first, key}
    ensures Persisted("", d) == Terminated([NewLine(first, d.vals[first]), NewLine(key, d.vals[key])])
  {
    var c, order := PyCodec(), d.order;
    assert order[..1] == [first] && [first][..0] == [] && !HasKey(c, [], first) && !HasKey(c, [], key);
    assert Appended(c, d.vals, [], [first]) == [NewLine(first, d.vals[first])];
    assert Appended(c, d.vals, [], order) == [NewLine(first, d.vals[first]), NewLine(key, d.vals[key])];
    assert Rewritten(c, d.vals, []) == [];
    assert Upsert(c, d.vals, order, []) == [NewLine(first, d.vals[first]), NewLine(key, d.vals[key])];
    JoinTerminated([NewLine(first, d.vals[first]), NewLine(key, d.vals[key])]);
  }

  lemma ReadsSecond(c: Codec, lines: seq<string>, key: string, value: string, initial: map<string, string>)
    requires |lines| == 3 && key != "" && !IsFor(c, lines[0], key) && c.read(lines[1]) == Entry(key, value)
    requires IsFor(c, lines[2], key) && c.unquote(value) != "" && Lookup(initial, key) == Absent
    requires c.read(lines[0]).Entry? ==> !Refuses(c.read(lines[0]).key, c.unquote(c.read(lines[0]).value))
    requires !Refuses(key, c.unquote(value))
    ensures Loaded(c, lines, initial, key) == Present(c.unquote(value))
  {
    assert lines[..2][..1] == lines[..1] && lines[..1][..0] == [] && lines[..3] == lines;
    assert EnvAfter(c, lines[..1], key, Absent) == Absent;
    assert EnvAfter(c, lines[..2], key, Absent) == Present(c.unquote(value));
    StopIsFirst(c, lines, initial);
    assert !Raises(c, lines, 0, initial) && !Raises(c, lines, 1, initial) && !Raises(c, lines, 2, initial);
  }
}
