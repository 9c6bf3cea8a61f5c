/** The launcher's env file. */
module EnvLauncher {
  import opened Text
  import opened EnvFile
  import opened EnvFileProofs
  import opened EnvText

  function LauncherText(out: seq<string>): string {
    Join(Padded(out), "\n")
  }

  function Launched(file: string, vals: map<string, string>, order: seq<string>): string
    requires Ordered(order, vals)
  {
    LauncherText(Upsert(PyCodec(), vals, order, SplitLines(file)))
  }

  method UpsertEnvValues(file: string, vals: map<string, string>, order: seq<string>) returns (text: string)
    requires Ordered(order, vals)
    ensures text == Launched(file, vals, order)
  {
    var out := UpsertLines(PyCodec(), vals, order, SplitLines(file));
    if out != [] && out[|out| - 1] != "" {
      out := out + [""];
    }
    text := Join(out, "\n");
  }

  /** Only a blank last line can be lost in the launcher's file, so every key reads and loads as in the lines written. */
  lemma LauncherTextReads(out: seq<string>, key: string, env: map<string, string>)
    requires forall i :: 0 <= i < |out| ==> OneLine(out[i])
    ensures var lines := SplitLines(LauncherText(out));
            && LastOf(PyCodec(), lines, key) == LastOf(PyCodec(), out, key)
            && Loaded(PyCodec(), lines, env, key) == Loaded(PyCodec(), out, env, key)
  {
    LauncherLines(out);
    assert PyCodec().read("") == NoEntry;
    if EndsBlank(out) {
      WithoutBlank(PyCodec(), out, key, env);
    }
  }

  lemma WithoutBlank(c: Codec, out: seq<string>, key: string, env: map<string, string>)
    requires EndsBlank(out) && c.read("") == NoEntry
    ensures LastOf(c, out[..|out| - 1], key) == LastOf(c, out, key)
    ensures Loaded(c, out[..|out| - 1], env, key) == Loaded(c, out, env, key)
  {
    var n := |out| - 1;
    var m := Stop(c, out[..n], env);
    assert !Raises(c, out, n, env);
    assert out[..n + 1] == out && out[..n][..n] == out[..n];
    assert m < n ==> out[..n][..m] == out[..m];
  }

  // ----- the launcher's file written again

  /** The lines that the launcher's text splits into: those written, but for one blank line at the end. */
  lemma LauncherLines(out: seq<string>)
    requires forall i :: 0 <= i < |out| ==> OneLine(out[i])
    ensures SplitLines(LauncherText(out)) == if EndsBlank(out) then out[..|out| - 1] else out
  {
    var n := |out| - 1;
    if out != [] && out[n] != "" {
      JoinTerminated(out);
      SplitTerminated(out);
    } else if |out| > 1 {
      assert out == out[..n] + [""];
      JoinTerminated(out[..n]);
      SplitTerminated(out[..n]);
    }
  }

  /** The lines of the launcher's file are still up to date without the blank line that was lost. */
  lemma StillUpToDate(c: Codec, vals: map<string, string>, order: seq<string>, lines: seq<string>)
    requires UpToDate(c, vals, order, lines) && EndsBlank(lines) && c.keyOf("") == Absent
    ensures UpToDate(c, vals, order, lines[..|lines| - 1])
  {
    var n := |lines| - 1;
    forall k | k in order ensures HasKey(c, lines[..n], k) {
      assert HasKey(c, lines, k);
      var i :| 0 <= i < |lines| && c.keyOf(lines[i]) == Present(k);
      assert c.keyOf(lines[..n][i]) == Present(k);
    }
  }

  lemma LaunchedLines(file: string, vals: map<string, string>, order: seq<string>) returns (out: seq<string>)
    requires Writable(vals) && Ordered(order, vals)
    ensures out == Upsert(PyCodec(), vals, order, SplitLines(file))
    ensures forall i :: 0 <= i < |out| ==> OneLine(out[i])
    ensures var lines := SplitLines(Launched(file, vals, order));
            && lines == (if EndsBlank(out) then out[..|out| - 1] else out)
            && Upsert(PyCodec(), vals, order, lines) == lines
  {
    var c := PyCodec();
    out := Upsert(c, vals, order, SplitLines(file));
    CodecIsFaithful(IsSpacePy, vals);
    UpsertIsOneLine(vals, order, SplitLines(file));
    LauncherLines(out);
    UpsertIsUpToDate(c, vals, order, SplitLines(file));
    assert c.keyOf("") == Absent;
    if EndsBlank(out) {
      StillUpToDate(c, vals, order, out);
      UpToDateStays(c, vals, order, out[..|out| - 1]);
    } else {
      UpToDateStays(c, vals, order, out);
    }
  }

  /** The launcher's file keeps the lines of other keys, comments and blanks, but for one blank line at the end. */
  lemma LauncherKeepsOthers(file: string, vals: map<string, string>, order: seq<string>)
    requires Writable(vals) && Ordered(order, vals)
    ensures var c, before := PyCodec(), SplitLines(file);
            var lost := if EndsBlank(Upsert(c, vals, order, before)) then [""] else [];
            Others(c, vals, SplitLines(Launched(file, vals, order))) + lost == Others(c, vals, before)
  {
    var out := LaunchedLines(file, vals, order);
    CodecIsFaithful(IsSpacePy, vals);
    BlankHasNoKey();
    LostBlank(PyCodec(), vals, order, SplitLines(file), out);
  }

  lemma BlankHasNoKey()
    ensures PyCodec().keyOf("") == Absent
  {
  }

  lemma LostBlank(c: Codec, vals: map<string, string>, order: seq<string>, before: seq<string>, out: seq<string>)
    requires Faithful(c, vals) && Ordered(order, vals) && c.keyOf("") == Absent && out == Upsert(c, vals, order, before)
    ensures Others(c, vals, if EndsBlank(out) then out[..|out| - 1] else out) + (if EndsBlank(out) then [""] else [])
         == Others(c, vals, before)
  {
    UpsertKeepsOthers(c, vals, order, before);
    if EndsBlank(out) {
      OthersWithoutBlank(c, vals, out);
    } else {
      assert Others(c, vals, out) + [] == Others(c, vals, out);
    }
  }

  lemma OthersWithoutBlank(c: Codec, vals: map<string, string>, out: seq<string>)
    requires EndsBlank(out) && c.keyOf("") == Absent
    ensures Others(c, vals, out[..|out| - 1]) + [""] == Others(c, vals, out)
  {
  }

  /**
   Launching twice writes the same file as launching once exactly when the upserted lines do not end in two blank
   lines: each launch loses one of them.
   */
  lemma LauncherTwiceExactlyWhen(file: string, vals: map<string, string>, order: seq<string>)
    requires Writable(vals) && Ordered(order, vals)
    ensures var out := Upsert(PyCodec(), vals, order, SplitLines(file));
            Launched(Launched(file, vals, order), vals, order) == Launched(file, vals, order) <==>
            !(EndsBlank(out) && EndsBlank(out[..|out| - 1]))
  {
    var out := LaunchedLines(file, vals, order);
    if EndsBlank(out) {
      var kept := out[..|out| - 1];
      assert out == kept + [""];
      TextWithBlank(kept);
    }
  }

  /** The text of lines with a blank line after them is the text of the lines, or one line feed longer. */
  lemma TextWithBlank(kept: seq<string>)
    ensures LauncherText(kept + [""]) == LauncherText(kept) + (if EndsBlank(kept) then "\n" else "")
  {
    if kept != [] {
      JoinTerminated(kept);
    }
  }

  /** A new line and blank lines after it. */
  predicate LineAndBlanks(lines: seq<string>, line: string) {
    lines != [] && lines[0] == line && forall i :: 0 < i < |lines| ==> lines[i] == ""
  }

  lemma LineAndBlanksUpToDate(c: Codec, key: string, value: string, lines: seq<string>)
    requires LineAndBlanks(lines, NewLine(key, value)) && c.keyOf("") == Absent
    requires c.keyOf(NewLine(key, value)) == Present(key)
    ensures UpToDate(c, map[key := value], [key], lines)
  {
  }

  lemma PyKeys(key: string, value: string)
    requires WellFormed(IsSpacePy, key)
    ensures PyCodec().keyOf("") == Absent && PyCodec().keyOf(NewLine(key, value)) == Present(key)
  {
    NewLineParses(IsSpacePy, key, value);
  }

  lemma LaunchUpToDate(c: Codec, file: string, lines: seq<string>, vals: map<string, string>, order: seq<string>)
    requires c == PyCodec() && Ordered(order, vals) && SplitLines(file) == lines && UpToDate(c, vals, order, lines)
    ensures Launched(file, vals, order) == LauncherText(lines)
  {
    UpToDateStays(c, vals, order, lines);
  }

  lemma LaunchBlanks(file: string, lines: seq<string>, key: string, value: string)
    requires WellFormed(IsSpacePy, key) && OneLine(key) && OneLine(value)
    requires file == Terminated(lines) && LineAndBlanks(lines, NewLine(key, value))
    ensures Launched(file, map[key := value], [key]) == LauncherText(lines)
  {
    var c := PyCodec();
    PyKeys(key, value);
    SplitTerminated(lines);
    LineAndBlanksUpToDate(c, key, value, lines);
    LaunchUpToDate(c, file, lines, map[key := value], [key]);
  }

  lemma BlankTexts(line: string)
    ensures Terminated([line, "", ""]) == line + "\n\n\n" && Terminated([line, ""]) == line + "\n\n"
    ensures Join([line, "", ""], "\n") == line + "\n\n" && Join([line, ""], "\n") == line + "\n"
  {
    assert [line, "", ""][1..] == ["", ""] && ["", ""][1..] == [""] && [line, ""][1..] == [""] && [""][1..] == [];
    assert Terminated([]) == "" && Terminated([""]) == "\n" && Terminated(["", ""]) == "\n\n";
    assert Join([""], "\n") == "" && Join(["", ""], "\n") == "\n";
  }

  /** Two blank lines at the end of an up-to-date file: the first launch drops one, the second the other. */
  lemma BlankLinesWearAway(key: string, value: string, file: string)
    requires WellFormed(IsSpacePy, key) && OneLine(key) && OneLine(value) && file == NewLine(key, value) + "\n\n\n"
    ensures var vals, order := map[key := value], [key];
            && Launched(file, vals, order) == NewLine(key, value) + "\n\n"
            && Launched(Launched(file, vals, order), vals, order) == NewLine(key, value) + "\n"
  {
    var line := NewLine(key, value);
    BlankTexts(line);
    LaunchBlanks(file, [line, "", ""], key, value);
    LaunchBlanks(line + "\n\n", [line, ""], key, value);
  }
}
