/** The desktop application's env file, as text. */
module EnvDesktop {
  import opened Text
  import opened EnvFile
  import opened EnvFileProofs

  function JsCodec(): Codec {
    CodecOf(IsSpaceJs)
  }

  predicate EndsCr(line: string) {
    line != "" && line[|line| - 1] == '\r'
  }

  function DropCr(line: string): string {
    if EndsCr(line) then line[..|line| - 1] else line
  }

  function DropCrs(lines: seq<string>): seq<string> {
    if lines == [] then [] else DropCrs(lines[..|lines| - 1]) + [DropCr(lines[|lines| - 1])]
  }

  /** text.split(/\r?\n/): the text after the last line feed keeps its carriage return. */
  function JsLines(text: string): seq<string> {
    var pieces := Split(text, '\n');
    DropCrs(pieces[..|pieces| - 1]) + [pieces[|pieces| - 1]]
  }

  /** The lines of the file, or none when it does not exist. */
  function FileLines(file: Found): seq<string> {
    match file
    case Absent => []
    case Present(text) => JsLines(text)
  }

  function Upserted(file: Found, vals: map<string, string>, order: seq<string>): string
    requires Ordered(order, vals)
  {
    Join(Padded(Upsert(JsCodec(), vals, order, FileLines(file))), ['\n'])
  }

  method UpsertEnvValues(file: Found, vals: map<string, string>, order: seq<string>) returns (text: string)
    requires Ordered(order, vals)
    ensures text == Upserted(file, vals, order)
  {
    var out := UpsertLines(JsCodec(), vals, order, FileLines(file));
    if out != [] && out[|out| - 1] != "" {
      out := out + [""];
    }
    text := Join(out, ['\n']);
  }

  /** readEnvValues */
  method ReadEnvFile(file: Found) returns (values: map<string, string>)
    ensures forall k :: Lookup(values, k) == if k == PROTO then Absent else LastOf(JsCodec(), FileLines(file), k)
  {
    values := ReadEnvValues(JsCodec(), FileLines(file));
  }

  /** Keys that the file's syntax can hold, and values without a line feed. */
  ghost predicate FeedFree(vals: map<string, string>) {
    forall k :: k in vals ==> WellFormed(IsSpaceJs, k) && '\n' !in k && '\n' !in vals[k]
  }

  // ----- lines without line feeds

  predicate NoFeed(lines: seq<string>) {
    forall i :: 0 <= i < |lines| ==> '\n' !in lines[i]
  }

  lemma {:induction false} DropCrsAt(lines: seq<string>)
    ensures |DropCrs(lines)| == |lines| && forall i :: 0 <= i < |lines| ==> DropCrs(lines)[i] == DropCr(lines[i])
  {
    if lines != [] {
      DropCrsAt(lines[..|lines| - 1]);
    }
  }

  lemma FileHasNoFeed(file: Found)
    ensures NoFeed(FileLines(file))
  {
    if file.Present? {
      var pieces := Split(file.value, '\n');
      DropCrsAt(pieces[..|pieces| - 1]);
    }
  }

  lemma UpsertHasNoFeed(vals: map<string, string>, order: seq<string>, lines: seq<string>)
    requires FeedFree(vals) && Ordered(order, vals) && NoFeed(lines)
    ensures NoFeed(Upsert(JsCodec(), vals, order, lines))
  {
    var c := JsCodec();
    var out, added := Upsert(c, vals, order, lines), Appended(c, vals, lines, order);
    RewrittenAt(c, vals, lines);
    forall i | 0 <= i < |out| ensures '\n' !in out[i] {
      if i < |lines| {
        assert out[i] == Rewrite(c, vals, lines[i]);
      } else {
        assert out[i] == added[i - |lines|];
        AppendedHas(c, vals, lines, order, out[i]);
      }
    }
  }

  /** What is written splits into the padded lines, each without one carriage return at its end. */
  lemma TextLines(out: seq<string>)
    requires NoFeed(out) && out != []
    ensures JsLines(Join(Padded(out), ['\n'])) == DropCrs(Padded(out))
  {
    SplitJoin(Padded(out), '\n');
  }

  // ----- a carriage return at the end of a line does not matter to writers and readers

  lemma CrIsBlank(line: string)
    ensures Strip(DropCr(line), IsSpaceJs) == Strip(line, IsSpaceJs)
  {
    if EndsCr(line) {
      TailIsBlank(IsSpaceJs, line);
    }
  }

  lemma TailIsBlank(space: char -> bool, line: string)
    requires line != "" && space(line[|line| - 1])
    ensures Strip(line[..|line| - 1], space) == Strip(line, space)
  {
    StripBefore(space, line[..|line| - 1], line[|line| - 1..]);
    assert line[..|line| - 1] + line[|line| - 1..] == line;
  }

  lemma SameRead(line: string)
    ensures JsCodec().read(DropCr(line)) == JsCodec().read(line)
  {
    CrIsBlank(line);
  }

  lemma SameKey(line: string)
    ensures JsCodec().keyOf(DropCr(line)) == JsCodec().keyOf(line)
  {
    SameRead(line);
    ReadersSeeWritersKey(IsSpaceJs, line);
    ReadersSeeWritersKey(IsSpaceJs, DropCr(line));
  }

  /** The codec treats a line and the line without its carriage return alike. */
  ghost predicate CrBlind(c: Codec) {
    forall line :: c.read(DropCr(line)) == c.read(line) && c.keyOf(DropCr(line)) == c.keyOf(line)
  }

  lemma JsIsCrBlind()
    ensures CrBlind(JsCodec())
  {
    forall line ensures JsCodec().read(DropCr(line)) == JsCodec().read(line)
                        && JsCodec().keyOf(DropCr(line)) == JsCodec().keyOf(line) {
      SameRead(line);
      SameKey(line);
    }
  }

  lemma {:induction false} DroppedReads(c: Codec, lines: seq<string>, key: string)
    requires CrBlind(c)
    ensures LastOf(c, DropCrs(lines), key) == LastOf(c, lines, key)
  {
    if lines != [] {
      var n := |lines| - 1;
      DroppedReads(c, lines[..n], key);
      assert DropCrs(lines)[..|DropCrs(lines)| - 1] == DropCrs(lines[..n]);
    }
  }

  lemma {:induction false} DroppedOthers(c: Codec, vals: map<string, string>, lines: seq<string>)
    requires CrBlind(c)
    ensures Others(c, vals, DropCrs(lines)) == DropCrs(Others(c, vals, lines))
  {
    if lines != [] {
      var n := |lines| - 1;
      DroppedOthers(c, vals, lines[..n]);
      var dropped, rest := DropCrs(lines), Others(c, vals, lines[..n]);
      assert dropped[..|dropped| - 1] == DropCrs(lines[..n]) && dropped[|dropped| - 1] == DropCr(lines[n]);
      assert Targets(c, vals, DropCr(lines[n])) == Targets(c, vals, lines[n]);
      DropCrsPush(rest, lines[n]);
      assert rest + [] == rest && DropCrs(rest) + [] == DropCrs(rest);
    }
  }

  lemma DropCrsPush(lines: seq<string>, line: string)
    ensures DropCrs(lines + [line]) == DropCrs(lines) + [DropCr(line)]
  {
    assert (lines + [line])[..|lines|] == lines;
  }

  // ----- reading the written file

  lemma PaddedReads(c: Codec, vals: map<string, string>, out: seq<string>, key: string)
    requires c.read("") == NoEntry && c.keyOf("") == Absent
    ensures LastOf(c, Padded(out), key) == LastOf(c, out, key)
    ensures Others(c, vals, Padded(out)) == Others(c, vals, out) + (if out == [] || EndsBlank(out) then [] else [""])
  {
    if out != [] && !EndsBlank(out) {
      assert (out + [""])[..|out|] == out;
    }
  }

  lemma UpsertHasLines(c: Codec, vals: map<string, string>, order: seq<string>, lines: seq<string>)
    requires Faithful(c, vals) && Ordered(order, vals) && (lines != [] || order != [])
    ensures Upsert(c, vals, order, lines) != []
  {
    RewrittenAt(c, vals, lines);
    if order != [] {
      assert order[0] in order;
      UpsertCarries(c, vals, order, lines, order[0]);
    }
  }

  lemma BlankIsNothing()
    ensures JsCodec().read("") == NoEntry && JsCodec().keyOf("") == Absent
  {
  }

  /** The text that is written, as lines: for any file and any updates that can be written. */
  lemma WrittenLines(file: Found, vals: map<string, string>, order: seq<string>) returns (out: seq<string>)
    requires FeedFree(vals) && Ordered(order, vals) && (file.Present? || order != [])
    ensures out == Upsert(JsCodec(), vals, order, FileLines(file)) && out != [] && NoFeed(out)
    ensures JsLines(Upserted(file, vals, order)) == DropCrs(Padded(out))
    ensures Faithful(JsCodec(), vals) && JsCodec().read("") == NoEntry && JsCodec().keyOf("") == Absent
  {
    out := Upsert(JsCodec(), vals, order, FileLines(file));
    CodecIsFaithful(IsSpaceJs, vals);
    BlankIsNothing();
    FileHasNoFeed(file);
    UpsertHasNoFeed(vals, order, FileLines(file));
    UpsertHasLines(JsCodec(), vals, order, FileLines(file));
    TextLines(out);
  }

  /**
   The written file read back: the new trimmed value of every updated key, the old value of every other; the lines of
   other keys, comments and blanks keep content and order, but for one carriage return at the end of a line, and a
   blank line comes after them if the file did not end in one.
   */
  lemma UpsertThenReadText(file: Found, vals: map<string, string>, order: seq<string>, key: string)
    requires FeedFree(vals) && Ordered(order, vals) && (file.Present? || order != [])
    ensures var c, before, after := JsCodec(), FileLines(file), JsLines(Upserted(file, vals, order));
            && LastOf(c, after, key) == (if key in vals then Present(TrimJs(vals[key])) else LastOf(c, before, key))
            && Others(c, vals, after) ==
                 DropCrs(Others(c, vals, before) + (if EndsBlank(Upsert(c, vals, order, before)) then [] else [""]))
  {
    var c, before := JsCodec(), FileLines(file);
    var out := WrittenLines(file, vals, order);
    JsIsCrBlind();
    DroppedReads(c, Padded(out), key);
    DroppedOthers(c, vals, Padded(out));
    PaddedReads(c, vals, out, key);
    UpsertThenRead(c, vals, order, before, key, Absent);
    UpsertKeepsOthers(c, vals, order, before);
  }

  // ----- writing again

  lemma {:induction false} OthersHave(c: Codec, vals: map<string, string>, lines: seq<string>, line: string)
    ensures line in Others(c, vals, lines) <==> line in lines && !Targets(c, vals, line)
  {
    if lines != [] {
      var n := |lines| - 1;
      OthersHave(c, vals, lines[..n], line);
      assert lines == lines[..n] + [lines[n]];
    }
  }

  lemma PaddedUpToDate(c: Codec, vals: map<string, string>, order: seq<string>, out: seq<string>)
    requires UpToDate(c, vals, order, out) && c.keyOf("") == Absent
    ensures UpToDate(c, vals, order, Padded(out))
  {
    forall k | k in order ensures HasKey(c, Padded(out), k) {
      assert HasKey(c, out, k);
      var i :| 0 <= i < |out| && c.keyOf(out[i]) == Present(k);
      assert c.keyOf(Padded(out)[i]) == Present(k);
    }
  }

  /** An up-to-date line is written again as it is if an update is for it, and without its carriage return if not. */
  function Again(c: Codec, vals: map<string, string>, line: string): string {
    if Targets(c, vals, line) then line else DropCr(line)
  }

  lemma UpsertDropped(c: Codec, vals: map<string, string>, order: seq<string>, lines: seq<string>)
    requires CrBlind(c) && Ordered(order, vals) && UpToDate(c, vals, order, lines)
    ensures var again := Upsert(c, vals, order, DropCrs(lines));
            |again| == |lines| && forall i :: 0 <= i < |lines| ==> again[i] == Again(c, vals, lines[i])
  {
    var dropped := DropCrs(lines);
    DropCrsAt(lines);
    RewrittenAt(c, vals, dropped);
    forall i | 0 <= i < |lines| ensures Rewrite(c, vals, dropped[i]) == Again(c, vals, lines[i]) {
      assert Rewrite(c, vals, lines[i]) == lines[i];
    }
    forall k | k in order ensures HasKey(c, dropped, k) {
      assert HasKey(c, lines, k);
      var i :| 0 <= i < |lines| && c.keyOf(lines[i]) == Present(k);
      assert c.keyOf(dropped[i]) == Present(k);
    }
    NothingToAppend(c, vals, dropped, order);
    assert Rewritten(c, vals, dropped) + [] == Rewritten(c, vals, dropped);
  }

  lemma JoinInjective(a: seq<string>, b: seq<string>)
    requires a != [] && b != [] && NoFeed(a) && NoFeed(b)
    ensures Join(a, ['\n']) == Join(b, ['\n']) <==> a == b
  {
    SplitJoin(a, '\n');
    SplitJoin(b, '\n');
  }

  lemma AgainIsSame(c: Codec, vals: map<string, string>, lines: seq<string>, again: seq<string>)
    requires |again| == |lines| && forall i :: 0 <= i < |lines| ==> again[i] == Again(c, vals, lines[i])
    ensures again == lines <==> forall line :: line in Others(c, vals, lines) ==> !EndsCr(line)
  {
    if forall line :: line in Others(c, vals, lines) ==> !EndsCr(line) {
      forall i | 0 <= i < |lines| ensures again[i] == lines[i] {
        OthersHave(c, vals, lines, lines[i]);
      }
    }
    if again == lines {
      forall line | line in Others(c, vals, lines) ensures !EndsCr(line) {
        OthersHave(c, vals, lines, line);
        var i :| 0 <= i < |lines| && lines[i] == line;
        assert again[i] == line;
      }
    }
  }

  /**
   Upserting twice writes the same file as upserting once exactly when no line without an update ends in a carriage
   return: such a line loses one each time.
   */
  lemma UpsertTwiceExactlyWhen(file: Found, vals: map<string, string>, order: seq<string>)
    requires FeedFree(vals) && Ordered(order, vals) && (file.Present? || order != [])
    ensures var once := Upserted(file, vals, order);
            Upserted(Present(once), vals, order) == once <==>
            forall line :: line in Others(JsCodec(), vals, FileLines(file)) ==> !EndsCr(line)
  {
    var c, before := JsCodec(), FileLines(file);
    var out := WrittenLines(file, vals, order);
    JsIsCrBlind();
    UpsertIsUpToDate(c, vals, order, before);
    PaddedUpToDate(c, vals, order, out);
    TwiceOnLines(c, vals, order, before, out);
    SameText(c, vals, order, out);
  }

  lemma SameText(c: Codec, vals: map<string, string>, order: seq<string>, out: seq<string>)
    requires CrBlind(c) && Ordered(order, vals) && UpToDate(c, vals, order, Padded(out)) && NoFeed(out) && out != []
    requires c.keyOf("") == Absent
    ensures var again := Upsert(c, vals, order, DropCrs(Padded(out)));
            Join(Padded(again), ['\n']) == Join(Padded(out), ['\n']) <==> again == Padded(out)
  {
    var p, again := Padded(out), Upsert(c, vals, order, DropCrs(Padded(out)));
    UpsertDropped(c, vals, order, p);
    assert NoFeed(p);
    AgainEnds(c, vals, p, again);
    JoinInjective(again, p);
  }

  lemma AgainEnds(c: Codec, vals: map<string, string>, lines: seq<string>, again: seq<string>)
    requires |again| == |lines| > 0 && forall i :: 0 <= i < |lines| ==> again[i] == Again(c, vals, lines[i])
    requires NoFeed(lines) && lines[|lines| - 1] == ""
    ensures NoFeed(again) && again[|again| - 1] == "" && Padded(again) == again
  {
    var n := |lines| - 1;
    assert again[n] == Again(c, vals, lines[n]);
    forall i | 0 <= i < |again| ensures '\n' !in again[i] {
      assert again[i] == Again(c, vals, lines[i]);
    }
  }

  lemma TwiceOnLines(c: Codec, vals: map<string, string>, order: seq<string>, before: seq<string>, out: seq<string>)
    requires CrBlind(c) && Faithful(c, vals) && Ordered(order, vals) && c.read("") == NoEntry && c.keyOf("") == Absent
    requires out == Upsert(c, vals, order, before) && UpToDate(c, vals, order, Padded(out))
    ensures Upsert(c, vals, order, DropCrs(Padded(out))) == Padded(out) <==>
            forall line :: line in Others(c, vals, before) ==> !EndsCr(line)
  {
    UpsertDropped(c, vals, order, Padded(out));
    AgainIsSame(c, vals, Padded(out), Upsert(c, vals, order, DropCrs(Padded(out))));
    PaddedReads(c, vals, out, "");
    UpsertKeepsOthers(c, vals, order, before);
  }

  /** A comment that ends in two carriage returns, and an update: each upsert takes one of them off. */
  lemma CrsWearAway(note: string, one: string, two: string, key: string, value: string, line: string)
    requires WellFormed(IsSpaceJs, key) && '\n' !in key && '\n' !in value && line == NewLine(key, value) + "\n"
    requires note != "" && note[0] == '#' && '\n' !in note && one == note + "\r" && two == one + "\r"
    ensures var vals, order := map[key := value], [key];
            && Upserted(Present(two + "\n" + line), vals, order) == one + "\n" + line
            && Upserted(Present(one + "\n" + line), vals, order) == note + "\n" + line
  {
    assert two[0] == one[0] == '#' && DropCr(two) == one && DropCr(one) == note;
    NoteUpsert(two, key, value);
    NoteUpsert(one, key, value);
  }

  lemma NoteUpsert(note: string, key: string, value: string)
    requires WellFormed(IsSpaceJs, key) && '\n' !in key && '\n' !in value
    requires note != "" && note[0] == '#' && '\n' !in note && DropCr(note) != ""
    ensures Upserted(Present(note + "\n" + (NewLine(key, value) + "\n")), map[key := value], [key])
         == DropCr(note) + "\n" + (NewLine(key, value) + "\n")
  {
    var c, line, vals, order := JsCodec(), NewLine(key, value), map[key := value], [key];
    var dropped := [DropCr(note), DropCr(line), ""];
    NoteLines(note, line);
    NoteLines(DropCr(note), line);
    NoteKeys(DropCr(note), key, value);
    NoteUpserts(c, vals, order, key, dropped, line);
    UpsertedIs(note + "\n" + (line + "\n"), vals, order, dropped, [DropCr(note), line, ""]);
  }

  lemma UpsertedIs(text: string, vals: map<string, string>, order: seq<string>, lines: seq<string>, out: seq<string>)
    requires Ordered(order, vals) && JsLines(text) == lines && Upsert(JsCodec(), vals, order, lines) == out && EndsBlank(out)
    ensures Upserted(Present(text), vals, order) == Join(out, ['\n'])
  {
  }

  lemma JoinThree(note: string, line: string)
    ensures Join([note, line, ""], ['\n']) == note + "\n" + (line + "\n")
  {
    assert [note, line, ""][1..] == [line, ""] && [line, ""][1..] == [""];
    assert Join([line, ""], ['\n']) == line + "\n";
  }

  lemma NoteLines(note: string, line: string)
    requires '\n' !in note && '\n' !in line
    ensures JsLines(note + "\n" + (line + "\n")) == [DropCr(note), DropCr(line), ""]
    ensures Join([note, line, ""], ['\n']) == note + "\n" + (line + "\n")
  {
    JoinThree(note, line);
    SplitJoin([note, line, ""], '\n');
    ThreeDropped(note, line);
  }

  lemma ThreeDropped(note: string, line: string)
    ensures var lines := [note, line, ""];
            DropCrs(lines[..|lines| - 1]) + [lines[|lines| - 1]] == [DropCr(note), DropCr(line), ""]
  {
    assert [note, line, ""][..2] == [note, line];
    DropCrsAt([note, line]);
  }

  lemma NoteKeys(note: string, key: string, value: string)
    requires note != "" && note[0] == '#' && WellFormed(IsSpaceJs, key)
    ensures var c := JsCodec();
            c.keyOf(note) == Absent == c.keyOf("") && c.keyOf(DropCr(NewLine(key, value))) == Present(key)
  {
    NewLineParses(IsSpaceJs, key, value);
    SameKey(NewLine(key, value));
    NoteHasNoKey(note);
  }

  lemma NoteHasNoKey(note: string)
    requires note != "" && note[0] == '#'
    ensures JsCodec().keyOf(note) == Absent
  {
    assert Leading(note, IsSpaceJs) == 0;
    assert Strip(note, IsSpaceJs) != "" && Strip(note, IsSpaceJs)[0] == '#';
  }

  lemma NoteUpserts(c: Codec, vals: map<string, string>, order: seq<string>, key: string, lines: seq<string>, line: string)
    requires |lines| == 3 && vals.Keys == {key} && order == [key] && line == NewLine(key, vals[key])
    requires c.keyOf(lines[0]) == Absent && c.keyOf(lines[1]) == Present(key) && lines[2] == "" && c.keyOf("") == Absent
    ensures Upsert(c, vals, order, lines) == [lines[0], line, ""]
  {
    RewrittenAt(c, vals, lines);
    assert HasKey(c, lines, key) by { assert c.keyOf(lines[1]) == Present(key); }
    NothingToAppend(c, vals, lines, order);
  }
}
