/** What load_devenv takes from a persisted file, and what a restart makes of the settings. */
module EnvRestart {
  import opened Text
  import opened EnvFile
  import opened EnvFileProofs
  import opened EnvText
  import opened EnvRoundTrip

  lemma StripPart(s: string, drop: char -> bool)
    requires OneLine(s)
    ensures OneLine(Strip(s, drop))
  {
  }

  lemma UnquoteOneLine(value: string)
    requires OneLine(value)
    ensures OneLine(Unquote(value))
  {
    StripPart(value, IsDoubleQuote);
    StripPart(Strip(value, IsDoubleQuote), IsSingleQuote);
  }

  lemma ValueOneLine(line: string)
    requires OneLine(line) && ReaderEntry(IsSpacePy, line).Entry?
    ensures OneLine(ReaderEntry(IsSpacePy, line).value)
  {
    var s := Strip(line, IsSpacePy);
    StripPart(line, IsSpacePy);
    StripPart(s[FirstEq(s) + 1..], IsSpacePy);
  }

  ghost predicate ReadsOneLine(c: Codec) {
    forall line :: OneLine(line) && c.read(line).Entry? ==> OneLine(c.unquote(c.read(line).value))
  }

  lemma PyReadsOneLine()
    ensures ReadsOneLine(PyCodec())
  {
    var c := PyCodec();
    forall line | OneLine(line) && c.read(line).Entry? ensures OneLine(c.unquote(c.read(line).value)) {
      ValueOneLine(line);
      UnquoteOneLine(c.read(line).value);
    }
  }

  /** Whatever a load takes from the file is a single line. */
  lemma {:induction false} FreshReadIsOneLine(c: Codec, lines: seq<string>, key: string)
    requires ReadsOneLine(c) && forall i :: 0 <= i < |lines| ==> OneLine(lines[i])
    ensures var found := EnvAfter(c, lines, key, Absent); found.Present? ==> OneLine(found.value)
  {
    if lines != [] {
      FreshReadIsOneLine(c, lines[..|lines| - 1], key);
    }
  }

  /** The value has a line for key after its first break. */
  predicate Smuggles(c: Codec, value: string, key: string) {
    exists i :: 1 <= i < |Cut(value)| && IsFor(c, Cut(value)[i], key)
  }

  /** A new line is read as its own key, whatever the value. */
  ghost predicate ReadsOwnKeys(c: Codec, vals: map<string, string>) {
    forall k, value :: k in vals ==> c.read(NewLine(k, value)).Entry? && c.read(NewLine(k, value)).key == k
  }

  lemma PyReadsOwnKeys(vals: map<string, string>)
    requires Storable(vals)
    ensures ReadsOwnKeys(PyCodec(), vals)
  {
    forall k, value | k in vals
      ensures PyCodec().read(NewLine(k, value)).Entry? && PyCodec().read(NewLine(k, value)).key == k
    {
      NewLineParses(IsSpacePy, k, value);
    }
  }

  /** What another update's new line leaves in the file is not for key. */
  lemma OtherPiece(c: Codec, vals: map<string, string>, k: string, piece: string, key: string)
    requires ReadsOwnKeys(c, vals) && k in vals && OneLine(k) && k != key && !Smuggles(c, vals[k], key)
    requires piece in Cut(NewLine(k, vals[k]))
    ensures !IsFor(c, piece, key)
  {
    var v := vals[k];
    CutFront(k + "=", v);
    FirstOrRest(NewLine(k, Cut(v)[0]), Cut(v), Cut(NewLine(k, v)), piece);
  }

  lemma FirstOrRest(first: string, cut: seq<string>, all: seq<string>, piece: string)
    requires cut != [] && all == [first] + cut[1..] && piece in all
    ensures piece == first || exists i :: 1 <= i < |cut| && cut[i] == piece
  {
    var i :| 0 <= i < |all| && all[i] == piece;
    assert i > 0 ==> cut[i] == piece;
  }

  /** What a line of the upsert leaves in the file for a single-line update. */
  lemma PieceCarries(c: Codec, vals: map<string, string>, lines: seq<string>, line: string, piece: string, key: string)
    requires Storable(vals) && Faithful(c, vals) && ReadsOwnKeys(c, vals) && key in vals && OneLine(vals[key])
    requires forall i :: 0 <= i < |lines| ==> OneLine(lines[i])
    requires forall k :: k in vals && k != key ==> !Smuggles(c, vals[k], key)
    requires Kept(c, vals, lines, line) || IsNew(vals, line)
    requires piece in Cut(line) && IsFor(c, piece, key)
    ensures piece == NewLine(key, vals[key])
  {
    if Kept(c, vals, lines, line) {
      CutOneLine(line);
    } else {
      var k :| k in vals && line == NewLine(k, vals[k]);
      if k == key {
        CutOneLine(line);
      } else {
        OtherPiece(c, vals, k, piece, key);
      }
    }
  }

  lemma PieceOfText(c: Codec, vals: map<string, string>, order: seq<string>, lines: seq<string>, piece: string,
                    key: string)
    requires Storable(vals) && Faithful(c, vals) && ReadsOwnKeys(c, vals) && Ordered(order, vals)
    requires key in vals && OneLine(vals[key]) && forall i :: 0 <= i < |lines| ==> OneLine(lines[i])
    requires forall k :: k in vals && k != key ==> !Smuggles(c, vals[k], key)
    requires piece in SplitLines(Terminated(Upsert(c, vals, order, lines))) && IsFor(c, piece, key)
    ensures piece == NewLine(key, vals[key])
  {
    var out := Upsert(c, vals, order, lines);
    CutHas(out, piece);
    var i :| 0 <= i < |out| && piece in Cut(out[i]);
    OutLine(c, vals, order, lines, i);
    PieceCarries(c, vals, lines, out[i], piece, key);
  }

  lemma NewLineStays(vals: map<string, string>, out: seq<string>, key: string, i: nat)
    requires Storable(vals) && key in vals && OneLine(vals[key]) && i < |out| && out[i] == NewLine(key, vals[key])
    ensures NewLine(key, vals[key]) in SplitLines(Terminated(out))
  {
    CutOneLine(out[i]);
    CutHas(out, out[i]);
  }

  lemma PersistedCarries(file: string, d: Dict, key: string)
    requires Storable(d.vals) && Ordered(d.order, d.vals) && key in d.vals && OneLine(d.vals[key])
    requires forall k :: k in d.vals && k != key ==> !Smuggles(PyCodec(), d.vals[k], key)
    ensures var after := SplitLines(Persisted(file, d));
            AllCarry(PyCodec(), after, key, TrimPy(d.vals[key])) && AnyFor(PyCodec(), after, key)
  {
    assert key in d.order;
    CodecIsFaithful(IsSpacePy, d.vals);
    PyReadsOwnKeys(d.vals);
    PersistedText(file, d);
    var c, before := PyCodec(), SplitLines(file);
    var out, after := Upsert(c, d.vals, d.order, before), SplitLines(Persisted(file, d));
    var i := WrittenAt(d.vals, d.order, before, key);
    NewLineStays(d.vals, out, key, i);
    var line := NewLine(key, d.vals[key]);
    forall piece | piece in after && IsFor(c, piece, key) ensures piece == line {
      PieceOfText(c, d.vals, d.order, before, piece, key);
    }
    CarriesLine(c, after, line, key, TrimPy(d.vals[key]));
  }

  lemma CarriesLine(c: Codec, lines: seq<string>, line: string, key: string, value: string)
    requires line in lines && c.read(line) == Entry(key, value)
    requires forall piece :: piece in lines && IsFor(c, piece, key) ==> piece == line
    ensures AllCarry(c, lines, key, value) && AnyFor(c, lines, key)
  {
    var i :| 0 <= i < |lines| && lines[i] == line;
    assert IsFor(c, lines[i], key);
  }

  // ----- what a load gives

  /** All lines for key have the empty value. */
  predicate AllEmpty(c: Codec, lines: seq<string>, key: string) {
    forall i :: 0 <= i < |lines| && IsFor(c, lines[i], key) ==> c.unquote(c.read(lines[i]).value) == ""
  }

  /** Line i is the first line for key whose value is not empty, and this is its value. */
  predicate Gives(c: Codec, lines: seq<string>, i: nat, key: string, value: string) {
    && i < |lines| && IsFor(c, lines[i], key) && c.unquote(c.read(lines[i]).value) == value
    && AllEmpty(c, lines[..i], key)
  }

  /** The first non-empty value for key is this one; the empty value prevails when there is no other. */
  predicate Prevails(c: Codec, lines: seq<string>, key: string, value: string) {
    if value == "" then AnyFor(c, lines, key) && AllEmpty(c, lines, key)
    else exists i :: 0 <= i < |lines| && Gives(c, lines, i, key, value)
  }

  lemma GivesNext(c: Codec, lines: seq<string>, key: string, value: string)
    requires lines != [] && value != ""
    ensures Prevails(c, lines, key, value) <==>
              Prevails(c, lines[..|lines| - 1], key, value) || Gives(c, lines, |lines| - 1, key, value)
  {
    var n := |lines| - 1;
    forall i: nat | i < n ensures Gives(c, lines, i, key, value) == Gives(c, lines[..n], i, key, value) {
      assert lines[..n][..i] == lines[..i];
    }
    if Prevails(c, lines, key, value) {
      var i :| 0 <= i < |lines| && Gives(c, lines, i, key, value);
      assert i < n ==> Gives(c, lines[..n], i, key, value);
    }
    if Prevails(c, lines[..n], key, value) {
      var i :| 0 <= i < n && Gives(c, lines[..n], i, key, value);
      assert Gives(c, lines, i, key, value);
    }
  }

  lemma AnyForNext(c: Codec, lines: seq<string>, key: string)
    requires lines != []
    ensures AnyFor(c, lines, key) <==> AnyFor(c, lines[..|lines| - 1], key) || IsFor(c, lines[|lines| - 1], key)
  {
    var n := |lines| - 1;
    if AnyFor(c, lines[..n], key) {
      var i :| 0 <= i < n && IsFor(c, lines[..n][i], key);
      assert IsFor(c, lines[i], key);
    }
    if AnyFor(c, lines, key) && !IsFor(c, lines[n], key) {
      var i :| 0 <= i < |lines| && IsFor(c, lines[i], key);
      assert IsFor(c, lines[..n][i], key);
    }
  }

  /** What one reading of lines by load_devenv gives a variable that is not set. */
  lemma {:induction false} FreshValue(c: Codec, lines: seq<string>, key: string, value: string)
    requires key != ""
    ensures EnvAfter(c, lines, key, Absent) == Absent <==> !AnyFor(c, lines, key)
    ensures Unset(EnvAfter(c, lines, key, Absent)) <==> AllEmpty(c, lines, key)
    ensures EnvAfter(c, lines, key, Absent) == Present(value) <==> Prevails(c, lines, key, value)
  {
    if lines != [] {
      var n := |lines| - 1;
      FreshValue(c, lines[..n], key, value);
      AnyForNext(c, lines, key);
      assert AllEmpty(c, lines, key) <==>
          AllEmpty(c, lines[..n], key) && (IsFor(c, lines[n], key) ==> c.unquote(c.read(lines[n]).value) == "");
      if value != "" {
        GivesNext(c, lines, key, value);
      }
    }
  }

  // ----- where a load ends

  /** Nothing before the first line for key ends the load, and neither does that line. */
  predicate Reached(c: Codec, lines: seq<string>, env: map<string, string>, key: string, value: string) {
    && !Refuses(key, value)
    && exists i :: 0 <= i < |lines| && IsFor(c, lines[i], key) && forall j :: 0 <= j < i ==> !Raises(c, lines, j, env)
  }

  lemma ReachedStops(c: Codec, lines: seq<string>, env: map<string, string>, key: string, w: string)
    requires key != "" && Lookup(env, key) == Absent && AllCarry(c, lines, key, w)
    ensures AnyFor(c, lines[..Stop(c, lines, env)], key) <==> Reached(c, lines, env, key, c.unquote(w))
  {
    var n := Stop(c, lines, env);
    StopIsFirst(c, lines, env);
    if AnyFor(c, lines[..n], key) {
      var i := FirstFor(c, lines[..n], key);
      assert lines[..n][i] == lines[i] && lines[..n][..i] == lines[..i];
      Silent(c, lines[..i], key, Absent);
      assert !Raises(c, lines, i, env);
    }
    if Reached(c, lines, env, key, c.unquote(w)) {
      var i :| 0 <= i < |lines| && IsFor(c, lines[i], key) && forall j :: 0 <= j < i ==> !Raises(c, lines, j, env);
      assert !Raises(c, lines, i, env);
      assert i < n && lines[..n][i] == lines[i];
    }
  }

  lemma FirstFor(c: Codec, lines: seq<string>, key: string) returns (i: nat)
    requires AnyFor(c, lines, key)
    ensures i < |lines| && IsFor(c, lines[i], key) && forall line :: line in lines[..i] ==> !IsFor(c, line, key)
  {
    i := 0;
    while !IsFor(c, lines[i], key)
      invariant i < |lines| && forall j :: 0 <= j < i ==> !IsFor(c, lines[j], key)
      decreases |lines| - i
    {
      var k :| 0 <= k < |lines| && IsFor(c, lines[k], key);
      assert i < k;
      i := i + 1;
    }
  }

  lemma NulStays(s: string, drop: char -> bool)
    requires !drop('\0')
    ensures '\0' in s <==> '\0' in Strip(s, drop)
  {
    var a, b := StripSits(drop, s);
    assert '\0' in s ==> '\0' in a || '\0' in Strip(s, drop) || '\0' in b;
  }

  /** Trimming and taking off quotes neither adds nor removes a NUL. */
  lemma RefusedAsWritten(key: string, value: string)
    ensures Refuses(key, Unquote(TrimPy(value))) <==> Refuses(key, value)
  {
    NulStays(value, IsSpacePy);
    NulStays(TrimPy(value), IsDoubleQuote);
    NulStays(Strip(TrimPy(value), IsDoubleQuote), IsSingleQuote);
  }

  /** What a load makes of an updated variable that is not set. */
  lemma LoadedUpdate(file: string, d: Dict, initial: map<string, string>, key: string)
    requires Storable(d.vals) && Ordered(d.order, d.vals) && key in d.vals && OneLine(d.vals[key])
    requires forall k :: k in d.vals && k != key ==> !Smuggles(PyCodec(), d.vals[k], key)
    requires Lookup(initial, key) == Absent
    ensures var after, value := SplitLines(Persisted(file, d)), d.vals[key];
            Loaded(PyCodec(), after, initial, key)
            == if Reached(PyCodec(), after, initial, key, value) then Present(Unquote(TrimPy(value))) else Absent
  {
    var after, value := SplitLines(Persisted(file, d)), d.vals[key];
    PersistedCarries(file, d, key);
    CarriedLoad(PyCodec(), after, initial, key, TrimPy(value));
    RefusedAsWritten(key, value);
  }

  lemma CarriedLoad(c: Codec, lines: seq<string>, initial: map<string, string>, key: string, w: string)
    requires key != "" && Lookup(initial, key) == Absent && AllCarry(c, lines, key, w)
    ensures Loaded(c, lines, initial, key)
         == if Reached(c, lines, initial, key, c.unquote(w)) then Present(c.unquote(w)) else Absent
  {
    var read := lines[..Stop(c, lines, initial)];
    ReachedStops(c, lines, initial, key, w);
    assert AllCarry(c, read, key, w);
    ReadsCarried(c, read, key, w);
  }

  // ----- a restart

  /**
   The running process takes the raw value, a restarted one reads what the file says. Unless another update's value
   smuggles in a line for the key, the new value is in force in both exactly when the environment takes the update, the
   value is a single line to str.splitlines without outer blanks or quotes, and the load gets past a line for the key.
   */
  lemma RestartAgreesExactlyWhen(file: string, d: Dict, env: map<string, string>, initial: map<string, string>, key: string)
    requires Storable(d.vals) && Ordered(d.order, d.vals) && key in d.vals && Lookup(initial, key) == Absent
    requires forall k :: k in d.vals && k != key ==> !Smuggles(PyCodec(), d.vals[k], key)
    ensures var after, value := SplitLines(Persisted(file, d)), d.vals[key];
            var running := Lookup(Export(env, d.vals, d.order).environ, key);
            var restarted := Loaded(PyCodec(), after, initial, key);
            var survives := OneLine(value) && value == Unquote(TrimPy(value)) && Reached(PyCodec(), after, initial, key, value);
            && (running == Present(value) == restarted <==>
                  (Takes(d.vals, d.order, key) || Lookup(env, key) == Present(value)) && survives)
            && (Takes(d.vals, d.order, key) ==> (running == restarted <==> survives))
  {
    ExportHas(env, d.vals, d.order, key);
    if OneLine(d.vals[key]) {
      LoadedUpdate(file, d, initial, key);
    } else {
      BrokenValueIsLost(file, d, initial, key);
    }
  }

  /** A value with a break in it never survives a restart, whatever the other updates are. */
  lemma BrokenValueIsLost(file: string, d: Dict, initial: map<string, string>, key: string)
    requires Ordered(d.order, d.vals) && key in d.vals && !OneLine(d.vals[key]) && Lookup(initial, key) == Absent
    ensures Loaded(PyCodec(), SplitLines(Persisted(file, d)), initial, key) != Present(d.vals[key])
  {
    var after := SplitLines(Persisted(file, d));
    PyReadsOneLine();
    FreshReadIsOneLine(PyCodec(), after[..Stop(PyCodec(), after, initial)], key);
  }

  /**
   For all updates, smuggled lines included: once the environment has taken the update, running and restarted process
   agree exactly when the first non-empty value that the load meets for the key is the new one.
   */
  lemma RestartReadsFirst(file: string, d: Dict, env: map<string, string>, initial: map<string, string>, key: string)
    requires Ordered(d.order, d.vals) && key in d.vals && key != "" && Lookup(initial, key) == Absent
    requires Takes(d.vals, d.order, key)
    ensures var after := SplitLines(Persisted(file, d));
            Lookup(Export(env, d.vals, d.order).environ, key) == Loaded(PyCodec(), after, initial, key) <==>
            Prevails(PyCodec(), after[..Stop(PyCodec(), after, initial)], key, d.vals[key])
  {
    var after := SplitLines(Persisted(file, d));
    ExportHas(env, d.vals, d.order, key);
    FreshValue(PyCodec(), after[..Stop(PyCodec(), after, initial)], key, d.vals[key]);
  }

  // ----- what a load makes of the other variables

  /** Some line would change the variable. */
  predicate Touches(c: Codec, lines: seq<string>, key: string, start: Found) {
    && key != ""
    && exists i :: 0 <= i < |lines| && IsFor(c, lines[i], key)
                   && (start == Absent || (start == Present("") && c.unquote(c.read(lines[i]).value) != ""))
  }

  lemma {:induction false} EnvStates(c: Codec, lines: seq<string>, key: string, start: Found)
    requires key != ""
    ensures var found := EnvAfter(c, lines, key, start);
            && (Unset(found) <==> Unset(start) && AllEmpty(c, lines, key))
            && (found == Absent <==> start == Absent && !AnyFor(c, lines, key))
            && (!Unset(start) ==> found == start)
  {
    if lines != [] {
      var n := |lines| - 1;
      EnvStates(c, lines[..n], key, start);
      AnyForNext(c, lines, key);
      assert AllEmpty(c, lines, key) <==>
          AllEmpty(c, lines[..n], key) && (IsFor(c, lines[n], key) ==> c.unquote(c.read(lines[n]).value) == "");
    }
  }

  lemma {:induction false} NoKeyNoChange(c: Codec, lines: seq<string>, start: Found)
    ensures EnvAfter(c, lines, "", start) == start
  {
    if lines != [] {
      NoKeyNoChange(c, lines[..|lines| - 1], start);
    }
  }

  lemma Untouched(c: Codec, lines: seq<string>, key: string, start: Found)
    ensures EnvAfter(c, lines, key, start) == start <==> !Touches(c, lines, key, start)
  {
    if key == "" {
      NoKeyNoChange(c, lines, start);
    } else {
      EnvStates(c, lines, key, start);
    }
  }

  lemma UpsertPrefix(c: Codec, vals: map<string, string>, order: seq<string>, lines: seq<string>, m: nat, key: string,
                     start: Found)
    requires Faithful(c, vals) && Ordered(order, vals) && key !in vals && m <= |Upsert(c, vals, order, lines)|
    ensures EnvAfter(c, Upsert(c, vals, order, lines)[..m], key, start)
         == EnvAfter(c, lines[..Least(m, |lines|)], key, start)
  {
    var out, a, b := Upsert(c, vals, order, lines), Rewritten(c, vals, lines), Appended(c, vals, lines, order);
    RewrittenAt(c, vals, lines);
    if m <= |lines| {
      RewrittenAt(c, vals, lines[..m]);
      assert out[..m] == Rewritten(c, vals, lines[..m]);
      SameReading(c, vals, lines[..m], key, start);
    } else {
      assert out[..m] == a + b[..m - |lines|] && lines[..|lines|] == lines;
      SameReading(c, vals, lines, key, start);
      forall line | line in b[..m - |lines|] ensures !IsFor(c, line, key) {
        AppendedHas(c, vals, lines, order, line);
      }
      Silent(c, b[..m - |lines|], key, EnvAfter(c, a, key, start));
      EnvAfterConcat(c, a, b[..m - |lines|], key, start);
    }
  }

  function Least(a: nat, b: nat): nat { if a < b then a else b }

  lemma BetweenStops(c: Codec, lines: seq<string>, key: string, start: Found, s: nat, t: nat)
    requires s <= t <= |lines|
    ensures EnvAfter(c, lines[..s], key, start) == EnvAfter(c, lines[..t], key, start) <==>
            !Touches(c, lines[s..t], key, EnvAfter(c, lines[..s], key, start))
  {
    assert lines[..t] == lines[..s] + lines[s..t];
    EnvAfterConcat(c, lines[..s], lines[s..t], key, start);
    Untouched(c, lines[s..t], key, EnvAfter(c, lines[..s], key, start));
  }

  /**
   The two loads agree on a variable, unless one of them ends before the other and an old line in between would change
   the variable.
   */
  predicate SameLoad(c: Codec, before: seq<string>, key: string, start: Found, s: nat, t: nat)
    requires s <= |before| && t <= |before|
  {
    var lo, hi := Least(s, t), if s < t then t else s;
    !Touches(c, before[lo..hi], key, EnvAfter(c, before[..lo], key, start))
  }

  lemma OtherLoads(c: Codec, vals: map<string, string>, order: seq<string>, before: seq<string>, env: map<string, string>,
                   key: string)
    requires Faithful(c, vals) && Ordered(order, vals) && key !in vals
    ensures var after := Upsert(c, vals, order, before);
            Loaded(c, after, env, key) == Loaded(c, before, env, key) <==>
            SameLoad(c, before, key, Lookup(env, key), Stop(c, before, env), Least(Stop(c, after, env), |before|))
  {
    var after := Upsert(c, vals, order, before);
    var s, t := Stop(c, before, env), Least(Stop(c, after, env), |before|);
    UpsertPrefix(c, vals, order, before, Stop(c, after, env), key, Lookup(env, key));
    if s < t {
      BetweenStops(c, before, key, Lookup(env, key), s, t);
    } else {
      BetweenStops(c, before, key, Lookup(env, key), t, s);
    }
  }

  /** What a load makes of a variable that is not updated: for every environment it starts from. */
  lemma LoadedOther(file: string, d: Dict, env: map<string, string>, key: string)
    requires Writable(d.vals) && Ordered(d.order, d.vals) && d.order != [] && key !in d.vals
    ensures var c, before, after := PyCodec(), SplitLines(file), SplitLines(Persisted(file, d));
            Loaded(c, after, env, key) == Loaded(c, before, env, key) <==>
            SameLoad(c, before, key, Lookup(env, key), Stop(c, before, env), Least(Stop(c, after, env), |before|))
  {
    CodecIsFaithful(IsSpacePy, d.vals);
    OneLineRoundTrip(file, d);
    OtherLoads(PyCodec(), d.vals, d.order, SplitLines(file), env, key);
  }

  /** No entry of the file is refused. */
  predicate Clean(c: Codec, lines: seq<string>) {
    forall i :: 0 <= i < |lines| && c.read(lines[i]).Entry? ==> !Refuses(c.read(lines[i]).key, c.unquote(c.read(lines[i]).value))
  }

  lemma CleanLoad(c: Codec, lines: seq<string>, env: map<string, string>)
    requires Clean(c, lines)
    ensures Stop(c, lines, env) == |lines|
  {
    StopIsFirst(c, lines, env);
  }

  lemma UpsertStaysClean(c: Codec, vals: map<string, string>, order: seq<string>, lines: seq<string>)
    requires Faithful(c, vals) && Ordered(order, vals) && Clean(c, lines)
    requires forall k :: k in vals ==> !Refuses(k, c.unquote(c.trim(vals[k])))
    ensures Clean(c, Upsert(c, vals, order, lines))
  {
    var out := Upsert(c, vals, order, lines);
    forall i | 0 <= i < |out| && c.read(out[i]).Entry?
      ensures !Refuses(c.read(out[i]).key, c.unquote(c.read(out[i]).value))
    {
      OutLine(c, vals, order, lines, i);
    }
  }

  lemma CleanLoads(c: Codec, vals: map<string, string>, order: seq<string>, lines: seq<string>, env: map<string, string>,
                   key: string)
    requires Faithful(c, vals) && Ordered(order, vals) && Clean(c, lines)
    requires forall k :: k in vals ==> !Refuses(k, c.unquote(c.trim(vals[k])))
    ensures var out := Upsert(c, vals, order, lines);
            if key !in vals then Loaded(c, out, env, key) == Loaded(c, lines, env, key)
            else Lookup(env, key) == Absent ==> Loaded(c, out, env, key) == Present(c.unquote(c.trim(vals[key])))
  {
    var out := Upsert(c, vals, order, lines);
    UpsertStaysClean(c, vals, order, lines);
    CleanLoad(c, lines, env);
    CleanLoad(c, out, env);
    assert out[..|out|] == out && lines[..|lines|] == lines;
    UpsertThenRead(c, vals, order, lines, key, Lookup(env, key));
  }

  /**
   Without a NUL in the file's entries and in the updates every load reads the whole file: an updated variable that is
   not set gets its new value without outer blanks and quotes, and every other variable loads as before.
   */
  lemma CleanFileLoads(file: string, d: Dict, env: map<string, string>, key: string)
    requires Writable(d.vals) && Ordered(d.order, d.vals) && d.order != [] && Clean(PyCodec(), SplitLines(file))
    requires forall k :: k in d.vals ==> !Refuses(k, d.vals[k])
    ensures var before, after := SplitLines(file), SplitLines(Persisted(file, d));
            if key !in d.vals then Loaded(PyCodec(), after, env, key) == Loaded(PyCodec(), before, env, key)
            else Lookup(env, key) == Absent ==>
                   Loaded(PyCodec(), after, env, key) == Present(Unquote(TrimPy(d.vals[key])))
  {
    CodecIsFaithful(IsSpacePy, d.vals);
    OneLineRoundTrip(file, d);
    forall k | k in d.vals ensures !Refuses(k, Unquote(TrimPy(d.vals[k]))) {
      RefusedAsWritten(k, d.vals[k]);
    }
    CleanLoads(PyCodec(), d.vals, d.order, SplitLines(file), env, key);
  }
}
