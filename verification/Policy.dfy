/** From a scanner response to a transfer decision. */
module Policy {
  import opened Text

  /** What the scanner answered; a missing field is the empty string. */
  datatype Response = Response(verdict: string, fileType: string)

  /** overrides: settings.verdictActions; an empty action stands for any falsy value. */
  datatype Settings = Settings(overrides: map<string, string>, blockExecutables: bool)

  datatype Decision = Decision(verdict: string, action: string, fileType: string, reason: string)

  const DEFAULT_ACTIONS: map<string, string> :=
    map["benign" := "allow", "malicious" := "block", "suspicious" := "block", "unknown" := "block", "error" := "block"]

  function Dashes(s: string): (r: string)
    ensures |r| == |s|
  {
    seq(|s|, i requires 0 <= i < |s| => if s[i] == '_' || s[i] == '-' then ' ' else s[i])
  }

  function NormalizeVerdict(raw: string): (verdict: string)
    ensures verdict in DEFAULT_ACTIONS
  {
    Classify(Dashes(Lower(TrimJs(raw))))
  }

  function Classify(n: string): (verdict: string)
    ensures verdict in DEFAULT_ACTIONS
  {
    if n == "benign" then "benign"
    else if n == "malicious" then "malicious"
    else if n == "non compliant" || n == "suspicious" then "suspicious"
    else if n in ["unknown", "unsupported file type", "not scanned", "scanning"] then "unknown"
    else "error"
  }

  predicate SmallLetters(s: string) {
    s != "" && forall i :: 0 <= i < |s| ==> 'a' <= s[i] <= 'z'
  }

  lemma SmallLettersStay(s: string)
    requires SmallLetters(s)
    ensures Dashes(Lower(TrimJs(s))) == s
  {
    StripNoop(s, IsSpaceJs);
  }

  /** The five verdicts stand for themselves. */
  lemma VerdictsAreFixed(verdict: string)
    requires verdict in DEFAULT_ACTIONS
    ensures NormalizeVerdict(verdict) == verdict
  {
    VerdictsAreSmall(verdict);
    SmallLettersStay(verdict);
    ClassifyFixed(verdict);
  }

  lemma ClassifyFixed(verdict: string)
    requires verdict in DEFAULT_ACTIONS
    ensures Classify(verdict) == verdict
  {
  }

  lemma VerdictsAreSmall(verdict: string)
    requires verdict in DEFAULT_ACTIONS
    ensures SmallLetters(verdict)
  {
    assert verdict in ["benign", "malicious", "suspicious", "unknown", "error"];
  }

  /** The only text that counts as benign is that word, up to case and outer blanks: dashes do not spell it. */
  lemma BenignIsSaid(raw: string)
    ensures NormalizeVerdict(raw) == "benign" <==> Lower(TrimJs(raw)) == "benign"
  {
    var text := Lower(TrimJs(raw));
    if Dashes(text) == "benign" {
      forall i | 0 <= i < |text| ensures text[i] == "benign"[i] {
        assert Dashes(text)[i] != ' ';
      }
    }
  }

  /** Every text that is a verdict, and the verdict it is. */
  const SPELLINGS: map<string, string> :=
    map["benign" := "benign", "malicious" := "malicious", "suspicious" := "suspicious", "unknown" := "unknown",
        "error" := "error", "non compliant" := "suspicious", "unsupported file type" := "unknown",
        "not scanned" := "unknown", "scanning" := "unknown"]

  /** A text of small letters and single blanks inside. */
  predicate Word(w: string) {
    && w != "" && 'a' <= w[0] <= 'z' && 'a' <= w[|w| - 1] <= 'z'
    && forall i :: 0 <= i < |w| ==> w[i] == ' ' || 'a' <= w[i] <= 'z'
  }

  /** c may stand for d: in either case, and a dash or an underscore for a blank. */
  predicate StandsFor(c: char, d: char) {
    if d == ' ' then c in " -_" else LowerChar(c) == d
  }

  predicate Reads(x: string, w: string) {
    |x| == |w| && forall i :: 0 <= i < |w| ==> StandsFor(x[i], w[i])
  }

  /** raw is the word w but for outer blanks, upper case, dashes and underscores. */
  ghost predicate Spells(raw: string, w: string) {
    exists a, x, b :: raw == a + x + b && Blank(IsSpaceJs, a) && Blank(IsSpaceJs, b) && Reads(x, w)
  }

  lemma ReadsWhenCleaned(x: string, w: string)
    requires Word(w)
    ensures Dashes(Lower(x)) == w <==> Reads(x, w)
  {
    if Dashes(Lower(x)) == w {
      forall i | 0 <= i < |w| ensures StandsFor(x[i], w[i]) {
        assert Dashes(Lower(x))[i] == w[i];
      }
    }
  }

  lemma ReadsIsTrimmed(x: string, w: string)
    requires Word(w) && Reads(x, w)
    ensures TrimJs(x) == x
  {
    assert StandsFor(x[0], w[0]) && StandsFor(x[|w| - 1], w[|w| - 1]);
    StripNoop(x, IsSpaceJs);
  }

  lemma SpelledWhenCleaned(raw: string, w: string)
    requires Word(w)
    ensures Dashes(Lower(TrimJs(raw))) == w <==> Spells(raw, w)
  {
    ReadsWhenCleaned(TrimJs(raw), w);
    if Reads(TrimJs(raw), w) {
      var a, b := StripSits(IsSpaceJs, raw);
      assert raw == a + TrimJs(raw) + b;
    }
    if Spells(raw, w) {
      var a, x, b :| raw == a + x + b && Blank(IsSpaceJs, a) && Blank(IsSpaceJs, b) && Reads(x, w);
      StripPad(IsSpaceJs, a, x, b);
      ReadsIsTrimmed(x, w);
    }
  }

  lemma LongSpellings(w: string)
    requires w in SPELLINGS && w !in DEFAULT_ACTIONS
    ensures Word(w)
  {
    assert w in ["non compliant", "unsupported file type", "not scanned", "scanning"];
  }

  lemma SpellingsAreWords(w: string)
    requires w in SPELLINGS
    ensures Word(w)
  {
    if w in DEFAULT_ACTIONS {
      VerdictsAreSmall(w);
    } else {
      LongSpellings(w);
    }
  }

  lemma ClassifiedBySpelling(n: string)
    ensures Classify(n) == if n in SPELLINGS then SPELLINGS[n] else "error"
  {
  }

  /** A raw verdict counts as v exactly when it spells a text that is v; what spells nothing is an error. */
  lemma VerdictIsSpelled(raw: string, v: string)
    ensures NormalizeVerdict(raw) == v <==>
            || (exists w :: w in SPELLINGS && SPELLINGS[w] == v && Spells(raw, w))
            || (v == "error" && forall w :: w in SPELLINGS ==> !Spells(raw, w))
  {
    var n := Dashes(Lower(TrimJs(raw)));
    forall w | w in SPELLINGS ensures Word(w) && (n == w <==> Spells(raw, w)) {
      SpellingsAreWords(w);
      SpelledWhenCleaned(raw, w);
    }
    ClassifiedBySpelling(n);
  }

  function EvaluatePolicy(response: Response, settings: Settings): Decision {
    var verdict := NormalizeVerdict(response.verdict);
    var chosen := (DEFAULT_ACTIONS + settings.overrides)[verdict];
    var action := if chosen == "" then "block" else chosen;
    Decision(verdict, action, response.fileType, "verdict:" + verdict)
  }

  predicate IsWindowsExecutable(fileType: string) {
    var n := Lower(TrimJs(fileType));
    n != "" &&
    (n == "pe" || n == "exe" || Contains(n, "portable executable") || Contains(n, "windows executable")
     || Contains(n, "win32") || Contains(n, "win64"))
  }

  function ApplyFileTypeBlocks(decision: Decision, settings: Settings): Decision {
    if settings.blockExecutables && IsWindowsExecutable(decision.fileType)
    then decision.(action := "block", reason := decision.reason + ";file_type:windows_executable")
    else decision
  }

  function Decide(response: Response, settings: Settings): Decision {
    ApplyFileTypeBlocks(EvaluatePolicy(response, settings), settings)
  }

  // ----- the executable block in its own terms

  const PHRASES := ["portable executable", "windows executable", "win32", "win64"]

  const NAMES := ["pe", "exe"]

  /** One of the four phrases stands somewhere in the text in any case, or the text is pe or exe but for outer blanks. */
  ghost predicate NamesExecutable(fileType: string) {
    || (exists a, w, b :: fileType == a + w + b && Lower(w) in PHRASES)
    || (exists a, w, b :: fileType == a + w + b && Blank(IsSpaceJs, a) && Blank(IsSpaceJs, b) && Lower(w) in NAMES)
  }

  /** A text whose ends are letters or digits. */
  predicate Solid(w: string) {
    && w != ""
    && ('a' <= w[0] <= 'z' || '0' <= w[0] <= '9')
    && ('a' <= w[|w| - 1] <= 'z' || '0' <= w[|w| - 1] <= '9')
  }

  lemma SolidStays(w: string)
    requires Solid(Lower(w))
    ensures w != "" && !IsSpaceJs(w[0]) && !IsSpaceJs(w[|w| - 1])
  {
    assert Lower(w)[0] == LowerChar(w[0]) && Lower(w)[|w| - 1] == LowerChar(w[|w| - 1]);
  }

  lemma LowerConcat(a: string, b: string)
    ensures Lower(a + b) == Lower(a) + Lower(b)
  {
  }

  lemma LowerParts(x: string, w: string, y: string)
    ensures Lower(x + w + y) == Lower(x) + Lower(w) + Lower(y)
  {
    LowerConcat(x + w, y);
    LowerConcat(x, w);
  }

  lemma ContainsMiddle(x: string, w: string, y: string)
    ensures Contains(x + w + y, w)
  {
    assert (x + w + y)[|x|..] == w + y;
  }

  /** Inner text survives the trimming. */
  lemma PhraseIsFound(a: string, w: string, b: string, phrase: string)
    requires Lower(w) == phrase && Solid(phrase)
    ensures Contains(Lower(TrimJs(a + w + b)), phrase)
  {
    SolidStays(w);
    var x, y := StripKeeps(IsSpaceJs, a, w, b);
    LowerParts(x, w, y);
    ContainsMiddle(Lower(x), phrase, Lower(y));
  }

  lemma LowerSlice(t: string, i: nat, j: nat)
    requires i <= j <= |t|
    ensures Lower(t[i..j]) == Lower(t)[i..j]
  {
  }

  lemma Sliced(p: string, t: string, q: string, i: nat, j: nat)
    requires i <= j <= |t|
    ensures p + t + q == (p + t[..i]) + t[i..j] + (t[j..] + q)
  {
  }

  lemma PrefixOfRest(n: string, i: nat, phrase: string)
    requires i <= |n| && phrase <= n[i..]
    ensures i + |phrase| <= |n| && n[i..i + |phrase|] == phrase
  {
  }

  lemma FoundPhraseStands(fileType: string, phrase: string) returns (a: string, w: string, b: string)
    requires Contains(Lower(TrimJs(fileType)), phrase)
    ensures fileType == a + w + b && Lower(w) == phrase
  {
    var t := TrimJs(fileType);
    var i :| 0 <= i <= |Lower(t)| && phrase <= Lower(t)[i..];
    var j := i + |phrase|;
    PrefixOfRest(Lower(t), i, phrase);
    LowerSlice(t, i, j);
    var p, q := StripSits(IsSpaceJs, fileType);
    Sliced(p, t, q, i, j);
    a, w, b := p + t[..i], t[i..j], t[j..] + q;
  }

  lemma NameIsTrimmed(fileType: string, name: string)
    requires Solid(name)
    ensures Lower(TrimJs(fileType)) == name <==>
            exists a, w, b :: fileType == a + w + b && Blank(IsSpaceJs, a) && Blank(IsSpaceJs, b) && Lower(w) == name
  {
    if Lower(TrimJs(fileType)) == name {
      var a, b := StripSits(IsSpaceJs, fileType);
      assert fileType == a + TrimJs(fileType) + b;
    }
    if exists a, w, b :: fileType == a + w + b && Blank(IsSpaceJs, a) && Blank(IsSpaceJs, b) && Lower(w) == name {
      var a, w, b :| fileType == a + w + b && Blank(IsSpaceJs, a) && Blank(IsSpaceJs, b) && Lower(w) == name;
      SolidStays(w);
      StripPad(IsSpaceJs, a, w, b);
      StripNoop(w, IsSpaceJs);
    }
  }

  lemma ExecutableWordsAreSolid(w: string)
    requires w in PHRASES || w in NAMES
    ensures Solid(w)
  {
  }

  /** The test of the block finds exactly the texts that name a Windows executable. */
  lemma ExecutableExactlyWhen(fileType: string)
    ensures IsWindowsExecutable(fileType) <==> NamesExecutable(fileType)
  {
    var n := Lower(TrimJs(fileType));
    assert IsWindowsExecutable(fileType) <==> n in NAMES || exists phrase :: phrase in PHRASES && Contains(n, phrase) by {
      assert PHRASES[0] in PHRASES && PHRASES[1] in PHRASES && PHRASES[2] in PHRASES && PHRASES[3] in PHRASES;
    }
    if exists phrase :: phrase in PHRASES && Contains(n, phrase) {
      var phrase :| phrase in PHRASES && Contains(n, phrase);
      var a, w, b := FoundPhraseStands(fileType, phrase);
    }
    if exists a, w, b :: fileType == a + w + b && Lower(w) in PHRASES {
      var a, w, b :| fileType == a + w + b && Lower(w) in PHRASES;
      ExecutableWordsAreSolid(Lower(w));
      PhraseIsFound(a, w, b, Lower(w));
    }
    forall name | name in NAMES
      ensures n == name <==>
              exists a, w, b :: fileType == a + w + b && Blank(IsSpaceJs, a) && Blank(IsSpaceJs, b) && Lower(w) == name
    {
      ExecutableWordsAreSolid(name);
      NameIsTrimmed(fileType, name);
    }
  }

  /**
   The block overrules every verdict and every action table for a text that names an executable, and says so in the
   reason; for any other text, or with the block off, the decision is that of the verdict policy.
   */
  lemma ExecutableBlock(response: Response, settings: Settings)
    ensures var d, policy := Decide(response, settings), EvaluatePolicy(response, settings);
            if settings.blockExecutables && NamesExecutable(response.fileType)
            then d == policy.(action := "block", reason := d.reason) && policy.reason < d.reason
            else d == policy
  {
    ExecutableExactlyWhen(response.fileType);
    assert ";file_type:windows_executable" != "";
  }

  /**
   The decision in full: an executable is blocked; else the action set for the verdict, where an empty one is read
   as block; without one, benign files are let through and all others are blocked. The verdict, the file type as it
   came and the reason are on record.
   */
  lemma DecisionExactly(response: Response, settings: Settings)
    ensures var d, v := Decide(response, settings), NormalizeVerdict(response.verdict);
            && d.verdict == v && d.fileType == response.fileType
            && if settings.blockExecutables && NamesExecutable(response.fileType) then
                 d.action == "block" && d.reason == "verdict:" + v + ";file_type:windows_executable"
               else
                 && d.reason == "verdict:" + v
                 && (v in settings.overrides && settings.overrides[v] != "" ==> d.action == settings.overrides[v])
                 && (v in settings.overrides && settings.overrides[v] == "" ==> d.action == "block")
                 && (v !in settings.overrides ==> d.action == if v == "benign" then "allow" else "block")
  {
    ExecutableExactlyWhen(response.fileType);
  }

  /** The only responses that let a file through, for every action table. */
  lemma AllowedExactlyWhen(response: Response, settings: Settings)
    ensures Decide(response, settings).action == "allow" <==>
            && !(settings.blockExecutables && NamesExecutable(response.fileType))
            && var verdict := NormalizeVerdict(response.verdict);
               if verdict in settings.overrides then settings.overrides[verdict] == "allow" else verdict == "benign"
  {
    ExecutableBlock(response, settings);
  }
}
