/** The spellings of a filter: what a token means wherever it stands, and which spellings mean the same. */
module FilterSpelling {
  import opened Lists
  import opened Text
  import opened FilterSpec
  import opened FilterAgreement

  /** The list does not end in an --exclude or --include that still waits for its value. */
  predicate Complete(tokens: seq<string>)
    decreases |tokens|
  {
    if tokens == [] then true
    else if TakesNext(tokens[0]) then |tokens| >= 2 && Complete(tokens[2..])
    else Complete(tokens[1..])
  }

  lemma {:induction false} ExpandConcat(a: seq<string>, b: seq<string>)
    requires Complete(a)
    ensures ExpandDirectives(a + b) == ExpandDirectives(a) + ExpandDirectives(b)
    decreases |a|
  {
    if a == [] {
      assert a + b == b;
    } else if TakesNext(a[0]) {
      assert (a + b)[2..] == a[2..] + b;
      ExpandConcat(a[2..], b);
    } else {
      assert (a + b)[1..] == a[1..] + b;
      ExpandConcat(a[1..], b);
    }
  }

  lemma ExpandThree(a: seq<string>, x: seq<string>, b: seq<string>)
    requires Complete(a) && Complete(x)
    ensures ExpandDirectives(a + x + b) == ExpandDirectives(a) + ExpandDirectives(x) + ExpandDirectives(b)
  {
    assert a + x + b == a + (x + b);
    ExpandConcat(a, x + b);
    ExpandConcat(x, b);
  }

  lemma SameParse(x: seq<string>, y: seq<string>)
    requires ExpandDirectives(x) == ExpandDirectives(y)
    ensures Parse(x) == Parse(y)
  {
  }

  /** Without a dangling directive, a filter is read piece by piece. */
  lemma ParseConcat(a: seq<string>, b: seq<string>)
    requires Complete(a)
    ensures Parse(a + b).includes == Parse(a).includes + Parse(b).includes
    ensures Parse(a + b).excludes == Parse(a).excludes + Parse(b).excludes
  {
    var x, y := ExpandDirectives(a), ExpandDirectives(b);
    ExpandConcat(a, b);
    FlatMapConcat(IncludesOf, x, y);
    FlatMapConcat(ExcludesOf, x, y);
    FlatMapConcat(ExpandRsyncDir, Includes(x), Includes(y));
  }

  /** A list whose value of a directive is missing is read as if the directive were not there. */
  lemma DanglingIsIgnored(a: seq<string>, directive: string)
    requires Complete(a) && TakesNext(directive)
    ensures Parse(a + [directive]) == Parse(a)
  {
    ExpandConcat(a, [directive]);
    assert ExpandDirectives([directive]) == [];
    SameParse(a + [directive], a);
  }

  // ----- the spellings of an exclude and of an include

  /** The token is read as a directive. */
  predicate Directive(token: string) {
    TakesNext(token) || "--exclude=" <= token || "--include=" <= token
  }

  lemma SpelledAlike(a: seq<string>, x: seq<string>, y: seq<string>, b: seq<string>)
    requires Complete(a) && Complete(x) && Complete(y) && ExpandDirectives(x) == ExpandDirectives(y)
    ensures Parse(a + x + b) == Parse(a + y + b)
  {
    ExpandThree(a, x, b);
    ExpandThree(a, y, b);
    SameParse(a + x + b, a + y + b);
  }

  lemma ExpandOne(token: string)
    requires !TakesNext(token)
    ensures Complete([token]) && ExpandDirectives([token]) == [ShortForm(token)]
  {
    assert [token][1..] == [];
  }

  lemma ExpandPair(directive: string, value: string)
    requires TakesNext(directive)
    ensures Complete([directive, value])
    ensures ExpandDirectives([directive, value]) == [if directive == "--exclude" then "-" + value else value]
  {
    assert [directive, value][2..] == [] && [directive, value][1] == value;
    assert "" + value == value;
  }

  lemma ExcludeWithEquals(value: string, token: string)
    requires token == "--exclude=" + value
    ensures !TakesNext(token) && ShortForm(token) == "-" + value
  {
    assert token[10..] == value;
    assert token[9] == '=' && "--exclude" != token && "--include" != token;
  }

  lemma IncludeWithEquals(value: string, token: string)
    requires token == "--include=" + value
    ensures !TakesNext(token) && ShortForm(token) == value
  {
    assert token[10..] == value;
    assert token[9] == '=' && token[2] == 'i' && "--exclude="[2] == 'e';
    assert !("--exclude=" <= token);
  }

  /**
   Anywhere in a filter, --exclude v and --exclude=v mean the same, and so do --include v and --include=v; an include
   of a value with a dash in front is an exclude.
   */
  lemma EqualsSpelling(a: seq<string>, v: string, b: seq<string>)
    requires Complete(a)
    ensures Parse(a + ["--exclude", v] + b) == Parse(a + ["--exclude=" + v] + b)
    ensures Parse(a + ["--include", v] + b) == Parse(a + ["--include=" + v] + b)
    ensures Parse(a + ["--include", "-" + v] + b) == Parse(a + ["--exclude", v] + b)
  {
    ExcludeWithEquals(v, "--exclude=" + v);
    ExpandOne("--exclude=" + v);
    ExpandPair("--exclude", v);
    SpelledAlike(a, ["--exclude", v], ["--exclude=" + v], b);
    IncludeWithEquals(v, "--include=" + v);
    ExpandOne("--include=" + v);
    ExpandPair("--include", v);
    SpelledAlike(a, ["--include", v], ["--include=" + v], b);
    ExpandPair("--include", "-" + v);
    SpelledAlike(a, ["--include", "-" + v], ["--exclude", v], b);
  }

  // ----- the short spellings

  /** After a dash, only the blanks at the right end and the dashes at the left end of an exclude are taken off. */
  lemma ExcludeHead(token: string)
    requires "-" <= token
    ensures ExcludesOf(token) != [] ==> ExcludesOf(token)[0] == StripLeft(StripRight(token, IsSpacePy), IsDash)
    ensures ExcludesOf(token) == [] <==> StripLeft(StripRight(token, IsSpacePy), IsDash) == ""
  {
    assert token[0] == '-';
    assert StripLeft(token, IsSpacePy) == token;
  }

  /** A directive of the equals form, taken literally, would exclude more characters than it does. */
  lemma LiteralIsLonger(token: string, value: string, head: string)
    requires token == head + value && (head == "--exclude=" || head == "--include=")
    ensures ExcludesOf(token) != [] && |ExcludesOf(token)[0]| == 8 + |StripRight(value, IsSpacePy)|
  {
    StripRightHead(head, value);
    var r := StripRight(value, IsSpacePy);
    assert StripRight(token, IsSpacePy) == head + r;
    assert Leading(head + r, IsDash) == 2 by {
      assert forall i :: 0 <= i < 2 ==> (head + r)[i] == head[i] == '-';
      assert (head + r)[2] == head[2] && head[2] in "ei";
      LeadingIs(head + r, IsDash, 2);
    }
    ExcludeHead(token);
  }

  lemma StripRightHead(head: string, value: string)
    requires head != "" && !IsSpacePy(head[|head| - 1])
    ensures StripRight(head + value, IsSpacePy) == head + StripRight(value, IsSpacePy)
  {
    TrailingIs(head + value, IsSpacePy, Trailing(value, IsSpacePy));
  }

  lemma ShortIsShorter(value: string)
    ensures ExcludesOf("-" + value) != [] ==> |ExcludesOf("-" + value)[0]| <= |StripRight(value, IsSpacePy)|
    ensures "-" <= value && ExcludesOf(value) != [] ==> |ExcludesOf(value)[0]| <= |StripRight(value, IsSpacePy)|
  {
    var token := "-" + value;
    ExcludeHead(token);
    StripRightHead("-", value);
    assert Leading("-" + StripRight(value, IsSpacePy), IsDash) >= 1;
    if "-" <= value {
      ExcludeHead(value);
    }
  }

  lemma OneToken(token: string)
    requires !TakesNext(token)
    ensures Parse([token]).excludes == ExcludesOf(ShortForm(token))
  {
    ExpandOne(token);
    FlatMapOne(ExcludesOf, ShortForm(token));
  }

  lemma OnePair(directive: string, value: string, token: string)
    requires TakesNext(directive) && token == if directive == "--exclude" then "-" + value else value
    ensures Parse([directive, value]).excludes == ExcludesOf(token)
  {
    ExpandPair(directive, value);
    FlatMapOne(ExcludesOf, token);
  }

  lemma DashedExcludes(token: string)
    requires |token| >= 3 && token[0] == '-' && token[1] == '-' && token[2] != '-' && !IsSpacePy(token[|token| - 1])
    ensures ExcludesOf(token) != []
  {
    TrailingIs(token, IsSpacePy, 0);
    LeadingIs(token, IsDash, 2);
    ExcludeHead(token);
  }

  lemma TakerLooks(token: string)
    requires TakesNext(token)
    ensures |token| == 9 && token[0] == '-' && token[1] == '-' && token[2] in "ei" && token[8] == 'e'
  {
  }

  lemma DanglingExcludes(token: string)
    requires TakesNext(token)
    ensures Parse([token]).excludes == []
  {
    assert ExpandDirectives([token]) == [];
  }

  lemma EqualsIsNotLiteral(token: string)
    requires "--exclude=" <= token || "--include=" <= token
    ensures !TakesNext(token) && ExcludesOf(ShortForm(token)) != ExcludesOf(token)
  {
    var head, value := token[..10], token[10..];
    assert token == head + value;
    LiteralIsLonger(token, value, head);
    ShortIsShorter(value);
    if "--exclude=" <= token {
      ExcludeWithEquals(value, token);
    } else {
      IncludeWithEquals(value, token);
      assert !("-" <= value) ==> ExcludesOf(value) == [];
    }
  }

  /** A directive does not exclude what it would exclude if it were read literally. */
  lemma DirectiveIsNotLiteral(token: string)
    requires Directive(token)
    ensures Parse([token]).excludes != ExcludesOf(token)
  {
    if TakesNext(token) {
      TakerLooks(token);
      DashedExcludes(token);
      DanglingExcludes(token);
    } else {
      EqualsIsNotLiteral(token);
      OneToken(token);
    }
  }

  ghost predicate SameEverywhere(x: seq<string>, y: seq<string>) {
    forall a, b :: Complete(a) ==> Parse(a + x + b) == Parse(a + y + b)
  }

  lemma LiteralEverywhere(directive: string, value: string, token: string)
    requires TakesNext(directive) && token == if directive == "--exclude" then "-" + value else value
    ensures SameEverywhere([directive, value], [token]) <==> !Directive(token)
  {
    if Directive(token) {
      DirectiveIsNotLiteral(token);
      OnePair(directive, value, token);
      assert [] + [directive, value] + [] == [directive, value] && [] + [token] + [] == [token];
      assert Complete([]);
    } else {
      ExpandOne(token);
      ExpandPair(directive, value);
      forall a, b | Complete(a) ensures Parse(a + [directive, value] + b) == Parse(a + [token] + b) {
        SpelledAlike(a, [directive, value], [token], b);
      }
    }
  }

  /** The short spelling of an exclude means the same everywhere exactly when -v is not itself a directive. */
  lemma DashSpelling(v: string)
    ensures SameEverywhere(["--exclude", v], ["-" + v]) <==> !Directive("-" + v)
  {
    LiteralEverywhere("--exclude", v, "-" + v);
  }

  /** An include may be written without --include exactly when it is not itself a directive. */
  lemma PlainSpelling(v: string)
    ensures SameEverywhere(["--include", v], [v]) <==> !Directive(v)
  {
    LiteralEverywhere("--include", v, v);
  }

  // ----- what a token adds to the filter

  lemma ExcludeTokenAdds(v: string, pad: string)
    requires v != "" && v[0] != '-' && !IsSpacePy(v[|v| - 1]) && Blank(IsSpacePy, pad)
    ensures IncludesOf("-" + v + pad) == []
    ensures ExcludesOf("-" + v + pad) == if '/' in v || HasGlob(v) then [v] else [v, v + "/**"]
  {
    var token := "-" + v + pad;
    assert token[0] == '-' && StripLeft(token, IsSpacePy) == token;
    TrailingIs(token, IsSpacePy, |pad|);
    assert TrimPy(token) == "-" + v;
    LeadingIs("-" + v, IsDash, 1);
  }

  /** A directive with its value, amid other tokens, adds what its short form adds. */
  lemma PairAdds(a: seq<string>, pair: seq<string>, token: string, includes: seq<string>, excludes: seq<string>,
                 b: seq<string>)
    requires Complete(a) && Complete(pair) && ExpandDirectives(pair) == [token]
    requires IncludesOf(token) == includes && ExcludesOf(token) == excludes
    ensures var spec := Parse(a + pair + b);
            && spec.includes == Parse(a).includes + ExpandRsyncDirs(includes) + Parse(b).includes
            && spec.excludes == Parse(a).excludes + excludes + Parse(b).excludes
  {
    Regroup(a, pair, b);
    ParseConcat(a, pair + b);
    ParseConcat(pair, b);
    ParseOne(pair, token);
    Regroup(Parse(a).includes, Parse(pair).includes, Parse(b).includes);
    Regroup(Parse(a).excludes, Parse(pair).excludes, Parse(b).excludes);
  }

  lemma ParseOne(tokens: seq<string>, token: string)
    requires ExpandDirectives(tokens) == [token]
    ensures Parse(tokens).includes == ExpandRsyncDirs(IncludesOf(token)) && Parse(tokens).excludes == ExcludesOf(token)
  {
    FlatMapOne(IncludesOf, token);
    FlatMapOne(ExcludesOf, token);
  }

  /** An exclude adds what it names, with everything below it if it is a bare name, and adds no include. */
  lemma ExcludeAdds(a: seq<string>, pair: seq<string>, v: string, pad: string, b: seq<string>)
    requires Complete(a) && pair == ["--exclude", v + pad]
    requires v != "" && v[0] != '-' && !IsSpacePy(v[|v| - 1]) && Blank(IsSpacePy, pad)
    ensures var spec := Parse(a + pair + b);
            && spec.excludes ==
                 Parse(a).excludes + (if '/' in v || HasGlob(v) then [v] else [v, v + "/**"]) + Parse(b).excludes
            && spec.includes == Parse(a).includes + Parse(b).includes
  {
    ExcludeTokenAdds(v, pad);
    ExpandPair(pair[0], pair[1]);
    assert "-" + (v + pad) == "-" + v + pad && pair == [pair[0], pair[1]];
    PairAdds(a, pair, "-" + v + pad, [], ExcludesOf("-" + v + pad), b);
  }

  lemma PaddedEnds(s1: string, p1: string, v: string, p2: string)
    requires Blank(IsSpacePy, s1) && Blank(IsPlus, p1) && Blank(IsPlus, p2) && Firm(v)
    ensures var inner := p1 + v + p2;
            inner != "" && !IsSpacePy(inner[0]) && !IsSpacePy(inner[|inner| - 1]) && inner[0] != '-'
    ensures forall s2 :: !("-" <= s1 + (p1 + v + p2) + s2)
  {
    var inner := p1 + v + p2;
    assert inner[0] == (if p1 == "" then v[0] else p1[0]);
    assert inner[|inner| - 1] == (if p2 == "" then v[|v| - 1] else p2[|p2| - 1]);
    forall s2 ensures !("-" <= s1 + inner + s2) {
      assert (s1 + inner + s2)[0] == (if s1 == "" then inner[0] else s1[0]);
    }
  }

  lemma IncludeTokenAdds(s1: string, p1: string, v: string, p2: string, s2: string)
    requires Blank(IsSpacePy, s1) && Blank(IsPlus, p1) && Blank(IsPlus, p2) && Blank(IsSpacePy, s2) && Firm(v)
    ensures IncludesOf(s1 + (p1 + v + p2) + s2) == [v] && ExcludesOf(s1 + (p1 + v + p2) + s2) == []
  {
    PaddedEnds(s1, p1, v, p2);
    StripPad(IsSpacePy, s1, p1 + v + p2, s2);
    StripNoop(p1 + v + p2, IsSpacePy);
    StripPad(IsPlus, p1, v, p2);
    StripNoop(v, IsPlus);
  }

  /** An include adds itself, without outer blanks and then without outer plus signs, and adds no exclude. */
  lemma IncludeAdds(a: seq<string>, pair: seq<string>, s1: string, p1: string, v: string, p2: string, s2: string,
                    b: seq<string>)
    requires Complete(a) && pair == ["--include", s1 + (p1 + v + p2) + s2]
    requires Blank(IsSpacePy, s1) && Blank(IsPlus, p1) && Blank(IsPlus, p2) && Blank(IsSpacePy, s2) && Firm(v)
    ensures var spec := Parse(a + pair + b);
            && spec.includes == Parse(a).includes + ExpandRsyncDirs([v]) + Parse(b).includes
            && spec.excludes == Parse(a).excludes + Parse(b).excludes
  {
    IncludeTokenAdds(s1, p1, v, p2, s2);
    ExpandPair(pair[0], pair[1]);
    assert pair == [pair[0], pair[1]];
    PairAdds(a, pair, pair[1], [v], [], b);
  }

  lemma NoDash(s: string, keeps: char -> bool)
    requires Blank(keeps, s) && !keeps('-')
    ensures '-' !in s
  {
  }

  lemma NoDashFirst(token: string)
    requires '-' !in token
    ensures !("-" <= token)
  {
    assert "-"[0] == '-';
  }

  lemma HollowHasNoDash(s1: string, p1: string, core: string, p2: string, s2: string)
    requires Blank(IsSpacePy, s1) && Blank(IsPlus, p1) && Blank(IsPlus, p2) && Blank(IsSpacePy, s2)
    requires '-' !in core
    ensures !("-" <= s1 + (p1 + core + p2) + s2)
  {
    NoDash(s1, IsSpacePy);
    NoDash(p1, IsPlus);
    NoDash(p2, IsPlus);
    NoDash(s2, IsSpacePy);
    NoDashFirst(s1 + (p1 + core + p2) + s2);
  }

  lemma PlusEnds(p1: string, core: string, p2: string)
    requires Blank(IsPlus, p1) && Blank(IsPlus, p2) && (core == "" || core == ".")
    ensures TrimPy(p1 + core + p2) == p1 + core + p2 && Strip(p1 + core + p2, IsPlus) == core
  {
    var inner := p1 + core + p2;
    assert forall i :: 0 <= i < |inner| ==> inner[i] == '+' || inner[i] == '.';
    StripNoop(inner, IsSpacePy);
    StripPad(IsPlus, p1, core, p2);
    StripNoop(core, IsPlus);
  }

  /** Blanks and plus signs around nothing or around a dot add nothing: alone, such an include means all files. */
  lemma HollowAddsNothing(s1: string, p1: string, core: string, p2: string, s2: string)
    requires Blank(IsSpacePy, s1) && Blank(IsPlus, p1) && Blank(IsPlus, p2) && Blank(IsSpacePy, s2)
    requires core == "" || core == "."
    ensures IncludesOf(s1 + (p1 + core + p2) + s2) == [] && ExcludesOf(s1 + (p1 + core + p2) + s2) == []
  {
    HollowHasNoDash(s1, p1, core, p2, s2);
    StripPad(IsSpacePy, s1, p1 + core + p2, s2);
    PlusEnds(p1, core, p2);
  }

  /** Dashes alone exclude nothing. */
  lemma DashesAddNothing(dashes: string, pad: string)
    requires dashes != "" && Blank(IsDash, dashes) && Blank(IsSpacePy, pad)
    ensures IncludesOf(dashes + pad) == [] && ExcludesOf(dashes + pad) == []
  {
    var token := dashes + pad;
    assert token[0] == dashes[0] == '-' && dashes[|dashes| - 1] == '-';
    StripPad(IsSpacePy, "", dashes, pad);
    assert "" + dashes + pad == token;
    StripNoop(dashes, IsSpacePy);
    LeadingIs(dashes, IsDash, |dashes|);
  }
}
