/** Strings as the JavaScript and Python sources use them: trimming, splitting, joining. */
module Text {

  /** A plain JavaScript object has no own property of this name: assigning to it sets the prototype or does nothing. */
  const PROTO := "__proto__"

  /** The characters that JavaScript's String.prototype.trim removes. */
  predicate IsSpaceJs(c: char) {
    var n := c as int;
    9 <= n <= 13 || n == 0x20 || n == 0xA0 || n == 0x1680 || 0x2000 <= n <= 0x200A
    || n == 0x2028 || n == 0x2029 || n == 0x202F || n == 0x205F || n == 0x3000 || n == 0xFEFF
  }

  /** The characters that Python's str.strip removes. */
  predicate IsSpacePy(c: char) {
    var n := c as int;
    9 <= n <= 13 || 0x1C <= n <= 0x20 || n == 0x85 || n == 0xA0 || n == 0x1680 || 0x2000 <= n <= 0x200A
    || n == 0x2028 || n == 0x2029 || n == 0x202F || n == 0x205F || n == 0x3000
  }

  /** The two languages trim the same characters but for these. */
  lemma SpacesDiffer(c: char)
    ensures IsSpacePy(c) && !IsSpaceJs(c) <==> c as int in [0x1C, 0x1D, 0x1E, 0x1F, 0x85]
    ensures IsSpaceJs(c) && !IsSpacePy(c) <==> c as int == 0xFEFF
  {
  }

  /** How many characters at the front are dropped. */
  function Leading(s: string, drop: char -> bool): (n: nat)
    ensures n <= |s| && (forall i :: 0 <= i < n ==> drop(s[i])) && (n < |s| ==> !drop(s[n]))
  {
    if s == "" || !drop(s[0]) then 0 else 1 + Leading(s[1..], drop)
  }

  function Trailing(s: string, drop: char -> bool): (n: nat)
    ensures n <= |s| && (forall i :: |s| - n <= i < |s| ==> drop(s[i])) && (n < |s| ==> !drop(s[|s| - 1 - n]))
  {
    if s == "" || !drop(s[|s| - 1]) then 0 else 1 + Trailing(s[..|s| - 1], drop)
  }

  function StripLeft(s: string, drop: char -> bool): string {
    s[Leading(s, drop)..]
  }

  function StripRight(s: string, drop: char -> bool): string {
    s[..|s| - Trailing(s, drop)]
  }

  function Strip(s: string, drop: char -> bool): string {
    StripRight(StripLeft(s, drop), drop)
  }

  function TrimJs(s: string): string {
    Strip(s, IsSpaceJs)
  }

  function TrimPy(s: string): string {
    Strip(s, IsSpacePy)
  }

  /** A string whose two ends are kept is left alone by Strip, and by a second Strip. */
  lemma StripNoop(s: string, drop: char -> bool)
    requires s == "" || (!drop(s[0]) && !drop(s[|s| - 1]))
    ensures Strip(s, drop) == s
  {
  }

  predicate Blank(space: char -> bool, s: string) {
    forall i :: 0 <= i < |s| ==> space(s[i])
  }

  /** The length of the blank front is the only number that fits its description. */
  lemma {:induction false} LeadingIs(s: string, space: char -> bool, n: nat)
    requires n <= |s| && Blank(space, s[..n]) && (n < |s| ==> !space(s[n]))
    ensures Leading(s, space) == n
  {
  }

  lemma {:induction false} TrailingIs(s: string, space: char -> bool, n: nat)
    requires n <= |s| && Blank(space, s[|s| - n..]) && (n < |s| ==> !space(s[|s| - 1 - n]))
    ensures Trailing(s, space) == n
  {
  }

  lemma StripLeftPad(space: char -> bool, pad: string, s: string)
    requires Blank(space, pad)
    ensures StripLeft(pad + s, space) == StripLeft(s, space)
  {
    LeadingIs(pad + s, space, |pad| + Leading(s, space));
  }

  lemma StripRightPad(space: char -> bool, s: string, pad: string)
    requires Blank(space, pad)
    ensures StripRight(s + pad, space) == StripRight(s, space)
  {
    TrailingIs(s + pad, space, |pad| + Trailing(s, space));
  }

  lemma StripPad(space: char -> bool, a: string, s: string, b: string)
    requires Blank(space, a) && Blank(space, b)
    ensures Strip(a + s + b, space) == Strip(s, space)
  {
    assert a + s + b == a + (s + b);
    StripLeftPad(space, a, s + b);
    var n := Leading(s, space);
    if n == |s| {
      StripLeftPad(space, s + b, "");
      assert s + b + "" == s + b;
    } else {
      var pad, l := s[..n], s[n..];
      assert s + b == pad + (l + b);
      StripLeftPad(space, pad, l + b);
      assert l[0] == s[n] && (l + b)[0] == l[0];
      assert StripLeft(l + b, space) == l + b;
      StripRightPad(space, l, b);
    }
  }

  lemma LeftSits(space: char -> bool, s: string) returns (a: string)
    ensures Blank(space, a) && s == a + StripLeft(s, space)
  {
    a := s[..Leading(s, space)];
  }

  lemma RightSits(space: char -> bool, s: string) returns (b: string)
    ensures Blank(space, b) && s == StripRight(s, space) + b
  {
    var n := |s| - Trailing(s, space);
    b := s[n..];
    assert forall i :: 0 <= i < |b| ==> b[i] == s[n + i];
  }

  /** Where the stripped line sits in the raw one. */
  lemma StripSits(space: char -> bool, line: string) returns (a: string, b: string)
    ensures Blank(space, a) && Blank(space, b) && line == a + Strip(line, space) + b
  {
    a := LeftSits(space, line);
    b := RightSits(space, StripLeft(line, space));
    Regroup(a, StripRight(StripLeft(line, space), space), b);
  }

  lemma Regroup<T>(a: seq<T>, s: seq<T>, b: seq<T>)
    ensures a + (s + b) == a + s + b
  {
  }

  lemma StripAfter(space: char -> bool, a: string, s: string)
    requires Blank(space, a)
    ensures Strip(a + s, space) == Strip(s, space)
  {
    StripLeftPad(space, a, s);
  }

  lemma StripBefore(space: char -> bool, s: string, b: string)
    requires Blank(space, b)
    ensures Strip(s + b, space) == Strip(s, space)
  {
    StripPad(space, "", s, b);
    assert "" + s + b == s + b;
  }

  lemma StripLeftKeeps(space: char -> bool, a: string, s: string) returns (x: string)
    requires s != "" && !space(s[0])
    ensures StripLeft(a + s, space) == x + s
  {
    var n := Leading(a, space);
    x := a[n..];
    LeadingIs(a + s, space, n);
  }

  lemma StripRightKeeps(space: char -> bool, s: string, b: string) returns (y: string)
    requires s != "" && !space(s[|s| - 1])
    ensures StripRight(s + b, space) == s + y
  {
    var n := Trailing(b, space);
    y := b[..|b| - n];
    TrailingIs(s + b, space, n);
  }

  /** What stands between other text keeps standing there, if its two ends are not stripped. */
  lemma StripKeeps(space: char -> bool, a: string, w: string, b: string) returns (x: string, y: string)
    requires w != "" && !space(w[0]) && !space(w[|w| - 1])
    ensures Strip(a + w + b, space) == x + w + y
  {
    Regroup(a, w, b);
    x := StripLeftKeeps(space, a, w + b);
    Regroup(x, w, b);
    y := StripRightKeeps(space, x + w, b);
  }

  function LowerChar(c: char): char {
    if 'A' <= c <= 'Z' then c - 'A' + 'a' else c
  }

  function Lower(s: string): (r: string)
    ensures |r| == |s|
  {
    seq(|s|, i requires 0 <= i < |s| => LowerChar(s[i]))
  }

  predicate EndsWith(s: string, suffix: string) {
    |suffix| <= |s| && s[|s| - |suffix|..] == suffix
  }

  predicate Contains(s: string, part: string) {
    exists i :: 0 <= i <= |s| && part <= s[i..]
  }

  /** s.split(sep): always at least one part. */
  function Split(s: string, sep: char): (r: seq<string>)
    ensures |r| >= 1
    ensures forall i :: 0 <= i < |r| ==> sep !in r[i]
  {
    if s == "" then [""]
    else
      var rest := Split(s[1..], sep);
      if s[0] == sep then [""] + rest else [[s[0]] + rest[0]] + rest[1..]
  }

  /** sep.join(parts) */
  function Join(parts: seq<string>, sep: string): string {
    if parts == [] then ""
    else if |parts| == 1 then parts[0]
    else parts[0] + sep + Join(parts[1..], sep)
  }

  function Concat(parts: seq<string>): string {
    if parts == [] then "" else parts[0] + Concat(parts[1..])
  }

  lemma ConcatAppend(a: seq<string>, b: seq<string>)
    ensures Concat(a + b) == Concat(a) + Concat(b)
  {
    if a == [] {
      assert a + b == b;
    } else {
      assert (a + b)[1..] == a[1..] + b;
      ConcatAppend(a[1..], b);
    }
  }

  /** One part without the separator is what Split yields up to the first separator. */
  lemma SplitHead(part: string, rest: string, sep: char)
    requires sep !in part
    ensures Split(part, sep) == [part]
    ensures Split(part + [sep] + rest, sep) == [part] + Split(rest, sep)
  {
    if part == "" {
      assert part + [sep] + rest == [sep] + rest;
    } else {
      SplitHead(part[1..], rest, sep);
      assert (part + [sep] + rest)[1..] == part[1..] + [sep] + rest;
      assert [part[0]] + part[1..] == part;
    }
  }

  /** Splitting undoes joining, for parts without the separator. */
  lemma {:induction false} SplitJoin(parts: seq<string>, sep: char)
    requires parts != []
    requires forall i :: 0 <= i < |parts| ==> sep !in parts[i]
    ensures Split(Join(parts, [sep]), sep) == parts
  {
    if |parts| == 1 {
      SplitHead(parts[0], "", sep);
    } else {
      SplitHead(parts[0], Join(parts[1..], [sep]), sep);
      SplitJoin(parts[1..], sep);
      assert [parts[0]] + parts[1..] == parts;
    }
  }

  lemma {:induction false} JoinSplit(s: string, sep: char)
    ensures Join(Split(s, sep), [sep]) == s
  {
    if s != "" {
      var rest := Split(s[1..], sep);
      JoinSplit(s[1..], sep);
      if s[0] == sep {
        assert ([""] + rest)[1..] == rest;
      } else {
        var first := [s[0]] + rest[0];
        assert ([first] + rest[1..])[1..] == rest[1..];
      }
    }
  }
}
