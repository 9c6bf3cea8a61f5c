/** Sequences without repeats. */
module Lists {

  predicate NoRepeats<T(==)>(s: seq<T>) {
    forall i, j :: 0 <= i < j < |s| ==> s[i] != s[j]
  }

  lemma NoRepeatsConcat<T>(a: seq<T>, b: seq<T>)
    requires NoRepeats(a) && NoRepeats(b) && forall x :: x in a ==> x !in b
    ensures NoRepeats(a + b)
  {
    forall i, j | 0 <= i < j < |a + b| ensures (a + b)[i] != (a + b)[j] {
      if i < |a| <= j {
        assert a[i] in a && b[j - |a|] in b;
      }
    }
  }

  lemma {:induction false} NoRepeatsMultiset<T>(s: seq<T>, x: T)
    requires NoRepeats(s)
    ensures multiset(s)[x] == if x in s then 1 else 0
  {
    if s != [] {
      var n := |s| - 1;
      NoRepeatsMultiset(s[..n], x);
      assert s == s[..n] + [s[n]];
    }
  }

  lemma SameElements<T(!new)>(s: seq<T>, t: seq<T>)
    requires NoRepeats(s) && NoRepeats(t) && forall x :: x in s <==> x in t
    ensures multiset(s) == multiset(t)
  {
    forall x: T ensures multiset(s)[x] == multiset(t)[x] {
      NoRepeatsMultiset(s, x);
      NoRepeatsMultiset(t, x);
    }
  }

  /** Two orders of one bag: the last element of the first taken out of both. */
  lemma TakeLast<T>(a: seq<T>, b: seq<T>) returns (k: nat)
    requires a != [] && multiset(a) == multiset(b)
    ensures k < |b| && b[k] == a[|a| - 1]
    ensures multiset(a[..|a| - 1]) == multiset(b[..k] + b[k + 1..])
  {
    var n := |a| - 1;
    assert a[n] in multiset(b);
    k :| 0 <= k < |b| && b[k] == a[n];
    BagWithout(a, n);
    BagWithout(b, k);
    assert a[..n] + a[n + 1..] == a[..n];
  }

  lemma BagWithout<T>(s: seq<T>, k: nat)
    requires k < |s|
    ensures multiset(s[..k] + s[k + 1..]) == multiset(s) - multiset{s[k]}
  {
    assert s == s[..k] + [s[k]] + s[k + 1..];
  }

  /** out with the elements of more that are new, in order: the seen set of the enumerations. */
  function Merge<T(==)>(out: seq<T>, more: seq<T>): seq<T>
    decreases |more|
  {
    if more == [] then out
    else Merge(if more[0] in out then out else out + [more[0]], more[1..])
  }

  lemma {:induction false} MergeHas<T>(out: seq<T>, more: seq<T>, x: T)
    ensures x in Merge(out, more) <==> x in out || x in more
    decreases |more|
  {
    if more != [] {
      MergeHas(if more[0] in out then out else out + [more[0]], more[1..], x);
      assert more == [more[0]] + more[1..];
    }
  }

  lemma {:induction false} MergeNoRepeats<T>(out: seq<T>, more: seq<T>)
    requires NoRepeats(out)
    ensures NoRepeats(Merge(out, more))
    decreases |more|
  {
    if more != [] {
      MergeNoRepeats(if more[0] in out then out else out + [more[0]], more[1..]);
    }
  }

  lemma {:induction false} MergeConcat<T>(out: seq<T>, a: seq<T>, b: seq<T>)
    ensures Merge(out, a + b) == Merge(Merge(out, a), b)
    decreases |a|
  {
    if a == [] {
      assert a + b == b;
    } else {
      MergeConcat(if a[0] in out then out else out + [a[0]], a[1..], b);
      assert (a + b)[1..] == a[1..] + b;
    }
  }

  lemma MergeThree<T>(out: seq<T>, a: seq<T>, b: seq<T>, c: seq<T>)
    ensures Merge(out, (a + b) + c) == Merge(Merge(out, a), b + c)
  {
    assert (a + b) + c == a + (b + c);
    MergeConcat(out, a, b + c);
  }

  function Filter<T(!new)>(s: seq<T>, keep: T -> bool): seq<T> {
    if s == [] then []
    else
      var n := |s| - 1;
      Filter(s[..n], keep) + (if keep(s[n]) then [s[n]] else [])
  }

  lemma {:induction false} FilterHas<T(!new)>(s: seq<T>, keep: T -> bool)
    ensures forall x :: x in Filter(s, keep) <==> x in s && keep(x)
  {
    if s != [] {
      FilterHas(s[..|s| - 1], keep);
      assert s == s[..|s| - 1] + [s[|s| - 1]];
    }
  }

  lemma {:induction false} FilterNoRepeats<T(!new)>(s: seq<T>, keep: T -> bool)
    requires NoRepeats(s)
    ensures NoRepeats(Filter(s, keep))
  {
    if s != [] {
      var n := |s| - 1;
      FilterNoRepeats(s[..n], keep);
      FilterHas(s[..n], keep);
      NoRepeatsConcat(Filter(s[..n], keep), if keep(s[n]) then [s[n]] else []);
    }
  }

  lemma FilterNext<T(!new)>(s: seq<T>, keep: T -> bool, i: nat)
    requires i < |s|
    ensures Filter(s[..i + 1], keep) == Filter(s[..i], keep) + (if keep(s[i]) then [s[i]] else [])
  {
    assert s[..i + 1][..i] == s[..i];
  }

  lemma {:induction false} FilterPrefix<T(!new)>(s: seq<T>, keep: T -> bool, i: nat)
    requires i <= |s|
    ensures Filter(s[..i], keep) <= Filter(s, keep)
  {
    if i < |s| {
      FilterPrefix(s[..|s| - 1], keep, i);
      assert s[..|s| - 1][..i] == s[..i];
    } else {
      assert s[..i] == s;
    }
  }

  /** The list that a loop builds by extending it with f of each element. */
  function FlatMap<A, B>(f: A -> seq<B>, s: seq<A>): seq<B> {
    if s == [] then []
    else FlatMap(f, s[..|s| - 1]) + f(s[|s| - 1])
  }

  method Collect<A, B>(f: A -> seq<B>, s: seq<A>) returns (out: seq<B>)
    ensures out == FlatMap(f, s)
  {
    out := [];
    for i := 0 to |s|
      invariant out == FlatMap(f, s[..i])
    {
      assert s[..i + 1][..i] == s[..i];
      out := out + f(s[i]);
    }
    assert s[..|s|] == s;
  }

  lemma FlatMapPush<A, B>(f: A -> seq<B>, s: seq<A>, x: A)
    ensures FlatMap(f, s + [x]) == FlatMap(f, s) + f(x)
  {
  }

  lemma FlatMapOne<A, B>(f: A -> seq<B>, x: A)
    ensures FlatMap(f, [x]) == f(x)
  {
    assert [x][..0] == [];
  }

  lemma FlatMapPushTwo<A, B>(f: A -> seq<B>, s: seq<A>, x: A, y: A, out: seq<B>)
    requires f(x) + f(y) == out
    ensures FlatMap(f, s + [x, y]) == FlatMap(f, s) + out
  {
    FlatMapPush(f, s, x);
    FlatMapPush(f, s + [x], y);
    assert s + [x, y] == s + [x] + [y];
  }

  lemma {:induction false} FlatMapConcat<A, B>(f: A -> seq<B>, a: seq<A>, b: seq<A>)
    ensures FlatMap(f, a + b) == FlatMap(f, a) + FlatMap(f, b)
  {
    if b == [] {
      assert a + b == a;
    } else {
      var n := |b| - 1;
      FlatMapConcat(f, a, b[..n]);
      assert (a + b)[..|a + b| - 1] == a + b[..n];
    }
  }

  lemma {:induction false} FlatMapSame<A>(f: A -> seq<A>, s: seq<A>)
    requires forall i :: 0 <= i < |s| ==> f(s[i]) == [s[i]]
    ensures FlatMap(f, s) == s
  {
    if s != [] {
      var n := |s| - 1;
      FlatMapSame(f, s[..n]);
      assert s == s[..n] + [s[n]];
    }
  }

  lemma {:induction false} FlatMapNone<A, B>(f: A -> seq<B>, s: seq<A>)
    requires forall i :: 0 <= i < |s| ==> f(s[i]) == []
    ensures FlatMap(f, s) == []
  {
    if s != [] {
      FlatMapNone(f, s[..|s| - 1]);
    }
  }

  lemma {:induction false} FlatMapHas<A, B>(f: A -> seq<B>, s: seq<A>, a: A, b: B)
    requires a in s && b in f(a)
    ensures b in FlatMap(f, s)
  {
    var n := |s| - 1;
    if a in s[..n] {
      FlatMapHas(f, s[..n], a, b);
    } else {
      assert s == s[..n] + [s[n]];
    }
  }

  lemma {:induction false} FlatMapFrom<A, B>(f: A -> seq<B>, s: seq<A>, b: B) returns (a: A)
    requires b in FlatMap(f, s)
    ensures a in s && b in f(a)
  {
    var n := |s| - 1;
    if b in FlatMap(f, s[..n]) {
      a := FlatMapFrom(f, s[..n], b);
    } else {
      a := s[n];
    }
  }
}
