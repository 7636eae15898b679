/** What a sequence keeps of a kind, and what it adds up to. */
module Sequences {
  /** The elements of a kind, in order. */
  function Filter<T>(s: seq<T>, keep: T -> bool): seq<T> {
    if |s| == 0 then []
    else Filter(s[..|s| - 1], keep) + if keep(s[|s| - 1]) then [s[|s| - 1]] else []
  }

  lemma FilterLast<T>(s: seq<T>, x: T, keep: T -> bool)
    ensures Filter(s + [x], keep) == Filter(s, keep) + if keep(x) then [x] else []
  {
    assert (s + [x])[..|s|] == s;
  }

  lemma {:induction false} FilterConcat<T>(a: seq<T>, b: seq<T>, keep: T -> bool)
    ensures Filter(a + b, keep) == Filter(a, keep) + Filter(b, keep)
  {
    if b == [] {
      assert a + b == a;
    } else {
      var n := |b| - 1;
      assert a + b == (a + b[..n]) + [b[n]];
      FilterConcat(a, b[..n], keep);
      FilterLast(a + b[..n], b[n], keep);
    }
  }

  lemma {:induction false} FilterNone<T>(s: seq<T>, keep: T -> bool)
    requires forall i :: 0 <= i < |s| ==> !keep(s[i])
    ensures Filter(s, keep) == []
  {
    if s != [] { FilterNone(s[..|s| - 1], keep); }
  }

  lemma {:induction false} FilterIs<T>(s: seq<T>, keep: T -> bool)
    ensures forall i :: 0 <= i < |Filter(s, keep)| ==> keep(Filter(s, keep)[i])
  {
    if s != [] { FilterIs(s[..|s| - 1], keep); }
  }

  lemma {:induction false} FilterAll<T>(s: seq<T>, keep: T -> bool)
    requires forall i :: 0 <= i < |s| ==> keep(s[i])
    ensures Filter(s, keep) == s
  {
    if s != [] { FilterAll(s[..|s| - 1], keep); }
  }

  lemma {:induction false} FilterAround<T>(before: seq<T>, x: T, after: seq<T>, keep: T -> bool)
    ensures Filter((before + [x]) + after, keep) == Filter(before, keep) + (if keep(x) then [x] else []) + Filter(after, keep)
    ensures Filter(before + after, keep) == Filter(before, keep) + Filter(after, keep)
  {
    FilterConcat(before + [x], after, keep);
    FilterLast(before, x, keep);
    FilterConcat(before, after, keep);
  }

  lemma SplitAt<T>(s: seq<T>, k: nat)
    requires k < |s|
    ensures s == (s[..k] + [s[k]]) + s[k + 1..]
  {
  }

  lemma FilterFirst<T>(x: T, s: seq<T>, keep: T -> bool)
    ensures Filter([x] + s, keep) == (if keep(x) then [x] else []) + Filter(s, keep)
  {
    FilterConcat([x], s, keep);
    assert [x] == [] + [x];
    FilterLast([], x, keep);
  }

  lemma {:induction false} FilterIn<T>(s: seq<T>, keep: T -> bool)
    ensures forall x :: x in Filter(s, keep) ==> x in s
  {
    if s != [] {
      FilterIn(s[..|s| - 1], keep);
      forall x | x in Filter(s, keep) ensures x in s {
        assert x in Filter(s[..|s| - 1], keep) || x == s[|s| - 1];
      }
    }
  }

  /** The total of a sequence. */
  function Sum<T, M>(s: seq<T>, each: T -> multiset<M>): multiset<M> {
    if |s| == 0 then multiset{} else Sum(s[..|s| - 1], each) + each(s[|s| - 1])
  }

  lemma SumLast<T, M>(s: seq<T>, x: T, each: T -> multiset<M>)
    ensures Sum(s + [x], each) == Sum(s, each) + each(x)
  {
    assert (s + [x])[..|s|] == s;
  }

  lemma {:induction false} SumConcat<T, M>(a: seq<T>, b: seq<T>, each: T -> multiset<M>)
    ensures Sum(a + b, each) == Sum(a, each) + Sum(b, each)
  {
    if b == [] {
      assert a + b == a;
    } else {
      var n := |b| - 1;
      assert a + b == (a + b[..n]) + [b[n]];
      SumConcat(a, b[..n], each);
      SumLast(a + b[..n], b[n], each);
    }
  }

  lemma Swap<M>(a: multiset<M>, b: multiset<M>, c: multiset<M>)
    ensures (a + b) + c == (a + c) + b
  {
  }

  lemma {:induction false} SumWithout<T, M>(s: seq<T>, k: nat, each: T -> multiset<M>)
    requires k < |s|
    ensures Sum(s, each) == Sum(s[..k] + s[k + 1..], each) + each(s[k])
  {
    SplitAt(s, k);
    SumAround(s[..k], s[k], s[k + 1..], each);
  }

  lemma {:induction false} SumAround<T, M>(before: seq<T>, x: T, after: seq<T>, each: T -> multiset<M>)
    ensures Sum((before + [x]) + after, each) == Sum(before + after, each) + each(x)
  {
    SumConcat(before, after, each);
    SumLast(before, x, each);
    SumConcat(before + [x], after, each);
    Swap(Sum(before, each), each(x), Sum(after, each));
  }

  /** An element that gives up `gone` takes it off the total. */
  lemma {:induction false} SumUpdate<T, M>(s: seq<T>, k: nat, x: T, gone: multiset<M>, each: T -> multiset<M>)
    requires k < |s| && each(s[k]) == each(x) + gone
    ensures Sum(s, each) == Sum(s[k := x], each) + gone
  {
    SplitAt(s, k);
    SplitAt(s[k := x], k);
    SumAround(s[..k], s[k], s[k + 1..], each);
    SumAround(s[..k], x, s[k + 1..], each);
    assert s[k := x][..k] == s[..k] && s[k := x][k + 1..] == s[k + 1..];
  }

  lemma {:induction false} SumSame<T, M>(a: seq<T>, b: seq<T>, each: T -> multiset<M>)
    requires |a| == |b| && forall i :: 0 <= i < |a| ==> each(a[i]) == each(b[i])
    ensures Sum(a, each) == Sum(b, each)
    decreases |a|
  {
    if a != [] { SumSame(a[..|a| - 1], b[..|b| - 1], each); }
  }
}
