/** Sequence facts shared by every `filter` in the model. */
module Seqs {
  import opened Wrappers

  /** `a` is `b` with some elements left out and the rest kept in order. */
  predicate IsSubsequence<T(==)>(a: seq<T>, b: seq<T>)
    decreases |b|
  {
    if a == [] then true
    else if b == [] then false
    else if a[0] == b[0] then IsSubsequence(a[1..], b[1..])
    else IsSubsequence(a, b[1..])
  }

  lemma {:induction false} SubsequenceOfSelf<T>(a: seq<T>)
    ensures IsSubsequence(a, a)
    decreases |a|
  {
    if a != [] {
      SubsequenceOfSelf(a[1..]);
    }
  }

  /** Dropping the head of `b` keeps a subsequence of its tail a subsequence of `b`. */
  lemma {:induction false} SubsequenceCons<T>(a: seq<T>, x: T, b: seq<T>)
    requires IsSubsequence(a, b)
    ensures IsSubsequence(a, [x] + b)
    ensures IsSubsequence([x] + a, [x] + b)
  {
    assert ([x] + a)[1..] == a;
    assert ([x] + b)[1..] == b;
    if a != [] && a[0] == x {
      SubsequenceWeaken(a, b);
    }
  }

  /** A subsequence of `b` stays one after dropping its first element. */
  lemma {:induction false} SubsequenceWeaken<T>(a: seq<T>, b: seq<T>)
    requires a != [] && IsSubsequence(a, b)
    ensures IsSubsequence(a[1..], b)
    decreases |b|
  {
    if a[0] == b[0] {
      if a[1..] != [] && a[1..][0] != b[0] {
        assert IsSubsequence(a[1..], b[1..]);
      } else if a[1..] != [] {
        SubsequenceWeaken(a[1..], b[1..]);
      }
    } else {
      SubsequenceWeaken(a, b[1..]);
      if a[1..] != [] && a[1..][0] == b[0] {
        SubsequenceWeaken(a[1..], b[1..]);
      }
    }
  }

  /** Every element of a subsequence is an element of the sequence. */
  lemma {:induction false} SubsequenceMembers<T>(a: seq<T>, b: seq<T>)
    requires IsSubsequence(a, b)
    ensures forall x :: x in a ==> x in b
    decreases |b|
  {
    if a != [] {
      assert b == [b[0]] + b[1..];
      if a[0] == b[0] {
        SubsequenceMembers(a[1..], b[1..]);
        assert a == [a[0]] + a[1..];
      } else {
        SubsequenceMembers(a, b[1..]);
      }
    }
  }

  /** `s.filter(p)`: the elements satisfying `p`, in their original order. */
  function Filter<T(!new)>(s: seq<T>, p: T -> bool): (r: seq<T>)
    ensures forall x :: x in r <==> x in s && p(x)
    ensures IsSubsequence(r, s)
    decreases |s|
  {
    if s == [] then []
    else
      var rest := Filter(s[1..], p);
      assert s == [s[0]] + s[1..];
      SubsequenceCons(rest, s[0], s[1..]);
      if p(s[0]) then [s[0]] + rest else rest
  }

  /** The filter keeps every element satisfying `p` as often as it occurs, so it removes exactly the others. */
  lemma {:induction false} FilterMultiplicity<T(!new)>(s: seq<T>, p: T -> bool, x: T)
    requires p(x)
    ensures multiset(Filter(s, p))[x] == multiset(s)[x]
    decreases |s|
  {
    if s != [] {
      FilterMultiplicity(s[1..], p, x);
      assert s == [s[0]] + s[1..];
      assert multiset(s) == multiset{s[0]} + multiset(s[1..]);
    }
  }

  /** Nothing is dropped when every element satisfies `p`. */
  lemma {:induction false} FilterKeepsAll<T(!new)>(s: seq<T>, p: T -> bool)
    requires forall k :: 0 <= k < |s| ==> p(s[k])
    ensures Filter(s, p) == s
    decreases |s|
  {
    if s != [] {
      FilterKeepsAll(s[1..], p);
      assert s == [s[0]] + s[1..];
    }
  }

  /** Nothing is kept when no element satisfies `p`. */
  lemma {:induction false} FilterNone<T(!new)>(s: seq<T>, p: T -> bool)
    requires forall k :: 0 <= k < |s| ==> !p(s[k])
    ensures Filter(s, p) == []
    decreases |s|
  {
    if s != [] {
      FilterNone(s[1..], p);
    }
  }

  /** Two tests that agree on every element filter alike. */
  lemma {:induction false} FilterSameOn<T(!new)>(s: seq<T>, p: T -> bool, q: T -> bool)
    requires forall k :: 0 <= k < |s| ==> p(s[k]) == q(s[k])
    ensures Filter(s, p) == Filter(s, q)
    decreases |s|
  {
    if s != [] {
      FilterSameOn(s[1..], p, q);
    }
  }

  /** Filtering never lengthens a sequence. */
  lemma {:induction false} FilterShrinks<T(!new)>(s: seq<T>, p: T -> bool)
    ensures |Filter(s, p)| <= |s|
    decreases |s|
  {
    if s != [] {
      FilterShrinks(s[1..], p);
    }
  }

  /** `s.findIndex(p)`, with `None` for -1: the first position whose element satisfies `p`. */
  function FirstIndex<T>(s: seq<T>, p: T -> bool): (r: Option<nat>)
    ensures r.Some? ==> r.value < |s| && p(s[r.value])
    ensures r.Some? ==> forall j :: 0 <= j < r.value ==> !p(s[j])
    ensures r.None? <==> forall j :: 0 <= j < |s| ==> !p(s[j])
    decreases |s|
  {
    if s == [] then None
    else if p(s[0]) then Some(0)
    else match FirstIndex(s[1..], p)
      case None => None
      case Some(k) => Some(k + 1)
  }

  /** The first position is the one position that satisfies `p` with none before it. */
  lemma FirstIndexIs<T>(s: seq<T>, p: T -> bool, i: nat)
    requires i < |s| && p(s[i])
    requires forall j :: 0 <= j < i ==> !p(s[j])
    ensures FirstIndex(s, p) == Some(i)
  {
    var r := FirstIndex(s, p);
    assert r.Some?;
    assert !(r.value < i);
    assert !(r.value > i);
  }

  /** Appending elements never moves a position that is already found. */
  lemma FirstIndexAppendHit<T>(s: seq<T>, t: seq<T>, p: T -> bool)
    requires FirstIndex(s, p).Some?
    ensures FirstIndex(s + t, p) == FirstIndex(s, p)
  {
    var i := FirstIndex(s, p).value;
    var all := s + t;
    assert forall j :: 0 <= j <= i ==> all[j] == s[j];
    FirstIndexIs(all, p, i);
  }

  /** When nothing in `s` satisfies `p`, the search in `s + t` is the search in `t`, shifted by `|s|`. */
  lemma FirstIndexAppendMiss<T>(s: seq<T>, t: seq<T>, p: T -> bool)
    requires FirstIndex(s, p).None?
    ensures FirstIndex(t, p).None? ==> FirstIndex(s + t, p).None?
    ensures FirstIndex(t, p).Some? ==> FirstIndex(s + t, p) == Some(|s| + FirstIndex(t, p).value)
  {
    if FirstIndex(t, p).Some? {
      FirstIndexShifted(s, t, p, FirstIndex(t, p).value);
    } else {
      FirstIndexNeither(s, t, p);
    }
  }

  lemma FirstIndexShifted<T>(s: seq<T>, t: seq<T>, p: T -> bool, k: nat)
    requires FirstIndex(s, p).None? && FirstIndex(t, p) == Some(k)
    ensures FirstIndex(s + t, p) == Some(|s| + k)
  {
    var all := s + t;
    forall j | 0 <= j < |s| + k ensures !p(all[j]) {
      if j < |s| {
        assert all[j] == s[j];
      } else {
        assert all[j] == t[j - |s|];
      }
    }
    assert all[|s| + k] == t[k];
    FirstIndexIs(all, p, |s| + k);
  }

  lemma FirstIndexNeither<T>(s: seq<T>, t: seq<T>, p: T -> bool)
    requires FirstIndex(s, p).None? && FirstIndex(t, p).None?
    ensures FirstIndex(s + t, p).None?
  {
    var all := s + t;
    forall j | 0 <= j < |all| ensures !p(all[j]) {
      if j < |s| {
        assert all[j] == s[j];
      } else {
        assert all[j] == t[j - |s|];
      }
    }
  }
}
