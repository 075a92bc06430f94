/** Order-preserving filtering of sequences (JavaScript's `Array.prototype.filter`)
    and the facts about it that the store's list rewrites rely on. */
module Seqs {

  /** `a` is obtained from `b` by deleting elements, keeping the order of the rest. */
  ghost predicate IsSubsequence<T>(a: seq<T>, b: seq<T>)
    decreases |b|
  {
    || a == []
    || (b != [] && ((a[0] == b[0] && IsSubsequence(a[1..], b[1..])) || IsSubsequence(a, b[1..])))
  }

  /** No label occurs twice. */
  ghost predicate NoDuplicates<T>(s: seq<T>) {
    forall i, j :: 0 <= i < j < |s| ==> s[i] != s[j]
  }

  /** `s.filter(p)`: the elements of `s` that satisfy `p`, in their original order. */
  function Filter<T>(s: seq<T>, p: T -> bool): (r: seq<T>)
    ensures |r| <= |s|
    ensures forall i :: 0 <= i < |r| ==> r[i] in s && p(r[i])
    ensures forall i :: 0 <= i < |s| && p(s[i]) ==> s[i] in r
  {
    if s == [] then [] else (if p(s[0]) then [s[0]] else []) + Filter(s[1..], p)
  }

  lemma {:induction false} FilterIsSubsequence<T>(s: seq<T>, p: T -> bool)
    ensures IsSubsequence(Filter(s, p), s)
  {
    if s != [] {
      FilterIsSubsequence(s[1..], p);
      var r := Filter(s, p);
      if p(s[0]) {
        assert r[0] == s[0] && r[1..] == Filter(s[1..], p);
      } else {
        assert r == Filter(s[1..], p);
      }
    }
  }

  /** Each value kept occurs as often as in `s`; each value dropped not at all. */
  lemma {:induction false} FilterMultiplicity<T>(s: seq<T>, p: T -> bool, x: T)
    ensures multiset(Filter(s, p))[x] == if p(x) then multiset(s)[x] else 0
  {
    if s != [] {
      FilterMultiplicity(s[1..], p, x);
      FilterUnfold(s, p);
      assert s == [s[0]] + s[1..];
      assert multiset(s) == multiset([s[0]]) + multiset(s[1..]);
    }
  }

  /** Nothing is dropped when every element passes. */
  lemma {:induction false} FilterKeepsAll<T>(s: seq<T>, p: T -> bool)
    requires forall i :: 0 <= i < |s| ==> p(s[i])
    ensures Filter(s, p) == s
  {
    if s != [] {
      FilterKeepsAll(s[1..], p);
      assert s == [s[0]] + s[1..];
    }
  }

  /** Filtering again with the same predicate changes nothing. */
  lemma FilterIdempotent<T>(s: seq<T>, p: T -> bool)
    ensures Filter(Filter(s, p), p) == Filter(s, p)
  {
    var r := Filter(s, p);
    assert forall i :: 0 <= i < |r| ==> r[i] in r;
    FilterKeepsAll(r, p);
  }

  lemma {:induction false} FilterNoDuplicates<T>(s: seq<T>, p: T -> bool)
    requires NoDuplicates(s)
    ensures NoDuplicates(Filter(s, p))
  {
    if s != [] {
      FilterNoDuplicates(s[1..], p);
      var t := Filter(s[1..], p);
      if p(s[0]) {
        assert s[0] !in s[1..];
        assert s[0] !in t;
        var r := [s[0]] + t;
        forall i, j | 0 <= i < j < |r| ensures r[i] != r[j] {
          if i == 0 { assert r[j] == t[j - 1] && r[j] in t; }
        }
      }
    }
  }

  /** Filtering a non-empty sequence decides its first element, then filters the rest. */
  lemma FilterUnfold<T>(s: seq<T>, p: T -> bool)
    requires s != []
    ensures Filter(s, p) == (if p(s[0]) then [s[0]] else []) + Filter(s[1..], p)
  {
  }

  /** When exactly the element at position `i` fails the test, filtering removes
      exactly that position. */
  lemma {:induction false} FilterRemovesOnePosition<T>(s: seq<T>, i: nat, p: T -> bool)
    requires i < |s|
    requires forall j :: 0 <= j < |s| ==> (p(s[j]) <==> j != i)
    ensures Filter(s, p) == s[..i] + s[i + 1..]
  {
    var t := s[1..];
    if i == 0 {
      assert Filter(s, p) == Filter(t, p) by {
        FilterUnfold(s, p);
      }
      assert Filter(t, p) == t by {
        forall j | 0 <= j < |t| ensures p(t[j]) {
          assert t[j] == s[j + 1];
        }
        FilterKeepsAll(t, p);
      }
    } else {
      assert Filter(t, p) == t[..i - 1] + t[i..] by {
        forall j | 0 <= j < |t| ensures p(t[j]) <==> j != i - 1 {
          assert t[j] == s[j + 1];
        }
        FilterRemovesOnePosition(t, i - 1, p);
      }
      calc {
        Filter(s, p);
        { FilterUnfold(s, p); }
        [s[0]] + Filter(t, p);
        [s[0]] + (t[..i - 1] + t[i..]);
        { assert s[..i] == [s[0]] + t[..i - 1]; assert s[i + 1..] == t[i..]; }
        s[..i] + s[i + 1..];
      }
    }
  }
}
