/** Sequences filtered by a set of members. */
module Sequences {

  /** s without the members of gone, in order. */
  function Without<T(==)>(s: seq<T>, gone: set<T>): seq<T> {
    if s == [] then []
    else Without(s[..|s| - 1], gone) + (if s[|s| - 1] in gone then [] else [s[|s| - 1]])
  }

  lemma {:induction false} WithoutMembers<T>(s: seq<T>, gone: set<T>)
    ensures forall x :: x in Without(s, gone) <==> x in s && x !in gone
  {
    if s != [] {
      WithoutMembers(s[..|s| - 1], gone);
      assert s == s[..|s| - 1] + [s[|s| - 1]];
    }
  }

  lemma {:induction false} WithoutNone<T>(s: seq<T>, gone: set<T>)
    requires forall x :: x in s ==> x !in gone
    ensures Without(s, gone) == s
  {
    if s != [] {
      assert s == s[..|s| - 1] + [s[|s| - 1]];
      WithoutNone(s[..|s| - 1], gone);
    }
  }

  lemma {:induction false} WithoutTwice<T>(s: seq<T>, a: set<T>, b: set<T>)
    ensures Without(Without(s, a), b) == Without(s, a + b)
  {
    if s != [] {
      var front, last := s[..|s| - 1], s[|s| - 1];
      WithoutTwice(front, a, b);
      if last !in a {
        var w := Without(front, a) + [last];
        assert w[..|w| - 1] == Without(front, a);
      } else {
        assert Without(s, a) == Without(front, a);
      }
    }
  }

  /** Erasing one position of a list of distinct members. */
  lemma {:induction false} EraseIsWithout<T>(s: seq<T>, i: nat)
    requires i < |s| && forall j, k :: 0 <= j < k < |s| ==> s[j] != s[k]
    ensures s[..i] + s[i + 1..] == Without(s, {s[i]})
  {
    var n := |s| - 1;
    if i == n {
      WithoutNone(s[..n], {s[n]});
    } else {
      var front := s[..n];
      EraseIsWithout(front, i);
      assert front[..i] == s[..i];
      assert front[i + 1..] + [s[n]] == s[i + 1..];
    }
  }

  lemma {:induction false} WithoutDistinct<T>(s: seq<T>, gone: set<T>)
    requires forall i, j :: 0 <= i < j < |s| ==> s[i] != s[j]
    ensures forall i, j :: 0 <= i < j < |Without(s, gone)| ==> Without(s, gone)[i] != Without(s, gone)[j]
  {
    if s != [] {
      var n := |s| - 1;
      WithoutDistinct(s[..n], gone);
      WithoutMembers(s[..n], gone);
      var w := Without(s[..n], gone);
      forall i | 0 <= i < |w| ensures w[i] != s[n] {
        assert w[i] in w;
      }
    }
  }
}
