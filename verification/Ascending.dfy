/** Strictly increasing sequences are determined by their members. */
module Ascending {

  ghost predicate Increasing(s: seq<int>) { forall j, k :: 0 <= j < k < |s| ==> s[j] < s[k] }

  lemma LastIsGreatest(s: seq<int>)
    requires Increasing(s) && s != []
    ensures forall i :: i in s ==> i <= s[|s| - 1]
    ensures forall i :: i in s[..|s| - 1] <==> i in s && i != s[|s| - 1]
  {
    var init, last := s[..|s| - 1], s[|s| - 1];
    assert s == init + [last];
  }

  lemma {:induction false} IncreasingUnique(s: seq<int>, t: seq<int>)
    requires Increasing(s) && Increasing(t)
    requires forall i :: i in s <==> i in t
    ensures s == t
    decreases |s|
  {
    assert |t| == 0 || t[0] in t;
    if s != [] {
      var x := s[|s| - 1];
      assert x in s;
      assert x in t;
      var y := t[|t| - 1];
      assert y in t;
      assert y in s;
      LastIsGreatest(s);
      LastIsGreatest(t);
      assert x == y;
      var s', t' := s[..|s| - 1], t[..|t| - 1];
      forall i ensures i in s' <==> i in t' {
        assert (i in s' <==> i in s && i != x) && (i in t' <==> i in t && i != x);
      }
      IncreasingUnique(s', t');
      assert s == s' + [x] && t == t' + [x];
    }
  }

  lemma ConsIncreasing(x: int, xs: seq<int>)
    ensures Increasing([x] + xs) <==> Increasing(xs) && forall i :: i in xs ==> x < i
  {
    var s := [x] + xs;
    if Increasing(s) {
      forall j, k | 0 <= j < k < |xs| ensures xs[j] < xs[k] {
        assert s[j + 1] < s[k + 1];
      }
      forall i | i in xs ensures x < i {
        var k :| 0 <= k < |xs| && xs[k] == i;
        assert s[0] < s[k + 1];
      }
    }
    if Increasing(xs) && forall i :: i in xs ==> x < i {
      forall j, k | 0 <= j < k < |s| ensures s[j] < s[k] {
        assert s[k] == xs[k - 1] && xs[k - 1] in xs;
        if j > 0 { assert s[j] == xs[j - 1]; }
      }
    }
  }
}
