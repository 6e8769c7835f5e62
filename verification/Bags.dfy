/** All rules of a keyed collection that satisfy a predicate, with their
    multiplicity and without an order: map iteration has none. */
module Bags {
  import opened Rules

  type RuleMap = map<string, seq<Rule>>

  function At(m: RuleMap, k: string): seq<Rule> {
    if k in m then m[k] else []
  }

  ghost function Pick(m: RuleMap): (k: string)
    requires m.Keys != {}
    ensures k in m
  {
    var k :| k in m.Keys;
    k
  }

  function Without(m: RuleMap, k: string): (m': RuleMap)
    ensures m'.Keys == m.Keys - {k}
    ensures k in m ==> |m'.Keys| < |m.Keys|
  {
    var m' := m - {k};
    assert m'.Keys == m.Keys - {k};
    m'
  }

  function Sel(rs: seq<Rule>, p: Rule -> bool): multiset<Rule> { multiset(Select(rs, p)) }

  ghost function Bag(m: RuleMap, p: Rule -> bool): multiset<Rule>
    decreases |m.Keys|
  {
    if m.Keys == {} then multiset{} else Sel(m[Pick(m)], p) + Bag(Without(m, Pick(m)), p)
  }

  /** Which key is taken out first does not matter. */
  lemma {:induction false} BagTake(m: RuleMap, k: string, p: Rule -> bool)
    requires k in m
    ensures Bag(m, p) == Sel(m[k], p) + Bag(Without(m, k), p)
    decreases |m.Keys|
  {
    var k0 := Pick(m);
    if k != k0 {
      var rest := Without(Without(m, k), k0);
      assert Without(Without(m, k0), k) == rest;
      calc {
        Bag(m, p);
        Sel(m[k0], p) + Bag(Without(m, k0), p);
        { BagTake(Without(m, k0), k, p); }
        Sel(m[k0], p) + (Sel(m[k], p) + Bag(rest, p));
        Sel(m[k], p) + (Sel(m[k0], p) + Bag(rest, p));
        { BagTake(Without(m, k), k0, p); }
        Sel(m[k], p) + Bag(Without(m, k), p);
      }
    }
  }

  lemma BagPut(m: RuleMap, k: string, rs: seq<Rule>, p: Rule -> bool)
    ensures Bag(m[k := rs], p) + Sel(At(m, k), p) == Bag(m, p) + Sel(rs, p)
  {
    assert Without(m[k := rs], k) == Without(m, k);
    var rest := BagSplit(m, k, p);
    var rest' := BagSplit(m[k := rs], k, p);
    Exchange(Bag(m, p), Bag(m[k := rs], p), Sel(At(m, k), p), Sel(rs, p), rest);
  }

  lemma Exchange(a: multiset<Rule>, b: multiset<Rule>, x: multiset<Rule>, y: multiset<Rule>, rest: multiset<Rule>)
    requires a == x + rest && b == y + rest
    ensures b + x == a + y
  {
  }

  /** The bag without one key, present or not. */
  lemma BagSplit(m: RuleMap, k: string, p: Rule -> bool) returns (rest: multiset<Rule>)
    ensures rest == Bag(Without(m, k), p)
    ensures Bag(m, p) == Sel(At(m, k), p) + rest
  {
    rest := Bag(Without(m, k), p);
    if k in m {
      BagTake(m, k, p);
    } else {
      assert Without(m, k) == m;
      assert Sel(At(m, k), p) == multiset{};
    }
  }

  ghost predicate InMap(m: RuleMap, r: Rule) {
    exists k :: k in m && r in m[k]
  }

  lemma {:induction false} BagMembers(m: RuleMap, p: Rule -> bool, r: Rule)
    ensures r in Bag(m, p) <==> InMap(m, r) && p(r)
    decreases |m.Keys|
  {
    if m.Keys != {} {
      var k := Pick(m);
      BagTake(m, k, p);
      BagMembers(Without(m, k), p, r);
      assert r in Select(m[k], p) <==> r in m[k] && p(r);
      if InMap(m, r) && r !in m[k] {
        var k' :| k' in m && r in m[k'];
        assert k' in Without(m, k);
      }
    }
  }

  lemma {:induction false} BagEq(m: RuleMap, p: Rule -> bool, q: Rule -> bool)
    requires forall k :: k in m ==> forall r :: r in m[k] ==> p(r) == q(r)
    ensures Bag(m, p) == Bag(m, q)
    decreases |m.Keys|
  {
    if m.Keys != {} {
      var k := Pick(m);
      BagTake(m, k, p);
      BagTake(m, k, q);
      SelectEq(m[k], p, q);
      BagEq(Without(m, k), p, q);
    }
  }

  lemma {:induction false} BagDisjoint(m: RuleMap, p: Rule -> bool, q: Rule -> bool, either: Rule -> bool)
    requires forall r :: !(p(r) && q(r)) && (either(r) <==> p(r) || q(r))
    ensures Bag(m, p) + Bag(m, q) == Bag(m, either)
    decreases |m.Keys|
  {
    if m.Keys != {} {
      var k := Pick(m);
      BagTake(m, k, p);
      BagTake(m, k, q);
      BagTake(m, k, either);
      SelectDisjoint(m[k], p, q, either);
      BagDisjoint(Without(m, k), p, q, either);
    }
  }
}
