/** Leading throttle (internal/rule/throttle.go). Times and windows are integers
    of one unit; `now` is a parameter in place of the clock. */
module Throttle {
  import opened Text
  import opened Decimals

  datatype Call = Call(key: string, window: int, at: int)

  // -------------------------------------- the map that is never swept

  predicate Free(m: map<string, int>, c: Call) { c.key !in m || m[c.key] <= c.at }

  function Record(m: map<string, int>, c: Call): map<string, int> {
    if Free(m, c) then m[c.key := c.at + c.window] else m
  }

  function After(calls: seq<Call>): map<string, int> {
    if calls == [] then map[] else Record(After(calls[..|calls| - 1]), calls[|calls| - 1])
  }

  /** Whether the `n`-th call is let through. */
  predicate Allowed(calls: seq<Call>, n: nat)
    requires n < |calls|
  {
    Free(After(calls[..n]), calls[n])
  }

  /** Call `i` is the last one before `n` let through for `key`. */
  ghost predicate LastAllowed(calls: seq<Call>, i: nat, n: nat, key: string)
    requires n <= |calls|
  {
    i < n && calls[i].key == key && Allowed(calls, i) &&
    forall j :: i < j < n && calls[j].key == key ==> !Allowed(calls, j)
  }

  function LastIndex(calls: seq<Call>, n: nat, key: string): (r: Option<nat>)
    requires n <= |calls|
    ensures r.Some? ==> r.value < n
  {
    if n == 0 then None
    else if calls[n - 1].key == key && Allowed(calls, n - 1) then Some(n - 1)
    else LastIndex(calls, n - 1, key)
  }

  lemma {:induction false} LastIndexMeaning(calls: seq<Call>, n: nat, key: string, i: nat)
    requires n <= |calls|
    ensures LastIndex(calls, n, key) == Some(i) <==> LastAllowed(calls, i, n, key)
    decreases n
  {
    if n > 0 { LastIndexMeaning(calls, n - 1, key, i); }
  }

  /** The map remembers exactly the last allowed call of each key. */
  lemma {:induction false} Remembers(calls: seq<Call>, n: nat, key: string)
    requires n <= |calls|
    ensures var m, i := After(calls[..n]), LastIndex(calls, n, key);
            (key in m <==> i.Some?) && (i.Some? ==> m[key] == calls[i.value].at + calls[i.value].window)
    decreases n
  {
    if n > 0 {
      assert calls[..n][..n - 1] == calls[..n - 1];
      Remembers(calls, n - 1, key);
    }
  }

  /** A call is let through exactly when the window opened by the last allowed
      call on its key, if there is one, is over. */
  lemma AllowedIff(calls: seq<Call>, n: nat)
    requires n < |calls|
    ensures Allowed(calls, n) <==>
            forall i :: 0 <= i < n && LastAllowed(calls, i, n, calls[n].key) ==>
              calls[i].at + calls[i].window <= calls[n].at
  {
    var key := calls[n].key;
    Remembers(calls, n, key);
    forall i: nat | i < n ensures LastIndex(calls, n, key) == Some(i) <==> LastAllowed(calls, i, n, key) {
      LastIndexMeaning(calls, n, key, i);
    }
  }

  /** Two consecutive allowed calls on a key are a window apart. */
  lemma AllowedAreSpaced(calls: seq<Call>, i: nat, n: nat)
    requires n < |calls| && Allowed(calls, n) && LastAllowed(calls, i, n, calls[n].key)
    ensures calls[n].at - calls[i].at >= calls[i].window
  {
    AllowedIff(calls, n);
  }

  /** In time order, any two allowed calls on a key are a window apart. */
  lemma {:induction false} AllowedPairsSpaced(calls: seq<Call>, i: nat, n: nat)
    requires InOrder(calls) && i < n < |calls| && calls[i].key == calls[n].key
    requires Allowed(calls, i) && Allowed(calls, n)
    ensures calls[n].at - calls[i].at >= calls[i].window
    decreases n
  {
    if m :| i < m < n && calls[m].key == calls[i].key && Allowed(calls, m) {
      AllowedPairsSpaced(calls, i, m);
    } else {
      AllowedAreSpaced(calls, i, n);
    }
  }

  // ------------------------------------------------------ independent keys

  /** The calls on keys that `mine` accepts, in order. */
  ghost function Own(calls: seq<Call>, mine: string -> bool): seq<Call> {
    if calls == [] then []
    else
      var last := calls[|calls| - 1];
      Own(calls[..|calls| - 1], mine) + if mine(last.key) then [last] else []
  }

  lemma {:induction false} OwnCallsDecide(calls: seq<Call>, mine: string -> bool, key: string)
    requires mine(key)
    ensures var all, own := After(calls), After(Own(calls, mine));
            (key in all <==> key in own) && (key in all ==> all[key] == own[key])
    decreases |calls|
  {
    if calls != [] {
      var init, last := calls[..|calls| - 1], calls[|calls| - 1];
      var own := Own(init, mine);
      OwnCallsDecide(init, mine, key);
      if mine(last.key) {
        OwnCallsDecide(init, mine, last.key);
        assert (own + [last])[..|own|] == own;
      } else {
        assert own + [] == own;
      }
    }
  }

  /** A call is answered as if only the calls on its own kind of key existed. */
  lemma OthersDoNotMatter(calls: seq<Call>, n: nat, mine: string -> bool)
    requires n < |calls| && mine(calls[n].key)
    ensures var own := Own(calls[..n + 1], mine);
            own != [] && own[|own| - 1] == calls[n] && (Allowed(calls, n) <==> Allowed(own, |own| - 1))
  {
    var before := Own(calls[..n], mine);
    assert calls[..n + 1][..n] == calls[..n];
    assert Own(calls[..n + 1], mine) == before + [calls[n]];
    assert (before + [calls[n]])[..|before|] == before;
    OwnCallsDecide(calls[..n], mine, calls[n].key);
  }

  // ------------------------------------------------------ the swept map

  const SWEEP_INTERVAL: int := 300_000_000_000

  predicate InOrder(calls: seq<Call>) {
    forall i, j :: 0 <= i < j < |calls| ==> calls[i].at <= calls[j].at
  }

  class ThrottleManager {
    var expiry: map<string, int>
    var lastSweep: int
    ghost var calls: seq<Call>

    /** Only entries that are over are missing from the never-swept map. */
    ghost predicate Valid()
      reads this
    {
      InOrder(calls) && Sound(calls, expiry)
    }

    constructor (now: int)
      ensures Valid() && calls == []
    {
      expiry, lastSweep, calls := map[], now, [];
    }

    /** Answers as if nothing were ever swept. */
    method Allow(key: string, window: int, now: int) returns (ok: bool)
      requires Valid() && (calls != [] ==> calls[|calls| - 1].at <= now)
      modifies this
      ensures Valid() && calls == old(calls) + [Call(key, window, now)]
      ensures ok == Allowed(calls, |calls| - 1)
    {
      SweepExpired(now);
      ghost var before, call := calls, Call(key, window, now);
      calls := calls + [call];
      SoundStep(before, expiry, call);
      if key in expiry && now < expiry[key] {
        return false;
      }
      expiry := expiry[key := now + window];
      return true;
    }

    method SweepExpired(now: int)
      requires Valid() && (calls != [] ==> calls[|calls| - 1].at <= now)
      modifies this`expiry, this`lastSweep
      ensures SoundAt(calls, expiry, now)
      ensures expiry == if now - old(lastSweep) < SWEEP_INTERVAL then old(expiry)
                        else map k | k in old(expiry) && now < old(expiry)[k] :: old(expiry)[k]
      ensures lastSweep == if now - old(lastSweep) < SWEEP_INTERVAL then old(lastSweep) else now
    {
      if now - lastSweep < SWEEP_INTERVAL {
        return;
      }
      var rest := expiry.Keys;
      while rest != {}
        invariant rest <= expiry.Keys <= old(expiry).Keys
        invariant forall k :: k in expiry ==> expiry[k] == old(expiry)[k]
        invariant forall k :: k in old(expiry) ==> (k in expiry <==> k in rest || now < old(expiry)[k])
        decreases |rest|
      {
        var k :| k in rest;
        if expiry[k] <= now {
          expiry := expiry - {k};
        }
        rest := rest - {k};
      }
      lastSweep := now;
    }
  }

  ghost predicate SoundAt(calls: seq<Call>, expiry: map<string, int>, now: int) {
    (forall k :: k in expiry ==> k in After(calls) && After(calls)[k] == expiry[k]) &&
    (forall k :: k in After(calls) && k !in expiry ==> After(calls)[k] <= now)
  }

  ghost predicate Sound(calls: seq<Call>, expiry: map<string, int>) {
    if calls == [] then expiry == map[] else SoundAt(calls, expiry, calls[|calls| - 1].at)
  }

  lemma SoundStep(calls: seq<Call>, expiry: map<string, int>, c: Call)
    requires InOrder(calls) && SoundAt(calls, expiry, c.at)
    requires calls != [] ==> calls[|calls| - 1].at <= c.at
    ensures var more := calls + [c];
            InOrder(more) && (Allowed(more, |calls|) <==> Free(expiry, c)) && Sound(more, Record(expiry, c))
  {
    var more := calls + [c];
    assert more[..|calls|] == calls;
    assert After(more) == Record(After(calls), c);
  }

  // ------------------------------------------------------------ throttle keys

  /** A rule's throttle phase: "t" for its trigger, "a" for its action. */
  datatype Phase = Trigger | Action

  function PhaseName(p: Phase): string { if p == Trigger then "t" else "a" }

  function ThrottleKey(phase: Phase, ruleIndex: nat, resolvedKey: string): string {
    PhaseName(phase) + [':'] + (Decimal(ruleIndex) + [':'] + resolvedKey)
  }

  lemma ThrottleKeyInjective(p: Phase, i: nat, k: string, p': Phase, i': nat, k': string)
    requires ThrottleKey(p, i, k) == ThrottleKey(p', i', k')
    ensures p == p' && i == i' && k == k'
  {
    var s := ThrottleKey(p, i, k);
    var t, t' := Decimal(i) + [':'] + k, Decimal(i') + [':'] + k';
    assert s[0] == PhaseName(p)[0] == PhaseName(p')[0];
    assert s[2..] == t == t';
    IndexOfAfter(Decimal(i), ':', k);
    IndexOfAfter(Decimal(i'), ':', k');
    assert t[..IndexOf(t, ':')] == Decimal(i) == Decimal(i');
    assert t[IndexOf(t, ':') + 1..] == k == k';
    DecimalValue(i);
    DecimalValue(i');
  }

  lemma ThrottleKeyExamples()
    ensures ThrottleKey(Trigger, 3, "sensors") == "t:3:sensors" && ThrottleKey(Action, 3, "") == "a:3:"
  {
    assert Decimal(3) == "3";
  }

  /** The keys of one rule, of either phase. */
  ghost predicate OfRule(key: string, ruleIndex: nat) {
    exists phase, k :: key == ThrottleKey(phase, ruleIndex, k)
  }

  lemma OfRuleIff(phase: Phase, i: nat, k: string, j: nat)
    ensures OfRule(ThrottleKey(phase, i, k), j) <==> i == j
  {
    if OfRule(ThrottleKey(phase, i, k), j) {
      var phase', k' :| ThrottleKey(phase, i, k) == ThrottleKey(phase', j, k');
      ThrottleKeyInjective(phase, i, k, phase', j, k');
    }
  }

  /** Whatever the other rules ask in between, a rule's throttles answer as if
      it were alone. */
  lemma RulesDoNotInterfere(calls: seq<Call>, n: nat, ruleIndex: nat)
    requires n < |calls| && OfRule(calls[n].key, ruleIndex)
    ensures var own := Own(calls[..n + 1], key => OfRule(key, ruleIndex));
            own != [] && own[|own| - 1] == calls[n] && (Allowed(calls, n) <==> Allowed(own, |own| - 1))
  {
    OthersDoNotMatter(calls, n, key => OfRule(key, ruleIndex));
  }

  // ---------------------------------------------------------- rule numbering

  class LoadedRule {
    var index: nat
    constructor ()
      ensures index == 0
    {
      index := 0;
    }
  }

  /** Numbering of KV-loaded rules (internal/rule/processor.go:521-554). `known`
      are the rules of every set installed so far. */
  class Numbering {
    var kvRuleSeq: nat
    var current: seq<LoadedRule>
    ghost var known: set<LoadedRule>

    constructor ()
      ensures Valid() && known == {}
    {
      kvRuleSeq, current, known := 0, [], {};
    }

    /** Every rule ever installed has an index of its own. */
    ghost predicate Valid()
      reads this, known
    {
      (forall r :: r in current ==> r in known) &&
      (forall r :: r in known ==> 0 < r.index <= kvRuleSeq) &&
      (forall r, s :: r in known && s in known && r.index == s.index ==> r == s)
    }

    method Number(r: LoadedRule)
      requires Valid() && (r in known || r.index == 0)
      modifies this`kvRuleSeq, this`known, r
      ensures Valid() && known == old(known) + {r} && kvRuleSeq >= old(kvRuleSeq)
      ensures old(r in known) ==> r.index == old(r.index)
      ensures old(r !in known) ==> r.index > old(kvRuleSeq)
    {
      if r.index == 0 {
        kvRuleSeq := kvRuleSeq + 1;
        r.index := kvRuleSeq;
      }
      known := known + {r};
    }

    method ReplaceKVRuleSet(rules: seq<LoadedRule>)
      requires Valid() && forall r :: r in rules ==> r in known || r.index == 0
      modifies this, set r | r in rules
      ensures Valid() && current == rules && known == old(known) + (set r | r in rules)
      ensures forall r :: r in old(known) ==> r.index == old(r.index)
      ensures forall r :: r in known && r !in old(known) ==> r.index > old(kvRuleSeq)
    {
      for i := 0 to |rules|
        invariant Valid() && kvRuleSeq >= old(kvRuleSeq)
        invariant known == old(known) + (set r | r in rules[..i])
        invariant forall k :: i <= k < |rules| ==> rules[k] in known || rules[k].index == 0
        invariant forall r :: r in old(known) ==> r.index == old(r.index)
        invariant forall r :: r in known && r !in old(known) ==> r.index > old(kvRuleSeq)
      {
        assert rules[..i + 1] == rules[..i] + [rules[i]];
        Number(rules[i]);
      }
      assert rules[..|rules|] == rules;
      current := rules;
    }
  }

  /** So no two throttle keys of different rules are ever equal. */
  lemma RulesNeverShareKeys(n: Numbering, r: LoadedRule, s: LoadedRule, p: Phase, p': Phase, k: string, k': string)
    requires n.Valid() && r in n.known && s in n.known && r != s
    ensures ThrottleKey(p, r.index, k) != ThrottleKey(p', s.index, k')
  {
    if ThrottleKey(p, r.index, k) == ThrottleKey(p', s.index, k') {
      ThrottleKeyInjective(p, r.index, k, p', s.index, k');
    }
  }
}
