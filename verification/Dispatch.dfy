/** Delivery of one message against the reloaded rules: `ProcessForSubscription`
    and `filterNATSRules` (internal/rule/processor.go), run once for every
    subscription of either transport whose subject the message hits. */
module Dispatch {
  import opened Text
  import opened Rules
  import opened Bags
  import opened Reload
  import opened ReloadTheorems

  datatype Transport = JetStream | Core

  /** The trigger filter a transport hands to the processor. */
  predicate Serves(t: Transport, r: Rule) {
    match t
    case JetStream => IsJetStreamRule(r)
    case Core => IsCoreRule(r)
  }

  function ServedBy(rs: seq<Rule>, t: Transport): seq<Rule> { Select(rs, r => Serves(t, r)) }

  /** `filterNATSRules`: counts first, and returns the input itself when all
      rules pass. */
  method FilterNATSRules(rules: seq<Rule>, t: Transport) returns (out: seq<Rule>)
    ensures out == ServedBy(rules, t)
  {
    var pass := 0;
    for i := 0 to |rules|
      invariant pass == |ServedBy(rules[..i], t)|
      invariant pass <= i
      invariant pass == i ==> ServedBy(rules[..i], t) == rules[..i]
    {
      ServedSnoc(rules, i, t);
      if rules[i].nats.Some? && Serves(t, rules[i]) {
        pass := pass + 1;
      }
    }
    assert rules[..|rules|] == rules;
    if pass == |rules| {
      return rules;
    }
    out := [];
    for i := 0 to |rules|
      invariant out == ServedBy(rules[..i], t)
    {
      ServedSnoc(rules, i, t);
      if rules[i].nats.Some? && Serves(t, rules[i]) {
        out := out + [rules[i]];
      }
    }
  }

  lemma ServedSnoc(rules: seq<Rule>, i: nat, t: Transport)
    requires i < |rules|
    ensures rules[..i + 1] == rules[..i] + [rules[i]]
    ensures ServedBy(rules[..i + 1], t) == ServedBy(rules[..i], t) + if Serves(t, rules[i]) then [rules[i]] else []
  {
    assert rules[..i + 1] == rules[..i] + [rules[i]];
    SelectSnoc(rules[..i], rules[i], r => Serves(t, r));
  }

  /** The rules one delivery evaluates: those filed under the subscription's
      subject, or, when there are none, what the file index finds. */
  method RulesToEvaluate(nats: RuleMap, trigger: string, t: Transport, fileMatches: seq<Rule>)
    returns (rules: seq<Rule>)
    ensures rules == Evaluated(nats, trigger, t, fileMatches)
  {
    var filed := At(nats, trigger);
    if |filed| == 0 {
      rules := FilterNATSRules(fileMatches, t);
    } else {
      rules := FilterNATSRules(filed, t);
    }
  }

  function Evaluated(nats: RuleMap, trigger: string, t: Transport, fileMatches: seq<Rule>): seq<Rule> {
    if At(nats, trigger) == [] then ServedBy(fileMatches, t) else ServedBy(At(nats, trigger), t)
  }

  /** Everything evaluated when each subscription in `subjects` that the
      message hits receives it once. */
  function Deliveries(nats: RuleMap, subjects: seq<string>, t: Transport, hit: string -> bool, file: seq<Rule>)
    : multiset<Rule>
  {
    if subjects == [] then multiset{}
    else
      var init, s := subjects[..|subjects| - 1], subjects[|subjects| - 1];
      Deliveries(nats, init, t, hit, file) +
        if hit(s) then multiset(Evaluated(nats, s, t, file)) else multiset{}
  }

  /** The part of it that comes from the file index. */
  ghost function Fallbacks(nats: RuleMap, subjects: seq<string>, t: Transport, hit: string -> bool, file: seq<Rule>)
    : multiset<Rule>
  {
    if subjects == [] then multiset{}
    else
      var init, s := subjects[..|subjects| - 1], subjects[|subjects| - 1];
      Fallbacks(nats, init, t, hit, file) +
        if hit(s) then FileShare(nats, s, t, file) else multiset{}
  }

  predicate FiresOn(r: Rule, t: Transport, subjects: seq<string>, hit: string -> bool) {
    Serves(t, r) && hit(r.nats.value.subject) && r.nats.value.subject in subjects
  }

  predicate OnAndServed(r: Rule, t: Transport, s: string) {
    Serves(t, r) && r.nats.value.subject == s
  }

  ghost function ServedBag(m: RuleMap, t: Transport, s: string): multiset<Rule> { Bag(m, r => OnAndServed(r, t, s)) }

  ghost function FiringBag(m: RuleMap, t: Transport, subjects: seq<string>, hit: string -> bool): multiset<Rule> {
    Bag(m, r => FiresOn(r, t, subjects, hit))
  }

  // ------------------------------------------------------ one subscription

  /** Selection commutes with multisets: it depends on the contents only. */
  lemma {:induction false} SelMembers(rs: seq<Rule>, p: Rule -> bool, r: Rule)
    ensures Sel(rs, p)[r] == if p(r) then multiset(rs)[r] else 0
  {
    if rs != [] {
      var init := rs[..|rs| - 1];
      SelMembers(init, p, r);
      assert rs == init + [rs[|rs| - 1]];
    }
  }

  lemma {:induction false} BagCounts(m: RuleMap, p: Rule -> bool, q: Rule -> bool, r: Rule)
    requires forall x :: q(x) ==> p(x)
    ensures Bag(m, q)[r] == if q(r) then Bag(m, p)[r] else 0
    decreases |m.Keys|
  {
    if m.Keys != {} {
      var k := Pick(m);
      BagTake(m, k, p);
      BagTake(m, k, q);
      SelMembers(m[k], p, r);
      SelMembers(m[k], q, r);
      BagCounts(Without(m, k), p, q, r);
    }
  }

  /** A transport's share of one subject. */
  lemma ServedShare(m: RuleMap, filed: seq<Rule>, t: Transport, s: string)
    requires multiset(filed) == SubjectBag(m, s)
    ensures multiset(ServedBy(filed, t)) == ServedBag(m, t, s)
  {
    forall r ensures multiset(ServedBy(filed, t))[r] == ServedBag(m, t, s)[r] {
      SelMembers(filed, x => Serves(t, x), r);
      BagCounts(m, x => OnSubject(x, s), x => OnAndServed(x, t, s), r);
      BagMembers(m, x => OnSubject(x, s), r);
    }
  }

  ghost function FileShare(nats: RuleMap, s: string, t: Transport, file: seq<Rule>): multiset<Rule> {
    if At(nats, s) == [] then multiset(ServedBy(file, t)) else multiset{}
  }

  lemma OneDelivery(v: Views, s: string, t: Transport, file: seq<Rule>)
    requires ProcessorOk(v)
    ensures multiset(Evaluated(v.nats, s, t, file)) == ServedBag(v.rules, t, s) + FileShare(v.nats, s, t, file)
  {
    ServedShare(v.rules, At(v.nats, s), t, s);
  }

  lemma Regroup(a: multiset<Rule>, b: multiset<Rule>, c: multiset<Rule>, d: multiset<Rule>)
    ensures (a + b) + (c + d) == (a + c) + (b + d)
  {
  }

  // ---------------------------------------------------- all subscriptions

  lemma {:induction false} DeliveriesShare(v: Views, subjects: seq<string>, t: Transport,
                                           hit: string -> bool, file: seq<Rule>)
    requires ProcessorOk(v) && NoDup(subjects)
    ensures Deliveries(v.nats, subjects, t, hit, file) ==
            FiringBag(v.rules, t, subjects, hit) + Fallbacks(v.nats, subjects, t, hit, file)
  {
    if subjects == [] {
      NothingFires(v.rules, t, hit);
    } else {
      var init, s := subjects[..|subjects| - 1], subjects[|subjects| - 1];
      assert subjects == init + [s];
      DeliveriesShare(v, init, t, hit, file);
      FiringSnoc(v.rules, t, init, s, hit);
      if hit(s) {
        OneDelivery(v, s, t, file);
        Regroup(FiringBag(v.rules, t, init, hit), Fallbacks(v.nats, init, t, hit, file),
                ServedBag(v.rules, t, s), FileShare(v.nats, s, t, file));
      }
    }
  }

  lemma NothingFires(m: RuleMap, t: Transport, hit: string -> bool)
    ensures FiringBag(m, t, [], hit) == multiset{}
  {
    forall r ensures FiringBag(m, t, [], hit)[r] == 0 {
      BagMembers(m, x => FiresOn(x, t, [], hit), r);
    }
  }

  lemma FiringSnoc(m: RuleMap, t: Transport, subjects: seq<string>, s: string, hit: string -> bool)
    requires s !in subjects
    ensures FiringBag(m, t, subjects + [s], hit) ==
            FiringBag(m, t, subjects, hit) + if hit(s) then ServedBag(m, t, s) else multiset{}
  {
    if hit(s) {
      BagDisjoint(m, r => FiresOn(r, t, subjects, hit), r => OnAndServed(r, t, s),
                  r => FiresOn(r, t, subjects + [s], hit));
    } else {
      BagEq(m, r => FiresOn(r, t, subjects + [s], hit), r => FiresOn(r, t, subjects, hit));
    }
  }

  // --------------------------------------------------------------- theorem

  predicate Triggered(r: Rule, hit: string -> bool) { r.nats.Some? && hit(r.nats.value.subject) }

  ghost function TriggeredBag(m: RuleMap, hit: string -> bool): multiset<Rule> { Bag(m, r => Triggered(r, hit)) }

  /** The subject of `r` has a subscription of the transport that serves `r`. */
  predicate Served(r: Rule, v: Views) {
    r.nats.Some? &&
    if r.nats.value.IsCore() then r.nats.value.subject in SubjectList(v.coreSubs) else Consumes(v, r.nats.value.subject)
  }

  predicate Reached(r: Rule, v: Views, hit: string -> bool) { Triggered(r, hit) && Served(r, v) }

  ghost function ReachedBag(v: Views, hit: string -> bool): multiset<Rule> { Bag(v.rules, r => Reached(r, v, hit)) }

  /** `subjects` enumerates the JetStream subjects being consumed. */
  ghost predicate Enumerates(subjects: seq<string>, v: Views) {
    NoDup(subjects) && forall s :: s in subjects <==> Consumes(v, s)
  }

  /** The two transports share the reached rules without overlap. */
  lemma TransportsPartition(v: Views, js: seq<string>, hit: string -> bool)
    requires Enumerates(js, v)
    ensures FiringBag(v.rules, JetStream, js, hit) + FiringBag(v.rules, Core, SubjectList(v.coreSubs), hit) ==
            ReachedBag(v, hit)
  {
    BagDisjoint(v.rules, r => FiresOn(r, JetStream, js, hit), r => FiresOn(r, Core, SubjectList(v.coreSubs), hit),
                r => Reached(r, v, hit));
  }

  /** What one message evaluates over both transports. */
  ghost function Evaluations(v: Views, js: seq<string>, hit: string -> bool, file: seq<Rule>): multiset<Rule> {
    Deliveries(v.nats, js, JetStream, hit, file) + Deliveries(v.nats, SubjectList(v.coreSubs), Core, hit, file)
  }

  ghost function FileEvaluations(v: Views, js: seq<string>, hit: string -> bool, file: seq<Rule>): multiset<Rule> {
    Fallbacks(v.nats, js, JetStream, hit, file) + Fallbacks(v.nats, SubjectList(v.coreSubs), Core, hit, file)
  }

  /** Every KV rule whose trigger the message hits and whose subject is served is
      evaluated exactly once and no other KV rule is, with overlapping
      wildcards, subjects shared by both transports, stale subscriptions, failed
      starts and a closed responder; beyond that only the file index's rules
      are, once per fallback. `hit` is the server's own subject matching,
      whatever it is. The subscriptions need not fit the rules. */
  lemma EvaluatedExactlyOnce(v: Views, js: seq<string>, hit: string -> bool, file: seq<Rule>)
    requires ProcessorOk(v) && NoDup(SubjectList(v.coreSubs)) && Enumerates(js, v)
    ensures Evaluations(v, js, hit, file) == ReachedBag(v, hit) + FileEvaluations(v, js, hit, file)
  {
    var cs := SubjectList(v.coreSubs);
    DeliveriesShare(v, js, JetStream, hit, file);
    DeliveriesShare(v, cs, Core, hit, file);
    Regroup(FiringBag(v.rules, JetStream, js, hit), Fallbacks(v.nats, js, JetStream, hit, file),
            FiringBag(v.rules, Core, cs, hit), Fallbacks(v.nats, cs, Core, hit, file));
    TransportsPartition(v, js, hit);
  }

  /** All rules the message hits are served. */
  ghost predicate AllServed(v: Views, hit: string -> bool) {
    forall k, r :: k in v.rules && r in v.rules[k] && Triggered(r, hit) ==> Served(r, v)
  }

  lemma ReachedIsTriggeredIff(v: Views, hit: string -> bool)
    ensures ReachedBag(v, hit) == TriggeredBag(v.rules, hit) <==> AllServed(v, hit)
  {
    if AllServed(v, hit) {
      BagEq(v.rules, r => Reached(r, v, hit), r => Triggered(r, hit));
    } else {
      var k, r :| k in v.rules && r in v.rules[k] && Triggered(r, hit) && !Served(r, v);
      BagMembers(v.rules, x => Reached(x, v, hit), r);
      BagMembers(v.rules, x => Triggered(x, hit), r);
    }
  }

  lemma {:induction false} NoFileNoFallback(nats: RuleMap, subjects: seq<string>, t: Transport, hit: string -> bool)
    ensures Fallbacks(nats, subjects, t, hit, []) == multiset{}
  {
    if subjects != [] {
      NoFileNoFallback(nats, subjects[..|subjects| - 1], t, hit);
    }
  }

  /** With an empty file index nothing else is evaluated, and the rules a
      message hits are all evaluated exactly once iff they are all served. */
  lemma KVModeExactlyOnce(v: Views, js: seq<string>, hit: string -> bool)
    requires ProcessorOk(v) && NoDup(SubjectList(v.coreSubs)) && Enumerates(js, v)
    ensures Evaluations(v, js, hit, []) == ReachedBag(v, hit)
    ensures Evaluations(v, js, hit, []) == TriggeredBag(v.rules, hit) <==> AllServed(v, hit)
  {
    EvaluatedExactlyOnce(v, js, hit, []);
    NoFileNoFallback(v.nats, js, JetStream, hit);
    NoFileNoFallback(v.nats, SubjectList(v.coreSubs), Core, hit);
    ReachedIsTriggeredIff(v, hit);
  }

  /** A state inside the event from `v` to `v'`, `gone` previous core
      subscriptions having been removed: the processor is swapped, the rest of
      the previous core subscriptions or so far some of the next are there, and
      JetStream subscriptions are anything. */
  ghost predicate Amid(v: Views, u: Views, v': Views, gone: nat) {
    u.rules == v'.rules && u.nats == v'.nats && u.schedule == v'.schedule && gone <= |v.coreSubs| &&
    (u.coreSubs == v.coreSubs[gone..] || u.coreSubs <= v'.coreSubs)
  }

  lemma CoreSubjectsDiffer(v: Views)
    requires Inv(v)
    ensures NoDup(SubjectList(v.coreSubs))
  {
  }

  lemma SomeSubjectsDiffer(all: seq<CoreSub>, from: nat, to: nat)
    requires from <= to <= |all| && NoDup(SubjectList(all))
    ensures NoDup(SubjectList(all[from..to]))
  {
    assert SubjectList(all[from..to]) == SubjectList(all)[from..to];
  }

  lemma AmidSubjectsDiffer(before: seq<CoreSub>, now: seq<CoreSub>, after: seq<CoreSub>, gone: nat)
    requires NoDup(SubjectList(before)) && NoDup(SubjectList(after)) && gone <= |before|
    requires now == before[gone..] || now <= after
    ensures NoDup(SubjectList(now))
  {
    if now == before[gone..] {
      SomeSubjectsDiffer(before, gone, |before|);
      assert before[gone..|before|] == now;
    } else {
      SomeSubjectsDiffer(after, 0, |now|);
      assert after[0..|now|] == now;
    }
  }

  lemma SameProcessor(u: Views, v: Views)
    requires ProcessorOk(v) && u.rules == v.rules && u.nats == v.nats && u.schedule == v.schedule
    ensures ProcessorOk(u)
  {
  }

  /** Messages delivered in the middle of any event are dispatched exactly once
      too, against the new rules. */
  lemma DispatchedOnceAmidEvents(v: Views, u: Views, v': Views, gone: nat, js: seq<string>, hit: string -> bool)
    requires Inv(v) && Inv(v') && Amid(v, u, v', gone) && Enumerates(js, u)
    ensures Evaluations(u, js, hit, []) == ReachedBag(u, hit)
    ensures Evaluations(u, js, hit, []) == TriggeredBag(v'.rules, hit) <==> AllServed(u, hit)
  {
    SameProcessor(u, v');
    CoreSubjectsDiffer(v);
    CoreSubjectsDiffer(v');
    AmidSubjectsDiffer(v.coreSubs, u.coreSubs, v'.coreSubs, gone);
    KVModeExactlyOnce(u, js, hit);
  }

  /** A loaded NATS rule is served exactly if the last attempt to subscribe its
      subject succeeded and, for a core rule, the responder is open. */
  lemma ServedIff(v: Views, k: string, r: Rule)
    requires Inv(v) && k in v.rules && r in v.rules[k] && r.nats.Some?
    ensures var s := r.nats.value.subject;
            Served(r, v) <==>
            if r.nats.value.IsCore() then !v.responderClosed && s !in v.coreFailed else s !in v.startFailed
  {
    var s := r.nats.value.subject;
    if r.nats.value.IsCore() {
      BagMembers(v.rules, IsCoreRule, r);
      if !v.responderClosed {
        assert r in multiset(v.core);
        assert FirstCore(v.core, s) < |v.core|;
      }
    } else {
      assert Needs(v.rules[k], s);
      assert Needed(v.rules, s);
    }
  }

  /** After every history, with the responder open, a loaded core rule is served
      exactly if the connection accepted its subject at the last rebuild. */
  lemma CoreServedIffLastAttempt(events: seq<Event>, trace: seq<Views>, i: nat, k: string, r: Rule)
    requires Behaviour(events, trace) && i < |trace| && !trace[i].responderClosed
    requires k in trace[i].rules && r in trace[i].rules[k] && IsCoreRule(r)
    ensures var m := LastRebuild(events, trace, i);
            m.Some? && (Served(r, trace[i]) <==> !events[m.value].io.coreFails(r.nats.value.subject))
  {
    EveryHistoryReconciles(events, trace, i);
    BagMembers(trace[i].rules, IsCoreRule, r);
    assert r in multiset(trace[i].core);
    assert FirstCore(trace[i].core, r.nats.value.subject) < |trace[i].core|;
    CoreListedIffLastAttempt(events, trace, i, r.nats.value.subject);
  }

  /** Which transport serves a rule. */
  lemma TransportOf(r: Rule, t: NatsTrigger)
    requires r.nats == Some(t)
    ensures Serves(Core, r) <==> t.reply || t.mode == "core"
    ensures Serves(JetStream, r) <==> !t.reply && t.mode != "core"
  {
  }

  /** After every history of puts, rejected puts, deletes and a responder close,
      for the rules those events leave. */
  lemma EveryHistoryDispatchesOnce(events: seq<Event>, trace: seq<Views>, i: nat, js: seq<string>, hit: string -> bool)
    requires Behaviour(events, trace) && i < |trace| && Enumerates(js, trace[i])
    ensures Evaluations(trace[i], js, hit, []) == ReachedBag(trace[i], hit)
    ensures Evaluations(trace[i], js, hit, []) == TriggeredBag(Replay(map[], events[..i]), hit) <==>
            AllServed(trace[i], hit)
  {
    EveryHistoryReconciles(events, trace, i);
    TraceIsReplay(events, trace, i);
    CoreSubjectsDiffer(trace[i]);
    KVModeExactlyOnce(trace[i], js, hit);
  }
}
