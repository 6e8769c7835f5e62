/** KV hot reload (internal/broker/rule_kv_manager.go, the subscription map of
    internal/broker/subscription.go and `Rebuild` of internal/broker/responder.go).

    A put or a delete of one key rewrites `rules` and then four derived views:
    the processor's rule set, the cron jobs, the core subscriptions and the
    JetStream subscriptions. Map iteration has no order, so each event is a
    relation between the views before and after; the class is proved to realise
    it, and the invariant is proved for every history of events. */
module Reload {
  import opened Text
  import opened Rules
  import opened Bags

  /** How one attempt to start a JetStream subscription ends: the broker refuses
      it, the consumer is registered but its iterator fails, or it consumes. */
  datatype StartResult = Refused | Stillborn | Started

  /** How the broker answers during one event. */
  datatype Answers = Answers(start: string -> StartResult, coreFails: string -> bool)

  datatype CoreSub = CoreSub(subject: string, queue: string)

  datatype Views = Views(
    rules: RuleMap,             // KV key -> parsed rules
    nats: RuleMap,              // the processor's rules by trigger subject
    schedule: seq<Rule>,        // the processor's schedule rules
    cron: seq<Rule>,            // rules the scheduler was last rebuilt with
    core: seq<Rule>,            // rules the responder was last rebuilt with
    coreSubs: seq<CoreSub>,     // its subscriptions
    coreFailed: set<string>,    // core subjects whose subscription failed in that rebuild
    responderClosed: bool,
    subs: map<string, bool>,    // JetStream subject -> is it consuming
    startFailed: set<string>)   // subjects whose last start left no consumer

  // ------------------------------------------------------------ projections

  predicate OnSubject(r: Rule, s: string) { r.nats.Some? && r.nats.value.subject == s }

  function SubjectRules(rs: seq<Rule>, s: string): seq<Rule> { Select(rs, r => OnSubject(r, s)) }

  ghost function SubjectBag(m: RuleMap, s: string): multiset<Rule> { Bag(m, r => OnSubject(r, s)) }

  /** Trigger subjects that need a JetStream subscription. */
  predicate Needs(rs: seq<Rule>, s: string) {
    exists r :: r in rs && IsJetStreamRule(r) && r.nats.value.subject == s
  }

  ghost predicate Needed(m: RuleMap, s: string) {
    exists k :: k in m && Needs(m[k], s)
  }

  predicate HasScheduleRules(rs: seq<Rule>) { exists r :: r in rs && IsScheduleRule(r) }

  predicate HasCoreRules(rs: seq<Rule>) { exists r :: r in rs && IsCoreRule(r) }

  ghost predicate ProcessorOk(v: Views) {
    && (forall s :: multiset(At(v.nats, s)) == SubjectBag(v.rules, s))
    && multiset(v.schedule) == Bag(v.rules, IsScheduleRule)
  }

  ghost predicate CronOk(v: Views) {
    multiset(v.cron) == Bag(v.rules, IsScheduleRule)
  }

  /** Position of the first core rule on `s`, or `|rules|`. */
  function FirstCore(rules: seq<Rule>, s: string): (i: nat)
    ensures i <= |rules|
    ensures i < |rules| ==> IsCoreRule(rules[i]) && rules[i].nats.value.subject == s
    ensures forall j :: 0 <= j < i && IsCoreRule(rules[j]) ==> rules[j].nats.value.subject != s
  {
    if rules == [] || (IsCoreRule(rules[0]) && rules[0].nats.value.subject == s) then 0
    else 1 + FirstCore(rules[1..], s)
  }

  function SubjectList(subs: seq<CoreSub>): seq<string> {
    seq(|subs|, i requires 0 <= i < |subs| => subs[i].subject)
  }

  ghost predicate NoDup(ss: seq<string>) {
    forall i, j :: 0 <= i < j < |ss| ==> ss[i] != ss[j]
  }

  predicate InFirstQueue(sub: CoreSub, rules: seq<Rule>) {
    var i := FirstCore(rules, sub.subject);
    i < |rules| && sub.queue == rules[i].nats.value.queue
  }

  /** Exactly one subscription per core subject that did not fail, in the queue
      group of the subject's first rule. */
  ghost predicate Subscribed(subs: seq<CoreSub>, rules: seq<Rule>, failed: set<string>) {
    && NoDup(SubjectList(subs))
    && (forall s :: s in SubjectList(subs) <==> FirstCore(rules, s) < |rules| && s !in failed)
    && (forall i :: 0 <= i < |subs| ==> InFirstQueue(subs[i], rules))
  }

  ghost predicate CoreOk(v: Views) {
    if v.responderClosed then v.coreSubs == []
    else multiset(v.core) == Bag(v.rules, IsCoreRule) && Subscribed(v.coreSubs, v.core, v.coreFailed)
  }

  /** A needed subject is consumed exactly if its last start left a consumer.
      Stale subscriptions may remain: an overwrite never removes one. */
  ghost predicate SubsOk(v: Views) {
    && (forall s :: s in v.startFailed ==> !Consumes(v, s))
    && (forall s :: Needed(v.rules, s) ==> Consumes(v, s) || s in v.startFailed)
  }

  predicate Consumes(v: Views, s: string) { s in v.subs && v.subs[s] }

  ghost predicate Inv(v: Views) {
    ProcessorOk(v) && CronOk(v) && CoreOk(v) && SubsOk(v)
  }

  function Empty(): Views {
    Views(map[], map[], [], [], [], [], {}, false, map[], {})
  }

  // ----------------------------------------------------------------- events

  /** The subscription map after starting the subjects of `wanted`. */
  function SubsAfter(subs: map<string, bool>, wanted: set<string>, start: string -> StartResult): map<string, bool> {
    map s | s in subs.Keys + wanted && (s in subs || start(s) != Refused) ::
      if s in subs then subs[s] else start(s) == Started
  }

  /** The subjects of `wanted` left without a consumer: an existing entry is
      kept as it is, consuming or not, whatever this start would have done. */
  function FailuresAfter(subs: map<string, bool>, wanted: set<string>, start: string -> StartResult): set<string> {
    set s | s in wanted && if s in subs then !subs[s] else start(s) != Started
  }

  function Subjects(rs: seq<Rule>): set<string> {
    set r | r in rs && IsJetStreamRule(r) :: r.nats.value.subject
  }

  /** The core subjects whose subscription fails are exactly those recorded. */
  ghost predicate FailedAre(failed: set<string>, rules: seq<Rule>, fails: string -> bool) {
    forall s :: s in failed <==> FirstCore(rules, s) < |rules| && fails(s)
  }

  /** The responder is rebuilt from the new core rules, or left alone. */
  ghost predicate CoreStep(v: Views, v': Views, rebuild: bool, fails: string -> bool) {
    if rebuild && !v.responderClosed then
      && multiset(v'.core) == Bag(v'.rules, IsCoreRule)
      && Subscribed(v'.coreSubs, v'.core, v'.coreFailed)
      && FailedAre(v'.coreFailed, v'.core, fails)
    else
      v'.core == v.core && v'.coreSubs == v.coreSubs && v'.coreFailed == v.coreFailed
  }

  /** An accepted put. */
  ghost predicate PutStep(v: Views, k: string, rs: seq<Rule>, io: Answers, v': Views) {
    var prev := At(v.rules, k);
    var wanted := Subjects(rs) - Subjects(prev);
    && v'.rules == v.rules[k := rs]
    && ProcessorOk(v')
    && v'.cron == (if HasScheduleRules(prev) || HasScheduleRules(rs) then v'.schedule else v.cron)
    && v'.responderClosed == v.responderClosed
    && CoreStep(v, v', HasCoreRules(prev) || HasCoreRules(rs), io.coreFails)
    && v'.subs == SubsAfter(v.subs, wanted, io.start)
    && v'.startFailed == v.startFailed - wanted + FailuresAfter(v.subs, wanted, io.start)
  }

  ghost predicate DeleteStep(v: Views, k: string, io: Answers, v': Views) {
    if k !in v.rules then v' == v
    else
      var prev := v.rules[k];
      && v'.rules == Without(v.rules, k)
      && ProcessorOk(v')
      && v'.cron == (if HasScheduleRules(prev) then v'.schedule else v.cron)
      && v'.responderClosed == v.responderClosed
      && CoreStep(v, v', HasCoreRules(prev), io.coreFails)
      && v'.subs == v.subs - Unneeded(prev, v'.rules)
      && v'.startFailed == v.startFailed - Unneeded(prev, v'.rules)
  }

  /** The subjects of deleted rules that no remaining rule needs. */
  ghost function Unneeded(deleted: seq<Rule>, rest: RuleMap): set<string> {
    set s | s in Subjects(deleted) && !Needed(rest, s)
  }

  // -------------------------------------------------------- the loops, on values

  datatype Proj = Proj(nats: RuleMap, schedule: seq<Rule>, core: seq<Rule>)

  function FileOne(p: Proj, r: Rule): Proj {
    Proj(if r.nats.Some? then p.nats[r.nats.value.subject := At(p.nats, r.nats.value.subject) + [r]] else p.nats,
         if r.schedule.Some? then p.schedule + [r] else p.schedule,
         if r.nats.Some? && r.nats.value.IsCore() then p.core + [r] else p.core)
  }

  function FileAll(p: Proj, rs: seq<Rule>): Proj {
    if rs == [] then p else FileOne(FileAll(p, rs[..|rs| - 1]), rs[|rs| - 1])
  }

  /** The inner loop of `pushRulesToProcessor`: the rules of one key. */
  method FileRules(p: Proj, rs: seq<Rule>) returns (p': Proj)
    ensures p' == FileAll(p, rs)
  {
    var nats, schedule, core := p.nats, p.schedule, p.core;
    for i := 0 to |rs|
      invariant Proj(nats, schedule, core) == FileAll(p, rs[..i])
    {
      var r := rs[i];
      assert rs[..i + 1][..i] == rs[..i];
      if r.nats.Some? {
        nats := nats[r.nats.value.subject := At(nats, r.nats.value.subject) + [r]];
        if r.nats.value.IsCore() {
          core := core + [r];
        }
      }
      if r.schedule.Some? {
        schedule := schedule + [r];
      }
    }
    assert rs[..|rs|] == rs;
    p' := Proj(nats, schedule, core);
  }

  lemma {:induction false} FileAllSubject(p: Proj, rs: seq<Rule>, s: string)
    ensures At(FileAll(p, rs).nats, s) == At(p.nats, s) + SubjectRules(rs, s)
  {
    if rs != [] {
      var init, r := rs[..|rs| - 1], rs[|rs| - 1];
      FileAllSubject(p, init, s);
      assert rs == init + [r];
      SelectSnoc(init, r, x => OnSubject(x, s));
    }
  }

  lemma {:induction false} FileAllLists(p: Proj, rs: seq<Rule>)
    ensures FileAll(p, rs).schedule == p.schedule + Select(rs, IsScheduleRule)
    ensures FileAll(p, rs).core == p.core + Select(rs, IsCoreRule)
  {
    if rs != [] {
      FileAllLists(p, rs[..|rs| - 1]);
    }
  }

  ghost predicate Projects(m: RuleMap, p: Proj) {
    && (forall s :: multiset(At(p.nats, s)) == SubjectBag(m, s))
    && multiset(p.schedule) == Bag(m, IsScheduleRule)
    && multiset(p.core) == Bag(m, IsCoreRule)
  }

  lemma SubjectOneMore(m: RuleMap, k: string, rs: seq<Rule>, p: Proj, s: string)
    requires k !in m && multiset(At(p.nats, s)) == SubjectBag(m, s)
    ensures multiset(At(FileAll(p, rs).nats, s)) == SubjectBag(m[k := rs], s)
  {
    BagPut(m, k, rs, r => OnSubject(r, s));
    FileAllSubject(p, rs, s);
  }

  lemma ListsOneMore(m: RuleMap, k: string, rs: seq<Rule>, p: Proj)
    requires k !in m && multiset(p.schedule) == Bag(m, IsScheduleRule) && multiset(p.core) == Bag(m, IsCoreRule)
    ensures multiset(FileAll(p, rs).schedule) == Bag(m[k := rs], IsScheduleRule)
    ensures multiset(FileAll(p, rs).core) == Bag(m[k := rs], IsCoreRule)
  {
    BagPut(m, k, rs, IsScheduleRule);
    BagPut(m, k, rs, IsCoreRule);
    FileAllLists(p, rs);
  }

  lemma ProjectsOneMore(m: RuleMap, k: string, rs: seq<Rule>, p: Proj)
    requires k !in m && Projects(m, p)
    ensures Projects(m[k := rs], FileAll(p, rs))
  {
    forall s ensures multiset(At(FileAll(p, rs).nats, s)) == SubjectBag(m[k := rs], s) {
      SubjectOneMore(m, k, rs, p, s);
    }
    ListsOneMore(m, k, rs, p);
  }

  lemma ProjectsNothing()
    ensures Projects(map[], Proj(map[], [], []))
  {
  }

  method PushKey(ghost m: RuleMap, k: string, rs: seq<Rule>, p: Proj) returns (p': Proj)
    requires k !in m && Projects(m, p)
    ensures Projects(m[k := rs], p')
  {
    ProjectsOneMore(m, k, rs, p);
    p' := FileRules(p, rs);
  }

  /** `pushRulesToProcessor`, over the keys in an arbitrary order. */
  method PushRules(m: RuleMap) returns (p: Proj)
    ensures Projects(m, p)
  {
    p := Proj(map[], [], []);
    var left := m.Keys;
    assert m - left == map[];
    ProjectsNothing();
    while left != {}
      invariant left <= m.Keys
      invariant Projects(m - left, p)
      decreases left
    {
      var k :| k in left;
      Grow(m, left, k);
      p := PushKey(m - left, k, m[k], p);
      left := left - {k};
    }
    assert m - left == m;
  }

  lemma Grow(m: RuleMap, left: set<string>, k: string)
    requires k in left && k in m
    ensures k !in m - left && (m - left)[k := m[k]] == m - (left - {k})
  {
  }

  method CollectSubjects(rs: seq<Rule>) returns (subjects: set<string>)
    ensures subjects == Subjects(rs)
  {
    subjects := {};
    for i := 0 to |rs|
      invariant subjects == Subjects(rs[..i])
    {
      assert rs[..i + 1] == rs[..i] + [rs[i]];
      if rs[i].nats.Some? && !rs[i].nats.value.IsCore() {
        subjects := subjects + {rs[i].nats.value.subject};
      }
    }
    assert rs[..|rs|] == rs;
  }

  method AnySchedule(rs: seq<Rule>) returns (has: bool)
    ensures has <==> HasScheduleRules(rs)
  {
    for i := 0 to |rs|
      invariant forall j :: 0 <= j < i ==> !IsScheduleRule(rs[j])
    {
      if rs[i].schedule.Some? {
        assert rs[i] in rs && IsScheduleRule(rs[i]);
        return true;
      }
    }
    return false;
  }

  method AnyCore(rs: seq<Rule>) returns (has: bool)
    ensures has <==> HasCoreRules(rs)
  {
    for i := 0 to |rs|
      invariant forall j :: 0 <= j < i ==> !IsCoreRule(rs[j])
    {
      if rs[i].nats.Some? && rs[i].nats.value.IsCore() {
        assert rs[i] in rs && IsCoreRule(rs[i]);
        return true;
      }
    }
    return false;
  }

  lemma {:induction false} FirstCoreSnoc(rs: seq<Rule>, r: Rule, s: string)
    ensures
      var i := FirstCore(rs, s);
      FirstCore(rs + [r], s) ==
        if i < |rs| then i
        else if IsCoreRule(r) && r.nats.value.subject == s then |rs|
        else |rs| + 1
  {
    if rs != [] {
      assert (rs + [r])[1..] == rs[1..] + [r];
      FirstCoreSnoc(rs[1..], r, s);
    }
  }

  /** The responder's bookkeeping after the rules seen so far. */
  ghost predicate Ordered(order: seq<string>, queues: map<string, string>, rules: seq<Rule>) {
    && NoDup(order)
    && (forall s :: s in order <==> s in queues)
    && (forall s :: s in queues <==> FirstCore(rules, s) < |rules|)
    && (forall s :: s in queues ==> queues[s] == rules[FirstCore(rules, s)].nats.value.queue)
  }

  lemma OrderedSkip(order: seq<string>, queues: map<string, string>, rules: seq<Rule>, r: Rule)
    requires Ordered(order, queues, rules)
    requires IsCoreRule(r) ==> r.nats.value.subject in queues
    ensures Ordered(order, queues, rules + [r])
  {
    forall s ensures s in queues <==> FirstCore(rules + [r], s) < |rules + [r]| {
      FirstCoreSnoc(rules, r, s);
    }
    forall s | s in queues ensures queues[s] == (rules + [r])[FirstCore(rules + [r], s)].nats.value.queue {
      FirstCoreSnoc(rules, r, s);
    }
  }

  lemma OrderedAdd(order: seq<string>, queues: map<string, string>, rules: seq<Rule>, r: Rule)
    requires Ordered(order, queues, rules) && IsCoreRule(r) && r.nats.value.subject !in queues
    ensures Ordered(order + [r.nats.value.subject], queues[r.nats.value.subject := r.nats.value.queue], rules + [r])
  {
    var subject := r.nats.value.subject;
    var queues' := queues[subject := r.nats.value.queue];
    forall s ensures s in queues' <==> FirstCore(rules + [r], s) < |rules + [r]| {
      FirstCoreSnoc(rules, r, s);
    }
    forall s | s in queues' ensures queues'[s] == (rules + [r])[FirstCore(rules + [r], s)].nats.value.queue {
      FirstCoreSnoc(rules, r, s);
    }
  }

  method CollectCoreSubjects(rules: seq<Rule>) returns (order: seq<string>, queues: map<string, string>)
    ensures Ordered(order, queues, rules)
  {
    order, queues := [], map[];
    for i := 0 to |rules|
      invariant Ordered(order, queues, rules[..i])
    {
      var r := rules[i];
      assert rules[..i + 1] == rules[..i] + [r];
      if r.nats.None? || !r.nats.value.IsCore() {
        OrderedSkip(order, queues, rules[..i], r);
        continue;
      }
      var subject := r.nats.value.subject;
      if subject !in queues {
        OrderedAdd(order, queues, rules[..i], r);
        queues := queues[subject := r.nats.value.queue];
        order := order + [subject];
      } else {
        OrderedSkip(order, queues, rules[..i], r);
      }
    }
    assert rules[..|rules|] == rules;
  }

  /** `Rebuild`: one subscription per core subject; `fails` is the connection. */
  method Rebuild(rules: seq<Rule>, fails: string -> bool) returns (subs: seq<CoreSub>, failed: set<string>)
    ensures Subscribed(subs, rules, failed)
    ensures forall s :: s in failed <==> FirstCore(rules, s) < |rules| && fails(s)
  {
    var order, queues := CollectCoreSubjects(rules);
    subs, failed := [], {};
    for i := 0 to |order|
      invariant NoDup(SubjectList(subs))
      invariant forall s :: s in SubjectList(subs) <==> s in order[..i] && !fails(s)
      invariant forall s :: s in failed <==> s in order[..i] && fails(s)
      invariant forall j :: 0 <= j < |subs| ==> subs[j].subject in queues && subs[j].queue == queues[subs[j].subject]
    {
      var subject := order[i];
      assert order[..i + 1] == order[..i] + [subject];
      assert subject !in order[..i];
      if fails(subject) {
        failed := failed + {subject};
        continue;
      }
      assert SubjectList(subs + [CoreSub(subject, queues[subject])]) == SubjectList(subs) + [subject];
      subs := subs + [CoreSub(subject, queues[subject])];
    }
    assert order[..|order|] == order;
  }

  /** Starting the new subjects one by one, in an arbitrary order. */
  method StartSubscriptions(subs: map<string, bool>, wanted: set<string>, start: string -> StartResult)
      returns (subs': map<string, bool>, failed: set<string>)
    ensures subs' == SubsAfter(subs, wanted, start)
    ensures failed == FailuresAfter(subs, wanted, start)
  {
    var left := wanted;
    subs', failed := subs, {};
    while left != {}
      invariant left <= wanted
      invariant subs' == SubsAfter(subs, wanted - left, start)
      invariant failed == FailuresAfter(subs, wanted - left, start)
      decreases left
    {
      var s :| s in left;
      StartOne(subs, wanted - left, start, s);
      assert wanted - left + {s} == wanted - (left - {s});
      if s !in subs' && start(s) != Refused {
        subs' := subs'[s := start(s) == Started];
      }
      if s !in subs' || !subs'[s] {
        failed := failed + {s};
      }
      left := left - {s};
    }
    assert wanted - left == wanted;
  }

  lemma StartOne(subs: map<string, bool>, done: set<string>, start: string -> StartResult, s: string)
    requires s !in done
    ensures
      var before := SubsAfter(subs, done, start);
      && (s in before <==> s in subs)
      && SubsAfter(subs, done + {s}, start) ==
           (if start(s) == Refused || s in before then before else before[s := start(s) == Started])
      && FailuresAfter(subs, done + {s}, start) ==
           FailuresAfter(subs, done, start) +
             (if (if s in before then before[s] else start(s) == Started) then {} else {s})
  {
  }

  lemma SubjectsAreNeeds(rs: seq<Rule>, s: string)
    ensures s in Subjects(rs) <==> Needs(rs, s)
  {
  }

  /** The subjects the remaining keys still need. */
  method StillNeeded(m: RuleMap) returns (needed: set<string>)
    ensures forall s :: s in needed <==> Needed(m, s)
  {
    needed := {};
    var left := m.Keys;
    while left != {}
      invariant left <= m.Keys
      invariant forall s :: s in needed <==> exists k :: k in m.Keys - left && Needs(m[k], s)
      decreases left
    {
      var k :| k in left;
      var subjects := CollectSubjects(m[k]);
      forall s ensures s in needed + subjects <==> exists k' :: k' in m.Keys - (left - {k}) && Needs(m[k'], s) {
        SubjectsAreNeeds(m[k], s);
        if s in needed {
          var k' :| k' in m.Keys - left && Needs(m[k'], s);
          assert k' in m.Keys - (left - {k});
        }
        if s in subjects { assert k in m.Keys - (left - {k}); }
      }
      needed, left := needed + subjects, left - {k};
    }
  }

  /** The body of an accepted `handleRulePut`. */
  method AcceptPut(v: Views, key: string, rules: seq<Rule>, io: Answers)
      returns (v': Views)
    ensures PutStep(v, key, rules, io, v')
  {
    var previous := At(v.rules, key);
    var previousSubjects := CollectSubjects(previous);
    var prevHadCore := AnyCore(previous);
    var prevHadSchedule := AnySchedule(previous);
    var currentRules := v.rules[key := rules];
    var p := PushRules(currentRules);
    var newSubjects := CollectSubjects(rules);
    var cron, core, coreSubs, coreFailed := v.cron, v.core, v.coreSubs, v.coreFailed;
    var hasSchedule := AnySchedule(rules);
    if prevHadSchedule || hasSchedule {
      cron := p.schedule;
    }
    var hasCore := AnyCore(rules);
    if (prevHadCore || hasCore) && !v.responderClosed {
      core := p.core;
      coreSubs, coreFailed := Rebuild(p.core, io.coreFails);
    }
    var subs, failed := StartSubscriptions(v.subs, newSubjects - previousSubjects, io.start);
    v' := v.(rules := currentRules, nats := p.nats, schedule := p.schedule, cron := cron, core := core,
             coreSubs := coreSubs, coreFailed := coreFailed, subs := subs,
             startFailed := v.startFailed - (newSubjects - previousSubjects) + failed);
  }

  /** The body of `handleRuleDelete` for a key that exists. */
  method AcceptDelete(v: Views, key: string, io: Answers) returns (v': Views)
    requires key in v.rules
    ensures DeleteStep(v, key, io, v')
  {
    var oldRules := v.rules[key];
    var oldSubjects := CollectSubjects(oldRules);
    var oldHadSchedule := AnySchedule(oldRules);
    var oldHadCore := AnyCore(oldRules);
    var currentRules := Without(v.rules, key);
    var p := PushRules(currentRules);
    var stillNeeded := StillNeeded(currentRules);
    var cron, core, coreSubs, coreFailed := v.cron, v.core, v.coreSubs, v.coreFailed;
    if oldHadSchedule {
      cron := p.schedule;
    }
    if oldHadCore && !v.responderClosed {
      core := p.core;
      coreSubs, coreFailed := Rebuild(p.core, io.coreFails);
    }
    var unneeded := oldSubjects - stillNeeded;
    assert unneeded == Unneeded(oldRules, currentRules);
    v' := v.(rules := currentRules, nats := p.nats, schedule := p.schedule, cron := cron, core := core,
             coreSubs := coreSubs, coreFailed := coreFailed, subs := v.subs - unneeded,
             startFailed := v.startFailed - unneeded);
  }

  /** The manager with everything its events rewrite. */
  class RuleKVManager {
    var currentRules: RuleMap
    var nats: RuleMap
    var schedule: seq<Rule>
    var cron: seq<Rule>
    var core: seq<Rule>
    var coreSubs: seq<CoreSub>
    var coreFailed: set<string>
    var responderClosed: bool
    var subscriptions: map<string, bool>
    var startFailed: set<string>

    function View(): Views
      reads this
    {
      Views(currentRules, nats, schedule, cron, core, coreSubs, coreFailed, responderClosed, subscriptions, startFailed)
    }

    constructor ()
      ensures View() == Empty()
    {
      currentRules, nats, schedule, cron, core, coreSubs := map[], map[], [], [], [], [];
      coreFailed, responderClosed, subscriptions, startFailed := {}, false, map[], {};
    }

    method Store(v: Views)
      modifies this
      ensures View() == v
    {
      currentRules, nats, schedule, cron := v.rules, v.nats, v.schedule, v.cron;
      core, coreSubs, coreFailed, responderClosed := v.core, v.coreSubs, v.coreFailed, v.responderClosed;
      subscriptions, startFailed := v.subs, v.startFailed;
    }

    /** `parsed` is None when the value does not parse, does not validate or has
        a trigger subject without a stream: the previous rules stay. */
    method HandleRulePut(key: string, parsed: Option<seq<Rule>>, io: Answers)
      modifies this
      ensures parsed.None? ==> View() == old(View())
      ensures parsed.Some? ==> PutStep(old(View()), key, parsed.value, io, View())
    {
      if parsed.None? {
        return;
      }
      var v := AcceptPut(View(), key, parsed.value, io);
      Store(v);
    }

    method HandleRuleDelete(key: string, io: Answers)
      modifies this
      ensures DeleteStep(old(View()), key, io, View())
    {
      if key !in currentRules {
        return;
      }
      var v := AcceptDelete(View(), key, io);
      Store(v);
    }

    /** After Close, rebuilds are ignored. */
    method CloseResponder()
      modifies this
      ensures View() == old(View()).(coreSubs := [], responderClosed := true)
    {
      coreSubs, responderClosed := [], true;
    }
  }
}
