/** What holds after every history of KV events. */
module ReloadTheorems {
  import opened Text
  import opened Rules
  import opened Bags
  import opened Reload

  /** An event as the watcher delivers it; a rejected put names no rules. */
  datatype Event =
    | Put(key: string, rules: seq<Rule>, io: Answers)
    | Rejected(key: string)
    | Delete(key: string, io: Answers)
    | CloseResponder

  ghost predicate Step(v: Views, e: Event, v': Views) {
    match e
    case Put(k, rs, io) => PutStep(v, k, rs, io, v')
    case Rejected(_) => v' == v
    case Delete(k, io) => DeleteStep(v, k, io, v')
    case CloseResponder => v' == v.(coreSubs := [], responderClosed := true)
  }

  /** `trace` lists the views before each event and after the last one. */
  ghost predicate Behaviour(events: seq<Event>, trace: seq<Views>) {
    && |trace| == |events| + 1
    && trace[0] == Empty()
    && forall i :: 0 <= i < |events| ==> Step(trace[i], events[i], trace[i + 1])
  }

  // ------------------------------------------------------------- invariance

  lemma {:induction false} NoneSelected(rs: seq<Rule>, p: Rule -> bool)
    requires forall r :: r in rs ==> !p(r)
    ensures Sel(rs, p) == multiset{}
  {
    if rs != [] {
      assert rs[|rs| - 1] in rs;
      NoneSelected(rs[..|rs| - 1], p);
    }
  }

  lemma Cancel(a: multiset<Rule>, b: multiset<Rule>, x: multiset<Rule>, y: multiset<Rule>)
    requires a + x == b + y && x == y == multiset{}
    ensures a == b
  {
    assert a + x == a && b + y == b;
  }

  /** A key without such rules, before and after, leaves the projection alone. */
  lemma PutIrrelevant(m: RuleMap, k: string, rs: seq<Rule>, p: Rule -> bool)
    requires forall r :: r in At(m, k) || r in rs ==> !p(r)
    ensures Bag(m[k := rs], p) == Bag(m, p)
  {
    BagPut(m, k, rs, p);
    NoneSelected(At(m, k), p);
    NoneSelected(rs, p);
    Cancel(Bag(m[k := rs], p), Bag(m, p), Sel(At(m, k), p), Sel(rs, p));
  }

  lemma DeleteIrrelevant(m: RuleMap, k: string, p: Rule -> bool)
    requires k in m && forall r :: r in m[k] ==> !p(r)
    ensures Bag(Without(m, k), p) == Bag(m, p)
  {
    BagTake(m, k, p);
    NoneSelected(m[k], p);
  }

  lemma PutKeepsCron(v: Views, k: string, rs: seq<Rule>, io: Answers, v': Views)
    requires CronOk(v) && PutStep(v, k, rs, io, v')
    ensures CronOk(v')
  {
    if !HasScheduleRules(At(v.rules, k)) && !HasScheduleRules(rs) {
      PutIrrelevant(v.rules, k, rs, IsScheduleRule);
    }
  }

  lemma PutKeepsCore(v: Views, k: string, rs: seq<Rule>, io: Answers, v': Views)
    requires CoreOk(v) && PutStep(v, k, rs, io, v')
    ensures CoreOk(v')
  {
    if !HasCoreRules(At(v.rules, k)) && !HasCoreRules(rs) {
      PutIrrelevant(v.rules, k, rs, IsCoreRule);
    }
  }

  lemma PutKeepsSubs(v: Views, k: string, rs: seq<Rule>, io: Answers, v': Views)
    requires SubsOk(v) && PutStep(v, k, rs, io, v')
    ensures SubsOk(v')
  {
    forall s | Needed(v'.rules, s) ensures Consumes(v', s) || s in v'.startFailed {
      NeededAfterPut(v.rules, k, rs, s);
    }
  }

  /** What a put newly needs is what it starts. */
  lemma NeededAfterPut(m: RuleMap, k: string, rs: seq<Rule>, s: string)
    requires Needed(m[k := rs], s)
    ensures Needed(m, s) || s in Subjects(rs) - Subjects(At(m, k))
  {
    var k' :| k' in m[k := rs] && Needs(m[k := rs][k'], s);
    if k' != k {
      assert k' in m && Needs(m[k'], s);
    } else {
      SubjectsAreNeeds(rs, s);
      SubjectsAreNeeds(At(m, k), s);
    }
  }

  lemma DeleteKeepsCron(v: Views, k: string, io: Answers, v': Views)
    requires CronOk(v) && DeleteStep(v, k, io, v')
    ensures CronOk(v')
  {
    if k in v.rules && !HasScheduleRules(v.rules[k]) {
      DeleteIrrelevant(v.rules, k, IsScheduleRule);
    }
  }

  lemma DeleteKeepsCore(v: Views, k: string, io: Answers, v': Views)
    requires CoreOk(v) && DeleteStep(v, k, io, v')
    ensures CoreOk(v')
  {
    if k in v.rules && !HasCoreRules(v.rules[k]) {
      DeleteIrrelevant(v.rules, k, IsCoreRule);
    }
  }

  /** A delete never removes a subject another key needs. */
  lemma DeleteKeepsNeeded(v: Views, k: string, io: Answers, v': Views, s: string)
    requires DeleteStep(v, k, io, v') && Needed(v'.rules, s)
    ensures Needed(v.rules, s)
    ensures Consumes(v', s) <==> Consumes(v, s)
  {
    var k' :| k' in v'.rules && Needs(v'.rules[k'], s);
    assert Needs(v.rules[k'], s);
  }

  /** A put starts consuming a subject exactly if its key newly needs it, no
      entry is there yet and the start succeeds; it never stops consuming one.
      So neither a subject the key needed before nor a stillborn entry is
      retried. */
  lemma PutStartsIff(v: Views, k: string, rs: seq<Rule>, io: Answers, v': Views, s: string)
    requires PutStep(v, k, rs, io, v')
    ensures Consumes(v', s) <==>
            Consumes(v, s) ||
            (Needs(rs, s) && !Needs(At(v.rules, k), s) && s !in v.subs && io.start(s) == Started)
  {
    SubjectsAreNeeds(rs, s);
    SubjectsAreNeeds(At(v.rules, k), s);
  }

  lemma DeleteKeepsSubs(v: Views, k: string, io: Answers, v': Views)
    requires SubsOk(v) && DeleteStep(v, k, io, v')
    ensures SubsOk(v')
  {
    forall s | Needed(v'.rules, s) ensures Consumes(v', s) || s in v'.startFailed {
      DeleteKeepsNeeded(v, k, io, v', s);
    }
  }

  lemma StepKeepsInv(v: Views, e: Event, v': Views)
    requires Inv(v) && Step(v, e, v')
    ensures Inv(v')
  {
    match e
    case Put(k, rs, io) =>
      PutKeepsCron(v, k, rs, io, v');
      PutKeepsCore(v, k, rs, io, v');
      PutKeepsSubs(v, k, rs, io, v');
    case Delete(k, io) =>
      DeleteKeepsCron(v, k, io, v');
      DeleteKeepsCore(v, k, io, v');
      DeleteKeepsSubs(v, k, io, v');
    case Rejected(_) =>
    case CloseResponder =>
  }

  /** After every history the processor set, the cron jobs and the core rules
      are the projections of the current rules, core subscriptions are one per
      core subject, and a needed JetStream subject is consumed exactly if its
      last start left a consumer. */
  lemma {:induction false} EveryHistoryReconciles(events: seq<Event>, trace: seq<Views>, i: nat)
    requires Behaviour(events, trace) && i < |trace|
    ensures Inv(trace[i])
    decreases i
  {
    if i == 0 {
      ProjectsNothing();
    } else {
      EveryHistoryReconciles(events, trace, i - 1);
      StepKeepsInv(trace[i - 1], events[i - 1], trace[i]);
    }
  }

  // ----------------------------------------------------------- failed starts

  /** A put that newly needs `s`, finds no entry and starts it. */
  ghost predicate Restarts(v: Views, e: Event, s: string) {
    e.Put? && Needs(e.rules, s) && !Needs(At(v.rules, e.key), s) && s !in v.subs && e.io.start(s) == Started
  }

  /** The only event that repairs a failed start of a subject that stays needed. */
  lemma FailedStep(v: Views, e: Event, v': Views, s: string)
    requires SubsOk(v) && Step(v, e, v') && s in v.startFailed && Needed(v'.rules, s)
    ensures s in v'.startFailed <==> !Restarts(v, e, s)
  {
    if e.Put? {
      SubjectsAreNeeds(e.rules, s);
      SubjectsAreNeeds(At(v.rules, e.key), s);
    }
  }

  ghost predicate Unrepaired(v: Views, e: Event, v': Views, s: string) {
    Needed(v'.rules, s) && !Restarts(v, e, s)
  }

  lemma HistorySubsOk(events: seq<Event>, trace: seq<Views>, i: nat)
    requires Behaviour(events, trace) && i < |trace|
    ensures SubsOk(trace[i])
  {
    EveryHistoryReconciles(events, trace, i);
  }

  /** Over any stretch of any history in which the subject stays needed, a failed
      start stays unrepaired as long as no put restarts it. */
  lemma {:induction false} FailedUntilRestarted(events: seq<Event>, trace: seq<Views>, i: nat, j: nat, s: string)
    requires Behaviour(events, trace) && i <= j < |trace| && s in trace[i].startFailed
    requires forall m :: i <= m < j ==> Unrepaired(trace[m], events[m], trace[m + 1], s)
    ensures s in trace[j].startFailed
    decreases j
  {
    if i < j {
      FailedUntilRestarted(events, trace, i, j - 1, s);
      HistorySubsOk(events, trace, j - 1);
      FailedStep(trace[j - 1], events[j - 1], trace[j], s);
    }
  }

  /** So an overwrite does not repair a refused start, although it would now
      succeed: the subject stays needed and unserved. */
  lemma OverwriteDoesNotRetry(k: string, s: string, r: Rule, r': Rule, refuse: Answers,
                              accept: Answers, v: Views, v': Views)
    requires IsJetStreamRule(r) && IsJetStreamRule(r') && r.nats.value.subject == r'.nats.value.subject == s
    requires refuse.start(s) == Refused && accept.start(s) == Started
    requires PutStep(Empty(), k, [r], refuse, v) && PutStep(v, k, [r'], accept, v')
    ensures Needed(v'.rules, s) && !Consumes(v', s)
  {
    assert r in [r] && r' in [r'];
    assert Needs(v.rules[k], s) && Needs(v'.rules[k], s);
    PutStartsIff(Empty(), k, [r], refuse, v, s);
    PutStartsIff(v, k, [r'], accept, v', s);
  }

  // ------------------------------------------------------ core subscriptions

  /** The event makes the responder subscribe all core subjects anew. */
  ghost predicate Rebuilds(v: Views, e: Event) {
    !v.responderClosed &&
    match e
    case Put(k, rs, _) => HasCoreRules(At(v.rules, k)) || HasCoreRules(rs)
    case Delete(k, _) => k in v.rules && HasCoreRules(v.rules[k])
    case _ => false
  }

  /** The last event before position `i` that did. */
  ghost function LastRebuild(events: seq<Event>, trace: seq<Views>, i: nat): (m: Option<nat>)
    requires i <= |events| <= |trace|
    ensures m.Some? ==> m.value < i && (events[m.value].Put? || events[m.value].Delete?)
  {
    if i == 0 then None
    else if Rebuilds(trace[i - 1], events[i - 1]) then Some(i - 1)
    else LastRebuild(events, trace, i - 1)
  }

  /** What any event does to the responder's rules and failures. */
  ghost predicate RebuildFacts(v: Views, e: Event, v': Views) {
    && (v.responderClosed ==> v'.responderClosed)
    && (!v'.responderClosed && !Rebuilds(v, e) ==> v'.core == v.core && v'.coreFailed == v.coreFailed)
    && (Rebuilds(v, e) ==> FailedAre(v'.coreFailed, v'.core, e.io.coreFails))
  }

  lemma RebuildStep(v: Views, e: Event, v': Views)
    requires Step(v, e, v')
    ensures RebuildFacts(v, e, v')
  {
  }

  lemma {:induction false} RebuiltSince(events: seq<Event>, trace: seq<Views>, i: nat)
    requires |trace| == |events| + 1 && i < |trace| && trace[0].core == []
    requires forall n :: 0 <= n < i ==> RebuildFacts(trace[n], events[n], trace[n + 1])
    requires !trace[i].responderClosed
    ensures var m := LastRebuild(events, trace, i);
            if m.None? then trace[i].core == []
            else FailedAre(trace[i].coreFailed, trace[i].core, events[m.value].io.coreFails)
    decreases i
  {
    if i > 0 {
      assert RebuildFacts(trace[i - 1], events[i - 1], trace[i - 1 + 1]);
      RebuiltSince(events, trace, i - 1);
    }
  }

  lemma AllRebuildFacts(events: seq<Event>, trace: seq<Views>, i: nat)
    requires Behaviour(events, trace) && i <= |events|
    ensures forall n :: 0 <= n < i ==> RebuildFacts(trace[n], events[n], trace[n + 1])
  {
    forall n | 0 <= n < i ensures RebuildFacts(trace[n], events[n], trace[n + 1]) {
      RebuildStep(trace[n], events[n], trace[n + 1]);
    }
  }

  /** After every history, with the responder open, a core subject is listed as
      subscribed exactly if the last attempt to subscribe it did not fail. */
  lemma CoreListedIffLastAttempt(events: seq<Event>, trace: seq<Views>, i: nat, s: string)
    requires Behaviour(events, trace) && i < |trace| && !trace[i].responderClosed
    requires FirstCore(trace[i].core, s) < |trace[i].core|
    ensures var m := LastRebuild(events, trace, i);
            m.Some? && (s in SubjectList(trace[i].coreSubs) <==> !events[m.value].io.coreFails(s))
  {
    AllRebuildFacts(events, trace, i);
    RebuiltSince(events, trace, i);
    EveryHistoryReconciles(events, trace, i);
  }

  // ------------------------------------------------------- stale subscriptions

  /** Every subscription is needed. */
  ghost predicate NoStale(v: Views) { forall s :: s in v.subs ==> Needed(v.rules, s) }

  /** A put leaves no stale subscription exactly if whatever is subscribed and
      its key needed before is still needed afterwards. */
  lemma PutLeavesNoStaleIff(v: Views, k: string, rs: seq<Rule>, io: Answers, v': Views)
    requires NoStale(v) && PutStep(v, k, rs, io, v')
    ensures NoStale(v') <==> forall s :: s in v.subs && Needs(At(v.rules, k), s) ==> Needed(v'.rules, s)
  {
    forall s ensures s in v'.subs ==> s in v.subs || Needed(v'.rules, s) {
      SubjectsAreNeeds(rs, s);
      assert Needs(rs, s) ==> Needs(v'.rules[k], s);
    }
    forall s | s in v.subs && !Needs(At(v.rules, k), s) ensures Needed(v'.rules, s) {
      var k' :| k' in v.rules && Needs(v.rules[k'], s);
      assert k' in v'.rules && Needs(v'.rules[k'], s);
    }
  }

  /** A delete never creates one. */
  lemma DeleteLeavesNoStale(v: Views, k: string, io: Answers, v': Views)
    requires NoStale(v) && DeleteStep(v, k, io, v')
    ensures NoStale(v')
  {
    if k in v.rules {
      forall s | s in v'.subs ensures Needed(v'.rules, s) {
        SubjectsAreNeeds(v.rules[k], s);
        var k' :| k' in v.rules && Needs(v.rules[k'], s);
        assert k' != k ==> k' in v'.rules && Needs(v'.rules[k'], s);
      }
    }
  }

  // -------------------------------------------------------- stillborn entries

  /** An entry whose iterator failed. */
  predicate IsStillborn(v: Views, s: string) { s in v.subs && !v.subs[s] }

  /** A delete that takes the entry of `s` away. */
  ghost predicate Removes(v: Views, e: Event, v': Views, s: string) {
    e.Delete? && e.key in v.rules && s in Unneeded(v.rules[e.key], v'.rules)
  }

  ghost predicate StillbornFacts(v: Views, e: Event, v': Views, s: string) {
    IsStillborn(v, s) ==> (IsStillborn(v', s) <==> !Removes(v, e, v', s))
  }

  lemma StillbornStep(v: Views, e: Event, v': Views, s: string)
    requires Step(v, e, v')
    ensures StillbornFacts(v, e, v', s)
  {
  }

  lemma {:induction false} StillbornStays(events: seq<Event>, trace: seq<Views>, i: nat, j: nat, s: string)
    requires |trace| == |events| + 1 && i <= j < |trace| && IsStillborn(trace[i], s)
    requires forall m :: i <= m < j ==> StillbornFacts(trace[m], events[m], trace[m + 1], s)
    requires forall m :: i <= m < j ==> !Removes(trace[m], events[m], trace[m + 1], s)
    ensures IsStillborn(trace[j], s)
    decreases j
  {
    if i < j {
      StillbornStays(events, trace, i, j - 1, s);
      assert StillbornFacts(trace[j - 1], events[j - 1], trace[j - 1 + 1], s);
      assert !Removes(trace[j - 1], events[j - 1], trace[j - 1 + 1], s);
    }
  }

  /** Over any stretch of any history a stillborn entry stays exactly as long as
      no delete removes its subject: no put ever repairs it. */
  lemma StillbornUntilRemoved(events: seq<Event>, trace: seq<Views>, i: nat, j: nat, s: string)
    requires Behaviour(events, trace) && i <= j < |trace| && IsStillborn(trace[i], s)
    requires forall m :: i <= m < j ==> !Removes(trace[m], events[m], trace[m + 1], s)
    ensures IsStillborn(trace[j], s)
  {
    forall m | i <= m < j ensures StillbornFacts(trace[m], events[m], trace[m + 1], s) {
      StillbornStep(trace[m], events[m], trace[m + 1], s);
    }
    StillbornStays(events, trace, i, j, s);
  }

  // ------------------------------------------------- redelivery and resync

  function Apply(m: RuleMap, e: Event): RuleMap {
    match e
    case Put(k, rs, _) => m[k := rs]
    case Delete(k, _) => Without(m, k)
    case Rejected(_) => m
    case CloseResponder => m
  }

  function Replay(m: RuleMap, es: seq<Event>): RuleMap {
    if es == [] then m else Apply(Replay(m, es[..|es| - 1]), es[|es| - 1])
  }

  /** The last accepted operation on a key: none, a put of rules, or a delete. */
  function LastOp(es: seq<Event>, k: string): Option<Option<seq<Rule>>> {
    if es == [] then None
    else
      var e := es[|es| - 1];
      if e.Put? && e.key == k then Some(Some(e.rules))
      else if e.Delete? && e.key == k then Some(None)
      else LastOp(es[..|es| - 1], k)
  }

  lemma {:induction false} ReplayIsLastOp(m: RuleMap, es: seq<Event>, k: string)
    ensures Lookup(Replay(m, es), k) == if LastOp(es, k).Some? then LastOp(es, k).value else Lookup(m, k)
  {
    if es != [] {
      ReplayIsLastOp(m, es[..|es| - 1], k);
    }
  }

  lemma SameLookups(a: RuleMap, b: RuleMap)
    requires forall k :: Lookup(a, k) == Lookup(b, k)
    ensures a == b
  {
    assert forall k :: (k in a <==> Lookup(a, k).Some?) && (k in b <==> Lookup(b, k).Some?);
    assert forall k :: k in a ==> Lookup(a, k) == Some(a[k]);
    assert forall k :: k in b ==> Lookup(b, k) == Some(b[k]);
  }

  /** Any order of delivery that ends in each key's last operation yields the
      same rules, from whatever rules it started. */
  lemma DeliveryOrderIrrelevant(m: RuleMap, one: seq<Event>, two: seq<Event>)
    requires forall k :: LastOp(one, k) == LastOp(two, k)
    ensures Replay(m, one) == Replay(m, two)
  {
    forall k ensures Lookup(Replay(m, one), k) == Lookup(Replay(m, two), k) {
      ReplayIsLastOp(m, one, k);
      ReplayIsLastOp(m, two, k);
    }
    SameLookups(Replay(m, one), Replay(m, two));
  }

  /** What an event says about one key. */
  datatype Change = Puts(rules: seq<Rule>) | Rejects | Deletes

  function ChangeOn(e: Event, k: string): Option<Change> {
    match e
    case Put(key, rs, _) => if key == k then Some(Puts(rs)) else None
    case Rejected(key) => if key == k then Some(Rejects) else None
    case Delete(key, _) => if key == k then Some(Deletes) else None
    case CloseResponder => None
  }

  /** The latest revision of a key, a rejected value included. */
  function Latest(es: seq<Event>, k: string): Option<Change> {
    if es == [] then None
    else if ChangeOn(es[|es| - 1], k).Some? then ChangeOn(es[|es| - 1], k)
    else Latest(es[..|es| - 1], k)
  }

  predicate Mentions(es: seq<Event>, k: string) { Latest(es, k).Some? }

  /** What a re-created watcher delivers: for each key it knows its latest
      revision, and it knows at least every key that holds a value. */
  ghost predicate Redelivers(redelivered: seq<Event>, history: seq<Event>) {
    && (forall e, k :: e in redelivered && ChangeOn(e, k).Some? ==> ChangeOn(e, k) == Latest(history, k))
    && (forall k :: Mentions(history, k) && Latest(history, k) != Some(Deletes) ==> Mentions(redelivered, k))
  }

  /** Nothing the outage hid about `k` is lost: its latest value was rejected,
      and the last accepted change that was missed, if any, left what is loaded. */
  ghost predicate NothingHidden(loaded: RuleMap, missed: seq<Event>, k: string) {
    LastOp(missed, k).None? || LastOp(missed, k).value == Lookup(loaded, k)
  }

  lemma {:induction false} LatestDecides(es: seq<Event>, k: string)
    ensures Latest(es, k) == Some(Deletes) ==> LastOp(es, k) == Some(None)
    ensures Latest(es, k).Some? && Latest(es, k).value.Puts? ==> LastOp(es, k) == Some(Some(Latest(es, k).value.rules))
    ensures Latest(es, k).None? ==> LastOp(es, k).None?
  {
    if es != [] { LatestDecides(es[..|es| - 1], k); }
  }

  lemma {:induction false} LastOpConcat(a: seq<Event>, b: seq<Event>, k: string)
    ensures LastOp(a + b, k) == if LastOp(b, k).Some? then LastOp(b, k) else LastOp(a, k)
    decreases |b|
  {
    if b == [] {
      assert a + b == a;
    } else {
      assert (a + b)[..|a + b| - 1] == a + b[..|b| - 1];
      LastOpConcat(a, b[..|b| - 1], k);
    }
  }

  /** One redelivered revision per key leaves nothing but that revision. */
  lemma {:induction false} UniformOp(es: seq<Event>, k: string, c: Change)
    requires forall e :: e in es && ChangeOn(e, k).Some? ==> ChangeOn(e, k) == Some(c)
    ensures Mentions(es, k) ==> Latest(es, k) == Some(c)
    ensures LastOp(es, k) ==
            if !Mentions(es, k) || c == Rejects then None
            else if c == Deletes then Some(None) else Some(Some(c.rules))
  {
    if es != [] {
      assert es[|es| - 1] in es;
      UniformOp(es[..|es| - 1], k, c);
    }
  }

  /** Whether one key is up to date after the resync. */
  lemma KeyUpToDateIff(seen: seq<Event>, missed: seq<Event>, redelivered: seq<Event>, k: string)
    requires Redelivers(redelivered, seen + missed)
    ensures var loaded, history := Replay(map[], seen), seen + missed;
            Lookup(Replay(loaded, redelivered), k) == Lookup(Replay(map[], history), k) <==>
            (k in loaded ==> Mentions(redelivered, k)) &&
            (Latest(history, k) == Some(Rejects) ==> NothingHidden(loaded, missed, k))
  {
    var loaded, history := Replay(map[], seen), seen + missed;
    ReplayIsLastOp(map[], seen, k);
    ReplayIsLastOp(map[], history, k);
    ReplayIsLastOp(loaded, redelivered, k);
    LastOpConcat(seen, missed, k);
    LatestDecides(history, k);
    var c := if Latest(history, k).Some? then Latest(history, k).value else Rejects;
    forall e | e in redelivered && ChangeOn(e, k).Some? ensures ChangeOn(e, k) == Some(c) {
    }
    UniformOp(redelivered, k, c);
  }

  /** After an outage the rules are those of an uninterrupted watcher exactly if
      no loaded key was forgotten (its delete marker compacted away) and no key
      whose latest value is rejected hides an accepted change that was missed. */
  lemma ResyncUpToDateIff(seen: seq<Event>, missed: seq<Event>, redelivered: seq<Event>)
    requires Redelivers(redelivered, seen + missed)
    ensures var loaded, history := Replay(map[], seen), seen + missed;
            Replay(loaded, redelivered) == Replay(map[], history) <==>
            (forall k :: k in loaded ==> Mentions(redelivered, k)) &&
            (forall k :: Latest(history, k) == Some(Rejects) ==> NothingHidden(loaded, missed, k))
  {
    var loaded, history := Replay(map[], seen), seen + missed;
    var now, truth := Replay(loaded, redelivered), Replay(map[], history);
    forall k
      ensures Lookup(now, k) == Lookup(truth, k) <==>
              (k in loaded ==> Mentions(redelivered, k)) &&
              (Latest(history, k) == Some(Rejects) ==> NothingHidden(loaded, missed, k))
    {
      KeyUpToDateIff(seen, missed, redelivered, k);
    }
    if forall k :: Lookup(now, k) == Lookup(truth, k) {
      SameLookups(now, truth);
    }
  }

  lemma OneMoreEvent(m: RuleMap, es: seq<Event>, e: Event, k: string)
    ensures Replay(m, es + [e]) == Apply(Replay(m, es), e)
    ensures Latest(es + [e], k) == if ChangeOn(e, k).Some? then ChangeOn(e, k) else Latest(es, k)
  {
    assert (es + [e])[..|es|] == es;
  }

  /** A rejected value published during an outage can hide an accepted one: no
      key is forgotten, yet the earlier rules stay, and a restart loses them. */
  lemma RejectedHidesMissed(k: string, before: seq<Rule>, after: seq<Rule>, io: Answers)
    ensures
      var seen, missed := [Put(k, before, io)], [Put(k, after, io), Rejected(k)];
      && Redelivers([Rejected(k)], seen + missed)
      && Replay(Replay(map[], seen), [Rejected(k)]) == map[k := before]
      && Replay(map[], [Rejected(k)]) == map[]
      && Replay(map[], seen + missed) == map[k := after]
  {
    var first, second, bad := Put(k, before, io), Put(k, after, io), Rejected(k);
    assert [first] + [second, bad] == [first, second] + [bad] && [first, second] == [first] + [second];
    assert [first] == [] + [first] && [bad] == [] + [bad];
    forall k' ensures Latest([first] + [second, bad], k') == if k' == k then Some(Rejects) else None {
      OneMoreEvent(map[], [], first, k');
      OneMoreEvent(map[], [first], second, k');
      OneMoreEvent(map[], [first, second], bad, k');
    }
    OneMoreEvent(map[], [], bad, k);
    OneMoreEvent(map[k := before], [], bad, k);
  }

  /** With nothing accepted in between, a rejected value does no harm. */
  lemma RejectedAloneIsHarmless(k: string, rs: seq<Rule>, io: Answers)
    ensures
      var seen, missed := [Put(k, rs, io)], [Rejected(k)];
      && Redelivers([Rejected(k)], seen + missed)
      && Replay(Replay(map[], seen), [Rejected(k)]) == Replay(map[], seen + missed) == map[k := rs]
  {
    var first, bad := Put(k, rs, io), Rejected(k);
    assert [first] == [] + [first] && [bad] == [] + [bad];
    forall k' ensures Latest([first] + [bad], k') == if k' == k then Some(Rejects) else None {
      OneMoreEvent(map[], [], first, k');
      OneMoreEvent(map[], [first], bad, k');
    }
    OneMoreEvent(map[k := rs], [], bad, k);
  }

  /** A compacted delete marker leaves its rules behind. */
  lemma ForgottenDeleteStays(k: string, rs: seq<Rule>, io: Answers)
    ensures
      var seen, missed := [Put(k, rs, io)], [Delete(k, io)];
      && Redelivers([], seen + missed)
      && Replay(Replay(map[], seen), []) == map[k := rs]
      && Replay(map[], seen + missed) == map[]
  {
    var first, gone := Put(k, rs, io), Delete(k, io);
    assert [first] == [] + [first];
    forall k' ensures Latest([first] + [gone], k') == if k' == k then Some(Deletes) else None {
      OneMoreEvent(map[], [], first, k');
      OneMoreEvent(map[], [first], gone, k');
    }
  }

  lemma StepApplies(v: Views, e: Event, v': Views)
    requires Step(v, e, v')
    ensures v'.rules == Apply(v.rules, e)
  {
    if e.Delete? && e.key !in v.rules {
      assert Without(v.rules, e.key) == v.rules;
    }
  }

  /** The rules of a behaviour are its events replayed. */
  lemma {:induction false} TraceIsReplay(events: seq<Event>, trace: seq<Views>, i: nat)
    requires Behaviour(events, trace) && i < |trace|
    ensures trace[i].rules == Replay(map[], events[..i])
    decreases i
  {
    if i > 0 {
      TraceIsReplay(events, trace, i - 1);
      assert events[..i][..i - 1] == events[..i - 1];
      StepApplies(trace[i - 1], events[i - 1], trace[i]);
    }
  }
}
