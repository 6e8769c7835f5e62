/** What one evaluation yields: the split into immediate and deferred actions
    (internal/rule/processor.go:884-996, internal/rule/types.go:62-106). */
module Outcomes {
  import opened Text
  import opened Json
  import opened Conditionals
  import Throttle

  // ------------------------------------------------- immediate and deferred

  datatype Hold = Hold(key: string, window: int)

  /** `hold` is the stamp of a deferred action; `body` everything else. */
  datatype Action = Action(body: Json, hold: Option<Hold>)

  datatype Batch = Batch(key: string, window: int, actions: seq<Action>)

  datatype Outcome = Outcome(immediate: seq<Action>, deferred: seq<Batch>)

  /** A rule's action throttle, with the answer a leading one gives here. */
  datatype Throttled = Unthrottled | Leading(allowed: bool) | Trailing(hold: Hold)

  /** What a rule's throttles, conditions and action say for this message.
      `bodies` is None when the action fails. */
  datatype Judged = Judged(triggerAllowed: bool, holds: bool, throttled: Throttled, bodies: Option<seq<Json>>)

  function Bodies(r: Judged): seq<Json> {
    if r.triggerAllowed && r.holds && r.throttled != Leading(false) && r.bodies.Some? then r.bodies.value else []
  }

  function Stamp(r: Judged): Option<Hold> {
    if r.throttled.Trailing? then Some(r.throttled.hold) else None
  }

  /** All actions of a rule, stamped. */
  function ActionsOf(r: Judged): (actions: seq<Action>)
    ensures |actions| == |Bodies(r)|
    ensures forall a :: a in actions ==> a.hold == Stamp(r)
  {
    seq(|Bodies(r)|, i requires 0 <= i < |Bodies(r)| => Action(Bodies(r)[i], Stamp(r)))
  }

  /** The whole of one rule goes one way. */
  function Contribution(r: Judged): Outcome {
    if ActionsOf(r) == [] then Outcome([], [])
    else if Stamp(r).None? then Outcome(ActionsOf(r), [])
    else Outcome([], [Batch(Stamp(r).value.key, Stamp(r).value.window, ActionsOf(r))])
  }

  function Plus(a: Outcome, b: Outcome): Outcome {
    Outcome(a.immediate + b.immediate, a.deferred + b.deferred)
  }

  function Outcomes(rules: seq<Judged>): Outcome {
    if rules == [] then Outcome([], []) else Plus(Contribution(rules[0]), Outcomes(rules[1..]))
  }

  /** The tail of the loop: one rule's actions are stamped and filed. */
  method File(out: Outcome, r: Judged) returns (filed: Outcome)
    ensures filed == Plus(out, Contribution(r))
  {
    if !r.triggerAllowed || !r.holds || r.throttled == Leading(false) || r.bodies.None? || r.bodies.value == [] {
      return out;
    }
    var actions := seq(|r.bodies.value|, k requires 0 <= k < |r.bodies.value| => Action(r.bodies.value[k], None));
    if !r.throttled.Trailing? {
      assert actions == ActionsOf(r);
      return out.(immediate := out.immediate + actions);
    }
    var hold := r.throttled.hold;
    for k := 0 to |actions|
      invariant |actions| == |r.bodies.value|
      invariant forall j :: 0 <= j < |actions| ==>
        actions[j] == Action(r.bodies.value[j], if j < k then Some(hold) else None)
    {
      actions := actions[k := actions[k].(hold := Some(hold))];
    }
    assert actions == ActionsOf(r);
    return out.(deferred := out.deferred + [Batch(hold.key, hold.window, actions)]);
  }

  lemma PlusAssociates(a: Outcome, b: Outcome, c: Outcome)
    ensures Plus(Plus(a, b), c) == Plus(a, Plus(b, c))
    ensures Plus(a, Outcome([], [])) == a == Plus(Outcome([], []), a)
  {
  }

  /** Outcome.All */
  function All(o: Outcome): seq<Action> { o.immediate + Flatten(o.deferred) }

  function Flatten(batches: seq<Batch>): seq<Action> {
    if batches == [] then [] else batches[0].actions + Flatten(batches[1..])
  }

  /** Every action, in evaluation order. */
  function InOrder(rules: seq<Judged>): seq<Action> {
    if rules == [] then [] else ActionsOf(rules[0]) + InOrder(rules[1..])
  }

  lemma {:induction false} FlattenPlus(a: seq<Batch>, b: seq<Batch>)
    ensures Flatten(a + b) == Flatten(a) + Flatten(b)
    decreases |a|
  {
    if a == [] {
      assert a + b == b;
    } else {
      assert (a + b)[1..] == a[1..] + b;
      FlattenPlus(a[1..], b);
    }
  }

  lemma AllPlus(a: Outcome, b: Outcome)
    ensures All(Plus(a, b)) == a.immediate + (b.immediate + (Flatten(a.deferred) + Flatten(b.deferred)))
  {
    FlattenPlus(a.deferred, b.deferred);
  }

  lemma OneBatch(b: Batch)
    ensures Flatten([b]) == b.actions
  {
    assert Flatten([b][1..]) == [];
  }

  lemma ContributionAll(r: Judged)
    ensures Contribution(r).immediate == if Stamp(r).None? then ActionsOf(r) else []
    ensures Flatten(Contribution(r).deferred) == if Stamp(r).None? then [] else ActionsOf(r)
  {
    if ActionsOf(r) != [] && Stamp(r).Some? {
      OneBatch(Contribution(r).deferred[0]);
    }
  }

  lemma AllUnfolds(rules: seq<Judged>)
    requires rules != []
    ensures var r, rest := rules[0], Outcomes(rules[1..]);
            All(Outcomes(rules)) ==
            if Stamp(r).None? then ActionsOf(r) + All(rest)
            else rest.immediate + (ActionsOf(r) + Flatten(rest.deferred))
  {
    AllPlus(Contribution(rules[0]), Outcomes(rules[1..]));
    ContributionAll(rules[0]);
  }

  /** The split loses and duplicates nothing. */
  lemma {:induction false} SplitConserves(rules: seq<Judged>)
    ensures multiset(All(Outcomes(rules))) == multiset(InOrder(rules))
    decreases |rules|
  {
    if rules != [] {
      AllUnfolds(rules);
      SplitConserves(rules[1..]);
    }
  }

  /** Immediate actions carry no hold; a batch's actions carry the batch's. */
  lemma {:induction false} StampsTellApart(rules: seq<Judged>)
    ensures forall a :: a in Outcomes(rules).immediate ==> a.hold == None
    ensures forall b :: b in Outcomes(rules).deferred ==>
              b.actions != [] && forall a :: a in b.actions ==> a.hold == Some(Hold(b.key, b.window))
    decreases |rules|
  {
    if rules != [] { StampsTellApart(rules[1..]); }
  }

  predicate Produces(r: Judged) { Stamp(r).Some? && ActionsOf(r) != [] }

  /** The trailing rules that produced anything. */
  function Producers(rules: seq<Judged>): seq<Judged> {
    if rules == [] then []
    else (if Produces(rules[0]) then [rules[0]] else []) + Producers(rules[1..])
  }

  function BatchOf(r: Judged): Batch
    requires Produces(r)
  {
    Batch(Stamp(r).value.key, Stamp(r).value.window, ActionsOf(r))
  }

  /** One batch per such rule: its whole action list. */
  lemma {:induction false} BatchesAreRules(rules: seq<Judged>)
    ensures |Outcomes(rules).deferred| == |Producers(rules)|
    ensures forall k :: 0 <= k < |Producers(rules)| ==>
              Produces(Producers(rules)[k]) && Outcomes(rules).deferred[k] == BatchOf(Producers(rules)[k])
    decreases |rules|
  {
    if rules != [] {
      BatchesAreRules(rules[1..]);
      var r := rules[0];
      assert Contribution(r).deferred == if Produces(r) then [BatchOf(r)] else [];
      assert Outcomes(rules).deferred == Contribution(r).deferred + Outcomes(rules[1..]).deferred;
    }
  }

  /** The rule has actions, and they are not held. */
  predicate FiresNow(r: Judged) { Stamp(r).None? && ActionsOf(r) != [] }

  /** No rule that fires now comes after one whose actions are held. */
  predicate ImmediateFirst(rules: seq<Judged>) {
    forall i, j :: 0 <= i < j < |rules| ==> !(Produces(rules[i]) && FiresNow(rules[j]))
  }

  lemma {:induction false} NothingImmediateIff(rules: seq<Judged>)
    ensures Outcomes(rules).immediate == [] <==> forall r :: r in rules ==> !FiresNow(r)
    decreases |rules|
  {
    if rules != [] {
      NothingImmediateIff(rules[1..]);
      ContributionAll(rules[0]);
      assert Outcomes(rules).immediate == Contribution(rules[0]).immediate + Outcomes(rules[1..]).immediate;
      assert Outcomes(rules).immediate == [] <==> !FiresNow(rules[0]) && Outcomes(rules[1..]).immediate == [];
      assert forall r :: r in rules <==> r == rules[0] || r in rules[1..];
    }
  }

  lemma ImmediateFirstTail(rules: seq<Judged>)
    requires rules != []
    ensures ImmediateFirst(rules) <==>
            ImmediateFirst(rules[1..]) && (Produces(rules[0]) ==> forall r :: r in rules[1..] ==> !FiresNow(r))
  {
    var tail := rules[1..];
    if ImmediateFirst(rules) {
      forall i, j | 0 <= i < j < |tail| ensures !(Produces(tail[i]) && FiresNow(tail[j])) {
        assert tail[i] == rules[i + 1] && tail[j] == rules[j + 1];
      }
      forall r | r in tail && Produces(rules[0]) ensures !FiresNow(r) {
        var j :| 0 <= j < |tail| && tail[j] == r;
        assert rules[j + 1] == r;
      }
    } else {
      var i, j :| 0 <= i < j < |rules| && Produces(rules[i]) && FiresNow(rules[j]);
      assert rules[j] == tail[j - 1] && tail[j - 1] in tail;
      if i > 0 { assert rules[i] == tail[i - 1]; }
    }
  }

  /** All lists evaluation order exactly when the immediate actions came first,
      although its comment promises evaluation order always. */
  lemma {:induction false} AllIsEvaluationOrderIff(rules: seq<Judged>)
    ensures All(Outcomes(rules)) == InOrder(rules) <==> ImmediateFirst(rules)
    decreases |rules|
  {
    if rules != [] {
      var r, rest, later := rules[0], Outcomes(rules[1..]), InOrder(rules[1..]);
      AllUnfolds(rules);
      AllIsEvaluationOrderIff(rules[1..]);
      StampsTellApart(rules[1..]);
      NothingImmediateIff(rules[1..]);
      ImmediateFirstTail(rules);
      if Stamp(r).None? {
        CancelPrefix(ActionsOf(r), All(rest), later);
      } else {
        HeldFirst(ActionsOf(r), rest, later);
      }
    }
  }

  /** A trailing rule followed by an unthrottled one is listed the other way
      round. */
  lemma HeldThenImmediateIsReordered(h: Hold, held: Json, now: Json)
    ensures
      var rules := [Judged(true, true, Trailing(h), Some([held])), Judged(true, true, Unthrottled, Some([now]))];
      && InOrder(rules) == [Action(held, Some(h)), Action(now, None)]
      && All(Outcomes(rules)) == [Action(now, None), Action(held, Some(h))]
      && !ImmediateFirst(rules)
  {
    var a, b := Judged(true, true, Trailing(h), Some([held])), Judged(true, true, Unthrottled, Some([now]));
    assert ActionsOf(a) == [Action(held, Some(h))] && ActionsOf(b) == [Action(now, None)];
    assert [a, b][1..] == [b] && [b][1..] == [];
    assert Produces([a, b][0]) && FiresNow([a, b][1]);
    assert InOrder([b]) == ActionsOf(b) + [] && InOrder([a, b]) == ActionsOf(a) + InOrder([b]);
    AllUnfolds([a, b]);
    assert Outcomes([b]) == Plus(Contribution(b), Outcome([], []));
    assert Outcomes([b]).immediate == ActionsOf(b) && Outcomes([b]).deferred == [];
  }

  lemma HeldFirst(mine: seq<Action>, rest: Outcome, later: seq<Action>)
    requires forall a :: a in mine ==> a.hold.Some?
    requires forall a :: a in rest.immediate ==> a.hold.None?
    ensures rest.immediate + (mine + Flatten(rest.deferred)) == mine + later <==>
            All(rest) == later && (mine == [] || rest.immediate == [])
  {
    var left := rest.immediate + (mine + Flatten(rest.deferred));
    if mine == [] {
      assert left == All(rest) && mine + later == later;
    } else if rest.immediate == [] {
      assert left == mine + All(rest);
      CancelPrefix(mine, All(rest), later);
    } else {
      assert left[0] == rest.immediate[0] && (mine + later)[0] == mine[0];
      assert left[0].hold.None? && mine[0].hold.Some?;
    }
  }

  lemma CancelPrefix(a: seq<Action>, b: seq<Action>, c: seq<Action>)
    ensures a + b == a + c <==> b == c
  {
    assert (a + b)[|a|..] == b && (a + c)[|a|..] == c;
  }

  // ------------------------------------------------------ judging the rules

  /** A throttle's key, resolved for this message, and its window. */
  datatype Limit = Limit(key: string, window: int)

  datatype ActionLimit = ActionLimit(limit: Limit, trailing: bool)

  /** A loaded rule; `bodies` are the actions its templates give for this message. */
  datatype Rule = Rule(
    index: nat,
    trigger: Option<Limit>,
    conditions: Option<Conditions>,
    action: Option<ActionLimit>,
    bodies: Option<seq<Json>>)

  /** The time of the n-th question to the throttle. */
  type Clock = nat -> int

  type Calls = seq<Throttle.Call>

  ghost predicate OnTime(calls: Calls, clock: Clock) {
    (forall i, j :: i <= j ==> clock(i) <= clock(j)) && (calls != [] ==> calls[|calls| - 1].at <= clock(|calls|))
  }

  function KeyOf(r: Rule, phase: Throttle.Phase, l: Limit): string { Throttle.ThrottleKey(phase, r.index, l.key) }

  function Asked(r: Rule, phase: Throttle.Phase, l: Limit, calls: Calls, clock: Clock): (more: Calls)
    ensures |more| == |calls| + 1
  {
    calls + [Throttle.Call(KeyOf(r, phase, l), l.window, clock(|calls|))]
  }

  function AfterTrigger(r: Rule, calls: Calls, clock: Clock): Calls {
    if r.trigger.Some? then Asked(r, Throttle.Trigger, r.trigger.value, calls, clock) else calls
  }

  /** The judgement of one rule, and the throttle calls after it: a suppressed
      trigger asks nothing more, unmet conditions leave the action throttle
      alone, and a trailing throttle is never asked. */
  ghost function Judge(r: Rule, calls: Calls, clock: Clock, ctx: Context): (Judged, Calls) {
    var calls' := AfterTrigger(r, calls, clock);
    if r.trigger.Some? && !Throttle.Allowed(calls', |calls|) then (Judged(false, false, Unthrottled, None), calls')
    else if r.conditions.Some? && !Holds(r.conditions.value, ctx) then (Judged(true, false, Unthrottled, None), calls')
    else if r.action.None? then (Judged(true, true, Unthrottled, r.bodies), calls')
    else
      var l := r.action.value.limit;
      if r.action.value.trailing then
        (Judged(true, true, Trailing(Hold(KeyOf(r, Throttle.Action, l), l.window)), r.bodies), calls')
      else
        var calls'' := Asked(r, Throttle.Action, l, calls', clock);
        (Judged(true, true, Leading(Throttle.Allowed(calls'', |calls'|)), r.bodies), calls'')
  }

  ghost function JudgeAll(rules: seq<Rule>, calls: Calls, clock: Clock, ctx: Context): (seq<Judged>, Calls) {
    if rules == [] then ([], calls)
    else
      var (j, calls') := Judge(rules[0], calls, clock, ctx);
      var (js, calls'') := JudgeAll(rules[1..], calls', clock, ctx);
      ([j] + js, calls'')
  }

  /** `asked` counts the questions so far. */
  method Ask(r: Rule, phase: Throttle.Phase, l: Limit, tm: Throttle.ThrottleManager, clock: Clock, asked: nat)
    returns (ok: bool)
    requires tm.Valid() && OnTime(tm.calls, clock) && asked == |tm.calls|
    modifies tm
    ensures tm.Valid() && tm.calls == Asked(r, phase, l, old(tm.calls), clock) && OnTime(tm.calls, clock)
    ensures ok == Throttle.Allowed(tm.calls, asked)
  {
    ok := tm.Allow(KeyOf(r, phase, l), l.window, clock(asked));
  }

  method JudgeRule(r: Rule, tm: Throttle.ThrottleManager, clock: Clock, asked: nat, ctx: Context)
    returns (j: Judged, asked': nat)
    requires tm.Valid() && OnTime(tm.calls, clock) && asked == |tm.calls|
    modifies tm
    ensures tm.Valid() && OnTime(tm.calls, clock) && asked' == |tm.calls|
    ensures (j, tm.calls) == Judge(r, old(tm.calls), clock, ctx)
  {
    asked' := asked;
    if r.trigger.Some? {
      var ok := Ask(r, Throttle.Trigger, r.trigger.value, tm, clock, asked);
      asked' := asked + 1;
      if !ok {
        return Judged(false, false, Unthrottled, None), asked';
      }
    }
    if r.conditions.Some? {
      var met := Evaluate(r.conditions.value, ctx);
      if !met {
        return Judged(true, false, Unthrottled, None), asked';
      }
    }
    if r.action.None? {
      return Judged(true, true, Unthrottled, r.bodies), asked';
    }
    var l := r.action.value.limit;
    if r.action.value.trailing {
      return Judged(true, true, Trailing(Hold(KeyOf(r, Throttle.Action, l), l.window)), r.bodies), asked';
    }
    var ok := Ask(r, Throttle.Action, l, tm, clock, asked');
    return Judged(true, true, Leading(ok), r.bodies), asked' + 1;
  }

  /** What is still to be judged and filed after some rules. */
  lemma JudgeStep(rules: seq<Rule>, i: nat, calls: Calls, clock: Clock, ctx: Context)
    requires i < |rules|
    ensures var (j, calls') := Judge(rules[i], calls, clock, ctx);
            var (js, end) := JudgeAll(rules[i + 1..], calls', clock, ctx);
            JudgeAll(rules[i..], calls, clock, ctx) == ([j] + js, end) &&
            Outcomes([j] + js) == Plus(Contribution(j), Outcomes(js))
  {
    assert rules[i..][1..] == rules[i + 1..];
    var (j, calls') := Judge(rules[i], calls, clock, ctx);
    var (js, end) := JudgeAll(rules[i + 1..], calls', clock, ctx);
    assert ([j] + js)[1..] == js;
  }

  // -------------------------------------------------- what a rule must give

  ghost predicate ConditionsHold(r: Rule, ctx: Context) { r.conditions.Some? ==> Holds(r.conditions.value, ctx) }

  predicate IsTrailing(r: Rule) { r.action.Some? && r.action.value.trailing }

  predicate IsLeading(r: Rule) { r.action.Some? && !r.action.value.trailing }

  /** Where in the throttle's history a rule's questions are. */
  datatype Places = Places(trigger: Option<nat>, action: Option<nat>)

  ghost predicate TriggerPassed(p: Places, calls: Calls) {
    p.trigger.Some? ==> p.trigger.value < |calls| && Throttle.Allowed(calls, p.trigger.value)
  }

  ghost predicate ActionPassed(p: Places, calls: Calls) {
    p.action.Some? && p.action.value < |calls| && Throttle.Allowed(calls, p.action.value)
  }

  /** The trigger throttle is asked if there is one; the action throttle if it is
      leading, the trigger passed and the conditions hold. */
  ghost predicate Placed(r: Rule, p: Places, calls: Calls, clock: Clock, ctx: Context) {
    && (p.trigger.Some? <==> r.trigger.Some?)
    && (p.trigger.Some? ==>
          p.trigger.value < |calls| &&
          calls[p.trigger.value] ==
          Throttle.Call(Throttle.ThrottleKey(Throttle.Trigger, r.index, r.trigger.value.key), r.trigger.value.window,
                        clock(p.trigger.value)))
    && (p.action.Some? <==> IsLeading(r) && TriggerPassed(p, calls) && ConditionsHold(r, ctx))
    && (p.action.Some? ==>
          p.action.value < |calls| &&
          var l := r.action.value.limit;
          calls[p.action.value] ==
          Throttle.Call(Throttle.ThrottleKey(Throttle.Action, r.index, l.key), l.window, clock(p.action.value)))
  }

  /** The actions have exactly these bodies, in order, and this hold. */
  predicate Carry(actions: seq<Action>, bodies: seq<Json>, hold: Option<Hold>) {
    |actions| == |bodies| && forall i :: 0 <= i < |actions| ==> actions[i] == Action(bodies[i], hold)
  }

  /** What one rule must contribute: nothing unless its trigger passed and its
      conditions hold; then all its actions at once, or, if it is trailing, all
      of them in one batch held under its own key for its own window; but
      nothing if it is leading and its throttle said no. */
  ghost predicate Yields(r: Rule, p: Places, calls: Calls, ctx: Context, part: Outcome) {
    if r.bodies.None? || r.bodies.value == [] || !TriggerPassed(p, calls) || !ConditionsHold(r, ctx) ||
       (IsLeading(r) && !ActionPassed(p, calls)) then
      part.immediate == [] && part.deferred == []
    else if IsTrailing(r) then
      var hold := Hold(Throttle.ThrottleKey(Throttle.Action, r.index, r.action.value.limit.key),
                       r.action.value.limit.window);
      part.immediate == [] && |part.deferred| == 1 &&
      part.deferred[0].key == hold.key && part.deferred[0].window == hold.window &&
      Carry(part.deferred[0].actions, r.bodies.value, Some(hold))
    else
      Carry(part.immediate, r.bodies.value, None) && part.deferred == []
  }

  lemma AllowedStays(calls: Calls, more: Calls, n: nat)
    requires calls <= more && n < |calls|
    ensures Throttle.Allowed(calls, n) <==> Throttle.Allowed(more, n)
  {
    assert calls[..n] == more[..n];
  }

  lemma YieldsStays(r: Rule, p: Places, calls: Calls, more: Calls, clock: Clock, ctx: Context, part: Outcome)
    requires calls <= more && Placed(r, p, calls, clock, ctx) && Yields(r, p, calls, ctx, part)
    ensures Placed(r, p, more, clock, ctx) && Yields(r, p, more, ctx, part)
  {
    if p.trigger.Some? { AllowedStays(calls, more, p.trigger.value); }
    if p.action.Some? { AllowedStays(calls, more, p.action.value); }
  }

  lemma ContributionCarries(j: Judged)
    ensures var part := Contribution(j);
            if Bodies(j) == [] then part == Outcome([], [])
            else if j.throttled.Trailing? then
              part.immediate == [] && |part.deferred| == 1 &&
              part.deferred[0].key == j.throttled.hold.key && part.deferred[0].window == j.throttled.hold.window &&
              Carry(part.deferred[0].actions, Bodies(j), Some(j.throttled.hold))
            else Carry(part.immediate, Bodies(j), None) && part.deferred == []
  {
  }

  lemma JudgeYields(r: Rule, calls: Calls, clock: Clock, ctx: Context) returns (p: Places)
    ensures var (j, more) := Judge(r, calls, clock, ctx);
            calls <= more && Placed(r, p, more, clock, ctx) && Yields(r, p, more, ctx, Contribution(j))
  {
    var (j, more) := Judge(r, calls, clock, ctx);
    var asked := AfterTrigger(r, calls, clock);
    ContributionCarries(j);
    p := Places(if r.trigger.Some? then Some(|calls|) else None,
                if j.throttled.Leading? then Some(|asked|) else None);
    if r.trigger.Some? { AllowedStays(asked, more, |calls|); }
  }

  function Sum(parts: seq<Outcome>): Outcome {
    if parts == [] then Outcome([], [])
    else
      var rest := Sum(parts[1..]);
      Outcome(parts[0].immediate + rest.immediate, parts[0].deferred + rest.deferred)
  }

  ghost predicate AllYield(rules: seq<Rule>, places: seq<Places>, calls: Calls, clock: Clock, ctx: Context,
                           parts: seq<Outcome>) {
    |places| == |parts| == |rules| &&
    forall i :: 0 <= i < |rules| ==>
      Placed(rules[i], places[i], calls, clock, ctx) && Yields(rules[i], places[i], calls, ctx, parts[i])
  }

  lemma {:induction false} JudgeAllYields(rules: seq<Rule>, calls: Calls, clock: Clock, ctx: Context)
    returns (places: seq<Places>, parts: seq<Outcome>)
    ensures var (judged, more) := JudgeAll(rules, calls, clock, ctx);
            calls <= more && AllYield(rules, places, more, clock, ctx, parts) && Outcomes(judged) == Sum(parts)
    decreases |rules|
  {
    if rules == [] {
      places, parts := [], [];
    } else {
      var p := JudgeYields(rules[0], calls, clock, ctx);
      var (j, calls') := Judge(rules[0], calls, clock, ctx);
      var ps, rest := JudgeAllYields(rules[1..], calls', clock, ctx);
      var (js, more) := JudgeAll(rules[1..], calls', clock, ctx);
      places, parts := [p] + ps, [Contribution(j)] + rest;
      YieldsStays(rules[0], p, calls', more, clock, ctx, Contribution(j));
      assert ([j] + js)[1..] == js && parts[1..] == rest;
    }
  }

  method EvaluateRules(rules: seq<Rule>, tm: Throttle.ThrottleManager, clock: Clock, asked: nat, ctx: Context)
    returns (out: Outcome, ghost places: seq<Places>, ghost parts: seq<Outcome>)
    requires tm.Valid() && OnTime(tm.calls, clock) && asked == |tm.calls|
    modifies tm
    ensures tm.Valid()
    ensures var (judged, calls) := JudgeAll(rules, old(tm.calls), clock, ctx);
            tm.calls == calls && out == Outcomes(judged)
    ensures out == Sum(parts) && AllYield(rules, places, tm.calls, clock, ctx, parts)
  {
    places, parts := JudgeAllYields(rules, tm.calls, clock, ctx);
    out := Outcome([], []);
    var n := asked;
    ghost var all := JudgeAll(rules, tm.calls, clock, ctx);
    assert rules[0..] == rules;
    PlusAssociates(Outcomes(all.0), out, out);
    for i := 0 to |rules|
      invariant tm.Valid() && OnTime(tm.calls, clock) && n == |tm.calls|
      invariant var (js, end) := JudgeAll(rules[i..], tm.calls, clock, ctx);
                end == all.1 && Plus(out, Outcomes(js)) == Outcomes(all.0)
    {
      ghost var before := tm.calls;
      JudgeStep(rules, i, before, clock, ctx);
      var j;
      j, n := JudgeRule(rules[i], tm, clock, n, ctx);
      ghost var js := JudgeAll(rules[i + 1..], tm.calls, clock, ctx).0;
      PlusAssociates(out, Contribution(j), Outcomes(js));
      out := File(out, j);
    }
    PlusAssociates(out, out, out);
  }

  // ------------------------------------------- batches of different rules

  lemma OneOwner(key: string, i: nat, j: nat)
    requires Throttle.OfRule(key, i) && Throttle.OfRule(key, j)
    ensures i == j
  {
    var phase, k :| key == Throttle.ThrottleKey(phase, i, k);
    Throttle.OfRuleIff(phase, i, k, j);
  }

  ghost predicate OwnedBySome(key: string, rules: seq<Rule>) {
    exists r :: r in rules && Throttle.OfRule(key, r.index)
  }

  lemma ContributedKeys(r: Rule, calls: Calls, clock: Clock, ctx: Context)
    ensures var deferred := Contribution(Judge(r, calls, clock, ctx).0).deferred;
            |deferred| <= 1 && (|deferred| == 1 ==> Throttle.OfRule(deferred[0].key, r.index))
  {
    var deferred := Contribution(Judge(r, calls, clock, ctx).0).deferred;
    if |deferred| == 1 {
      assert deferred[0].key == Throttle.ThrottleKey(Throttle.Action, r.index, r.action.value.limit.key);
    }
  }

  lemma OwnedApart(first: seq<Batch>, rest: seq<Batch>, index: nat, rules: seq<Rule>)
    requires |first| <= 1 && (|first| == 1 ==> Throttle.OfRule(first[0].key, index))
    requires (forall b :: b in rest ==> OwnedBySome(b.key, rules)) && KeysDiffer(rest)
    requires forall r :: r in rules ==> r.index != index
    ensures KeysDiffer(first + rest)
  {
    forall b | b in rest && |first| == 1 ensures b.key != first[0].key {
      var owner :| owner in rules && Throttle.OfRule(b.key, owner.index);
      if b.key == first[0].key {
        OneOwner(b.key, owner.index, index);
      }
    }
  }

  ghost predicate KeysDiffer(batches: seq<Batch>) {
    forall i, j :: 0 <= i < j < |batches| ==> batches[i].key != batches[j].key
  }

  /** No two batches of one outcome share a key, so no rule's batch replaces
      another rule's in the coalescer. */
  lemma {:induction false} BatchKeysDiffer(rules: seq<Rule>, calls: Calls, clock: Clock, ctx: Context)
    requires forall i, j :: 0 <= i < j < |rules| ==> rules[i].index != rules[j].index
    ensures var deferred := Outcomes(JudgeAll(rules, calls, clock, ctx).0).deferred;
            (forall b :: b in deferred ==> OwnedBySome(b.key, rules)) && KeysDiffer(deferred)
    decreases |rules|
  {
    if rules != [] {
      var r, tail := rules[0], rules[1..];
      assert rules[0..] == rules;
      JudgeStep(rules, 0, calls, clock, ctx);
      ContributedKeys(r, calls, clock, ctx);
      var (j, calls') := Judge(r, calls, clock, ctx);
      BatchKeysDiffer(tail, calls', clock, ctx);
      var first, rest := Contribution(j).deferred, Outcomes(JudgeAll(tail, calls', clock, ctx).0).deferred;
      OwnedApart(first, rest, r.index, tail);
      assert r in rules && forall owner :: owner in tail ==> owner in rules;
    }
  }
}
