/** The leading throttles of all rules over any sequence of messages: what
    `evaluateRules` (internal/rule/processor.go:884-996) and the throttle
    (internal/rule/throttle.go) promise together. The laws are about any log of
    questions, so also about one that several workers wrote together: the
    throttle's lock is held for one question at a time. */
module Emissions {
  import opened Text
  import opened Conditionals
  import opened Throttle
  import Outcomes

  type Clock = Outcomes.Clock

  /** A rule asks the throttle of one of its phases about a resolved key. */
  datatype Question = Question(phase: Phase, index: nat, key: string, window: int)

  type Log = seq<Question>

  /** The throttle's history, the n-th question being asked at `clock(n)`. */
  function Calls(log: Log, clock: Clock): (calls: seq<Call>)
    ensures |calls| == |log|
  {
    seq(|log|, i requires 0 <= i < |log| =>
      Call(ThrottleKey(log[i].phase, log[i].index, log[i].key), log[i].window, clock(i)))
  }

  ghost predicate Runs(clock: Clock) { forall i, j :: i <= j ==> clock(i) <= clock(j) }

  /** The same throttle of the same rule, on the same key. */
  predicate Same(p: Question, q: Question) { p.phase == q.phase && p.index == q.index && p.key == q.key }

  /** The answer to the n-th question. */
  predicate Answer(log: Log, n: nat, clock: Clock)
    requires n < |log|
  {
    Allowed(Calls(log, clock), n)
  }

  lemma SameKeyIff(p: Question, q: Question)
    ensures ThrottleKey(p.phase, p.index, p.key) == ThrottleKey(q.phase, q.index, q.key) <==> Same(p, q)
  {
    if ThrottleKey(p.phase, p.index, p.key) == ThrottleKey(q.phase, q.index, q.key) {
      ThrottleKeyInjective(p.phase, p.index, p.key, q.phase, q.index, q.key);
    }
  }

  lemma SameCallIff(log: Log, i: nat, n: nat, clock: Clock)
    requires i < |log| && n < |log|
    ensures Calls(log, clock)[i].key == Calls(log, clock)[n].key <==> Same(log[i], log[n])
  {
    SameKeyIff(log[i], log[n]);
  }

  /** However many other rules and messages come in between, two times a rule
      passes one of its leading throttles on one key are a window apart. */
  lemma PassesAreSpaced(log: Log, i: nat, n: nat, clock: Clock)
    requires Runs(clock) && i < n < |log| && Same(log[i], log[n])
    requires Answer(log, i, clock) && Answer(log, n, clock)
    ensures clock(n) - clock(i) >= log[i].window
  {
    SameCallIff(log, i, n, clock);
    AllowedPairsSpaced(Calls(log, clock), i, n);
  }

  /** Question `i` is the last one before `n` to pass on the throttle and key of `n`. */
  ghost predicate LastPass(log: Log, i: nat, n: nat, clock: Clock)
    requires n < |log|
  {
    i < n && Same(log[i], log[n]) && Answer(log, i, clock) &&
    forall j :: i < j < n && Same(log[j], log[n]) ==> !Answer(log, j, clock)
  }

  lemma LastPassIff(log: Log, i: nat, n: nat, clock: Clock)
    requires n < |log|
    ensures LastPass(log, i, n, clock) <==> LastAllowed(Calls(log, clock), i, n, Calls(log, clock)[n].key)
  {
    forall j: nat | j < n ensures Calls(log, clock)[j].key == Calls(log, clock)[n].key <==> Same(log[j], log[n]) {
      SameCallIff(log, j, n, clock);
    }
  }

  /** A rule passes exactly when the window of its own last pass on that key is
      over: no other rule, phase or key can suppress it. */
  lemma PassesIff(log: Log, n: nat, clock: Clock)
    requires n < |log|
    ensures Answer(log, n, clock) <==>
            forall i :: 0 <= i < n && LastPass(log, i, n, clock) ==> clock(i) + log[i].window <= clock(n)
  {
    var calls := Calls(log, clock);
    AllowedIff(calls, n);
    forall i: nat | i < n
      ensures LastPass(log, i, n, clock) <==> LastAllowed(calls, i, n, calls[n].key)
    {
      LastPassIff(log, i, n, clock);
    }
  }

  // -------------------------------------------------- the questions of a run

  function TriggerQuestion(r: Outcomes.Rule): Log {
    if r.trigger.Some? then [Question(Trigger, r.index, r.trigger.value.key, r.trigger.value.window)] else []
  }

  function ActionQuestion(r: Outcomes.Rule): Log {
    if r.action.Some? && !r.action.value.trailing
    then [Question(Action, r.index, r.action.value.limit.key, r.action.value.limit.window)] else []
  }

  /** The trigger throttle is asked first; the action throttle only if it is a
      leading one, the trigger was not suppressed and the conditions hold. */
  ghost function LogRule(r: Outcomes.Rule, log: Log, clock: Clock, ctx: Context): Log {
    var asked := log + TriggerQuestion(r);
    if r.trigger.Some? && !Answer(asked, |log|, clock) then asked
    else if !Outcomes.ConditionsHold(r, ctx) then asked
    else asked + ActionQuestion(r)
  }

  lemma AskedIsLogged(r: Outcomes.Rule, phase: Phase, l: Outcomes.Limit, log: Log, clock: Clock)
    ensures Outcomes.Asked(r, phase, l, Calls(log, clock), clock) ==
            Calls(log + [Question(phase, r.index, l.key, l.window)], clock)
  {
  }

  /** Judging a rule asks exactly those questions and obeys the answers. */
  lemma JudgeFollowsLog(r: Outcomes.Rule, log: Log, clock: Clock, ctx: Context)
    ensures
      var (judged, calls) := Outcomes.Judge(r, Calls(log, clock), clock, ctx);
      var asked, logged := log + TriggerQuestion(r), LogRule(r, log, clock, ctx);
      && calls == Calls(logged, clock)
      && (judged.triggerAllowed <==> (r.trigger.Some? ==> Answer(asked, |log|, clock)))
      && (judged.holds <==> judged.triggerAllowed && Outcomes.ConditionsHold(r, ctx))
      && (judged.throttled.Leading? <==> |logged| > |asked|)
      && (judged.throttled.Leading? ==> judged.throttled.allowed == Answer(logged, |asked|, clock))
  {
    var asked := log + TriggerQuestion(r);
    assert log + [] == log;
    if r.trigger.Some? {
      AskedIsLogged(r, Trigger, r.trigger.value, log, clock);
    }
    assert Outcomes.AfterTrigger(r, Calls(log, clock), clock) == Calls(asked, clock);
    if r.action.Some? {
      AskedIsLogged(r, Action, r.action.value.limit, asked, clock);
    }
    assert asked + [] == asked;
  }

  // ------------------------------------------------- workers, interleaved

  lemma AnswerInPrefix(log: Log, more: Log, n: nat, clock: Clock)
    requires log <= more && n < |log|
    ensures Answer(log, n, clock) <==> Answer(more, n, clock)
  {
    assert Calls(log, clock)[..n] == Calls(more, clock)[..n];
  }

  /** One rule evaluated for one message by some worker, and the places of its
      questions in the log that all workers share. */
  datatype Turn = Turn(rule: Outcomes.Rule, ctx: Context, trigger: Option<nat>, action: Option<nat>)

  /** The turn asked what it should, in order, wherever the questions of other
      workers fell in between. */
  ghost predicate Fits(t: Turn, log: Log, clock: Clock) {
    && (t.trigger.None? <==> TriggerQuestion(t.rule) == [])
    && (t.trigger.Some? ==> t.trigger.value < |log| && TriggerQuestion(t.rule) == [log[t.trigger.value]])
    && (t.action.Some? <==>
        ActionQuestion(t.rule) != [] && Outcomes.ConditionsHold(t.rule, t.ctx) &&
        (t.trigger.Some? ==> Answer(log, t.trigger.value, clock)))
    && (t.action.Some? ==> t.action.value < |log| && ActionQuestion(t.rule) == [log[t.action.value]])
    && (t.trigger.Some? && t.action.Some? ==> t.trigger.value < t.action.value)
  }

  /** Its leading throttle lets the turn's actions through. */
  ghost predicate Emits(t: Turn, log: Log, clock: Clock) {
    t.action.Some? && t.action.value < |log| && Answer(log, t.action.value, clock)
  }

  /** In every log, however the workers interleave, two emissions of one rule on
      one key are at least the earlier one's window apart. */
  lemma EmissionsAreSpaced(log: Log, s: Turn, t: Turn, clock: Clock)
    requires Runs(clock) && Fits(s, log, clock) && Fits(t, log, clock)
    requires Emits(s, log, clock) && Emits(t, log, clock) && s.action.value < t.action.value
    requires s.rule.index == t.rule.index && s.rule.action.value.limit.key == t.rule.action.value.limit.key
    ensures clock(t.action.value) - clock(s.action.value) >= s.rule.action.value.limit.window
  {
    assert ActionQuestion(s.rule)[0] == log[s.action.value] && ActionQuestion(t.rule)[0] == log[t.action.value];
    PassesAreSpaced(log, s.action.value, t.action.value, clock);
  }

  lemma FitsLater(t: Turn, log: Log, more: Log, clock: Clock)
    requires Fits(t, log, clock) && log <= more
    ensures Fits(t, more, clock) && (Emits(t, log, clock) <==> Emits(t, more, clock))
  {
    if t.trigger.Some? { AnswerInPrefix(log, more, t.trigger.value, clock); }
    if t.action.Some? { AnswerInPrefix(log, more, t.action.value, clock); }
  }

  // ------------------------------------------------ messages one at a time

  /** A rule to be evaluated for a message. */
  datatype Job = Job(rule: Outcomes.Rule, ctx: Context)

  datatype Message = Message(rules: seq<Outcomes.Rule>, ctx: Context)

  function JobsOf(m: Message): (jobs: seq<Job>)
    ensures |jobs| == |m.rules|
  {
    seq(|m.rules|, i requires 0 <= i < |m.rules| => Job(m.rules[i], m.ctx))
  }

  function AllJobs(messages: seq<Message>): seq<Job> {
    if messages == [] then [] else AllJobs(messages[..|messages| - 1]) + JobsOf(messages[|messages| - 1])
  }

  /** A log that every job extends by `step`. */
  ghost function LogBy(jobs: seq<Job>, step: (Log, Job) -> Log): Log {
    if jobs == [] then [] else step(LogBy(jobs[..|jobs| - 1], step), jobs[|jobs| - 1])
  }

  ghost function Asking(clock: Clock): (Log, Job) -> Log {
    (log: Log, j: Job) => LogRule(j.rule, log, clock, j.ctx)
  }

  /** All questions of the jobs in turn, from a fresh throttle. */
  ghost function LogAll(jobs: seq<Job>, clock: Clock): Log { LogBy(jobs, Asking(clock)) }

  ghost function JudgedAt(jobs: seq<Job>, i: nat, clock: Clock): Outcomes.Judged
    requires i < |jobs|
  {
    Outcomes.Judge(jobs[i].rule, Calls(LogAll(jobs[..i], clock), clock), clock, jobs[i].ctx).0
  }

  /** The turn of a job, asked after `log`. */
  ghost function TurnAfter(j: Job, log: Log, clock: Clock): Turn {
    var asked := log + TriggerQuestion(j.rule);
    Turn(j.rule, j.ctx,
         if j.rule.trigger.Some? then Some(|log|) else None,
         if |LogRule(j.rule, log, clock, j.ctx)| > |asked| then Some(|asked|) else None)
  }

  lemma TurnFits(j: Job, log: Log, clock: Clock)
    ensures var t, logged := TurnAfter(j, log, clock), LogRule(j.rule, log, clock, j.ctx);
            log <= logged && Fits(t, logged, clock) && (t.action.Some? ==> |log| <= t.action.value)
  {
    var asked, logged := log + TriggerQuestion(j.rule), LogRule(j.rule, log, clock, j.ctx);
    if j.rule.trigger.Some? { AnswerInPrefix(asked, logged, |log|, clock); }
  }

  lemma TurnIsJudged(j: Job, log: Log, clock: Clock)
    ensures Outcomes.Judge(j.rule, Calls(log, clock), clock, j.ctx).0.throttled == Outcomes.Leading(true) <==>
            Emits(TurnAfter(j, log, clock), LogRule(j.rule, log, clock, j.ctx), clock)
  {
    JudgeFollowsLog(j.rule, log, clock, j.ctx);
  }

  ghost function TurnAt(jobs: seq<Job>, i: nat, clock: Clock): Turn
    requires i < |jobs|
  {
    TurnAfter(jobs[i], LogAll(jobs[..i], clock), clock)
  }

  lemma OneJob(jobs: seq<Job>, i: nat, clock: Clock)
    requires i < |jobs|
    ensures LogAll(jobs[..i + 1], clock) == LogRule(jobs[i].rule, LogAll(jobs[..i], clock), clock, jobs[i].ctx)
  {
    assert jobs[..i + 1][..i] == jobs[..i];
  }

  lemma {:induction false} GrowsBy(jobs: seq<Job>, i: nat, j: nat, step: (Log, Job) -> Log)
    requires i <= j <= |jobs| && forall log, job :: log <= step(log, job)
    ensures LogBy(jobs[..i], step) <= LogBy(jobs[..j], step)
    decreases j
  {
    if i < j {
      GrowsBy(jobs, i, j - 1, step);
      assert jobs[..j][..j - 1] == jobs[..j - 1];
    }
  }

  lemma LogGrows(jobs: seq<Job>, i: nat, j: nat, clock: Clock)
    requires i <= j <= |jobs|
    ensures LogAll(jobs[..i], clock) <= LogAll(jobs[..j], clock)
  {
    forall log, job ensures log <= Asking(clock)(log, job) {
      TurnFits(job, log, clock);
    }
    GrowsBy(jobs, i, j, Asking(clock));
  }

  /** The turns of jobs taken one at a time fit their log, and a job is judged as
      its turn is answered. */
  lemma JobFits(jobs: seq<Job>, i: nat, clock: Clock)
    requires i < |jobs|
    ensures var t, log := TurnAt(jobs, i, clock), LogAll(jobs, clock);
            && Fits(t, log, clock)
            && (JudgedAt(jobs, i, clock).throttled == Outcomes.Leading(true) <==> Emits(t, log, clock))
            && (t.action.Some? ==> |LogAll(jobs[..i], clock)| <= t.action.value < |LogAll(jobs[..i + 1], clock)|)
  {
    var before := LogAll(jobs[..i], clock);
    OneJob(jobs, i, clock);
    TurnFits(jobs[i], before, clock);
    TurnIsJudged(jobs[i], before, clock);
    LogGrows(jobs, i + 1, |jobs|, clock);
    assert jobs[..|jobs|] == jobs;
    FitsLater(TurnAt(jobs, i, clock), LogAll(jobs[..i + 1], clock), LogAll(jobs, clock), clock);
  }

  /** When the leading throttle of the i-th job was asked. */
  ghost function AskedAt(jobs: seq<Job>, i: nat, clock: Clock): int
    requires i < |jobs| && TurnAt(jobs, i, clock).action.Some?
  {
    clock(TurnAt(jobs, i, clock).action.value)
  }

  /** Over any sequence of messages, two jobs of one rule that a leading action
      throttle lets through on one key are at least its window apart. */
  lemma LeadingAreSpaced(jobs: seq<Job>, i: nat, j: nat, clock: Clock)
    requires Runs(clock) && i < j < |jobs|
    requires JudgedAt(jobs, i, clock).throttled == JudgedAt(jobs, j, clock).throttled == Outcomes.Leading(true)
    requires jobs[i].rule.index == jobs[j].rule.index
    requires jobs[i].rule.action.Some? && jobs[j].rule.action.Some?
    requires jobs[i].rule.action.value.limit.key == jobs[j].rule.action.value.limit.key
    ensures TurnAt(jobs, i, clock).action.Some? && TurnAt(jobs, j, clock).action.Some?
    ensures AskedAt(jobs, j, clock) - AskedAt(jobs, i, clock) >= jobs[i].rule.action.value.limit.window
  {
    JobFits(jobs, i, clock);
    JobFits(jobs, j, clock);
    LogGrows(jobs, i + 1, j, clock);
    EmissionsAreSpaced(LogAll(jobs, clock), TurnAt(jobs, i, clock), TurnAt(jobs, j, clock), clock);
  }

  /** What the i-th job contributes to the outcome of its message. */
  ghost function PartAt(jobs: seq<Job>, i: nat, clock: Clock): Outcomes.Outcome
    requires i < |jobs|
  {
    Outcomes.Contribution(JudgedAt(jobs, i, clock))
  }

  lemma EmittedIsLetThrough(jobs: seq<Job>, i: nat, clock: Clock)
    requires i < |jobs| && Outcomes.IsLeading(jobs[i].rule) && PartAt(jobs, i, clock).immediate != []
    ensures JudgedAt(jobs, i, clock).throttled == Outcomes.Leading(true)
  {
    var before := LogAll(jobs[..i], clock);
    var p := Outcomes.JudgeYields(jobs[i].rule, Calls(before, clock), clock, jobs[i].ctx);
    JudgeFollowsLog(jobs[i].rule, before, clock, jobs[i].ctx);
  }

  /** Over any sequence of messages, two evaluations in which a rule with a
      leading action throttle emits actions on one key are at least its window
      apart. */
  lemma ActionsAreSpaced(jobs: seq<Job>, i: nat, j: nat, clock: Clock)
    requires Runs(clock) && i < j < |jobs|
    requires Outcomes.IsLeading(jobs[i].rule) && Outcomes.IsLeading(jobs[j].rule)
    requires jobs[i].rule.index == jobs[j].rule.index
    requires jobs[i].rule.action.value.limit.key == jobs[j].rule.action.value.limit.key
    requires PartAt(jobs, i, clock).immediate != [] && PartAt(jobs, j, clock).immediate != []
    ensures TurnAt(jobs, i, clock).action.Some? && TurnAt(jobs, j, clock).action.Some?
    ensures AskedAt(jobs, j, clock) - AskedAt(jobs, i, clock) >= jobs[i].rule.action.value.limit.window
  {
    EmittedIsLetThrough(jobs, i, clock);
    EmittedIsLetThrough(jobs, j, clock);
    LeadingAreSpaced(jobs, i, j, clock);
  }

  /** Evaluating a message begins with its first job. */
  lemma FirstJob(jobs: seq<Job>, m: Message, clock: Clock)
    requires m.rules != []
    ensures
      var more, rest := jobs + [Job(m.rules[0], m.ctx)], m.rules[1..];
      var (judged, calls) := Outcomes.JudgeAll(rest, Calls(LogAll(more, clock), clock), clock, m.ctx);
      Outcomes.JudgeAll(m.rules, Calls(LogAll(jobs, clock), clock), clock, m.ctx) ==
      ([JudgedAt(more, |jobs|, clock)] + judged, calls)
  {
    var more := jobs + [Job(m.rules[0], m.ctx)];
    assert more[..|jobs|] == jobs && more[..|jobs| + 1] == more;
    OneJob(more, |jobs|, clock);
    JudgeFollowsLog(m.rules[0], LogAll(jobs, clock), clock, m.ctx);
  }

  lemma JobsSplit(jobs: seq<Job>, m: Message)
    requires m.rules != []
    ensures jobs + JobsOf(m) == jobs + [Job(m.rules[0], m.ctx)] + JobsOf(Message(m.rules[1..], m.ctx))
  {
  }

  lemma {:induction false} CallsOfMessage(jobs: seq<Job>, m: Message, clock: Clock)
    ensures Outcomes.JudgeAll(m.rules, Calls(LogAll(jobs, clock), clock), clock, m.ctx).1 ==
            Calls(LogAll(jobs + JobsOf(m), clock), clock)
    decreases |m.rules|
  {
    if m.rules == [] {
      assert jobs + JobsOf(m) == jobs;
    } else {
      FirstJob(jobs, m, clock);
      JobsSplit(jobs, m);
      CallsOfMessage(jobs + [Job(m.rules[0], m.ctx)], Message(m.rules[1..], m.ctx), clock);
    }
  }

  lemma JudgedInPrefix(jobs: seq<Job>, more: seq<Job>, i: nat, clock: Clock)
    requires jobs <= more && i < |jobs|
    ensures JudgedAt(jobs, i, clock) == JudgedAt(more, i, clock)
  {
    assert jobs[..i] == more[..i];
  }

  ghost function JudgedRules(jobs: seq<Job>, m: Message, clock: Clock): seq<Outcomes.Judged> {
    Outcomes.JudgeAll(m.rules, Calls(LogAll(jobs, clock), clock), clock, m.ctx).0
  }

  lemma FirstJudged(jobs: seq<Job>, m: Message, clock: Clock)
    requires m.rules != []
    ensures JudgedRules(jobs, m, clock) ==
            [JudgedAt(jobs + JobsOf(m), |jobs|, clock)] +
            JudgedRules(jobs + [Job(m.rules[0], m.ctx)], Message(m.rules[1..], m.ctx), clock)
  {
    FirstJob(jobs, m, clock);
    JobsSplit(jobs, m);
    JudgedInPrefix(jobs + [Job(m.rules[0], m.ctx)], jobs + JobsOf(m), |jobs|, clock);
  }

  /** The judgements of the jobs from position `i` on. */
  ghost function JudgedFrom(jobs: seq<Job>, i: nat, clock: Clock): seq<Outcomes.Judged>
    requires i <= |jobs|
    decreases |jobs| - i
  {
    if i == |jobs| then [] else [JudgedAt(jobs, i, clock)] + JudgedFrom(jobs, i + 1, clock)
  }

  /** Evaluating one more message judges its rules as its jobs are judged. */
  lemma {:induction false} JudgedOfMessage(jobs: seq<Job>, m: Message, clock: Clock)
    ensures JudgedRules(jobs, m, clock) == JudgedFrom(jobs + JobsOf(m), |jobs|, clock)
    decreases |m.rules|
  {
    if m.rules != [] {
      FirstJudged(jobs, m, clock);
      JobsSplit(jobs, m);
      JudgedOfMessage(jobs + [Job(m.rules[0], m.ctx)], Message(m.rules[1..], m.ctx), clock);
    }
  }

  /** The throttle's history after evaluating the rules of every message in turn. */
  ghost function CallsAfter(messages: seq<Message>, clock: Clock): seq<Call> {
    if messages == [] then []
    else
      var last := messages[|messages| - 1];
      Outcomes.JudgeAll(last.rules, CallsAfter(messages[..|messages| - 1], clock), clock, last.ctx).1
  }

  /** So evaluating messages one after the other is a run of jobs. */
  lemma {:induction false} EveryRunIsLogged(messages: seq<Message>, clock: Clock)
    ensures CallsAfter(messages, clock) == Calls(LogAll(AllJobs(messages), clock), clock)
  {
    if messages != [] {
      var init, last := messages[..|messages| - 1], messages[|messages| - 1];
      EveryRunIsLogged(init, clock);
      CallsOfMessage(AllJobs(init), last, clock);
    }
  }
}
