/** Rules as the router's bookkeeping sees them: an identity and a trigger.
    The conditions and the action of a rule are modelled in their own modules;
    here `id` stands for them. */
module Rules {
  import opened Text

  const MODE_CORE := "core"

  datatype NatsTrigger = NatsTrigger(subject: string, mode: string, reply: bool, queue: string) {
    /** Served by a core subscription rather than by a JetStream consumer. */
    predicate IsCore() { reply || mode == MODE_CORE }
  }

  datatype Rule = Rule(id: nat, nats: Option<NatsTrigger>, http: Option<string>, schedule: Option<string>)

  predicate IsCoreRule(r: Rule) { r.nats.Some? && r.nats.value.IsCore() }

  predicate IsJetStreamRule(r: Rule) { r.nats.Some? && !r.nats.value.IsCore() }

  predicate IsScheduleRule(r: Rule) { r.schedule.Some? }

  /** The rules of `rs` that satisfy `p`, in order. */
  function Select(rs: seq<Rule>, p: Rule -> bool): (out: seq<Rule>)
    ensures forall r :: r in out <==> r in rs && p(r)
  {
    if rs == [] then []
    else
      var init, last := rs[..|rs| - 1], rs[|rs| - 1];
      assert rs == init + [last];
      Select(init, p) + if p(last) then [last] else []
  }

  lemma SelectSnoc(rs: seq<Rule>, r: Rule, p: Rule -> bool)
    ensures Select(rs + [r], p) == Select(rs, p) + if p(r) then [r] else []
  {
    assert (rs + [r])[..|rs|] == rs;
  }

  lemma {:induction false} SelectEq(rs: seq<Rule>, p: Rule -> bool, q: Rule -> bool)
    requires forall r :: r in rs ==> p(r) == q(r)
    ensures Select(rs, p) == Select(rs, q)
  {
    if rs != [] {
      SelectEq(rs[..|rs| - 1], p, q);
    }
  }

  /** Selecting by two disjoint predicates loses and duplicates nothing. */
  lemma {:induction false} SelectDisjoint(rs: seq<Rule>, p: Rule -> bool, q: Rule -> bool, either: Rule -> bool)
    requires forall r :: r in rs ==> !(p(r) && q(r)) && (either(r) <==> p(r) || q(r))
    ensures multiset(Select(rs, p)) + multiset(Select(rs, q)) == multiset(Select(rs, either))
  {
    if rs != [] {
      SelectDisjoint(rs[..|rs| - 1], p, q, either);
    }
  }
}
