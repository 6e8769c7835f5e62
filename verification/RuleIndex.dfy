/** The file-loaded rule index (internal/rule/index.go): exact subjects in a map,
    wildcard subjects in a list of compiled matchers. */
module RuleIndex {
  import opened Text
  import opened Rules
  import opened Bags
  import opened Patterns

  datatype PatternRule = PatternRule(rule: Rule, matcher: PatternMatcher)

  /** What `Add` files under the exact subject `subject`. */
  predicate IsExactOn(r: Rule, subject: string) {
    r.nats.Some? && !ContainsWildcards(r.nats.value.subject) && r.nats.value.subject == subject
  }

  /** What `Add` files as a pattern; an invalid wildcard subject is dropped. */
  predicate IsPatternRule(r: Rule) {
    r.nats.Some? && ContainsWildcards(r.nats.value.subject) && ValidatePattern(r.nats.value.subject)
  }

  predicate PatternSelects(r: Rule, subject: string) {
    IsPatternRule(r) && Matches(Split(r.nats.value.subject, '.'), SubjectTokens(subject))
  }

  /** The rules a lookup must return. */
  predicate Selected(r: Rule, subject: string) {
    IsExactOn(r, subject) || PatternSelects(r, subject)
  }

  /** For a validated trigger, selection is the declarative reading of its
      pattern, whether or not it contains wildcards. */
  lemma SelectedMeansMatches(r: Rule, subject: string)
    requires r.nats.Some? && ValidatePattern(r.nats.value.subject)
    ensures Selected(r, subject) <==> Matches(Split(r.nats.value.subject, '.'), SubjectTokens(subject))
  {
    var pattern := r.nats.value.subject;
    var tokens := Split(pattern, '.');
    if !ContainsWildcards(pattern) {
      WildcardTestsAgree(pattern);
      SplitThenJoin(pattern, '.');
      SplitThenJoin(subject, '.');
      assert forall i :: 0 <= i < |tokens| ==> tokens[i] in tokens && !IsWildcard(tokens[i]);
      if Matches(tokens, SubjectTokens(subject)) {
        assert SubjectTokens(subject) == tokens;
      }
    }
  }

  // The same selections as lists, in the order the rules were added.

  function ExactFor(rs: seq<Rule>, subject: string): seq<Rule> { Select(rs, r => IsExactOn(r, subject)) }

  function HitsFor(rs: seq<Rule>, subject: string): seq<Rule> { Select(rs, r => PatternSelects(r, subject)) }

  function SelectedFor(rs: seq<Rule>, subject: string): seq<Rule> { Select(rs, r => Selected(r, subject)) }

  function PatternsOf(rs: seq<Rule>): seq<Rule> { Select(rs, IsPatternRule) }

  lemma ExactForSnoc(rs: seq<Rule>, r: Rule, subject: string)
    ensures ExactFor(rs + [r], subject) == ExactFor(rs, subject) + if IsExactOn(r, subject) then [r] else []
  {
    SelectSnoc(rs, r, x => IsExactOn(x, subject));
  }

  lemma HitsForSnoc(rs: seq<Rule>, r: Rule, subject: string)
    ensures HitsFor(rs + [r], subject) == HitsFor(rs, subject) + if PatternSelects(r, subject) then [r] else []
  {
    SelectSnoc(rs, r, x => PatternSelects(x, subject));
  }

  /** Only filed pattern rules can be hit. */
  lemma {:induction false} HitsAmongPatterns(rs: seq<Rule>, subject: string)
    ensures HitsFor(PatternsOf(rs), subject) == HitsFor(rs, subject)
  {
    if rs != [] {
      var init, last := rs[..|rs| - 1], rs[|rs| - 1];
      assert rs == init + [last];
      HitsAmongPatterns(init, subject);
      HitsForSnoc(init, last, subject);
      HitsForSnoc(PatternsOf(init), last, subject);
      assert PatternsOf(rs) == if IsPatternRule(last) then PatternsOf(init) + [last] else PatternsOf(init);
    }
  }

  /** A lookup's two parts are together exactly the selected rules. */
  lemma LookupIsSelection(rs: seq<Rule>, subject: string)
    ensures multiset(ExactFor(rs, subject) + HitsFor(PatternsOf(rs), subject)) == multiset(SelectedFor(rs, subject))
  {
    HitsAmongPatterns(rs, subject);
    SelectDisjoint(rs, r => IsExactOn(r, subject), r => PatternSelects(r, subject), r => Selected(r, subject));
  }

  ghost predicate ExactOk(exact: map<string, seq<Rule>>, added: seq<Rule>) {
    forall s :: ExactFor(added, s) == At(exact, s)
  }

  ghost predicate PatternsOk(prs: seq<PatternRule>, added: seq<Rule>) {
    Filed(prs, PatternsOf(added))
  }

  ghost predicate FiledAs(pr: PatternRule, r: Rule) {
    && pr.rule == r
    && IsPatternRule(r)
    && BuiltFrom(pr.matcher, r.nats.value.subject, Split(r.nats.value.subject, '.'))
  }

  lemma ExactUnchanged(exact: map<string, seq<Rule>>, added: seq<Rule>, r: Rule)
    requires ExactOk(exact, added)
    requires r.nats.None? || ContainsWildcards(r.nats.value.subject)
    ensures ExactOk(exact, added + [r])
  {
    forall s ensures ExactFor(added + [r], s) == At(exact, s) {
      ExactForSnoc(added, r, s);
    }
  }

  lemma ExactExtended(exact: map<string, seq<Rule>>, added: seq<Rule>, r: Rule)
    requires ExactOk(exact, added)
    requires r.nats.Some? && !ContainsWildcards(r.nats.value.subject)
    ensures
      var subject := r.nats.value.subject;
      ExactOk(exact[subject := At(exact, subject) + [r]], added + [r])
  {
    var subject := r.nats.value.subject;
    var exact' := exact[subject := At(exact, subject) + [r]];
    forall s ensures ExactFor(added + [r], s) == At(exact', s) {
      ExactForSnoc(added, r, s);
      assert ExactFor(added, s) == At(exact, s);
    }
  }

  lemma PatternsUnchanged(prs: seq<PatternRule>, added: seq<Rule>, r: Rule)
    requires PatternsOk(prs, added) && !IsPatternRule(r)
    ensures PatternsOk(prs, added + [r])
  {
    SelectSnoc(added, r, IsPatternRule);
  }

  lemma PatternsExtended(prs: seq<PatternRule>, added: seq<Rule>, pr: PatternRule)
    requires PatternsOk(prs, added) && FiledAs(pr, pr.rule)
    ensures PatternsOk(prs + [pr], added + [pr.rule])
  {
    SelectSnoc(added, pr.rule, IsPatternRule);
  }

  /** Compiles a wildcard trigger; an invalid one is dropped. */
  method FilePattern(r: Rule) returns (pr: Option<PatternRule>)
    requires r.nats.Some? && ContainsWildcards(r.nats.value.subject)
    ensures pr.Some? <==> IsPatternRule(r)
    ensures pr.Some? ==> pr.value.rule == r && FiledAs(pr.value, r)
  {
    var matcher := NewPatternMatcher(r.nats.value.subject);
    return if matcher.Some? then Some(PatternRule(r, matcher.value)) else None;
  }

  class Index {
    var exactMatches: map<string, seq<Rule>>
    var patternRules: seq<PatternRule>
    ghost var added: seq<Rule>

    ghost predicate Valid()
      reads this
    {
      ExactOk(exactMatches, added) && PatternsOk(patternRules, added)
    }

    constructor ()
      ensures Valid() && added == []
    {
      exactMatches, patternRules, added := map[], [], [];
    }

    /** A nil rule is ignored; so, in lookups, is a rule without a NATS trigger. */
    method Add(rule: Option<Rule>)
      requires Valid()
      modifies this
      ensures Valid()
      ensures added == old(added) + if rule.Some? then [rule.value] else []
    {
      if rule.None? {
        return;
      }
      var r := rule.value;
      var exact, patterns := exactMatches, patternRules;
      if r.nats.None? {
        ExactUnchanged(exact, added, r);
        PatternsUnchanged(patterns, added, r);
      } else if ContainsWildcards(r.nats.value.subject) {
        ExactUnchanged(exact, added, r);
        var filed := FilePattern(r);
        if filed.Some? {
          PatternsExtended(patterns, added, filed.value);
          patterns := patterns + [filed.value];
        } else {
          PatternsUnchanged(patterns, added, r);
        }
      } else {
        PatternsUnchanged(patterns, added, r);
        ExactExtended(exact, added, r);
        exact := exact[r.nats.value.subject := At(exact, r.nats.value.subject) + [r]];
      }
      exactMatches, patternRules, added := exact, patterns, added + [r];
    }

    /** Exact rules first, then pattern rules in the order they were added. */
    method FindAllMatching(subject: string) returns (found: seq<Rule>)
      requires Valid()
      ensures found == ExactFor(added, subject) + HitsFor(PatternsOf(added), subject)
      ensures multiset(found) == multiset(SelectedFor(added, subject))
    {
      found := AppendHits(At(exactMatches, subject), patternRules, PatternsOf(added), subject);
      LookupIsSelection(added, subject);
    }

    /** The lookup on pre-split tokens returns the same list. */
    method FindAllMatchingTokenized(subject: string, tokens: seq<string>) returns (found: seq<Rule>)
      requires Valid()
      requires tokens == SubjectTokens(subject)
      ensures found == ExactFor(added, subject) + HitsFor(PatternsOf(added), subject)
      ensures multiset(found) == multiset(SelectedFor(added, subject))
    {
      found := AppendTokenHits(At(exactMatches, subject), patternRules, PatternsOf(added), subject, tokens);
      LookupIsSelection(added, subject);
    }
  }

  ghost predicate Filed(prs: seq<PatternRule>, ps: seq<Rule>) {
    |prs| == |ps| && forall i :: 0 <= i < |prs| ==> FiledAs(prs[i], ps[i])
  }

  /** The loop over the compiled patterns. */
  method AppendHits(exact: seq<Rule>, prs: seq<PatternRule>, ghost ps: seq<Rule>, subject: string)
    returns (found: seq<Rule>)
    requires Filed(prs, ps)
    ensures found == exact + HitsFor(ps, subject)
  {
    found := exact;
    for i := 0 to |prs|
      invariant found == exact + HitsFor(ps[..i], subject)
    {
      HitStep(prs[i], ps, i, subject);
      if Match(prs[i].matcher, subject) {
        found := found + [prs[i].rule];
      }
    }
    assert ps[..|ps|] == ps;
  }

  method AppendTokenHits(exact: seq<Rule>, prs: seq<PatternRule>, ghost ps: seq<Rule>,
                         ghost subject: string, tokens: seq<string>)
    returns (found: seq<Rule>)
    requires Filed(prs, ps) && tokens == SubjectTokens(subject)
    ensures found == exact + HitsFor(ps, subject)
  {
    found := exact;
    for i := 0 to |prs|
      invariant found == exact + HitsFor(ps[..i], subject)
    {
      HitStep(prs[i], ps, i, subject);
      if MatchTokens(prs[i].matcher, tokens) {
        found := found + [prs[i].rule];
      }
    }
    assert ps[..|ps|] == ps;
  }

  /** One iteration of either lookup loop. */
  lemma HitStep(pr: PatternRule, ps: seq<Rule>, i: nat, subject: string)
    requires i < |ps| && FiledAs(pr, ps[i])
    ensures Match(pr.matcher, subject) <==> MatchTokens(pr.matcher, SubjectTokens(subject))
    ensures HitsFor(ps[..i + 1], subject) ==
            HitsFor(ps[..i], subject) + if Match(pr.matcher, subject) then [pr.rule] else []
  {
    MatchMeaning(pr.matcher, pr.rule.nats.value.subject, subject);
    assert ps[..i + 1] == ps[..i] + [ps[i]];
    HitsForSnoc(ps[..i], ps[i], subject);
  }
}
