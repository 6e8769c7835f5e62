/** Which JetStream stream serves a trigger subject (internal/broker/stream_resolver.go):
    the filter matcher and the pattern-containment check. */
module Streams {
  import opened Text
  import opened Patterns

  // ------------------------------------------------------- filter matching

  /** The meaning of a stream filter on a token list: the first `>` accepts any
      tail, `*` any one token (an empty one included), others themselves. */
  predicate Accepts(filter: seq<string>, s: seq<string>) {
    if filter == [] then s == []
    else if filter[0] == GREEDY then true
    else s != [] && (filter[0] == STAR || filter[0] == s[0]) && Accepts(filter[1..], s[1..])
  }

  predicate Fits(p: string, t: string) { p == STAR || p == t }

  predicate FitsUpTo(p: seq<string>, s: seq<string>, n: nat) {
    n <= |p| && n <= |s| && forall i :: 0 <= i < n ==> Fits(p[i], s[i])
  }

  /** `matchPattern` without its loops: everything before the first `>` is
      compared position by position. */
  lemma {:induction false} AcceptsUpToGreedy(p: seq<string>, s: seq<string>, i: nat)
    requires i < |p| && p[i] == GREEDY && GREEDY !in p[..i]
    ensures Accepts(p, s) <==> FitsUpTo(p, s, i)
    decreases i
  {
    if i > 0 {
      assert p[0] == p[..i][0];
      if s != [] {
        assert p[1..][..i - 1] == p[..i][1..];
        AcceptsUpToGreedy(p[1..], s[1..], i - 1);
        FitsTail(p, s, i);
      }
    }
  }

  lemma {:induction false} AcceptsWithoutGreedy(p: seq<string>, s: seq<string>)
    requires GREEDY !in p
    ensures Accepts(p, s) <==> |p| == |s| && FitsUpTo(p, s, |p|)
    decreases |p|
  {
    if p != [] && s != [] {
      AcceptsWithoutGreedy(p[1..], s[1..]);
      if |p| == |s| {
        FitsTail(p, s, |p|);
      }
    }
  }

  lemma FitsTail(p: seq<string>, s: seq<string>, n: nat)
    requires 0 < n && p != [] && s != []
    ensures FitsUpTo(p, s, n) <==> Fits(p[0], s[0]) && FitsUpTo(p[1..], s[1..], n - 1)
  {
    if Fits(p[0], s[0]) && FitsUpTo(p[1..], s[1..], n - 1) {
      forall i | 0 <= i < n ensures Fits(p[i], s[i]) {
        if i > 0 { assert Fits(p[1..][i - 1], s[1..][i - 1]); }
      }
    }
  }

  /** `matchPattern`. */
  method MatchPattern(subject: string, pattern: string) returns (ok: bool)
    ensures ok <==> Accepts(Split(pattern, '.'), Split(subject, '.'))
  {
    var s, p := Split(subject, '.'), Split(pattern, '.');
    for i := 0 to |p|
      invariant GREEDY !in p[..i]
    {
      if p[i] == GREEDY {
        AcceptsUpToGreedy(p, s, i);
        if |s| < i {
          return false;
        }
        for j := 0 to i
          invariant FitsUpTo(p, s, j)
        {
          if p[j] != STAR && p[j] != s[j] {
            return false;
          }
        }
        return true;
      }
      assert p[..i + 1] == p[..i] + [p[i]];
    }
    assert p[..|p|] == p;
    AcceptsWithoutGreedy(p, s);
    if |s| != |p| {
      return false;
    }
    for i := 0 to |p|
      invariant FitsUpTo(p, s, i)
    {
      if p[i] != STAR && p[i] != s[i] {
        return false;
      }
    }
    return true;
  }

  // ---------------------------------------------------- pattern containment

  /** Every token list the pattern accepts is accepted by the filter. */
  ghost predicate Contained(pattern: seq<string>, filter: seq<string>) {
    forall s :: Accepts(pattern, s) ==> Accepts(filter, s)
  }

  function Prefix(p: seq<string>): seq<string> {
    if EndsGreedy(p) then p[..|p| - 1] else p
  }

  /** What `patternCoveredBy` compares. */
  predicate Covers(pattern: seq<string>, filter: seq<string>) {
    if EndsGreedy(filter) then FitsUpTo(filter, Prefix(pattern), |filter| - 1)
    else !EndsGreedy(pattern) && |pattern| == |filter| && FitsUpTo(filter, pattern, |filter|)
  }

  /** The loop under a filter that ends in `>`. */
  method PrefixCovered(filterTokens: seq<string>, subjectPrefix: seq<string>, n: nat) returns (ok: bool)
    requires n <= |filterTokens| && n <= |subjectPrefix|
    ensures ok <==> FitsUpTo(filterTokens, subjectPrefix, n)
  {
    for i := 0 to n
      invariant FitsUpTo(filterTokens, subjectPrefix, i)
    {
      if filterTokens[i] != STAR && filterTokens[i] != subjectPrefix[i] {
        return false;
      }
    }
    return true;
  }

  /** The loop over patterns of equal length. */
  method TokensCovered(filterTokens: seq<string>, subjectTokens: seq<string>) returns (ok: bool)
    requires |filterTokens| == |subjectTokens|
    ensures ok <==> FitsUpTo(filterTokens, subjectTokens, |filterTokens|)
  {
    for i := 0 to |filterTokens|
      invariant FitsUpTo(filterTokens, subjectTokens, i)
    {
      if filterTokens[i] != STAR {
        if subjectTokens[i] == STAR || filterTokens[i] != subjectTokens[i] {
          return false;
        }
      }
    }
    return true;
  }

  method PatternCoveredBy(subjectPattern: string, filterPattern: string) returns (ok: bool)
    ensures ok <==> Covers(Split(subjectPattern, '.'), Split(filterPattern, '.'))
  {
    if filterPattern == GREEDY {
      IndexOfAbsent(filterPattern, '.');
      return true;
    }
    var subjectTokens, filterTokens := Split(subjectPattern, '.'), Split(filterPattern, '.');
    if filterTokens[|filterTokens| - 1] == GREEDY {
      var subjectPrefix := subjectTokens;
      if subjectTokens[|subjectTokens| - 1] == GREEDY {
        subjectPrefix := subjectTokens[..|subjectTokens| - 1];
      }
      if |subjectPrefix| < |filterTokens| - 1 {
        return false;
      }
      ok := PrefixCovered(filterTokens, subjectPrefix, |filterTokens| - 1);
      return;
    }
    if subjectTokens[|subjectTokens| - 1] == GREEDY || |subjectTokens| != |filterTokens| {
      return false;
    }
    ok := TokensCovered(filterTokens, subjectTokens);
  }

  /** Acceptance position by position, for patterns whose `>` is last. */
  lemma AcceptsByPosition(p: seq<string>, s: seq<string>)
    requires GreedyOnlyLast(p)
    ensures EndsGreedy(p) ==> (Accepts(p, s) <==> FitsUpTo(p, s, |p| - 1))
    ensures !EndsGreedy(p) ==> (Accepts(p, s) <==> |p| == |s| && FitsUpTo(p, s, |p|))
  {
    if EndsGreedy(p) {
      AcceptsUpToGreedy(p, s, |p| - 1);
    } else {
      AcceptsWithoutGreedy(p, s);
    }
  }

  /** A token list the pattern accepts, whose wildcard positions all differ
      from `avoid`. */
  function Witness(p: seq<string>, avoid: string): (s: seq<string>)
    ensures |s| == |p|
    ensures forall i :: 0 <= i < |p| ==> Fits(p[i], s[i])
    ensures forall i :: 0 <= i < |p| && p[i] != avoid ==> s[i] != avoid
  {
    seq(|p|, i requires 0 <= i < |p| => if p[i] == STAR then avoid + "x" else p[i])
  }

  /** Adding tokens under the pattern's own `>` stays accepted. */
  lemma WitnessAccepted(p: seq<string>, avoid: string, extra: seq<string>)
    requires GreedyOnlyLast(p)
    requires !EndsGreedy(p) ==> extra == []
    ensures Accepts(p, Witness(Prefix(p), avoid) + extra)
  {
    AcceptsByPosition(p, Witness(Prefix(p), avoid) + extra);
  }

  /** A list accepted by `pattern` and refused by `filter`, when the check fails. */
  ghost function Refutation(pattern: seq<string>, filter: seq<string>): seq<string> {
    var prefix := Prefix(pattern);
    if exists i :: 0 <= i < |Prefix(filter)| && i < |prefix| && !Fits(filter[i], prefix[i]) then
      var i :| 0 <= i < |Prefix(filter)| && i < |prefix| && !Fits(filter[i], prefix[i]);
      Witness(prefix, filter[i])
    else if EndsGreedy(pattern) && |prefix| == |filter| then
      Witness(prefix, "") + ["x"]
    else
      Witness(prefix, "")
  }

  /** Where the tokens clash, avoiding the filter's token refutes. */
  lemma ClashRefutes(pattern: seq<string>, filter: seq<string>, i: nat)
    requires GreedyOnlyLast(pattern) && GreedyOnlyLast(filter)
    requires i < |Prefix(filter)| && i < |Prefix(pattern)| && !Fits(filter[i], Prefix(pattern)[i])
    ensures var s := Witness(Prefix(pattern), filter[i]); Accepts(pattern, s) && !Accepts(filter, s)
  {
    var s := Witness(Prefix(pattern), filter[i]);
    WitnessAccepted(pattern, filter[i], []);
    assert s + [] == s;
    AcceptsByPosition(filter, s);
    assert !Fits(filter[i], s[i]);
  }

  /** Where only the lengths disagree, one more token or none refutes. */
  lemma LengthRefutes(pattern: seq<string>, filter: seq<string>)
    requires GreedyOnlyLast(pattern) && GreedyOnlyLast(filter) && !Covers(pattern, filter)
    requires forall i :: 0 <= i < |Prefix(filter)| && i < |Prefix(pattern)| ==> Fits(filter[i], Prefix(pattern)[i])
    ensures var extra := if EndsGreedy(pattern) && |Prefix(pattern)| == |filter| then ["x"] else [];
            var s := Witness(Prefix(pattern), "") + extra;
            Accepts(pattern, s) && !Accepts(filter, s)
  {
    var extra := if EndsGreedy(pattern) && |Prefix(pattern)| == |filter| then ["x"] else [];
    WitnessAccepted(pattern, "", extra);
    AcceptsByPosition(filter, Witness(Prefix(pattern), "") + extra);
  }

  lemma RefutationRefutes(pattern: seq<string>, filter: seq<string>)
    requires GreedyOnlyLast(pattern) && GreedyOnlyLast(filter)
    requires !Covers(pattern, filter)
    ensures Accepts(pattern, Refutation(pattern, filter)) && !Accepts(filter, Refutation(pattern, filter))
  {
    var prefix, s := Prefix(pattern), Refutation(pattern, filter);
    if exists i :: 0 <= i < |Prefix(filter)| && i < |prefix| && !Fits(filter[i], prefix[i]) {
      var i :| 0 <= i < |Prefix(filter)| && i < |prefix| && !Fits(filter[i], prefix[i]) &&
               s == Witness(prefix, filter[i]);
      ClashRefutes(pattern, filter, i);
    } else {
      LengthRefutes(pattern, filter);
      assert Witness(prefix, "") + [] == Witness(prefix, "");
    }
  }

  /** `patternCoveredBy` decides containment: for all patterns and filters whose
      `>` is last, over all token lists. */
  lemma CoversIffContained(pattern: seq<string>, filter: seq<string>)
    requires GreedyOnlyLast(pattern) && GreedyOnlyLast(filter)
    ensures Covers(pattern, filter) <==> Contained(pattern, filter)
  {
    if Covers(pattern, filter) {
      forall s | Accepts(pattern, s) ensures Accepts(filter, s) {
        AcceptsByPosition(pattern, s);
        AcceptsByPosition(filter, s);
        forall i | 0 <= i < |Prefix(filter)| ensures Fits(filter[i], s[i]) {
          assert Fits(filter[i], Prefix(pattern)[i]);
          assert Fits(pattern[i], s[i]);
        }
      }
    } else {
      RefutationRefutes(pattern, filter);
    }
  }

  // ------------------------------------------------- subject against filter

  /** `subjectMatches`. */
  predicate SubjectMatches(subject: string, filter: string) {
    || subject == filter
    || (if ContainsWildcards(filter) then Accepts(Split(filter, '.'), Split(subject, '.'))
        else ContainsWildcards(subject) && Covers(Split(subject, '.'), Split(filter, '.')))
  }

  method CheckSubject(subject: string, filter: string) returns (ok: bool)
    ensures ok <==> SubjectMatches(subject, filter)
  {
    if subject == filter {
      return true;
    }
    if ContainsWildcards(filter) {
      ok := MatchPattern(subject, filter);
    } else if ContainsWildcards(subject) {
      ok := PatternCoveredBy(subject, filter);
    } else {
      ok := false;
    }
  }

  /** The filter has a `*` exactly where the trigger has its final `>`, and
      agrees with it before: the `>` is then taken for an ordinary token. */
  predicate StarUnderGreedy(subject: seq<string>, filter: seq<string>) {
    && EndsGreedy(subject)
    && |Prefix(filter)| == |subject|
    && filter[|subject| - 1] == STAR
    && FitsUpTo(filter, subject, |subject| - 1)
  }

  lemma NoWildcardTokens(s: string)
    requires !ContainsWildcards(s)
    ensures forall t :: t in Split(s, '.') ==> !IsWildcard(t)
  {
    SplitContains(s, '.', '*');
    SplitContains(s, '.', '>');
  }

  /** Without wildcards in the filter, only the containment check is used. */
  lemma ExactFilterCovers(subject: string, filter: string)
    requires !ContainsWildcards(filter)
    ensures SubjectMatches(subject, filter) <==> Covers(Split(subject, '.'), Split(filter, '.'))
    ensures !StarUnderGreedy(Split(subject, '.'), Split(filter, '.'))
  {
    var p, f := Split(subject, '.'), Split(filter, '.');
    NoWildcardTokens(filter);
    assert forall i :: 0 <= i < |f| ==> f[i] in f && !IsWildcard(f[i]);
    if subject != filter && !ContainsWildcards(subject) {
      NoWildcardTokens(subject);
      assert forall i :: 0 <= i < |p| ==> p[i] in p && !IsWildcard(p[i]);
      SplitThenJoin(subject, '.');
      SplitThenJoin(filter, '.');
      assert Covers(p, f) ==> p == f;
    }
  }

  lemma SelfCovers(p: seq<string>)
    ensures Covers(p, p) && !StarUnderGreedy(p, p)
  {
  }

  /** Subject matching decides containment end to end exactly when no `*` of
      the filter sits under the trigger's `>`. */
  lemma SubjectMatchesIffContained(subject: string, filter: string)
    requires GreedyOnlyLast(Split(subject, '.')) && GreedyOnlyLast(Split(filter, '.'))
    ensures
      var p, f := Split(subject, '.'), Split(filter, '.');
      (SubjectMatches(subject, filter) <==> Contained(p, f)) <==> !StarUnderGreedy(p, f)
  {
    var p, f := Split(subject, '.'), Split(filter, '.');
    CoversIffContained(p, f);
    if subject == filter {
      SelfCovers(p);
    } else if ContainsWildcards(filter) {
      AcceptsByPosition(f, p);
      PrefixFits(p, f);
    } else {
      ExactFilterCovers(subject, filter);
    }
  }

  /** Comparing against the trigger read literally, and against its prefix. */
  lemma PrefixFits(p: seq<string>, f: seq<string>)
    requires GreedyOnlyLast(p) && GreedyOnlyLast(f) && p != [] && f != []
    ensures
      var literal := if EndsGreedy(f) then FitsUpTo(f, p, |f| - 1) else |f| == |p| && FitsUpTo(f, p, |f|);
      (literal <==> Covers(p, f)) <==> !StarUnderGreedy(p, f)
  {
    var literal := if EndsGreedy(f) then FitsUpTo(f, p, |f| - 1) else |f| == |p| && FitsUpTo(f, p, |f|);
    if EndsGreedy(p) {
      var n := |p| - 1;
      assert forall i :: 0 <= i < n ==> Prefix(p)[i] == p[i];
      if |Prefix(f)| == |p| {
        assert f[n] != GREEDY;
        assert literal <==> Fits(f[n], p[n]) && FitsUpTo(f, p, n);
      }
    }
  }

  /** A trigger that ends in `>` can be accepted by a filter that misses most
      of its messages. */
  lemma StarUnderGreedyExample()
    ensures SubjectMatches("a.>", "a.*") && !Contained(Split("a.>", '.'), Split("a.*", '.'))
  {
    JoinThenSplit(["a", ">"], '.');
    JoinThenSplit(["a", "*"], '.');
    assert Join(["a", ">"], '.') == "a.>" && Join(["a", "*"], '.') == "a.*";
    CoversIffContained(["a", ">"], ["a", "*"]);
    AcceptsByPosition(["a", "*"], ["a", ">"]);
  }

  /** A trigger accepted for a stream loses no message: whatever the rule
      engine's own matcher selects, the stream's filter captures. */
  lemma AcceptedTriggerIsServed(subject: string, filter: string, message: seq<string>)
    requires GreedyOnlyLast(Split(subject, '.')) && GreedyOnlyLast(Split(filter, '.'))
    requires SubjectMatches(subject, filter) && !StarUnderGreedy(Split(subject, '.'), Split(filter, '.'))
    requires Matches(Split(subject, '.'), message)
    ensures Accepts(Split(filter, '.'), message)
  {
    var p := Split(subject, '.');
    SubjectMatchesIffContained(subject, filter);
    AcceptsByPosition(p, message);
    assert forall i :: 0 <= i < |Prefix(p)| ==> TokenAccepts(p[i], message[i]);
  }

  /** A stream's `*` takes any one token, the empty one too; its `>` any tail. */
  lemma FilterExamples(t: string, rest: seq<string>)
    ensures Accepts(["a", "*"], ["a", t]) && !Accepts(["a", "*"], ["a"]) && !Accepts(["a", "*"], ["a", t, t])
    ensures Accepts(["a", ">"], ["a"] + rest)
    ensures Accepts(["a"], [t]) <==> t == "a"
  {
    AcceptsByPosition(["a", "*"], ["a", t]);
    AcceptsByPosition(["a", "*"], ["a"]);
    AcceptsByPosition(["a", "*"], ["a", t, t]);
    AcceptsByPosition(["a", ">"], ["a"] + rest);
    AcceptsByPosition(["a"], [t]);
  }
}
