/** NATS-style subject patterns: validation, compilation and the compiled matcher
    (internal/rule/pattern.go), against a declarative reading of a pattern. */
module Patterns {
  import opened Text

  const STAR := "*"
  const GREEDY := ">"

  datatype Wildcard = ExactToken | SingleWildcard | GreedyWildcard

  datatype CompiledPattern = CompiledPattern(
    exactTokens: seq<string>,
    wildcardMap: seq<Wildcard>,
    hasTerminalWildcard: bool,
    minTokens: nat,
    maxTokens: int)  // -1 is unlimited

  /** `compiled` is present exactly for patterns that contain a wildcard token. */
  datatype PatternMatcher = PatternMatcher(pattern: string, tokens: seq<string>, compiled: Option<CompiledPattern>)

  // ---------------------------------------------------------------- meaning

  /** What one pattern token accepts; `*` never accepts an empty token. */
  predicate TokenAccepts(p: string, t: string) {
    if p == STAR then t != "" else p == t
  }

  predicate EndsGreedy(p: seq<string>) {
    p != [] && p[|p| - 1] == GREEDY
  }

  /** The declarative reading: a final `>` accepts any tail, the empty one
      included; all other tokens are accepted position by position. */
  predicate Matches(p: seq<string>, s: seq<string>) {
    if EndsGreedy(p) then
      |s| >= |p| - 1 && forall i :: 0 <= i < |p| - 1 ==> TokenAccepts(p[i], s[i])
    else
      |s| == |p| && forall i :: 0 <= i < |p| ==> TokenAccepts(p[i], s[i])
  }

  /** Tokens of a message subject; the empty subject has none. */
  function SubjectTokens(subject: string): seq<string> {
    if subject == "" then [] else Split(subject, '.')
  }

  // ------------------------------------------------------------- validation

  predicate ContainsWildcards(s: string) { '*' in s || '>' in s }

  predicate IsWildcard(t: string) { t == STAR || t == GREEDY }

  predicate GreedyOnlyLast(tokens: seq<string>) {
    forall i :: 0 <= i < |tokens| - 1 ==> tokens[i] != GREEDY
  }

  predicate ValidatePattern(pattern: string) {
    pattern != "" &&
    var tokens := Split(pattern, '.');
    GreedyOnlyLast(tokens) &&
    forall t :: t in tokens ==> t != "" && (IsWildcard(t) || !ContainsWildcards(t))
  }

  /** A token a valid pattern may have at position `i` of `n`: not empty, `*` only
      on its own, and `>` only on its own at the end. */
  predicate TokenMayStand(t: string, i: nat, n: nat) {
    t != "" && ('*' in t ==> t == "*") && ('>' in t ==> t == ">" && i == n - 1)
  }

  predicate TokensMayStand(tokens: seq<string>) {
    forall i :: 0 <= i < |tokens| ==> TokenMayStand(tokens[i], i, |tokens|)
  }

  lemma ValidPatternIff(pattern: string)
    ensures ValidatePattern(pattern) <==> pattern != "" && TokensMayStand(Split(pattern, '.'))
  {
    var tokens := Split(pattern, '.');
    assert '*' in "*" && '>' in ">" && '*' !in ">" && '>' !in "*";
    if ValidatePattern(pattern) {
      forall i | 0 <= i < |tokens| ensures TokenMayStand(tokens[i], i, |tokens|) {
        assert tokens[i] in tokens;
      }
    }
    if pattern != "" && TokensMayStand(tokens) {
      forall t | t in tokens ensures t != "" && (IsWildcard(t) || !ContainsWildcards(t)) {
        var i :| 0 <= i < |tokens| && tokens[i] == t;
        assert TokenMayStand(tokens[i], i, |tokens|);
      }
      forall i | 0 <= i < |tokens| - 1 ensures tokens[i] != GREEDY {
        assert TokenMayStand(tokens[i], i, |tokens|);
      }
    }
  }

  predicate TokensContainWildcards(tokens: seq<string>) {
    exists t :: t in tokens && IsWildcard(t)
  }

  /** On validated patterns the character test and the token test agree. */
  lemma WildcardTestsAgree(pattern: string)
    requires ValidatePattern(pattern)
    ensures ContainsWildcards(pattern) <==> TokensContainWildcards(Split(pattern, '.'))
  {
    SplitContains(pattern, '.', '*');
    SplitContains(pattern, '.', '>');
  }

  // ------------------------------------------------------------ compilation

  function Kind(t: string): Wildcard {
    if t == STAR then SingleWildcard else if t == GREEDY then GreedyWildcard else ExactToken
  }

  /** How a compiled pattern relates to its tokens. */
  ghost predicate Compiles(c: CompiledPattern, tokens: seq<string>) {
    && |c.exactTokens| == |c.wildcardMap| == |tokens|
    && (forall i :: 0 <= i < |tokens| ==> c.wildcardMap[i] == Kind(tokens[i]))
    && (forall i :: 0 <= i < |tokens| && Kind(tokens[i]) == ExactToken ==> c.exactTokens[i] == tokens[i])
    && (c.hasTerminalWildcard <==> GREEDY in tokens)
    && (c.hasTerminalWildcard ==> c.minTokens == |tokens| - 1 && c.maxTokens == -1)
    && (!c.hasTerminalWildcard ==> c.minTokens == c.maxTokens == |tokens|)
  }

  method Compile(tokens: seq<string>) returns (c: CompiledPattern)
    ensures Compiles(c, tokens)
  {
    var exact, kinds: seq<Wildcard> := [], [];
    var terminal, minTokens, maxTokens := false, 0, |tokens|;
    for i := 0 to |tokens|
      invariant |exact| == |kinds| == i
      invariant forall j :: 0 <= j < i ==> kinds[j] == Kind(tokens[j])
      invariant forall j :: 0 <= j < i && Kind(tokens[j]) == ExactToken ==> exact[j] == tokens[j]
      invariant terminal <==> GREEDY in tokens[..i]
      invariant terminal ==> maxTokens == -1
      invariant !terminal ==> minTokens == i && maxTokens == |tokens|
    {
      var token := tokens[i];
      assert tokens[..i + 1] == tokens[..i] + [token];
      if token == STAR {
        exact, kinds, minTokens := exact + [""], kinds + [SingleWildcard], minTokens + 1;
      } else if token == GREEDY {
        exact, kinds, terminal, maxTokens := exact + [""], kinds + [GreedyWildcard], true, -1;
      } else {
        exact, kinds, minTokens := exact + [token], kinds + [ExactToken], minTokens + 1;
      }
    }
    assert tokens[..|tokens|] == tokens;
    if terminal {
      minTokens := |tokens| - 1;
    }
    c := CompiledPattern(exact, kinds, terminal, minTokens, maxTokens);
  }

  ghost predicate BuiltFrom(pm: PatternMatcher, pattern: string, tokens: seq<string>) {
    && pm.pattern == pattern
    && pm.tokens == tokens
    && (pm.compiled.Some? <==> TokensContainWildcards(tokens))
    && (pm.compiled.Some? ==> Compiles(pm.compiled.value, tokens))
  }

  /** Shared constructor for subject and HTTP-path matchers. */
  method FromTokens(pattern: string, tokens: seq<string>) returns (pm: PatternMatcher)
    ensures BuiltFrom(pm, pattern, tokens)
  {
    if TokensContainWildcards(tokens) {
      var c := Compile(tokens);
      pm := PatternMatcher(pattern, tokens, Some(c));
    } else {
      pm := PatternMatcher(pattern, tokens, None);
    }
  }

  method NewPatternMatcher(pattern: string) returns (r: Option<PatternMatcher>)
    ensures r.Some? <==> ValidatePattern(pattern)
    ensures r.Some? ==> BuiltFrom(r.value, pattern, Split(pattern, '.'))
  {
    if !ValidatePattern(pattern) {
      return None;
    }
    var pm := FromTokens(pattern, Split(pattern, '.'));
    r := Some(pm);
  }

  // --------------------------------------------------------------- matching

  predicate MatchRecursive(s: seq<string>, si: nat, c: CompiledPattern, pi: nat)
    requires |c.exactTokens| == |c.wildcardMap|
    decreases |c.wildcardMap| - pi
  {
    if pi >= |c.wildcardMap| then si >= |s|
    else if si >= |s| then pi == |c.wildcardMap| - 1 && c.wildcardMap[pi] == GreedyWildcard
    else match c.wildcardMap[pi]
      case ExactToken => s[si] == c.exactTokens[pi] && MatchRecursive(s, si + 1, c, pi + 1)
      case SingleWildcard => s[si] != "" && MatchRecursive(s, si + 1, c, pi + 1)
      case GreedyWildcard => true
  }

  predicate LengthPrecheck(s: seq<string>, c: CompiledPattern) {
    if c.hasTerminalWildcard then |s| >= c.minTokens else |s| == |c.wildcardMap|
  }

  /** `matchTokens`: the quick length checks, then the recursive matcher. */
  predicate MatchCompiled(s: seq<string>, c: CompiledPattern)
    requires |c.exactTokens| == |c.wildcardMap|
  {
    LengthPrecheck(s, c) && MatchRecursive(s, 0, c, 0)
  }

  predicate MatchTokens(pm: PatternMatcher, s: seq<string>)
    requires pm.compiled.Some? ==> |pm.compiled.value.exactTokens| == |pm.compiled.value.wildcardMap|
  {
    if pm.compiled.None? then pm.tokens == s
    else if s == [] then |pm.tokens| == 1 && pm.tokens[0] == GREEDY
    else MatchCompiled(s, pm.compiled.value)
  }

  predicate Match(pm: PatternMatcher, subject: string)
    requires pm.compiled.Some? ==> |pm.compiled.value.exactTokens| == |pm.compiled.value.wildcardMap|
  {
    if pm.compiled.None? then pm.pattern == subject
    else if subject == "" then pm.pattern == "" || pm.pattern == GREEDY
    else MatchCompiled(Split(subject, '.'), pm.compiled.value)
  }

  /** The recursive matcher, started in step at position `k`, decides the
      declarative reading of the remaining tokens. */
  lemma {:induction false} RecursiveMeaning(s: seq<string>, c: CompiledPattern, tokens: seq<string>, k: nat)
    requires Compiles(c, tokens) && GreedyOnlyLast(tokens)
    requires k <= |tokens| && k <= |s|
    ensures MatchRecursive(s, k, c, k) <==> Matches(tokens[k..], s[k..])
    decreases |tokens| - k
  {
    var p, t := tokens[k..], s[k..];
    if k < |tokens| && k < |s| {
      RecursiveMeaning(s, c, tokens, k + 1);
      var p', t' := tokens[k + 1..], s[k + 1..];
      assert p == [tokens[k]] + p' && t == [s[k]] + t';
      if tokens[k] == GREEDY {
        assert k == |tokens| - 1;
      } else {
        HeadTail(tokens[k], p', s[k], t');
      }
    }
  }

  /** Reading a pattern one token at a time. */
  lemma HeadTail(p0: string, p: seq<string>, t0: string, t: seq<string>)
    requires p0 != GREEDY
    ensures Matches([p0] + p, [t0] + t) <==> TokenAccepts(p0, t0) && Matches(p, t)
  {
    var q, u := [p0] + p, [t0] + t;
    assert forall i :: 0 <= i < |p| ==> p[i] == q[i + 1];
    assert forall i :: 0 <= i < |t| ==> t[i] == u[i + 1];
    assert EndsGreedy(q) <==> EndsGreedy(p);
    if Matches(q, u) {
      assert TokenAccepts(q[0], u[0]);
    }
  }

  /** The min-token and length pre-checks never change the answer. */
  lemma PrechecksAreRedundant(s: seq<string>, c: CompiledPattern, tokens: seq<string>)
    requires Compiles(c, tokens) && GreedyOnlyLast(tokens)
    ensures MatchCompiled(s, c) <==> MatchRecursive(s, 0, c, 0)
  {
    RecursiveMeaning(s, c, tokens, 0);
    assert tokens[0..] == tokens && s[0..] == s;
    assert GREEDY in tokens <==> EndsGreedy(tokens);
  }

  /** For every pattern whose `>` is last, the matcher on tokens decides the
      declarative reading, for every token list including the empty one. */
  lemma MatchTokensMeaning(pm: PatternMatcher, pattern: string, tokens: seq<string>, s: seq<string>)
    requires BuiltFrom(pm, pattern, tokens) && GreedyOnlyLast(tokens) && tokens != []
    ensures MatchTokens(pm, s) <==> Matches(tokens, s)
  {
    if pm.compiled.None? {
      assert forall i :: 0 <= i < |tokens| ==> tokens[i] in tokens && !IsWildcard(tokens[i]);
    } else {
      PrechecksAreRedundant(s, pm.compiled.value, tokens);
      RecursiveMeaning(s, pm.compiled.value, tokens, 0);
      assert tokens[0..] == tokens && s[0..] == s;
    }
  }

  /** For every validated pattern and every subject, the string matcher and the
      token matcher agree, and both decide the declarative reading. */
  lemma MatchMeaning(pm: PatternMatcher, pattern: string, subject: string)
    requires ValidatePattern(pattern) && BuiltFrom(pm, pattern, Split(pattern, '.'))
    ensures Match(pm, subject) <==> Matches(Split(pattern, '.'), SubjectTokens(subject))
    ensures Match(pm, subject) <==> MatchTokens(pm, SubjectTokens(subject))
  {
    var tokens := Split(pattern, '.');
    MatchTokensMeaning(pm, pattern, tokens, SubjectTokens(subject));
    SplitThenJoin(pattern, '.');
    if pm.compiled.None? {
      SplitThenJoin(subject, '.');
    } else if subject == "" {
      assert pattern == GREEDY ==> tokens == [GREEDY] by {
        if pattern == GREEDY { IndexOfAbsent(pattern, '.'); }
      }
      assert tokens == [GREEDY] ==> pattern == GREEDY;
    }
  }

  /** `*` is one token that is not empty, a final `>` any number of tokens, none
      included. */
  lemma WildcardExamples(t: string, rest: seq<string>)
    ensures Matches(["a", "*"], ["a", t]) <==> t != ""
    ensures !Matches(["a", "*"], ["a"]) && !Matches(["a", "*"], ["a", t, t])
    ensures Matches(["a", ">"], ["a"] + rest)
    ensures Matches(["a"], [t]) <==> t == "a"
  {
  }
}
