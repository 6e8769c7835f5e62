/** The choice among several matching streams (`FindStreamForSubject` and
    `calculateSpecificity` in internal/broker/stream_resolver.go). */
module StreamChoice {
  import opened Text
  import opened Patterns
  import opened Streams

  datatype Storage = MemoryStorage | FileStorage

  datatype StreamInfo = StreamInfo(
    name: string,
    subjects: seq<string>,
    mirrorFilter: string,
    sourceFilters: seq<string>,
    storage: Storage,
    isMirror: bool,
    isSource: bool)

  datatype StreamMatch = StreamMatch(
    streamName: string,
    filter: string,
    specificity: int,
    storage: Storage,
    isMirror: bool,
    isSource: bool,
    isSystem: bool)
  {
    predicate IsPrimary() { !isMirror && !isSource }
  }

  datatype Choice = NotDiscovered | NoStreamFound | Chosen(streamName: string)

  // ------------------------------------------------------------ specificity

  function TokenScore(t: string): nat {
    if t == GREEDY then 1 else if t == STAR then 10 else 100
  }

  function Score(tokens: seq<string>): nat {
    if tokens == [] then 0 else Score(tokens[..|tokens| - 1]) + TokenScore(tokens[|tokens| - 1])
  }

  function Specificity(filter: string): nat {
    var tokens := Split(filter, '.');
    if !ContainsWildcards(filter) then 1000 + |tokens| * 10 else Score(tokens)
  }

  method CalculateSpecificity(filter: string) returns (score: nat)
    ensures score == Specificity(filter)
  {
    var tokens := Split(filter, '.');
    if !ContainsWildcards(filter) {
      return 1000 + |tokens| * 10;
    }
    score := 0;
    for i := 0 to |tokens|
      invariant score == Score(tokens[..i])
    {
      assert tokens[..i + 1][..i] == tokens[..i];
      if tokens[i] == GREEDY {
        score := score + 1;
      } else if tokens[i] == STAR {
        score := score + 10;
      } else {
        score := score + 100;
      }
    }
    assert tokens[..|tokens|] == tokens;
  }

  lemma TwoTokens(a: string, b: string)
    requires '.' !in a && '.' !in b
    ensures Split(a + "." + b, '.') == [a, b]
  {
    JoinThenSplit([a, b], '.');
    assert [a, b][1..] == [b];
    assert Join([a, b], '.') == a + ['.'] + b;
  }

  lemma TwoScores(a: string, b: string)
    ensures Score([a, b]) == TokenScore(a) + TokenScore(b)
  {
    assert [a, b][..1] == [a] && [a][..0] == [];
    assert Score([a]) == Score([]) + TokenScore(a);
    assert Score([a, b]) == Score([a]) + TokenScore(b);
  }

  /** Two tokens: 1020 if exact, 110 with a `*`, 101 with a `>`. */
  lemma TwoTokenScores(a: string, b: string)
    requires '.' !in a && !ContainsWildcards(a) && '.' !in b && !ContainsWildcards(b)
    ensures Specificity(a + "." + b) == 1020
    ensures Specificity(a + "." + "*") == 110 && Specificity(a + "." + ">") == 101
  {
    TwoTokens(a, b);
    TwoTokens(a, "*");
    TwoTokens(a, ">");
    TwoScores(a, "*");
    TwoScores(a, ">");
    assert '*' in "*" && '>' in ">";
    assert forall c :: c in a + "." + b ==> c in a || c in b || c == '.';
    assert (a + "." + "*")[|a| + 1] == '*' && (a + "." + ">")[|a| + 1] == '>';
  }

  /** A list with a wildcard in it scores at least 90 below the exact maximum. */
  lemma {:induction false} ScoreBound(tokens: seq<string>)
    ensures Score(tokens) <= 100 * |tokens|
    ensures (exists t :: t in tokens && IsWildcard(t)) ==> Score(tokens) <= 100 * |tokens| - 90
    ensures EndsGreedy(tokens) ==> Score(tokens) <= 100 * |tokens| - 99
  {
    if tokens != [] {
      var init := tokens[..|tokens| - 1];
      ScoreBound(init);
      assert tokens == init + [tokens[|tokens| - 1]];
    }
  }

  lemma {:induction false} ExactScore(tokens: seq<string>)
    requires forall t :: t in tokens ==> !IsWildcard(t)
    ensures Score(tokens) == 100 * |tokens|
  {
    if tokens != [] {
      assert tokens[|tokens| - 1] in tokens;
      ExactScore(tokens[..|tokens| - 1]);
    }
  }

  /** A wildcard filter that matches a concrete subject has a wildcard token. */
  lemma WildcardTokenPresent(s: seq<string>, f: seq<string>)
    requires forall t :: t in s ==> !ContainsWildcards(t)
    requires exists t :: t in f && ContainsWildcards(t)
    requires |s| == |f| && FitsUpTo(f, s, |f|)
    ensures exists t :: t in f && IsWildcard(t)
  {
    var t :| t in f && ContainsWildcards(t);
    var i :| 0 <= i < |f| && f[i] == t;
    assert Fits(f[i], s[i]) && s[i] in s;
  }

  /** On a concrete subject, any matching wildcard filter scores below an exact
      one as long as the subject has at most eleven tokens. */
  lemma WildcardScoresBelow(subject: string, filter: string)
    requires !ContainsWildcards(subject) && |Split(subject, '.')| <= 11
    requires ContainsWildcards(filter) && GreedyOnlyLast(Split(filter, '.')) && SubjectMatches(subject, filter)
    ensures Specificity(filter) < Specificity(subject)
  {
    var s, f := Split(subject, '.'), Split(filter, '.');
    AcceptsByPosition(f, s);
    ScoreBound(f);
    if !EndsGreedy(f) {
      SplitContains(subject, '.', '*');
      SplitContains(subject, '.', '>');
      SplitContains(filter, '.', '*');
      SplitContains(filter, '.', '>');
      WildcardTokenPresent(s, f);
    }
  }

  lemma SplitSnoc(subject: string)
    ensures Split(subject + ".>", '.') == Split(subject, '.') + [GREEDY]
  {
    var s := Split(subject, '.');
    SplitThenJoin(subject, '.');
    SplitClean(subject, '.');
    JoinSnoc(s, GREEDY);
    JoinThenSplit(s + [GREEDY], '.');
    assert subject + ".>" == subject + ['.'] + GREEDY;
  }

  lemma GreedyTailAccepts(s: seq<string>)
    requires forall t :: t in s ==> !IsWildcard(t)
    ensures GreedyOnlyLast(s + [GREEDY]) && Accepts(s + [GREEDY], s)
  {
    assert forall i :: 0 <= i < |s| ==> s[i] in s && !IsWildcard(s[i]);
    AcceptsByPosition(s + [GREEDY], s);
  }

  /** From twelve tokens on, the subject followed by `>` outranks it. */
  lemma LongSubjectsLose(subject: string)
    requires !ContainsWildcards(subject) && |Split(subject, '.')| >= 12
    ensures
      var f := subject + ".>";
      && ContainsWildcards(f) && GreedyOnlyLast(Split(f, '.')) && SubjectMatches(subject, f)
      && Specificity(f) > Specificity(subject)
  {
    var s, f := Split(subject, '.'), subject + ".>";
    NoWildcardTokens(subject);
    SplitSnoc(subject);
    assert f[|f| - 1] == '>';
    GreedyTailAccepts(s);
    ExactScore(s);
    assert (s + [GREEDY])[..|s|] == s;
  }

  lemma {:induction false} JoinSnoc(ts: seq<string>, t: string)
    requires ts != []
    ensures Join(ts + [t], '.') == Join(ts, '.') + ['.'] + t
    decreases |ts|
  {
    var all := ts + [t];
    assert all[1..] == ts[1..] + [t];
    if |ts| == 1 {
      assert all[1..] == [t];
    } else {
      JoinSnoc(ts[1..], t);
    }
  }

  /** Eleven is the exact bound. */
  lemma ExactOutranksIffShort(subject: string)
    requires !ContainsWildcards(subject)
    ensures
      (forall f :: ContainsWildcards(f) && GreedyOnlyLast(Split(f, '.')) && SubjectMatches(subject, f)
          ==> Specificity(f) < Specificity(subject))
      <==> |Split(subject, '.')| <= 11
  {
    if |Split(subject, '.')| <= 11 {
      forall f | ContainsWildcards(f) && GreedyOnlyLast(Split(f, '.')) && SubjectMatches(subject, f)
        ensures Specificity(f) < Specificity(subject)
      {
        WildcardScoresBelow(subject, f);
      }
    } else {
      LongSubjectsLose(subject);
    }
  }

  // -------------------------------------------------------------- the order

  /** The comparator handed to the sort: `a` goes before `b`. */
  predicate Better(a: StreamMatch, b: StreamMatch) {
    if a.specificity != b.specificity then a.specificity > b.specificity
    else if a.storage != b.storage then a.storage == MemoryStorage
    else if a.IsPrimary() != b.IsPrimary() then a.IsPrimary()
    else if a.isSystem != b.isSystem then !a.isSystem
    else false
  }

  predicate Tied(a: StreamMatch, b: StreamMatch) { !Better(a, b) && !Better(b, a) }

  /** A strict weak order, so sorting by it is meaningful. */
  lemma StrictWeakOrder(a: StreamMatch, b: StreamMatch, c: StreamMatch)
    ensures !Better(a, a)
    ensures Better(a, b) && Better(b, c) ==> Better(a, c)
    ensures Tied(a, b) && Tied(b, c) ==> Tied(a, c)
  {
  }

  /** Nothing after position `i` is better than what is at `i`. */
  ghost predicate Sorted(ms: seq<StreamMatch>) {
    forall i, j :: 0 <= i < j < |ms| ==> !Better(ms[j], ms[i])
  }

  /** Whatever permutation an unstable sort produces, its first element is
      beaten by no candidate, and any two results are tied. */
  lemma FirstOfAnySort(ms: seq<StreamMatch>, one: seq<StreamMatch>, two: seq<StreamMatch>)
    requires ms != [] && multiset(one) == multiset(two) == multiset(ms)
    requires Sorted(one) && Sorted(two)
    ensures one != [] && two != []
    ensures one[0] in ms && forall m :: m in ms ==> !Better(m, one[0])
    ensures Tied(one[0], two[0])
  {
    assert |multiset(one)| == |multiset(ms)| && |multiset(two)| == |multiset(ms)|;
    assert one[0] in multiset(one) && two[0] in multiset(two);
    forall m | m in ms ensures m in one && m in two {
      assert m in multiset(ms);
    }
    assert one[0] in two && two[0] in one;
  }

  // ------------------------------------------------------------- collection

  predicate IsSystemStream(name: string) {
    "$" <= name || "KV_" <= name
  }

  function MatchOf(s: StreamInfo, filter: string, mirror: bool, source: bool): StreamMatch {
    StreamMatch(s.name, filter, Specificity(filter), s.storage, mirror, source, IsSystemStream(s.name))
  }

  /** A candidate: some filter of some stream that matches the subject, marked
      with the role in which the stream carries it. */
  ghost predicate Candidate(m: StreamMatch, streams: seq<StreamInfo>, subject: string) {
    exists s :: s in streams && CandidateOf(m, s, subject)
  }

  ghost predicate CandidateOf(m: StreamMatch, s: StreamInfo, subject: string) {
    && SubjectMatches(subject, m.filter)
    && (|| (m == MatchOf(s, m.filter, false, false) && m.filter in s.subjects)
        || (m == MatchOf(s, m.filter, true, false) && s.isMirror && m.filter != "" && m.filter == s.mirrorFilter)
        || (m == MatchOf(s, m.filter, false, true) && s.isSource && m.filter in s.sourceFilters))
  }

  method CollectFilters(s: StreamInfo, filters: seq<string>, subject: string, source: bool)
    returns (ms: seq<StreamMatch>)
    ensures forall m :: m in ms <==>
        m == MatchOf(s, m.filter, false, source) && m.filter in filters && SubjectMatches(subject, m.filter)
  {
    ms := [];
    for i := 0 to |filters|
      invariant forall m :: m in ms <==>
        m == MatchOf(s, m.filter, false, source) && m.filter in filters[..i] && SubjectMatches(subject, m.filter)
    {
      assert filters[..i + 1] == filters[..i] + [filters[i]];
      var ok := CheckSubject(subject, filters[i]);
      if ok {
        var score := CalculateSpecificity(filters[i]);
        ms := ms + [StreamMatch(s.name, filters[i], score, s.storage, false, source, IsSystemStream(s.name))];
      }
    }
    assert filters[..|filters|] == filters;
  }

  method CollectStream(s: StreamInfo, subject: string) returns (ms: seq<StreamMatch>)
    ensures forall m :: m in ms <==> CandidateOf(m, s, subject)
  {
    ms := CollectFilters(s, s.subjects, subject, false);
    if s.isMirror && s.mirrorFilter != "" {
      var ok := CheckSubject(subject, s.mirrorFilter);
      if ok {
        var score := CalculateSpecificity(s.mirrorFilter);
        ms := ms + [StreamMatch(s.name, s.mirrorFilter, score, s.storage, true, false, IsSystemStream(s.name))];
      }
    }
    if s.isSource {
      var sourced := CollectFilters(s, s.sourceFilters, subject, true);
      ms := ms + sourced;
    }
  }

  /** The comparator is a comparison of ranks. */
  function Rank(m: StreamMatch): int {
    8 * m.specificity + (if m.storage == MemoryStorage then 4 else 0) +
    (if m.IsPrimary() then 2 else 0) + (if m.isSystem then 0 else 1)
  }

  lemma BetterIsRank(a: StreamMatch, b: StreamMatch)
    ensures Better(a, b) <==> Rank(a) > Rank(b)
  {
  }

  lemma InsertKeepsSorted(sorted: seq<StreamMatch>, m: StreamMatch, i: nat)
    requires Sorted(sorted) && i <= |sorted|
    requires forall j :: 0 <= j < i ==> !Better(m, sorted[j])
    requires i < |sorted| ==> Better(m, sorted[i])
    ensures Sorted(sorted[..i] + [m] + sorted[i..])
  {
    var out := sorted[..i] + [m] + sorted[i..];
    forall a, b | 0 <= a < b < |out| ensures !Better(out[b], out[a]) {
      var x, y := out[a], out[b];
      assert x == if a < i then sorted[a] else if a == i then m else sorted[a - 1];
      assert y == if b < i then sorted[b] else if b == i then m else sorted[b - 1];
      BetterIsRank(y, x);
      if a == i {
        BetterIsRank(m, sorted[i]);
        BetterIsRank(y, sorted[i]);
      }
    }
  }

  /** Stand-in for the library sort: insertion by the comparator. */
  method Insert(sorted: seq<StreamMatch>, m: StreamMatch) returns (out: seq<StreamMatch>)
    requires Sorted(sorted)
    ensures Sorted(out) && multiset(out) == multiset(sorted) + multiset{m}
  {
    var i := 0;
    while i < |sorted| && !Better(m, sorted[i])
      invariant 0 <= i <= |sorted|
      invariant forall j :: 0 <= j < i ==> !Better(m, sorted[j])
    {
      i := i + 1;
    }
    InsertKeepsSorted(sorted, m, i);
    assert sorted == sorted[..i] + sorted[i..];
    out := sorted[..i] + [m] + sorted[i..];
  }

  method SortMatches(ms: seq<StreamMatch>) returns (out: seq<StreamMatch>)
    ensures Sorted(out) && multiset(out) == multiset(ms)
  {
    out := [];
    for i := 0 to |ms|
      invariant Sorted(out) && multiset(out) == multiset(ms[..i])
    {
      assert ms[..i + 1] == ms[..i] + [ms[i]];
      out := Insert(out, ms[i]);
    }
    assert ms[..|ms|] == ms;
  }

  method CollectMatches(streams: seq<StreamInfo>, subject: string) returns (matches: seq<StreamMatch>)
    ensures forall m :: m in matches <==> Candidate(m, streams, subject)
  {
    matches := [];
    for i := 0 to |streams|
      invariant forall m :: m in matches <==> Candidate(m, streams[..i], subject)
    {
      assert streams[..i + 1] == streams[..i] + [streams[i]];
      var more := CollectStream(streams[i], subject);
      matches := matches + more;
    }
    assert streams[..|streams|] == streams;
  }

  /** Matches, and beaten by no match. */
  ghost predicate Best(m: StreamMatch, streams: seq<StreamInfo>, subject: string) {
    Candidate(m, streams, subject) && forall c :: Candidate(c, streams, subject) ==> !Better(c, m)
  }

  /** No candidate is more specific; of the equally specific ones none is in memory
      unless this one is; of those that agree in storage none is primary unless
      this one is; of those that agree in that, none is outside the system
      streams unless this one is. */
  ghost predicate Foremost(m: StreamMatch, streams: seq<StreamInfo>, subject: string) {
    && Candidate(m, streams, subject)
    && (forall c :: Candidate(c, streams, subject) ==> c.specificity <= m.specificity)
    && (forall c :: Candidate(c, streams, subject) && c.specificity == m.specificity ==>
          (c.storage == MemoryStorage ==> m.storage == MemoryStorage))
    && (forall c :: Candidate(c, streams, subject) && c.specificity == m.specificity && c.storage == m.storage ==>
          (!c.isMirror && !c.isSource ==> !m.isMirror && !m.isSource))
    && (forall c :: Candidate(c, streams, subject) && c.specificity == m.specificity && c.storage == m.storage &&
                    (!c.isMirror && !c.isSource <==> !m.isMirror && !m.isSource) ==>
          (!c.isSystem ==> !m.isSystem))
  }

  lemma BestIsForemost(m: StreamMatch, streams: seq<StreamInfo>, subject: string)
    requires Best(m, streams, subject)
    ensures Foremost(m, streams, subject)
  {
  }

  /** What a candidate says about its stream. */
  lemma CandidateFacts(m: StreamMatch, s: StreamInfo, subject: string)
    requires CandidateOf(m, s, subject)
    ensures m.streamName == s.name && m.storage == s.storage && m.specificity == Specificity(m.filter)
    ensures m.isSystem <==> "$" <= s.name || "KV_" <= s.name
    ensures SubjectMatches(subject, m.filter)
    ensures m.filter in s.subjects || m.filter == s.mirrorFilter || m.filter in s.sourceFilters
  {
  }

  /** A filter by which the stream carries messages: a subject, the filter of a
      mirror, or one of a source. */
  predicate Carries(s: StreamInfo, f: string) {
    f in s.subjects || (s.isMirror && f != "" && f == s.mirrorFilter) || (s.isSource && f in s.sourceFilters)
  }

  /** No match at all means that no filter of any stream matches. */
  lemma CandidateExistsIff(streams: seq<StreamInfo>, subject: string)
    ensures (exists m :: Candidate(m, streams, subject)) <==>
            exists s, f :: s in streams && Carries(s, f) && SubjectMatches(subject, f)
  {
    if m :| Candidate(m, streams, subject) {
      var s :| s in streams && CandidateOf(m, s, subject);
      assert Carries(s, m.filter);
    }
    if s, f :| s in streams && Carries(s, f) && SubjectMatches(subject, f) {
      CarriedIsCandidate(s, f, subject);
      var m :| CandidateOf(m, s, subject) && m.filter == f;
      assert Candidate(m, streams, subject);
    }
  }

  lemma CarriedIsCandidate(s: StreamInfo, f: string, subject: string)
    requires Carries(s, f) && SubjectMatches(subject, f)
    ensures exists m :: CandidateOf(m, s, subject) && m.filter == f
  {
    if f in s.subjects {
      assert CandidateOf(MatchOf(s, f, false, false), s, subject);
    } else if s.isMirror && f != "" && f == s.mirrorFilter {
      assert CandidateOf(MatchOf(s, f, true, false), s, subject);
    } else {
      assert CandidateOf(MatchOf(s, f, false, true), s, subject);
    }
  }

  ghost predicate FiltersOk(streams: seq<StreamInfo>) {
    forall s, f :: s in streams && (f in s.subjects || f == s.mirrorFilter || f in s.sourceFilters) ==>
      GreedyOnlyLast(Split(f, '.'))
  }

  /** A concrete subject of at most eleven tokens that some stream lists literally
      is the chosen filter: no wildcard stream takes it. */
  lemma LiteralFilterWins(m: StreamMatch, streams: seq<StreamInfo>, subject: string, s: StreamInfo)
    requires Foremost(m, streams, subject) && FiltersOk(streams)
    requires !ContainsWildcards(subject) && |Split(subject, '.')| <= 11
    requires s in streams && subject in s.subjects
    ensures m.filter == subject
  {
    var literal := MatchOf(s, subject, false, false);
    assert CandidateOf(literal, s, subject);
    assert Candidate(literal, streams, subject);
    var owner :| owner in streams && CandidateOf(m, owner, subject);
    CandidateFacts(m, owner, subject);
    if ContainsWildcards(m.filter) {
      WildcardScoresBelow(subject, m.filter);
    }
  }

  /** The chosen stream comes from a foremost match; the failures are told apart. */
  method FindStreamForSubject(discovered: bool, streams: seq<StreamInfo>, subject: string)
    returns (choice: Choice, ghost best: Option<StreamMatch>)
    ensures choice.NotDiscovered? <==> !discovered
    ensures choice.NoStreamFound? <==> discovered && forall m :: !Candidate(m, streams, subject)
    ensures choice.Chosen? ==>
              best.Some? && Foremost(best.value, streams, subject) && best.value.streamName == choice.streamName
  {
    if !discovered {
      return NotDiscovered, None;
    }
    var matches := CollectMatches(streams, subject);
    if matches == [] {
      return NoStreamFound, None;
    }
    assert matches[0] in matches;
    if |matches| == 1 {
      assert forall m :: m in matches ==> m == matches[0];
      assert Best(matches[0], streams, subject);
      BestIsForemost(matches[0], streams, subject);
      return Chosen(matches[0].streamName), Some(matches[0]);
    }
    var sorted := SortMatches(matches);
    FirstOfAnySort(matches, sorted, sorted);
    assert Best(sorted[0], streams, subject);
    BestIsForemost(sorted[0], streams, subject);
    return Chosen(sorted[0].streamName), Some(sorted[0]);
  }
}
