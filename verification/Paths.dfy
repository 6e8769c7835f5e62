/** Paths with braces (internal/rule/json_traversal.go:179-232) and the parsing
    and caching of KV field specifications (internal/rule/kv_context.go). */
module Paths {
  import opened Text
  import opened Template

  // ----------------------------------------------------- splitting at depth 0

  /** `s` cut at every dot outside braces, `d` being the depth it starts at. */
  function TopSplit(s: string, d: nat): (ts: seq<string>)
    ensures ts != []
  {
    if s == "" then [""]
    else if s[0] == '.' && d == 0 then [""] + TopSplit(s[1..], 0)
    else Prepend([s[0]], TopSplit(s[1..], Opened(s[0], d)))
  }

  function Prepend(head: string, ts: seq<string>): (us: seq<string>)
    requires ts != []
    ensures us != []
  {
    [head + ts[0]] + ts[1..]
  }

  /** What splitting must return: an empty path has no segments; any other path
      needs balanced braces and no empty segment. */
  function SplitPath(path: string): Option<seq<string>> {
    if path == "" then Some([])
    else if Balanced(path) && "" !in TopSplit(path, 0) then Some(TopSplit(path, 0))
    else None
  }

  lemma PrependPrepend(a: string, b: string, ts: seq<string>)
    requires ts != []
    ensures Prepend(a, Prepend(b, ts)) == Prepend(a + b, ts)
  {
    assert a + (b + ts[0]) == a + b + ts[0];
  }

  lemma {:induction false} TopSplitJoins(s: string, d: nat)
    ensures Join(TopSplit(s, d), '.') == s
    decreases |s|
  {
    if s == "" {
    } else if s[0] == '.' && d == 0 {
      var rest := TopSplit(s[1..], 0);
      TopSplitJoins(s[1..], 0);
      assert ([""] + rest)[1..] == rest;
      assert s == "" + ['.'] + s[1..];
    } else {
      var rest := TopSplit(s[1..], Opened(s[0], d));
      TopSplitJoins(s[1..], Opened(s[0], d));
      JoinPrepend([s[0]], rest);
      assert s == [s[0]] + s[1..];
    }
  }

  lemma JoinPrepend(head: string, ts: seq<string>)
    requires ts != []
    ensures Join(Prepend(head, ts), '.') == head + Join(ts, '.')
  {
    var us := Prepend(head, ts);
    assert us[1..] == ts[1..];
    if |ts| > 1 {
      assert head + ts[0] + ['.'] + Join(ts[1..], '.') == head + (ts[0] + ['.'] + Join(ts[1..], '.'));
    }
  }

  /** The loop's state: what has been split off, and what is still ahead. */
  ghost predicate Splitting(path: string, i: nat, segments: seq<string>, current: string, depth: nat) {
    i <= |path| && "" !in segments &&
    TopSplit(path, 0) == segments + Prepend(current, TopSplit(path[i..], depth)) &&
    Scan(path, 0) == Scan(path[i..], depth)
  }

  lemma SplitStep(path: string, i: nat, segments: seq<string>, current: string, depth: nat)
    requires i < |path| && Splitting(path, i, segments, current, depth)
    ensures path[i] == '.' && depth == 0 ==>
              if current == "" then "" in TopSplit(path, 0)
              else Splitting(path, i + 1, segments + [current], "", 0)
    ensures path[i] == '}' && depth == 0 ==> !Balanced(path)
    ensures (path[i] == '.' || path[i] == '}' ==> depth > 0) ==>
              Splitting(path, i + 1, segments, current + [path[i]], Opened(path[i], depth))
  {
    var t, c := path[i..], path[i];
    assert t[0] == c && t[1..] == path[i + 1..];
    var rest := TopSplit(t[1..], Opened(c, depth));
    if c == '.' && depth == 0 {
      assert Prepend(current, [""] + rest) == [current] + Prepend("", rest) by {
        assert current + "" == current && "" + rest[0] == rest[0];
        assert ([""] + rest)[1..] == rest == [rest[0]] + rest[1..];
      }
      assert segments + ([current] + Prepend("", rest)) == segments + [current] + Prepend("", rest);
      if current == "" {
        assert TopSplit(path, 0)[|segments|] == "";
      }
    } else {
      PrependPrepend(current, [c], rest);
    }
  }

  lemma SplitEnd(path: string, segments: seq<string>, current: string, depth: nat)
    requires Splitting(path, |path|, segments, current, depth)
    ensures TopSplit(path, 0) == segments + [current]
    ensures Balanced(path) <==> depth == 0
  {
    assert current + "" == current;
  }

  method SplitPathRespectingBraces(path: string) returns (r: Option<seq<string>>)
    ensures r == SplitPath(path)
  {
    if path == "" {
      return Some([]);
    }
    var segments: seq<string>, current: string, depth: nat := [], "", 0;
    assert path[0..] == path;
    assert Prepend("", TopSplit(path, 0)) == TopSplit(path, 0) by {
      assert "" + TopSplit(path, 0)[0] == TopSplit(path, 0)[0];
    }
    for i := 0 to |path|
      invariant Splitting(path, i, segments, current, depth)
    {
      SplitStep(path, i, segments, current, depth);
      if path[i] == '{' {
        depth, current := depth + 1, current + [path[i]];
      } else if path[i] == '}' {
        if depth == 0 {
          return None;
        }
        depth, current := depth - 1, current + [path[i]];
      } else if path[i] == '.' && depth == 0 {
        if current == "" {
          return None;
        }
        segments, current := segments + [current], "";
      } else {
        current := current + [path[i]];
      }
    }
    SplitEnd(path, segments, current, depth);
    if depth > 0 {
      return None;
    }
    if current != "" {
      segments := segments + [current];
    } else if |segments| > 0 {
      assert (segments + [current])[|segments|] == "";
      return None;
    } else {
      TopSplitJoins(path, 0);
    }
    return Some(segments);
  }

  // --------------------------------------------- what a successful split means

  /** A balanced segment with no dot outside its braces. */
  predicate Segment(t: string) { t != "" && Balanced(t) && TopSplit(t, 0) == [t] }

  ghost predicate Segments(ts: seq<string>) { forall t :: t in ts ==> Segment(t) }

  lemma PrependConcat(head: string, ts: seq<string>, us: seq<string>)
    requires ts != []
    ensures Prepend(head, ts + us) == Prepend(head, ts) + us
  {
    assert (ts + us)[1..] == ts[1..] + us;
  }

  /** One character further on. */
  lemma SplitTurn(c: char, s: string, d: nat)
    ensures TopSplit([c] + s, d) ==
            if c == '.' && d == 0 then [""] + TopSplit(s, 0) else Prepend([c], TopSplit(s, Opened(c, d)))
    ensures Scan([c] + s, d) == if c == '}' && d == 0 then None else Scan(s, Opened(c, d))
  {
    assert ([c] + s)[1..] == s;
  }

  lemma SplitAfterTurn(c: char, tail: string, d: nat, suffix: string, more: seq<string>)
    requires TopSplit(tail + suffix, Opened(c, d)) == TopSplit(tail, Opened(c, d)) + more
    ensures TopSplit([c] + (tail + suffix), d) == TopSplit([c] + tail, d) + more
  {
    SplitTurn(c, tail, d);
    SplitTurn(c, tail + suffix, d);
    if c != '.' || d != 0 {
      PrependConcat([c], TopSplit(tail, Opened(c, d)), more);
    }
  }

  /** Balanced text keeps its dots apart from what follows a top-level dot. */
  lemma {:induction false} SplitAfter(t: string, d: nat, rest: string)
    requires Scan(t, d) == Some(0)
    ensures TopSplit(t + (['.'] + rest), d) == TopSplit(t, d) + TopSplit(rest, 0)
    decreases |t|
  {
    var suffix := ['.'] + rest;
    if t == "" {
      SplitTurn('.', rest, 0);
      assert t + suffix == suffix;
    } else {
      SplitAfter(t[1..], Opened(t[0], d), rest);
      SplitAfterTurn(t[0], t[1..], d, suffix, TopSplit(rest, 0));
      assert t == [t[0]] + t[1..] && t + suffix == [t[0]] + (t[1..] + suffix);
    }
  }

  /** Segments joined by dots are balanced and split back into themselves. */
  lemma {:induction false} JoinedSplits(ts: seq<string>)
    requires ts != [] && Segments(ts)
    ensures Join(ts, '.') != "" && Balanced(Join(ts, '.')) && TopSplit(Join(ts, '.'), 0) == ts
    decreases |ts|
  {
    assert Segment(ts[0]);
    if |ts| > 1 {
      var rest := Join(ts[1..], '.');
      JoinedSplits(ts[1..]);
      SplitAfter(ts[0], 0, rest);
      ScanConcat(ts[0], ['.'] + rest, 0);
      SplitTurn('.', rest, 0);
      assert ts[0] + ['.'] + rest == ts[0] + (['.'] + rest);
    }
  }

  /** The first part of a balanced text: balanced from its depth, and whole. */
  lemma {:induction false} PartsAreSegments(s: string, d: nat)
    requires Scan(s, d) == Some(0)
    ensures var ts := TopSplit(s, d);
            Scan(ts[0], d) == Some(0) && TopSplit(ts[0], d) == [ts[0]] &&
            forall k :: 1 <= k < |ts| ==> Balanced(ts[k]) && TopSplit(ts[k], 0) == [ts[k]]
    decreases |s|
  {
    if s != "" {
      var d' := Opened(s[0], d);
      var rest := TopSplit(s[1..], d');
      PartsAreSegments(s[1..], d');
      var ts := TopSplit(s, d);
      if s[0] == '.' && d == 0 {
        forall k | 1 <= k < |ts| ensures Balanced(ts[k]) && TopSplit(ts[k], 0) == [ts[k]] {
          assert ts[k] == rest[k - 1];
        }
      } else {
        var first := [s[0]] + rest[0];
        assert first[0] == s[0] && first[1..] == rest[0];
        assert TopSplit(first, d) == Prepend([s[0]], [rest[0]]);
        forall k | 1 <= k < |ts| ensures Balanced(ts[k]) && TopSplit(ts[k], 0) == [ts[k]] {
          assert ts[k] == rest[k];
        }
      }
    }
  }

  /** Splitting succeeds exactly on dot-joined segments, and returns them. */
  lemma SplitPathMeaning(path: string, ts: seq<string>)
    ensures SplitPath(path) == Some(ts) <==> Segments(ts) && Join(ts, '.') == path
  {
    if Segments(ts) && Join(ts, '.') == path && ts != [] {
      JoinedSplits(ts);
      assert forall t :: t in ts ==> Segment(t);
    }
    if path != "" && SplitPath(path) == Some(ts) {
      PartsAreSegments(path, 0);
      TopSplitJoins(path, 0);
    }
  }

  // -------------------------------------------------------- KV field specs

  datatype KVField = KVField(bucket: string, key: string, path: seq<string>)

  const KV_PREFIX := "@kv."
  const MAX_PARSE_CACHE: nat := 1024

  /** The two sides of the first colon. */
  function Halves(s: string): (string, string) {
    var colon := IndexOf(s, ':');
    (s[..colon], if colon < |s| then s[colon + 1..] else "")
  }

  function ParseBucketKey(part: string): Option<(string, string)> {
    var dot := IndexOf(part, '.');
    if dot == |part| || dot == 0 || part[dot + 1..] == "" then None
    else Some((part[..dot], part[dot + 1..]))
  }

  /** parseKVFieldUncached */
  function ParseKVField(field: string): Option<KVField> {
    if |field| < 4 || field[..4] != KV_PREFIX then None
    else
      var (head, rest) := Halves(field[4..]);
      var names := ParseBucketKey(head);
      if ':' in rest || names.None? then None
      else
        var path := SplitPath(rest);
        if path.None? then None else Some(KVField(names.value.0, names.value.1, path.value))
  }

  ghost predicate ValidNames(bucket: string, key: string) {
    bucket != "" && key != "" && '.' !in bucket && ':' !in bucket && ':' !in key
  }

  /** How a field specification is written; the colon of an empty path is optional. */
  function Written(f: KVField, colon: bool): string {
    KV_PREFIX + (f.bucket + ['.'] + f.key) + (if colon then [':'] + Join(f.path, '.') else "")
  }

  lemma BucketKeyMeaning(part: string, bucket: string, key: string)
    ensures ParseBucketKey(part) == Some((bucket, key)) <==>
            bucket != "" && key != "" && '.' !in bucket && part == bucket + ['.'] + key
  {
    var dot := IndexOf(part, '.');
    if dot < |part| {
      assert part == part[..dot] + ['.'] + part[dot + 1..];
    }
    if '.' !in bucket && part == bucket + ['.'] + key {
      IndexOfAfter(bucket, '.', key);
      assert part[..dot] == bucket && part[dot + 1..] == key;
    }
  }

  /** The parser accepts exactly the written forms and returns what was written. */
  lemma ParseKVFieldMeaning(field: string, f: KVField)
    ensures ParseKVField(field) == Some(f) <==>
            ValidNames(f.bucket, f.key) && Segments(f.path) && ':' !in Join(f.path, '.') &&
            (field == Written(f, true) || (f.path == [] && field == Written(f, false)))
  {
    if ParseKVField(field) == Some(f) {
      ParsedIsWritten(field, f);
    }
    if ValidNames(f.bucket, f.key) && Segments(f.path) && ':' !in Join(f.path, '.') {
      if field == Written(f, true) { WrittenParses(f, true); }
      if f.path == [] && field == Written(f, false) { WrittenParses(f, false); }
    }
  }

  lemma HalvesJoin(s: string)
    ensures var (head, rest) := Halves(s);
            ':' !in head && (s == head + ([':'] + rest) || (rest == "" && s == head + ""))
  {
  }

  lemma ParsedIsWritten(field: string, f: KVField)
    requires ParseKVField(field) == Some(f)
    ensures ValidNames(f.bucket, f.key) && Segments(f.path) && ':' !in Join(f.path, '.')
    ensures field == Written(f, true) || (f.path == [] && field == Written(f, false))
  {
    var (head, rest) := Halves(field[4..]);
    HalvesJoin(field[4..]);
    assert field == KV_PREFIX + field[4..];
    PartsAreWritten(head, rest, f);
  }

  lemma PartsAreWritten(head: string, rest: string, f: KVField)
    requires ParseBucketKey(head) == Some((f.bucket, f.key)) && SplitPath(rest) == Some(f.path)
    requires ':' !in head && ':' !in rest
    ensures ValidNames(f.bucket, f.key) && Segments(f.path) && ':' !in Join(f.path, '.')
    ensures KV_PREFIX + (head + ([':'] + rest)) == Written(f, true)
    ensures rest == "" ==> f.path == [] && KV_PREFIX + (head + "") == Written(f, false)
  {
    BucketKeyMeaning(head, f.bucket, f.key);
    SplitPathMeaning(rest, f.path);
    NamesIn(head, f.bucket, f.key);
    assert KV_PREFIX + (head + ([':'] + rest)) == KV_PREFIX + head + ([':'] + rest);
    assert KV_PREFIX + (head + "") == KV_PREFIX + head + "";
  }

  lemma NamesIn(head: string, bucket: string, key: string)
    requires head == bucket + ['.'] + key && ':' !in head
    ensures ':' !in bucket && ':' !in key
  {
    assert forall c :: c in bucket || c in key ==> c in head;
  }

  lemma WrittenParses(f: KVField, colon: bool)
    requires ValidNames(f.bucket, f.key) && Segments(f.path) && ':' !in Join(f.path, '.')
    requires colon || f.path == []
    ensures ParseKVField(Written(f, colon)) == Some(f)
  {
    var head, rest := f.bucket + ['.'] + f.key, Join(f.path, '.');
    var tail := if colon then [':'] + rest else "";
    var field, remainder := Written(f, colon), head + tail;
    assert field == KV_PREFIX + remainder;
    assert field[..4] == KV_PREFIX && field[4..] == remainder;
    assert ':' !in head;
    BucketKeyMeaning(head, f.bucket, f.key);
    SplitPathMeaning(rest, f.path);
    if colon {
      IndexOfAfter(head, ':', rest);
      assert remainder == head + [':'] + rest;
      assert remainder[..|head|] == head && remainder[|head| + 1..] == rest;
    } else {
      IndexOfAbsent(head, ':');
      assert remainder == head && remainder[..|head|] == head;
    }
  }

  /** A specification as rules write it. */
  lemma KVFieldExample()
    ensures ParseKVField("@kv.b.k:a.0") == Some(KVField("b", "k", ["a", "0"]))
  {
    var f := KVField("b", "k", ["a", "0"]);
    assert Join(["a", "0"][1..], '.') == "0";
    assert Join(f.path, '.') == "a.0" && Written(f, true) == "@kv.b.k:a.0";
    OneCharacter("a");
    OneCharacter("0");
    WrittenParses(f, true);
  }

  lemma OneCharacter(t: string)
    requires |t| == 1 && t[0] != '.' && t[0] != '{' && t[0] != '}'
    ensures Segment(t)
  {
    assert t[1..] == "" && t == [t[0]] + "";
    SplitTurn(t[0], "", 0);
    assert Prepend([t[0]], [""]) == [t];
  }

  /** The bounded cache; its lock is released between the lookup and the store,
      so these are separate steps. */
  class KVContext {
    var parseCache: map<string, KVField>

    constructor ()
      ensures Valid() && parseCache == map[]
    {
      parseCache := map[];
    }

    /** Whatever is cached is what parsing would return. */
    ghost predicate Valid()
      reads this
    {
      |parseCache| <= MAX_PARSE_CACHE &&
      forall field :: field in parseCache ==> ParseKVField(field) == Some(parseCache[field])
    }

    method Store(field: string, parsed: KVField)
      requires Valid() && ParseKVField(field) == Some(parsed)
      modifies this
      ensures Valid()
      ensures parseCache ==
              if |old(parseCache)| < MAX_PARSE_CACHE then old(parseCache)[field := parsed] else old(parseCache)
    {
      if |parseCache| < MAX_PARSE_CACHE {
        parseCache := parseCache[field := parsed];
      }
    }

    method Parse(field: string) returns (r: Option<KVField>)
      requires Valid()
      modifies this
      ensures Valid() && r == ParseKVField(field) && |parseCache| <= 1024
      ensures forall f :: f in old(parseCache) ==> f in parseCache && parseCache[f] == old(parseCache[f])
      ensures parseCache.Keys <= old(parseCache.Keys) + {field}
    {
      if field in parseCache {
        return Some(parseCache[field]);
      }
      r := ParseKVField(field);
      if r.Some? {
        Store(field, r.value);
      }
    }
  }
}
