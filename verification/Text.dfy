/** Optional values, and strings as the engine uses them: splitting on a
    separator character, joining back, and membership. */
module Text {

  datatype Option<+T> = None | Some(value: T)

  function Lookup<V>(m: map<string, V>, k: string): Option<V> {
    if k in m then Some(m[k]) else None
  }

  /** Position of the first `sep` in `s`, or `|s|` when there is none. */
  function IndexOf(s: string, sep: char): (i: nat)
    ensures i <= |s|
    ensures sep !in s[..i]
    ensures i < |s| ==> s[i] == sep
  {
    if s == "" || s[0] == sep then 0
    else
      var i := 1 + IndexOf(s[1..], sep);
      assert s[..i] == [s[0]] + s[1..][..i - 1];
      i
  }

  /** Go's `strings.Split` for a one-character separator. */
  function Split(s: string, sep: char): (ts: seq<string>)
    ensures |ts| >= 1
  {
    var i := IndexOf(s, sep);
    if i == |s| then [s] else [s[..i]] + Split(s[i + 1..], sep)
  }

  function Join(ts: seq<string>, sep: char): string {
    if ts == [] then ""
    else if |ts| == 1 then ts[0]
    else ts[0] + [sep] + Join(ts[1..], sep)
  }

  ghost predicate Clean(ts: seq<string>, sep: char) {
    forall t :: t in ts ==> sep !in t
  }

  /** Splitting loses nothing. */
  lemma {:induction false} SplitThenJoin(s: string, sep: char)
    ensures Join(Split(s, sep), sep) == s
    decreases |s|
  {
    var i := IndexOf(s, sep);
    if i < |s| {
      var rest := s[i + 1..];
      SplitThenJoin(rest, sep);
      var ts := Split(s, sep);
      assert ts[1..] == Split(rest, sep);
      assert Join(ts, sep) == s[..i] + [sep] + rest;
    }
  }

  /** Every token is free of the separator. */
  lemma {:induction false} SplitClean(s: string, sep: char)
    ensures Clean(Split(s, sep), sep)
    decreases |s|
  {
    var i := IndexOf(s, sep);
    if i == |s| {
      assert s[..i] == s;
    } else {
      SplitClean(s[i + 1..], sep);
      forall t | t in Split(s, sep) ensures sep !in t {
        assert t == s[..i] || t in Split(s[i + 1..], sep);
      }
    }
  }

  lemma IndexOfAfter(t: string, sep: char, rest: string)
    requires sep !in t
    ensures IndexOf(t + [sep] + rest, sep) == |t|
  {
    var u := t + [sep] + rest;
    var i := IndexOf(u, sep);
    assert forall k :: 0 <= k < |t| ==> u[k] == t[k];
    assert u[|t|] == sep;
    assert forall k :: 0 <= k < i ==> u[..i][k] == u[k];
  }

  lemma IndexOfAbsent(t: string, sep: char)
    requires sep !in t
    ensures IndexOf(t, sep) == |t|
  {
  }

  /** Token lists free of the separator are exactly what splitting returns. */
  lemma {:induction false} JoinThenSplit(ts: seq<string>, sep: char)
    requires ts != [] && Clean(ts, sep)
    ensures Split(Join(ts, sep), sep) == ts
    decreases |ts|
  {
    if |ts| == 1 {
      IndexOfAbsent(ts[0], sep);
    } else {
      var rest := Join(ts[1..], sep);
      IndexOfAfter(ts[0], sep, rest);
      JoinThenSplit(ts[1..], sep);
      var s := ts[0] + [sep] + rest;
      assert s[..|ts[0]|] == ts[0] && s[|ts[0]| + 1..] == rest;
    }
  }

  /** A string contains a non-separator character iff one of its tokens does. */
  lemma {:induction false} SplitContains(s: string, sep: char, c: char)
    requires c != sep
    ensures c in s <==> exists t :: t in Split(s, sep) && c in t
    decreases |s|
  {
    var i := IndexOf(s, sep);
    if i == |s| {
      assert s in Split(s, sep);
    } else {
      var rest := s[i + 1..];
      SplitContains(rest, sep, c);
      assert s == s[..i] + [sep] + rest;
      assert Split(s, sep) == [s[..i]] + Split(rest, sep);
      assert s[..i] in Split(s, sep);
      if c in rest {
        var t :| t in Split(rest, sep) && c in t;
        assert t in Split(s, sep);
      }
    }
  }
}
