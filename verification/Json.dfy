/** JSON values, dotted-path reads (internal/rule/json_traversal.go) and the deep
    merge of action payloads (internal/rule/processor.go:1459-1474). Numbers are
    opaque: only their identity matters here. Go's float64 and json.Number both
    map to `JNum`. */
module Json {
  import opened Text
  import opened Decimals

  datatype Json =
    | JNull
    | JBool(b: bool)
    | JNum(n: real)
    | JStr(s: string)
    | JArr(items: seq<Json>)
    | JObj(fields: map<string, Json>)

  // ------------------------------------------------------------ path reads

  /** strconv.Atoi on a 64-bit platform. */
  function Atoi(s: string): Option<int> {
    var digits := if s != "" && (s[0] == '-' || s[0] == '+') then s[1..] else s;
    if !AllDigits(digits) then None
    else
      var v: int := if s[0] == '-' then 0 - DigitsValue(digits) as int else DigitsValue(digits);
      if -0x8000_0000_0000_0000 <= v < 0x8000_0000_0000_0000 then Some(v) else None
  }

  /** The element an index segment selects; negative indexes count from the end. */
  function ParseArrayIndex(segment: string, length: nat): Option<nat> {
    var parsed := Atoi(segment);
    if parsed.None? then None
    else
      var i := if parsed.value < 0 then length + parsed.value else parsed.value;
      if 0 <= i then Some(i) else None
  }

  function TraverseSegment(current: Json, segment: string): Option<Json> {
    if segment == "" then None
    else match current
      case JObj(fields) => if segment in fields then Some(fields[segment]) else None
      case JArr(items) =>
        var i := ParseArrayIndex(segment, |items|);
        if i.Some? && i.value < |items| then Some(items[i.value]) else None
      case _ => None
  }

  /** What `path` reads from `data`; None is an error. */
  function Read(data: Json, path: seq<string>): Option<Json>
    decreases |path|
  {
    if path == [] then Some(data)
    else
      var next := TraverseSegment(data, path[0]);
      if next.None? then None else Read(next.value, path[1..])
  }

  method TraversePath(data: Json, path: seq<string>) returns (r: Option<Json>)
    ensures r == Read(data, path)
  {
    var current := data;
    assert path[0..] == path;
    for i := 0 to |path|
      invariant Read(current, path[i..]) == Read(data, path)
    {
      assert path[i..][1..] == path[i + 1..];
      var next := TraverseSegment(current, path[i]);
      if next.None? {
        return None;
      }
      current := next.value;
    }
    return Some(current);
  }

  lemma {:induction false} ReadConcat(data: Json, p: seq<string>, q: seq<string>)
    ensures Read(data, p + q) ==
            if Read(data, p).Some? then Read(Read(data, p).value, q) else None
    decreases |p|
  {
    if p == [] {
      assert p + q == q;
    } else {
      var next := TraverseSegment(data, p[0]);
      assert (p + q)[1..] == p[1..] + q;
      if next.Some? { ReadConcat(next.value, p[1..], q); }
    }
  }

  lemma DecimalIsRead(n: nat)
    ensures Atoi(Decimal(n)) == if n < 0x8000_0000_0000_0000 then Some(n) else None
    ensures Atoi("-" + Decimal(n)) == if n <= 0x8000_0000_0000_0000 then Some(0 - n) else None
  {
    DecimalValue(n);
    var s := Decimal(n);
    assert s[0] in s;
    assert ("-" + s)[1..] == s;
  }

  /** Counting from the front starts at "0", from the back at "-1". */
  lemma IndexReads(items: seq<Json>, n: nat)
    requires n < 0x8000_0000_0000_0000
    ensures Read(JArr(items), [Decimal(n)]) == if n < |items| then Some(items[n]) else None
    ensures n > 0 ==>
              Read(JArr(items), ["-" + Decimal(n)]) == if n <= |items| then Some(items[|items| - n]) else None
  {
    DecimalIsRead(n);
  }

  lemma FirstAndLast(items: seq<Json>)
    requires items != []
    ensures Read(JArr(items), ["0"]) == Some(items[0])
    ensures Read(JArr(items), ["-1"]) == Some(items[|items| - 1])
  {
    assert Decimal(0) == "0" && Decimal(1) == "1";
    IndexReads(items, 0);
    IndexReads(items, 1);
    assert "-" + "1" == "-1";
  }

  /** What one segment reads: a key of an object, an element of an array if the
      segment is a number, and nothing from an empty segment or a scalar. */
  lemma SegmentReads(data: Json, k: string)
    ensures k == "" ==> Read(data, [k]) == None
    ensures k != "" && data.JObj? ==> Read(data, [k]) == Lookup(data.fields, k)
    ensures data.JArr? && !AllDigits(k) && (k == "" || (k[0] != '-' && k[0] != '+')) ==> Read(data, [k]) == None
    ensures !data.JObj? && !data.JArr? ==> Read(data, [k]) == None
  {
  }

  // ------------------------------------------------------------- deep merge

  /** deepMerge, on values: objects are merged key by key, anything else in the
      overlay replaces what was there. */
  function Merge(base: Json, overlay: Json): Json
    decreases overlay
  {
    if base.JObj? && overlay.JObj? then
      JObj(map k | k in base.fields.Keys + overlay.fields.Keys ::
             if k !in overlay.fields then base.fields[k]
             else if k !in base.fields then overlay.fields[k]
             else Merge(base.fields[k], overlay.fields[k]))
    else overlay
  }

  /** What a key of the overlay becomes, given what the base has there. */
  function Overlaid(have: Option<Json>, v: Json): Json {
    if have.Some? then Merge(have.value, v) else v
  }

  /** `result` is the merge but for the overlay's keys in `rest`. */
  ghost predicate MergedBut(result: map<string, Json>, b: map<string, Json>, o: map<string, Json>, rest: set<string>) {
    rest <= o.Keys && result.Keys == b.Keys + (o.Keys - rest) &&
    forall k :: k in result ==>
      result[k] == if k in o && k !in rest then Overlaid(Lookup(b, k), o[k]) else b[k]
  }

  lemma MergedAll(result: map<string, Json>, b: map<string, Json>, o: map<string, Json>)
    requires MergedBut(result, b, o, {})
    ensures JObj(result) == Merge(JObj(b), JObj(o))
  {
    assert result == Merge(JObj(b), JObj(o)).fields;
  }

  lemma MergedOne(result: map<string, Json>, b: map<string, Json>, o: map<string, Json>, rest: set<string>, k: string)
    requires MergedBut(result, b, o, rest) && k in rest
    ensures Lookup(result, k) == Lookup(b, k)
    ensures MergedBut(result[k := Overlaid(Lookup(b, k), o[k])], b, o, rest - {k})
  {
  }

  method OverlayValue(have: Option<Json>, v: Json) returns (r: Json)
    ensures r == Overlaid(have, v)
    decreases v, 1
  {
    if v.JObj? && have.Some? && have.value.JObj? {
      var merged := DeepMerge(have.value.fields, v.fields, v);
      r := JObj(merged);
    } else {
      r := v;
    }
  }

  method DeepMerge(base: map<string, Json>, overlay: map<string, Json>, ghost whole: Json)
    returns (result: map<string, Json>)
    requires whole == JObj(overlay)
    ensures JObj(result) == Merge(JObj(base), JObj(overlay))
    decreases whole, 0
  {
    result := base;
    var rest := overlay.Keys;
    while rest != {}
      invariant MergedBut(result, base, overlay, rest)
      decreases |rest|
    {
      var k :| k in rest;
      MergedOne(result, base, overlay, rest, k);
      var v := OverlayValue(Lookup(result, k), overlay[k]);
      result, rest := result[k := v], rest - {k};
    }
    MergedAll(result, base, overlay);
  }

  lemma {:induction false} MergeSelf(o: Json)
    ensures Merge(o, o) == o
    decreases o
  {
    if o.JObj? {
      forall k | k in o.fields ensures Merge(o.fields[k], o.fields[k]) == o.fields[k] {
        MergeSelf(o.fields[k]);
      }
      assert Merge(o, o).fields == o.fields;
    }
  }

  /** Applying an overlay twice is applying it once. */
  lemma {:induction false} OverlayIdempotent(b: Json, o: Json)
    ensures Merge(Merge(b, o), o) == Merge(b, o)
    decreases o
  {
    if b.JObj? && o.JObj? {
      var m := Merge(b, o);
      forall k | k in o.fields ensures Merge(m.fields[k], o.fields[k]) == m.fields[k] {
        if k in b.fields {
          OverlayIdempotent(b.fields[k], o.fields[k]);
        } else {
          MergeSelf(o.fields[k]);
        }
      }
      assert Merge(m, o).fields == m.fields;
    } else {
      MergeSelf(o);
    }
  }

  /** A path that reads a non-object from the overlay reads it from the result. */
  lemma {:induction false} OverlayWins(b: Json, o: Json, path: seq<string>)
    requires Read(o, path).Some? && !Read(o, path).value.JObj?
    ensures Read(Merge(b, o), path) == Read(o, path)
    decreases |path|
  {
    if path != [] && b.JObj? && o.JObj? && path[0] in b.fields {
      OverlayWins(b.fields[path[0]], o.fields[path[0]], path[1..]);
    }
  }

  /** Every proper prefix of `path`, and `path` itself, reads an object. */
  predicate ObjectsAlong(data: Json, path: seq<string>): (ok: bool)
    ensures ok ==> Read(data, path).Some? && Read(data, path).value.JObj?
    decreases |path|
  {
    data.JObj? &&
    (path == [] || (path[0] in data.fields && path[0] != "" && ObjectsAlong(data.fields[path[0]], path[1..])))
  }

  /** Where the overlay has no key, the result shows the base exactly when the
      base is made of objects down to that point, and nothing otherwise. */
  lemma {:induction false} BaseShowsThrough(b: Json, o: Json, p: seq<string>, k: string, q: seq<string>)
    requires ObjectsAlong(o, p) && k !in Read(o, p).value.fields
    ensures Read(Merge(b, o), p + [k] + q) ==
            if ObjectsAlong(b, p) then Read(b, p + [k] + q) else None
    decreases |p|
  {
    var path := p + [k] + q;
    if p == [] {
      assert path[0] == k && path[1..] == q;
    } else {
      var h := p[0];
      assert path[0] == h && path[1..] == p[1..] + [k] + q;
      if b.JObj? && h in b.fields {
        BaseShowsThrough(b.fields[h], o.fields[h], p[1..], k, q);
      } else {
        ReadConcat(o, p, [k] + q);
        assert path == p + ([k] + q) && ([k] + q)[0] == k;
        assert Read(o, path) == None;
        if b.JObj? {
          assert Merge(b, o).fields[h] == o.fields[h];
        }
      }
    }
  }

  /** Where both read objects through objects, the result reads their merge. */
  lemma {:induction false} SharedObjectsMerge(b: Json, o: Json, p: seq<string>)
    requires ObjectsAlong(b, p) && ObjectsAlong(o, p)
    ensures Read(Merge(b, o), p) == Some(Merge(Read(b, p).value, Read(o, p).value))
    decreases |p|
  {
    if p != [] {
      SharedObjectsMerge(b.fields[p[0]], o.fields[p[0]], p[1..]);
    }
  }

  // -------------------------------------------------------- associativity

  /** `a` adds nothing to the object `c`. */
  ghost predicate AddsNothing(a: Json, c: Json)
    decreases c
  {
    a.JObj? && c.JObj? ==>
      forall k :: k in a.fields ==> k in c.fields && AddsNothing(a.fields[k], c.fields[k])
  }

  lemma {:induction false} AddsNothingMeans(a: Json, c: Json)
    ensures Merge(a, c) == c <==> AddsNothing(a, c)
    decreases c
  {
    if a.JObj? && c.JObj? {
      var m := Merge(a, c).fields;
      forall k | k in a.fields && k in c.fields
        ensures m[k] == c.fields[k] <==> AddsNothing(a.fields[k], c.fields[k])
      {
        AddsNothingMeans(a.fields[k], c.fields[k]);
      }
      if AddsNothing(a, c) {
        assert m == c.fields;
      } else if m == c.fields {
        forall k | k in a.fields ensures k in c.fields && AddsNothing(a.fields[k], c.fields[k]) {
          assert k in m;
        }
      }
    }
  }

  /** Somewhere `b` has a non-object between objects `a` and `c`, and erases
      something of `a` that `c` does not bring back. */
  ghost predicate Erases(a: Json, b: Json, c: Json)
    decreases c
  {
    a.JObj? && c.JObj? &&
    if b.JObj? then
      exists k :: k in a.fields && k in b.fields && k in c.fields && Erases(a.fields[k], b.fields[k], c.fields[k])
    else !AddsNothing(a, c)
  }

  /** Merging is associative exactly when the middle overlay erases nothing. */
  lemma {:induction false} AssociativeIff(a: Json, b: Json, c: Json)
    ensures Merge(Merge(a, b), c) == Merge(a, Merge(b, c)) <==> !Erases(a, b, c)
    decreases c
  {
    if !b.JObj? {
      AddsNothingMeans(a, c);
    } else if a.JObj? && c.JObj? {
      var left, right := Merge(Merge(a, b), c).fields, Merge(a, Merge(b, c)).fields;
      assert left.Keys == right.Keys;
      forall k | k in left
        ensures left[k] == right[k] <==>
                !(k in a.fields && k in b.fields && k in c.fields && Erases(a.fields[k], b.fields[k], c.fields[k]))
      {
        if k in a.fields && k in b.fields && k in c.fields {
          AssociativeIff(a.fields[k], b.fields[k], c.fields[k]);
        }
      }
      if Erases(a, b, c) {
        assert left != right;
      } else {
        assert left == right;
      }
    }
  }

  /** A scalar in the middle erases an object that the last overlay revives. */
  lemma NotAssociativeExample()
    ensures
      var a, b, c := JObj(map["x" := JObj(map["p" := JNull])]), JObj(map["x" := JNull]), JObj(map["x" := JObj(map[])]);
      Erases(a, b, c) && Merge(Merge(a, b), c) != Merge(a, Merge(b, c))
  {
    var a, b, c := JObj(map["x" := JObj(map["p" := JNull])]), JObj(map["x" := JNull]), JObj(map["x" := JObj(map[])]);
    assert "p" in a.fields["x"].fields && "p" !in c.fields["x"].fields;
    assert Erases(a.fields["x"], b.fields["x"], c.fields["x"]);
    AssociativeIff(a, b, c);
  }
}
