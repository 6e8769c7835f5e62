/** The visual cron builder (web/src/utils/cron.js:20-163). Numbers of the field
    state are JavaScript numbers: any finite value, or one that is not finite.
    Upper-casing is modelled for the characters it takes to ASCII letters, and
    `parseInt` by any conversion that is exact up to 2^53. */
module Cron {
  import opened Text
  import opened Decimals
  import opened Ascending

  // ------------------------------------------------------------------- state

  datatype FieldName = Minute | Hour | DayOfMonth | Month | DayOfWeek

  const NAMES := [Minute, Hour, DayOfMonth, Month, DayOfWeek]
  const MONTHS := ["JAN", "FEB", "MAR", "APR", "MAY", "JUN", "JUL", "AUG", "SEP", "OCT", "NOV", "DEC"]
  const DAYS := ["SUN", "MON", "TUE", "WED", "THU", "FRI", "SAT"]

  function Low(name: FieldName): nat { if name == DayOfMonth || name == Month then 1 else 0 }

  function High(name: FieldName): nat {
    match name
    case Minute => 59
    case Hour => 23
    case DayOfMonth => 31
    case Month => 12
    case DayOfWeek => 6
  }

  predicate InRange(v: int, name: FieldName) { Low(name) <= v <= High(name) }

  datatype Num = NotFinite | Finite(v: real)

  datatype Field = Field(mode: string, value: Num, step: Num, list: seq<Num>, rangeFrom: Num, rangeTo: Num)

  function Trunc(v: real): int { if v >= 0.0 then v.Floor else -((-v).Floor) }

  /** JavaScript's `n | 0`. */
  function ToInt32(n: Num): (i: int)
    ensures -0x8000_0000 <= i < 0x8000_0000
  {
    if n.NotFinite? then 0
    else
      var m := Trunc(n.v) % 0x1_0000_0000;
      if m >= 0x8000_0000 then m - 0x1_0000_0000 else m
  }

  function Clamp(n: Num, name: FieldName): (i: nat)
    ensures InRange(i, name)
  {
    var v := if n.Finite? then Trunc(n.v) else Low(name);
    if v < Low(name) then Low(name) else if v > High(name) then High(name) else v
  }

  lemma FieldRanges(v: int)
    ensures InRange(v, Minute) <==> 0 <= v <= 59
    ensures InRange(v, Hour) <==> 0 <= v <= 23
    ensures InRange(v, DayOfMonth) <==> 1 <= v <= 31
    ensures InRange(v, Month) <==> 1 <= v <= 12
    ensures InRange(v, DayOfWeek) <==> 0 <= v <= 6
  {
  }

  function Distance(a: int, b: int): nat { if a < b then b - a else a - b }

  /** Clamping drops the fraction and takes the nearest value of the field; what
      is not a number becomes the lowest. */
  lemma ClampIsNearest(n: Num, name: FieldName, u: int)
    requires InRange(u, name)
    ensures n.Finite? ==> Distance(Clamp(n, name), Trunc(n.v)) <= Distance(u, Trunc(n.v))
    ensures n.NotFinite? ==> Clamp(n, name) <= u
  {
  }

  lemma TruncDropsFraction(v: real)
    ensures v >= 0.0 ==> Trunc(v) as real <= v < Trunc(v) as real + 1.0
    ensures v < 0.0 ==> Trunc(v) as real - 1.0 < v <= Trunc(v) as real
  {
  }

  /** Cutting to 32 bits changes a number by a multiple of 2^32. */
  lemma CutIsModulo(n: Num)
    ensures n.Finite? ==> (Trunc(n.v) - ToInt32(n)) % 0x1_0000_0000 == 0
    ensures n.NotFinite? ==> ToInt32(n) == 0
  {
  }

  // ---------------------------------------------------------------- building

  /** What a field shows, once clamped, ordered and freed of duplicates. */
  datatype Shape = Every | Step(n: nat) | At(v: nat) | Range(a: nat, b: nat) | List(xs: seq<nat>)

  /** Sorting and deduplicating, value by value. */
  function Insert(x: nat, xs: seq<nat>): seq<nat> {
    if xs == [] || x < xs[0] then [x] + xs
    else if x == xs[0] then xs
    else [xs[0]] + Insert(x, xs[1..])
  }

  function SortUnique(ns: seq<Num>, name: FieldName): seq<nat> {
    if ns == [] then [] else Insert(Clamp(ns[0], name), SortUnique(ns[1..], name))
  }

  function ShapeOf(f: Field, name: FieldName): Shape {
    if f.mode == "everyN" then Step(if ToInt32(f.step) < 1 then 1 else ToInt32(f.step))
    else if f.mode == "at" then At(Clamp(f.value, name))
    else if f.mode == "range" then
      var a, b := Clamp(f.rangeFrom, name), Clamp(f.rangeTo, name);
      if a <= b then Range(a, b) else Range(b, a)
    else if f.mode == "list" then
      var xs := SortUnique(f.list, name);
      if xs == [] then Every else if |xs| == 1 then At(xs[0]) else List(xs)
    else Every
  }

  function Shown(xs: seq<nat>): seq<string> {
    seq(|xs|, i requires 0 <= i < |xs| => Decimal(xs[i]))
  }

  function Show(s: Shape): string {
    match s
    case Every => "*"
    case Step(n) => "*/" + Decimal(n)
    case At(v) => Decimal(v)
    case Range(a, b) => Decimal(a) + ['-'] + Decimal(b)
    case List(xs) => Join(Shown(xs), ',')
  }

  function FieldToString(f: Field, name: FieldName): string { Show(ShapeOf(f, name)) }

  // ----------------------------------------------------------------- parsing

  function UpperChar(c: char): char {
    if 'a' <= c <= 'z' then (c as int - 32) as char
    else if c == '\U{131}' then 'I' else if c == '\U{17F}' then 'S' else c
  }

  function Upper(s: string): string { seq(|s|, i requires 0 <= i < |s| => UpperChar(s[i])) }

  function Table(name: FieldName): seq<string> {
    if name == Month then MONTHS else if name == DayOfWeek then DAYS else []
  }

  function IndexIn(table: seq<string>, s: string): (r: Option<nat>)
    ensures r.Some? ==> r.value < |table| && table[r.value] == s
    ensures r.None? ==> s !in table
  {
    if table == [] then None
    else if table[0] == s then Some(0)
    else
      var r := IndexIn(table[1..], s);
      if r.Some? then Some(r.value + 1) else None
  }

  /** The number a month or weekday name stands for. */
  function NameValue(s: string, name: FieldName): Option<nat> {
    var i := IndexIn(Table(name), s);
    if i.None? then None else Some(i.value + Low(name))
  }

  function MapPiece(piece: string, name: FieldName): string {
    var slash := IndexOf(piece, '/');
    var v := NameValue(piece[..slash], name);
    (if v.Some? then Decimal(v.value) else piece[..slash]) + piece[slash..]
  }

  function MapPieces(pieces: seq<string>, name: FieldName): seq<string> {
    seq(|pieces|, i requires 0 <= i < |pieces| => MapPiece(pieces[i], name))
  }

  function MapToken(token: string, name: FieldName): string { Join(MapPieces(Split(token, '-'), name), '-') }

  function MapTokens(tokens: seq<string>, name: FieldName): seq<string> {
    seq(|tokens|, i requires 0 <= i < |tokens| => MapToken(tokens[i], name))
  }

  function NormalizeNames(raw: string, name: FieldName): string {
    if name != Month && name != DayOfWeek then Upper(raw)
    else Join(MapTokens(Split(Upper(raw), ','), name), ',')
  }

  function Base(name: FieldName): Field {
    var low := Finite(Low(name) as real);
    Field("every", low, Finite(5.0), [], low, low)
  }

  function Numbers(ds: seq<string>): seq<nat>
    requires forall d :: d in ds ==> AllDigits(d)
  {
    seq(|ds|, i requires 0 <= i < |ds| => assert ds[i] in ds && AllDigits(ds[i]); DigitsValue(ds[i]))
  }

  function Finites(xs: seq<nat>): seq<Num> {
    seq(|xs|, i requires 0 <= i < |xs| => Finite(xs[i] as real))
  }

  /** What `parseInt` makes of a decimal number. */
  type Conversion = nat -> Num

  /** Exact up to 2^53; above that some large number, or Infinity. */
  ghost predicate IsParseInt(num: Conversion) {
    forall n :: if n <= 0x20_0000_0000_0000 then num(n) == Finite(n as real)
                else num(n).Finite? ==> num(n).v >= 9007199254740992.0
  }

  /** Range checks do not notice the conversion, nor do the values they accept. */
  lemma RangeCheckAgrees(num: Conversion, v: nat, name: FieldName)
    requires IsParseInt(num)
    ensures InRange(v, name) <==> num(v).Finite? && Low(name) as real <= num(v).v <= High(name) as real
    ensures InRange(v, name) ==> num(v) == Finite(v as real)
  {
    assert v <= 0x20_0000_0000_0000 ==> num(v) == Finite(v as real);
  }

  predicate IsStep(s: string) { |s| > 2 && s[0] == '*' && s[1] == '/' && AllDigits(s[2..]) }

  predicate AllInRange(xs: seq<nat>, name: FieldName) { forall x :: x in xs ==> InRange(x, name) }

  predicate AreNumbers(ds: seq<string>) { forall d :: d in ds ==> AllDigits(d) }

  /** The five forms the builder knows, tried in order. */
  function Recognize(s: string): Option<Shape> {
    if s == "*" then Some(Every)
    else if IsStep(s) then Some(Step(DigitsValue(s[2..])))
    else if AllDigits(s) then Some(At(DigitsValue(s)))
    else if |Split(s, '-')| == 2 && AreNumbers(Split(s, '-')) then
      Some(Range(Numbers(Split(s, '-'))[0], Numbers(Split(s, '-'))[1]))
    else if |Split(s, ',')| >= 2 && AreNumbers(Split(s, ',')) then Some(List(Numbers(Split(s, ','))))
    else None
  }

  /** The checks that turn a recognised form down. */
  predicate Accepts(s: Shape, name: FieldName) {
    match s
    case Every => true
    case Step(n) => n >= 1
    case At(v) => InRange(v, name)
    case Range(a, b) => InRange(a, name) && InRange(b, name) && a <= b
    case List(xs) => xs != [] && AllInRange(xs, name)
  }

  /** The field a recognised form is stored as; accepted values are in range, so
      only a step can feel the conversion. */
  function FieldOf(s: Shape, name: FieldName, num: Conversion): Field {
    match s
    case Every => Base(name)
    case Step(n) => Base(name).(mode := "everyN", step := num(n))
    case At(v) => Base(name).(mode := "at", value := Finite(v as real))
    case Range(a, b) => Base(name).(mode := "range", rangeFrom := Finite(a as real), rangeTo := Finite(b as real))
    case List(xs) => Base(name).(mode := "list", list := Finites(xs))
  }

  function ParseField(raw: string, name: FieldName, num: Conversion): Option<Field> {
    var shape := Recognize(NormalizeNames(raw, name));
    if shape.Some? && Accepts(shape.value, name) then Some(FieldOf(shape.value, name, num)) else None
  }

  // ---------------------------------------------------- building round trips

  /** Shapes that can be shown. */
  ghost predicate Canonical(s: Shape, name: FieldName) {
    match s
    case Every => true
    case Step(n) => 1 <= n < 0x8000_0000
    case At(v) => InRange(v, name)
    case Range(a, b) => InRange(a, name) && InRange(b, name) && a <= b
    case List(xs) => |xs| >= 2 && Increasing(xs) && AllInRange(xs, name)
  }

  lemma {:induction false} InsertMembers(x: nat, xs: seq<nat>)
    requires Increasing(xs)
    ensures Increasing(Insert(x, xs)) && forall i :: i in Insert(x, xs) <==> i == x || i in xs
    decreases |xs|
  {
    if xs == [] {
    } else {
      var head, tail := xs[0], xs[1..];
      assert xs == [head] + tail;
      ConsIncreasing(head, tail);
      if x < head {
        ConsIncreasing(x, xs);
      } else if x > head {
        InsertMembers(x, tail);
        ConsIncreasing(head, Insert(x, tail));
      }
    }
  }

  lemma {:induction false} SortUniqueMembers(ns: seq<Num>, name: FieldName)
    ensures var xs := SortUnique(ns, name);
            Increasing(xs) && AllInRange(xs, name) &&
            forall x :: x in xs <==> exists n :: n in ns && Clamp(n, name) == x
    decreases |ns|
  {
    if ns != [] {
      SortUniqueMembers(ns[1..], name);
      InsertMembers(Clamp(ns[0], name), SortUnique(ns[1..], name));
      forall x ensures x in SortUnique(ns, name) <==> exists n :: n in ns && Clamp(n, name) == x {
        if x == Clamp(ns[0], name) {
          assert ns[0] in ns;
        } else if n :| n in ns && Clamp(n, name) == x {
          assert n in ns[1..];
        }
      }
    }
  }

  lemma ShapesAreCanonical(f: Field, name: FieldName)
    ensures Canonical(ShapeOf(f, name), name)
  {
    SortUniqueMembers(f.list, name);
    var xs := SortUnique(f.list, name);
    assert xs == [] || xs[0] in xs;
  }

  lemma ClampInRange(x: nat, name: FieldName)
    requires InRange(x, name)
    ensures Clamp(Finite(x as real), name) == x
  {
  }

  lemma ClampedMembers(xs: seq<nat>, name: FieldName, x: nat)
    requires AllInRange(xs, name)
    ensures (exists n :: n in Finites(xs) && Clamp(n, name) == x) <==> x in xs
  {
    var ns := Finites(xs);
    if x in xs {
      var i :| 0 <= i < |xs| && xs[i] == x;
      ClampInRange(x, name);
      assert ns[i] in ns;
    }
    if n :| n in ns && Clamp(n, name) == x {
      var i :| 0 <= i < |ns| && ns[i] == n;
      assert xs[i] in xs;
      ClampInRange(xs[i], name);
    }
  }

  lemma SortedStays(xs: seq<nat>, name: FieldName)
    requires Increasing(xs) && AllInRange(xs, name)
    ensures SortUnique(Finites(xs), name) == xs
  {
    SortUniqueMembers(Finites(xs), name);
    var ys := SortUnique(Finites(xs), name);
    forall x ensures x in ys <==> x in xs {
      if x >= 0 { ClampedMembers(xs, name, x); }
    }
    IncreasingUnique(ys, xs);
  }

  lemma FieldKeepsShape(s: Shape, name: FieldName, num: Conversion)
    requires Canonical(s, name) && IsParseInt(num)
    ensures ShapeOf(FieldOf(s, name, num), name) == s
  {
    if s.List? { SortedStays(s.xs, name); }
  }

  /** Characters of a shown field: no letters, so names do not matter. */
  predicate Plain(s: string) { forall c :: c in s ==> IsDigit(c) || c == '*' || c == '/' || c == '-' || c == ',' }

  /** Names start with a letter. */
  lemma NamesAreLetters(s: string, name: FieldName)
    requires s in Table(name)
    ensures s != "" && 'A' <= s[0] <= 'Z'
  {
    var i :| 0 <= i < |Table(name)| && Table(name)[i] == s;
    if name == Month {
      assert forall k :: 0 <= k < |MONTHS| ==> |MONTHS[k]| == 3 && 'A' <= MONTHS[k][0] <= 'Z';
    } else {
      assert forall k :: 0 <= k < |DAYS| ==> |DAYS[k]| == 3 && 'A' <= DAYS[k][0] <= 'Z';
    }
  }

  lemma PlainIsNoName(s: string, name: FieldName)
    requires Plain(s)
    ensures NameValue(s, name) == None
  {
    assert s == "" || s[0] in s;
    if s in Table(name) {
      NamesAreLetters(s, name);
    }
  }

  lemma PlainPiece(piece: string, name: FieldName)
    requires Plain(piece)
    ensures MapPiece(piece, name) == piece
  {
    var slash := IndexOf(piece, '/');
    var left := piece[..slash];
    assert piece == left + piece[slash..];
    assert forall c :: c in left ==> c in piece;
    PlainIsNoName(left, name);
  }

  lemma PlainParts(s: string, sep: char, t: string)
    requires Plain(s) && t in Split(s, sep)
    ensures Plain(t)
  {
    forall c | c in t ensures IsDigit(c) || c == '*' || c == '/' || c == '-' || c == ',' {
      if c == sep {
        SplitClean(s, sep);
      } else {
        SplitContains(s, sep, c);
      }
    }
  }

  lemma PlainToken(token: string, name: FieldName)
    requires Plain(token)
    ensures MapToken(token, name) == token
  {
    var pieces := Split(token, '-');
    forall i | 0 <= i < |pieces| ensures MapPiece(pieces[i], name) == pieces[i] {
      PlainParts(token, '-', pieces[i]);
      PlainPiece(pieces[i], name);
    }
    assert MapPieces(pieces, name) == pieces;
    SplitThenJoin(token, '-');
  }

  lemma PlainIsNormal(s: string, raw: string, name: FieldName)
    requires Plain(s) && Upper(raw) == s
    ensures NormalizeNames(raw, name) == s
  {
    var tokens := Split(s, ',');
    forall i | 0 <= i < |tokens| ensures MapToken(tokens[i], name) == tokens[i] {
      PlainParts(s, ',', tokens[i]);
      PlainToken(tokens[i], name);
    }
    assert MapTokens(tokens, name) == tokens;
    SplitThenJoin(s, ',');
  }

  lemma PlainIsUpper(s: string)
    requires Plain(s)
    ensures Upper(s) == s
  {
    forall i | 0 <= i < |s| ensures UpperChar(s[i]) == s[i] { assert s[i] in s; }
  }

  lemma DigitsArePlain(s: string)
    requires AllDigits(s)
    ensures Plain(s) && '-' !in s && ',' !in s && '*' !in s
  {
  }

  lemma {:induction false} JoinedPlain(ts: seq<string>)
    requires AreNumbers(ts) && ts != []
    ensures Plain(Join(ts, ',')) && '-' !in Join(ts, ',') && '*' !in Join(ts, ',')
    ensures |ts| >= 2 ==> ',' in Join(ts, ',')
    decreases |ts|
  {
    assert ts[0] in ts;
    DigitsArePlain(ts[0]);
    if |ts| > 1 {
      JoinedPlain(ts[1..]);
    }
  }

  lemma ShownNumbers(xs: seq<nat>)
    ensures AreNumbers(Shown(xs)) && Numbers(Shown(xs)) == xs
  {
    forall i | 0 <= i < |xs| ensures DigitsValue(Shown(xs)[i]) == xs[i] {
      DecimalValue(xs[i]);
    }
  }

  lemma ShownList(xs: seq<nat>)
    requires |xs| >= 2
    ensures var s := Show(List(xs));
            Plain(s) && '*' !in s && s != "" && !AllDigits(s) &&
            Split(s, '-') == [s] && Split(s, ',') == Shown(xs)
  {
    var s := Show(List(xs));
    ShownNumbers(xs);
    JoinedPlain(Shown(xs));
    JoinThenSplit(Shown(xs), ',');
    IndexOfAbsent(s, '-');
  }

  lemma ShownRange(a: nat, b: nat)
    ensures var s := Show(Range(a, b));
            Plain(s) && '*' !in s && s != "" && !AllDigits(s) && Split(s, '-') == Shown([a, b])
  {
    var s, ends := Show(Range(a, b)), Shown([a, b]);
    DigitsArePlain(Decimal(a));
    DigitsArePlain(Decimal(b));
    assert ends == [Decimal(a), Decimal(b)];
    assert Join(ends, '-') == s by { assert Join(ends[1..], '-') == Decimal(b); }
    JoinThenSplit(ends, '-');
    assert '-' in s;
  }

  lemma NoStarNoStep(s: string)
    requires s != "" && '*' !in s
    ensures s != "*" && !IsStep(s)
  {
    assert s[0] in s;
  }

  /** Steps of any size are recognised. */
  lemma ShownStep(n: nat)
    ensures Plain(Show(Step(n))) && Recognize(Show(Step(n))) == Some(Step(n))
  {
    DecimalValue(n);
    DigitsArePlain(Decimal(n));
    assert Show(Step(n))[2..] == Decimal(n);
  }

  /** Every shown form is recognised. */
  lemma ShownParses(s: Shape, name: FieldName)
    requires Canonical(s, name)
    ensures Plain(Show(s)) && Show(s) != "" && Recognize(Show(s)) == Some(s)
  {
    match s
    case Every =>
    case Step(n) => ShownStep(n);
    case At(v) =>
      DecimalValue(v);
      DigitsArePlain(Decimal(v));
      NoStarNoStep(Decimal(v));
    case Range(a, b) =>
      ShownRange(a, b);
      ShownNumbers([a, b]);
      NoStarNoStep(Show(s));
    case List(xs) =>
      ShownList(xs);
      ShownNumbers(xs);
      NoStarNoStep(Show(s));
  }

  /** Whatever the state of a field, what is built parses, and builds the same. */
  lemma BuiltFieldRoundTrips(f: Field, name: FieldName, num: Conversion)
    requires IsParseInt(num)
    ensures var built := FieldToString(f, name);
            ParseField(built, name, num).Some? && FieldToString(ParseField(built, name, num).value, name) == built
  {
    var s := ShapeOf(f, name);
    ShapesAreCanonical(f, name);
    ShownParses(s, name);
    PlainIsUpper(Show(s));
    PlainIsNormal(Show(s), Show(s), name);
    FieldKeepsShape(s, name, num);
  }

  // -------------------------------------------------------- whole expressions

  /** JavaScript's white space. */
  predicate IsSpace(c: char) {
    '\t' <= c <= '\r' || c == ' ' || c == '\U{A0}' || c == '\U{1680}' || '\U{2000}' <= c <= '\U{200A}' ||
    c == '\U{2028}' || c == '\U{2029}' || c == '\U{202F}' || c == '\U{205F}' || c == '\U{3000}' || c == '\U{FEFF}'
  }

  function WordEnd(s: string): (i: nat)
    ensures i <= |s| && (s != "" && !IsSpace(s[0]) ==> i > 0)
  {
    if s == "" || IsSpace(s[0]) then 0 else 1 + WordEnd(s[1..])
  }

  /** The maximal runs of other characters. */
  function Words(s: string): seq<string>
    decreases |s|
  {
    if s == "" then []
    else if IsSpace(s[0]) then Words(s[1..])
    else [s[..WordEnd(s)]] + Words(s[WordEnd(s)..])
  }

  predicate IsWord(t: string) { t != "" && forall c :: c in t ==> !IsSpace(c) }

  lemma {:induction false} WordEndAt(t: string, rest: string)
    requires (forall c :: c in t ==> !IsSpace(c)) && (rest == "" || IsSpace(rest[0]))
    ensures WordEnd(t + rest) == |t|
    decreases |t|
  {
    if t == "" {
      assert t + rest == rest;
    } else {
      assert t[0] in t && (t + rest)[1..] == t[1..] + rest;
      WordEndAt(t[1..], rest);
    }
  }

  lemma {:induction false} JoinedWords(ts: seq<string>)
    requires forall t :: t in ts ==> IsWord(t)
    ensures Words(Join(ts, ' ')) == ts
    decreases |ts|
  {
    if ts != [] {
      var t, tail := ts[0], Join(ts[1..], ' ');
      var rest := if |ts| == 1 then "" else [' '] + tail;
      var s := t + rest;
      assert Join(ts, ' ') == s;
      assert t in ts && IsWord(t) && t[0] in t && s[0] == t[0];
      WordEndAt(t, rest);
      assert s[..|t|] == t && s[|t|..] == rest;
      JoinedWords(ts[1..]);
      if |ts| > 1 { assert rest[1..] == tail; }
    }
  }

  /** The five fields, in the order of NAMES. */
  type State = seq<Field>

  function BuildCron(state: State): string
    requires |state| == 5
  {
    Join(BuiltFields(state), ' ')
  }

  /** Parsing needs five fields that all parse. */
  function ParsedCron(str: string, num: Conversion): Option<State> {
    var parts := Words(str);
    if |parts| == 5 && forall i :: 0 <= i < 5 ==> ParseField(parts[i], NAMES[i], num).Some?
    then Some(seq(5, i requires 0 <= i < 5 => ParseField(parts[i], NAMES[i], num).value))
    else None
  }

  method ParseCron(str: string, num: Conversion) returns (r: Option<State>)
    ensures r == ParsedCron(str, num)
  {
    var parts := Words(str);
    if |parts| != 5 {
      return None;
    }
    var state: State := seq(5, i requires 0 <= i < 5 => Base(NAMES[i]));
    for i := 0 to 5
      invariant |state| == 5
      invariant forall k :: 0 <= k < i ==> ParseField(parts[k], NAMES[k], num) == Some(state[k])
    {
      var field := ParseField(parts[i], NAMES[i], num);
      if field.None? {
        return None;
      }
      state := state[i := field.value];
    }
    assert state == ParsedCron(str, num).value;
    return Some(state);
  }

  lemma BuiltIsWord(f: Field, name: FieldName)
    ensures IsWord(FieldToString(f, name))
  {
    var s := ShapeOf(f, name);
    ShapesAreCanonical(f, name);
    ShownParses(s, name);
  }

  function BuiltFields(state: State): seq<string>
    requires |state| == 5
  {
    seq(5, i requires 0 <= i < 5 => FieldToString(state[i], NAMES[i]))
  }

  lemma BuiltWords(state: State)
    requires |state| == 5
    ensures Words(BuildCron(state)) == BuiltFields(state)
  {
    forall t | t in BuiltFields(state) ensures IsWord(t) {
      var i :| 0 <= i < 5 && BuiltFields(state)[i] == t;
      BuiltIsWord(state[i], NAMES[i]);
    }
    JoinedWords(BuiltFields(state));
  }

  /** The fields stand in cron's order. */
  lemma FieldOrder(minute: Field, hour: Field, dom: Field, month: Field, dow: Field)
    ensures BuildCron([minute, hour, dom, month, dow]) ==
            FieldToString(minute, Minute) + [' '] + (FieldToString(hour, Hour) + [' '] +
            (FieldToString(dom, DayOfMonth) + [' '] + (FieldToString(month, Month) + [' '] +
            FieldToString(dow, DayOfWeek))))
  {
    var fields := BuiltFields([minute, hour, dom, month, dow]);
    assert fields[1..][1..] == fields[2..] && fields[2..][1..] == fields[3..] && fields[3..][1..] == fields[4..];
    assert Join(fields[4..], ' ') == fields[4];
    assert Join(fields[3..], ' ') == fields[3] + [' '] + fields[4];
    assert Join(fields[2..], ' ') == fields[2] + [' '] + Join(fields[3..], ' ');
    assert Join(fields[1..], ' ') == fields[1] + [' '] + Join(fields[2..], ' ');
  }

  /** Whatever the state, the built expression parses, and builds the same. */
  lemma BuiltCronRoundTrips(state: State, num: Conversion)
    requires |state| == 5 && IsParseInt(num)
    ensures var again := ParsedCron(BuildCron(state), num);
            again.Some? && |again.value| == 5 && BuildCron(again.value) == BuildCron(state)
  {
    var fields := BuiltFields(state);
    BuiltWords(state);
    forall i | 0 <= i < 5 ensures ParseField(fields[i], NAMES[i], num).Some? &&
                                  FieldToString(ParseField(fields[i], NAMES[i], num).value, NAMES[i]) == fields[i] {
      BuiltFieldRoundTrips(state[i], NAMES[i], num);
    }
    assert BuiltFields(ParsedCron(BuildCron(state), num).value) == fields;
  }
}
